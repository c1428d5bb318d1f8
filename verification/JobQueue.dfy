/** The transactional job queue. */
module JobQueue {
  import opened AnnotationStore
  import opened Collections
  import opened Sorting

  type Rank = (nat, Time)

  /** `ORDER BY priority, enqueued_at` */
  function RankOf<A>(job: Job<A>): Rank {
    (job.priority, job.enqueuedAt)
  }

  predicate RankLe(a: Rank, b: Rank) {
    a.0 < b.0 || (a.0 == b.0 && a.1 <= b.1)
  }

  predicate Visible<A>(job: Job, now: Time) {
    job.expiresAt >= now && job.scheduledAt < now
  }

  function VisibleRows<A(==)>(rows: set<Job<A>>, now: Time): set<Job<A>> {
    set job | job in rows && Visible(job, now)
  }

  predicate NoDuplicates<A(==)>(jobs: seq<Job<A>>) {
    forall i, j :: 0 <= i < j < |jobs| ==> jobs[i] != jobs[j]
  }

  predicate Ordered<A>(jobs: seq<Job<A>>) {
    forall i, j :: 0 <= i < j < |jobs| ==> RankLe(RankOf(jobs[i]), RankOf(jobs[j]))
  }

  /** What the selection query may return: the order of rows of equal rank is unspecified. */
  predicate IsSelection<A(==)>(rows: set<Job<A>>, now: Time, limit: nat, jobs: seq<Job<A>>) {
    && Elements(jobs) <= VisibleRows(rows, now)
    && NoDuplicates(jobs)
    && |jobs| == (if limit < |VisibleRows(rows, now)| then limit else |VisibleRows(rows, now)|)
    && Ordered(jobs)
    && (forall job, i :: job in VisibleRows(rows, now) - Elements(jobs) && 0 <= i < |jobs| ==>
        RankLe(RankOf(jobs[i]), RankOf(job)))
  }

  lemma {:induction false} DistinctCount<A>(jobs: seq<Job<A>>)
    requires NoDuplicates(jobs)
    ensures |Elements(jobs)| == |jobs|
  {
    if jobs != [] {
      var rest := jobs[1..];
      DistinctCount(rest);
      assert Elements(jobs) == {jobs[0]} + Elements(rest);
    }
  }

  ghost function Listing<A>(rows: set<Job<A>>): (keyed: seq<(Rank, Job<A>)>)
    ensures multiset(keyed) == multiset(set job | job in rows :: (RankOf(job), job))
  {
    if rows == {} then
      assert (set job | job in rows :: (RankOf(job), job)) == {};
      []
    else
      var job :| job in rows;
      assert (set j | j in rows :: (RankOf(j), j)) == (set j | j in rows - {job} :: (RankOf(j), j)) + {(RankOf(job), job)};
      [(RankOf(job), job)] + Listing(rows - {job})
  }

  /** A listing of distinct jobs, each filed under its rank. */
  ghost predicate Lists<A>(keyed: seq<(Rank, Job<A>)>, visible: set<Job<A>>) {
    && (forall i :: 0 <= i < |keyed| ==> keyed[i].0 == RankOf(keyed[i].1) && keyed[i].1 in visible)
    && (forall i, j :: 0 <= i < j < |keyed| ==> keyed[i].1 != keyed[j].1)
    && (forall job :: job in visible ==> exists i :: 0 <= i < |keyed| && keyed[i].1 == job)
  }

  lemma OrderedListing<A>(visible: set<Job<A>>) returns (all: seq<Job<A>>)
    ensures Elements(all) == visible && NoDuplicates(all) && Ordered(all)
  {
    var keyed := Sort(Listing(visible), RankLe);
    SortSorts(Listing(visible), RankLe);
    KeyedListing(visible, keyed);
    hide Sort, Listing, Lists, Sorted, RankLe;
    all := DropRanks(visible, keyed);
  }

  lemma DropRanks<A>(visible: set<Job<A>>, keyed: seq<(Rank, Job<A>)>) returns (all: seq<Job<A>>)
    requires Lists(keyed, visible) && Sorted(keyed, RankLe)
    ensures Elements(all) == visible && NoDuplicates(all) && Ordered(all)
  {
    hide RankLe;
    all := seq(|keyed|, i requires 0 <= i < |keyed| => keyed[i].1);
    forall job | job in visible
      ensures job in all
    {
      var i :| 0 <= i < |keyed| && keyed[i].1 == job;
      assert all[i] == job;
    }
  }

  lemma KeyedListing<A>(visible: set<Job<A>>, keyed: seq<(Rank, Job<A>)>)
    requires multiset(keyed) == multiset(set job | job in visible :: (RankOf(job), job))
    ensures Lists(keyed, visible)
  {
    var table := set job | job in visible :: (RankOf(job), job);
    KeyedDistinct(keyed, table);
    forall i | 0 <= i < |keyed|
      ensures keyed[i] in table
    {
      assert keyed[i] in multiset(keyed);
    }
    forall job | job in visible
      ensures exists i :: 0 <= i < |keyed| && keyed[i].1 == job
    {
      assert (RankOf(job), job) in multiset(keyed);
      var i :| 0 <= i < |keyed| && keyed[i] == (RankOf(job), job);
    }
  }

  lemma PrefixIsSelection<A>(rows: set<Job<A>>, now: Time, limit: nat, all: seq<Job<A>>)
    requires Elements(all) == VisibleRows(rows, now) && NoDuplicates(all) && Ordered(all)
    ensures IsSelection(rows, now, limit, all[..if limit < |all| then limit else |all|])
  {
    DistinctCount(all);
    var taken := if limit < |all| then limit else |all|;
    var jobs := all[..taken];
    assert forall j :: 0 <= j < taken ==> jobs[j] == all[j] && all[j] in Elements(jobs);
    forall job, i | job in VisibleRows(rows, now) - Elements(jobs) && 0 <= i < |jobs|
      ensures RankLe(RankOf(jobs[i]), RankOf(job))
    {
      var j :| 0 <= j < |all| && all[j] == job;
      assert j >= taken;
    }
  }

  /** The query always has an answer: sort the visible rows and take the first `limit`. */
  lemma SelectionExists<A>(rows: set<Job<A>>, now: Time, limit: nat)
    ensures exists jobs :: IsSelection(rows, now, limit, jobs)
  {
    var all := OrderedListing(VisibleRows(rows, now));
    PrefixIsSelection(rows, now, limit, all);
  }

  lemma KeyedDistinct<A>(keyed: seq<(Rank, Job<A>)>, table: set<(Rank, Job<A>)>)
    requires multiset(keyed) == multiset(table)
    ensures forall i, j :: 0 <= i < j < |keyed| ==> keyed[i] != keyed[j]
  {
    forall i, j | 0 <= i < j < |keyed|
      ensures keyed[i] != keyed[j]
    {
      var rest := keyed[i + 1..];
      assert keyed == keyed[..i] + [keyed[i]] + rest;
      assert multiset(keyed)[keyed[i]] <= 1;
      assert multiset(rest)[keyed[i]] == 0;
      assert keyed[j] == rest[j - i - 1] && keyed[j] in multiset(rest);
    }
  }

  class JobQueueService<A(==)> {
    var now: Time
    var rows: set<Job<A>>

    constructor (now: Time, rows: set<Job<A>>)
      ensures this.now == now && this.rows == rows
    {
      this.now := now;
      this.rows := rows;
    }

    method Get(limit: nat) returns (jobs: seq<Job<A>>)
      ensures IsSelection(rows, now, limit, jobs)
    {
      SelectionExists(rows, now, limit);
      jobs :| IsSelection(rows, now, limit, jobs);
    }

    method Delete(jobs: set<Job<A>>)
      modifies this`rows
      ensures rows == old(rows) - jobs
    {
      var remaining := jobs;
      while remaining != {}
        invariant remaining <= jobs
        invariant rows == old(rows) - (jobs - remaining)
        decreases remaining
      {
        var job :| job in remaining;
        rows := rows - {job};
        remaining := remaining - {job};
      }
    }

    /** One statement inserts all the new rows. */
    method Add(jobs: set<Job<A>>)
      modifies this`rows
      ensures rows == old(rows) + jobs
    {
      rows := rows + jobs;
    }
  }
}
