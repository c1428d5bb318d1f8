/** Whole runs of the purge task, and the bound on how many are needed. */
module PurgeRuns {
  import opened Options
  import opened AnnotationStore
  import opened Collections
  import opened Tables
  import opened SlimMirror
  import opened PurgeLog

  type PurgeJob = Job<PurgeArgs>

  /** A run fetched `fetched`, executed the statements of `log` and completed `completed`. */
  datatype RunRecord = RunRecord(fetched: set<PurgeJob>, log: seq<Event>, completed: set<PurgeJob>)

  /** Nothing that the nine steps look for is left. */
  predicate Purged(db: Db, t: Target) {
    ExhaustedBefore(db, t, 9)
  }

  /** Whoever lost the user row lost everything else as well. */
  ghost predicate NoRemains(db: Db, db': Db) {
    forall pk :: pk in db.users && pk !in db'.users ==> Purged(db', Target(pk, db.users[pk].userid))
  }

  predicate UserRowsOnlyVanish(db: Db, db': Db) {
    forall pk :: pk in db'.users ==> pk in db.users && db'.users[pk] == db.users[pk]
  }

  predicate NoUser(db: Db, userid: UserId) {
    forall pk :: pk in db.users ==> db.users[pk].userid != userid
  }

  predicate Named(jobs: set<PurgeJob>, userid: UserId) {
    exists job :: job in jobs && job.args.userid == Some(userid)
  }

  /** The users that some job names. */
  function Targets(db: Db, jobs: set<PurgeJob>): set<Target> {
    set pk | pk in db.users && Named(jobs, db.users[pk].userid) :: Target(pk, db.users[pk].userid)
  }

  ghost predicate ValidRun(db: Db, queue: set<PurgeJob>, limit: nat, r: RunRecord) {
    var db' := Replay(db, r.log);
    && r.fetched <= queue && |r.fetched| == Min(limit, |queue|)
    && r.completed <= r.fetched
    && Respects(db, limit, r.log) && Victims(r.log, Targets(db, r.fetched))
    && UserRowsOnlyVanish(db, db')
    && NoRemains(db, db')
    && (forall job :: job in r.completed && job.args.userid.Some? ==> NoUser(db', job.args.userid.value))
    && (r.completed == r.fetched || Charged(r.log) == limit)
  }

  ghost predicate ValidRuns(db: Db, queue: set<PurgeJob>, limit: nat, runs: seq<RunRecord>)
    decreases |runs|
  {
    runs == [] ||
    (&& queue != {}
     && ValidRun(db, queue, limit, runs[0])
     && ValidRuns(Replay(db, runs[0].log), queue - runs[0].completed, limit, runs[1..]))
  }

  function AfterRuns(db: Db, runs: seq<RunRecord>): Db
    decreases |runs|
  {
    if runs == [] then db else AfterRuns(Replay(db, runs[0].log), runs[1..])
  }

  function QueueAfter(queue: set<PurgeJob>, runs: seq<RunRecord>): set<PurgeJob>
    decreases |runs|
  {
    if runs == [] then queue else QueueAfter(queue - runs[0].completed, runs[1..])
  }

  // ----- The bound -----

  /** floor(n / d): how often `d` can be taken from `n`. */
  function Full(n: nat, d: nat): nat
    requires d >= 1
  {
    if n < d then 0 else 1 + Full(n - d, d)
  }

  /** ceil(n / d): how many batches of at most `d` cover `n`. */
  function Batches(n: nat, d: nat): nat
    requires d >= 1
  {
    if n == 0 then 0 else if n <= d then 1 else 1 + Batches(n - d, d)
  }

  lemma {:induction false} FullIsMonotone(a: nat, b: nat, d: nat)
    requires d >= 1 && a <= b
    ensures Full(a, d) <= Full(b, d)
    decreases b
  {
    if a >= d {
      FullIsMonotone(a - d, b - d, d);
    }
  }

  lemma {:induction false} BatchesIsMonotone(a: nat, b: nat, d: nat)
    requires d >= 1 && a <= b
    ensures Batches(a, d) <= Batches(b, d)
    decreases b
  {
    if b > d {
      BatchesIsMonotone(if a > d then a - d else 0, b - d, d);
    }
  }

  lemma SmallerQueue(queue: set<PurgeJob>, done: set<PurgeJob>)
    requires done <= queue
    ensures |queue - done| == |queue| - |done|
  {
    assert queue == done + (queue - done);
  }

  lemma FewerTargets(db: Db, db': Db, jobs: set<PurgeJob>, jobs': set<PurgeJob>)
    requires UserRowsOnlyVanish(db, db') && jobs' <= jobs
    ensures Targets(db', jobs') <= Targets(db, jobs)
  {
    forall t | t in Targets(db', jobs')
      ensures t in Targets(db, jobs)
    {
      var job :| job in jobs' && job.args.userid == Some(t.userid);
      assert Named(jobs, db.users[t.pk].userid) && t == Target(t.pk, db.users[t.pk].userid);
    }
  }

  lemma SameUsers(db: Db)
    ensures UserRowsOnlyVanish(db, db)
  {
  }

  /** What the users named by queued jobs still own. */
  function RowsLeft(db: Db, queue: set<PurgeJob>): nat {
    Size(db, Targets(db, queue))
  }

  function Remaining(db: Db, queue: set<PurgeJob>, limit: nat): nat
    requires limit >= 1
  {
    Full(RowsLeft(db, queue), limit) + Batches(|queue|, limit)
  }

  lemma MoreVictims(log: seq<Event>, some: set<Target>, more: set<Target>)
    requires Victims(log, some) && some <= more
    ensures Victims(log, more)
  {
  }

  /** A run lowers what the named users own by what it charges. */
  lemma RunShrinks(db: Db, queue: set<PurgeJob>, limit: nat, r: RunRecord)
    requires ValidRun(db, queue, limit, r)
    ensures RowsLeft(Replay(db, r.log), queue - r.completed) + Charged(r.log) <= RowsLeft(db, queue)
  {
    hide Size, Targets, Respects, Replay, NoRemains, UserRowsOnlyVanish, NoUser, Victims;
    var db', queue' := Replay(db, r.log), queue - r.completed;
    BudgetIsNeverExceeded(db, limit, r.log);
    SameUsers(db);
    FewerTargets(db, db, queue, r.fetched);
    FewerTargets(db, db', queue, queue');
    MoreVictims(r.log, Targets(db, r.fetched), Targets(db, queue));
    LogShrinks(db, r.log, Targets(db, queue));
    MoreTargetsOwnMore(db', Targets(db', queue'), Targets(db, queue));
  }

  /** Completed jobs are fetched ones, and only a spent budget leaves some of them undone. */
  lemma RunCompletes(db: Db, queue: set<PurgeJob>, limit: nat, r: RunRecord)
    requires ValidRun(db, queue, limit, r)
    ensures r.completed <= queue && |queue - r.completed| == |queue| - |r.completed|
    ensures if r.completed == r.fetched then |r.completed| == Min(limit, |queue|) else Charged(r.log) == limit
  {
    hide Charged, Respects, Replay, NoRemains, UserRowsOnlyVanish, NoUser, Targets, Victims;
    SmallerQueue(queue, r.completed);
  }

  lemma RemainingIs(db: Db, queue: set<PurgeJob>, limit: nat)
    requires limit >= 1
    ensures Remaining(db, queue, limit) == Full(RowsLeft(db, queue), limit) + Batches(|queue|, limit)
  {
    hide RowsLeft, Full, Batches;
  }

  /** Each run either spends its whole budget on rows or finishes everything it fetched. */
  lemma RunMakesProgress(db: Db, queue: set<PurgeJob>, limit: nat, r: RunRecord)
    requires limit >= 1 && queue != {} && ValidRun(db, queue, limit, r)
    ensures var db', queue' := Replay(db, r.log), queue - r.completed;
            && RowsLeft(db', queue') + |queue'| < RowsLeft(db, queue) + |queue|
            && Remaining(db', queue', limit) + 1 <= Remaining(db, queue, limit)
  {
    hide *;
    var db', queue' := Replay(db, r.log), queue - r.completed;
    assert |queue| >= 1;
    RunShrinks(db, queue, limit, r);
    RunCompletes(db, queue, limit, r);
    RemainingIs(db, queue, limit);
    RemainingIs(db', queue', limit);
    ProgressArithmetic(RowsLeft(db, queue), RowsLeft(db', queue'), Charged(r.log), |queue|, |r.completed|, limit,
      r.completed == r.fetched);
  }

  lemma ProgressArithmetic(rows: nat, rows': nat, charged: nat, jobs: nat, completed: nat, limit: nat, all: bool)
    requires limit >= 1 && jobs >= 1 && completed <= jobs && rows' + charged <= rows
    requires if all then completed == Min(limit, jobs) else charged == limit
    ensures rows' + (jobs - completed) < rows + jobs
    ensures Full(rows', limit) + Batches(jobs - completed, limit) + 1 <= Full(rows, limit) + Batches(jobs, limit)
  {
    if all {
      FullIsMonotone(rows', rows, limit);
    } else {
      FullIsMonotone(rows', rows - limit, limit);
      BatchesIsMonotone(jobs - completed, jobs, limit);
    }
  }

  /** Runs on a non-empty queue: at most floor(rows / limit) + ceil(jobs / limit) of them,
      where only rows of the users that queued jobs name are counted. */
  lemma {:induction false} RunsAreBounded(db: Db, queue: set<PurgeJob>, limit: nat, runs: seq<RunRecord>)
    requires limit >= 1 && ValidRuns(db, queue, limit, runs)
    ensures |runs| <= Remaining(db, queue, limit)
    decreases |runs|
  {
    if runs != [] {
      hide ValidRun, Remaining;
      RunMakesProgress(db, queue, limit, runs[0]);
      RunsAreBounded(Replay(db, runs[0].log), queue - runs[0].completed, limit, runs[1..]);
    }
  }

  // ----- Completeness over all runs -----

  lemma {:induction false} PurgedPersists(db: Db, log: seq<Event>, t: Target)
    requires Purged(db, t)
    ensures Purged(Replay(db, log), t)
    decreases |log|
  {
    if log != [] {
      hide ExhaustedBefore, Apply;
      EventKeepsExhausted(db, log[0], t, 9);
      PurgedPersists(Apply(db, log[0]), log[1..], t);
    }
  }

  lemma RemainsCompose(a: Db, b: Db, c: Db, log: seq<Event>)
    requires NoRemains(a, b) && NoRemains(b, c) && c == Replay(b, log)
    requires UserRowsOnlyVanish(a, b) && UserRowsOnlyVanish(b, c)
    ensures NoRemains(a, c) && UserRowsOnlyVanish(a, c)
  {
    hide Purged;
    forall pk | pk in a.users && pk !in c.users
      ensures Purged(c, Target(pk, a.users[pk].userid))
    {
      if pk !in b.users {
        PurgedPersists(b, log, Target(pk, a.users[pk].userid));
      }
    }
  }

  function FullLog(runs: seq<RunRecord>): seq<Event> {
    if runs == [] then [] else runs[0].log + FullLog(runs[1..])
  }

  lemma OneLog(first: seq<Event>, rest: seq<Event>, early: set<Target>, late: set<Target>, targets: set<Target>)
    requires Victims(first, early) && Victims(rest, late) && early <= targets && late <= targets
    ensures Victims(first + rest, targets)
  {
  }

  /** All runs together replay one possible log, against users named by queued jobs only. */
  lemma {:induction false} RunsReplayOneLog(db: Db, queue: set<PurgeJob>, limit: nat, runs: seq<RunRecord>)
    requires ValidRuns(db, queue, limit, runs)
    ensures PossibleLog(db, FullLog(runs)) && AfterRuns(db, runs) == Replay(db, FullLog(runs))
    ensures Victims(FullLog(runs), Targets(db, queue))
    decreases |runs|
  {
    if runs != [] {
      hide NoRemains, Respects, Victims, UserRowsOnlyVanish, Targets;
      var r := runs[0];
      var db', queue' := Replay(db, r.log), queue - r.completed;
      BudgetIsNeverExceeded(db, limit, r.log);
      RunsReplayOneLog(db', queue', limit, runs[1..]);
      ReplaySplits(db, r.log, FullLog(runs[1..]));
      SameUsers(db);
      FewerTargets(db, db, queue, r.fetched);
      FewerTargets(db, db', queue, queue');
      OneLog(r.log, FullLog(runs[1..]), Targets(db, r.fetched), Targets(db', queue'), Targets(db, queue));
    } else {
      assert Victims([], Targets(db, queue));
    }
  }

  /** Over any number of runs, users that no job names keep their annotations, the groups
      holding them, and their memberships of surviving groups. */
  lemma RunsSpareOtherUsers(db: Db, queue: set<PurgeJob>, limit: nat, runs: seq<RunRecord>)
    requires Inv(db) && ValidRuns(db, queue, limit, runs)
    ensures var db' := AfterRuns(db, runs);
            && AnnotationFrame(db, db', Targets(db, queue)) && GroupFrame(db, db', Targets(db, queue))
            && DeletionsAreQueued(db, db') && Inv(db')
  {
    RunsReplayOneLog(db, queue, limit, runs);
    PurgeFrame(db, FullLog(runs), Targets(db, queue));
    LogKeepsInv(db, FullLog(runs));
  }

  lemma {:induction false} RunsLeaveNothing(db: Db, queue: set<PurgeJob>, limit: nat, runs: seq<RunRecord>)
    requires ValidRuns(db, queue, limit, runs)
    ensures NoRemains(db, AfterRuns(db, runs)) && UserRowsOnlyVanish(db, AfterRuns(db, runs))
    ensures forall job :: job in queue - QueueAfter(queue, runs) && job.args.userid.Some? ==>
        NoUser(AfterRuns(db, runs), job.args.userid.value)
    decreases |runs|
  {
    if runs == [] {
      assert Replay(db, []) == db;
    } else {
      var mid, rest := Replay(db, runs[0].log), queue - runs[0].completed;
      RunsLeaveNothing(mid, rest, limit, runs[1..]);
      RunsReplayOneLog(mid, rest, limit, runs[1..]);
      RemainsCompose(db, mid, AfterRuns(db, runs), FullLog(runs[1..]));
    }
  }

  lemma {:induction false} QueueEndsEmpty(db: Db, queue: set<PurgeJob>, limit: nat, runs: seq<RunRecord>)
    requires limit >= 1 && ValidRuns(db, queue, limit, runs) && |runs| == Remaining(db, queue, limit)
    ensures QueueAfter(queue, runs) == {}
    decreases |runs|
  {
    if runs == [] {
      assert Batches(|queue|, limit) == 0;
    } else {
      hide ValidRun, Remaining;
      var db', queue' := Replay(db, runs[0].log), queue - runs[0].completed;
      RunMakesProgress(db, queue, limit, runs[0]);
      RunsAreBounded(db', queue', limit, runs[1..]);
      QueueEndsEmpty(db', queue', limit, runs[1..]);
    }
  }

  /** Enough runs finish every queued user: the queue is empty, the user rows are gone and
      nothing that belonged to those users is left. */
  lemma PurgeFinishes(db: Db, queue: set<PurgeJob>, limit: nat, runs: seq<RunRecord>, job: PurgeJob, pk: Pk)
    requires Inv(db) && limit >= 1 && ValidRuns(db, queue, limit, runs)
    requires |runs| == Remaining(db, queue, limit) || QueueAfter(queue, runs) == {}
    requires job in queue && pk in db.users && job.args.userid == Some(db.users[pk].userid)
    ensures QueueAfter(queue, runs) == {}
    ensures NothingLeft(AfterRuns(db, runs), Target(pk, db.users[pk].userid))
  {
    hide ExhaustedBefore, Remaining, ValidRuns, NothingLeft, Inv;
    if |runs| == Remaining(db, queue, limit) {
      QueueEndsEmpty(db, queue, limit, runs);
    }
    RunsLeaveNothing(db, queue, limit, runs);
    RunsSpareOtherUsers(db, queue, limit, runs);
    ExhaustedMeansNothingLeft(AfterRuns(db, runs), Target(pk, db.users[pk].userid));
  }
}
