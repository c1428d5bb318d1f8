/** Convergence: with no further writes, repeated runs of `sync` empty the queue. */
module SyncDrain {
  import opened AnnotationStore
  import opened Collections
  import opened SyncDecision
  import opened SyncAtomic

  /** Queued jobs that compare an annotation whose copies differ. */
  function Mismatched(s: State): set<SyncJob> {
    set job | job in s.base.jobs && !job.args.force && DbView(s.base.db, job.args.annotation) != EsView(s.es, job.args.annotation)
  }

  /** A job counts twice while the annotation it compares is out of date. */
  function Weight(s: State): nat {
    |s.base.jobs| + |Mismatched(s)|
  }

  /** The batches taken by successive runs: each is as large as `limit` and the queue allow. */
  ghost predicate Batches(s: State, limit: nat, batches: seq<set<SyncJob>>)
    decreases |batches|
  {
    batches == [] ||
    (&& batches[0] <= s.base.jobs
     && |batches[0]| == Min(limit, |s.base.jobs|)
     && Batches(AfterSync(s, batches[0], {}), limit, batches[1..]))
  }

  function AfterSyncs(s: State, batches: seq<set<SyncJob>>): State
    decreases |batches|
  {
    if batches == [] then s else AfterSyncs(AfterSync(s, batches[0], {}), batches[1..])
  }

  /** There is always such a sequence of batches. */
  lemma {:induction false} BatchesExist(s: State, limit: nat, n: nat)
    ensures exists batches :: |batches| == n && Batches(s, limit, batches)
    decreases n
  {
    hide AfterSync;
    if n == 0 {
      assert Batches(s, limit, []);
    } else {
      SubsetOfSize(s.base.jobs, Min(limit, |s.base.jobs|));
      var batch :| batch <= s.base.jobs && |batch| == Min(limit, |s.base.jobs|);
      BatchesExist(AfterSync(s, batch, {}), limit, n - 1);
      var rest :| |rest| == n - 1 && Batches(AfterSync(s, batch, {}), limit, rest);
      assert ([batch] + rest)[0] == batch && ([batch] + rest)[1..] == rest;
      assert Batches(s, limit, [batch] + rest);
    }
  }

  lemma Sizes(whole: set<SyncJob>, part: set<SyncJob>)
    requires part <= whole
    ensures |whole - part| == |whole| - |part|
  {
    assert whole == part + (whole - part);
  }

  lemma SmallerSet(small: set<SyncJob>, large: set<SyncJob>)
    requires small <= large
    ensures |small| <= |large|
  {
    Sizes(large, small);
  }

  /** Every job of the batch loses one: it is removed, or its annotation is repaired. */
  lemma SyncLowersWeight(s: State, batch: set<SyncJob>)
    requires batch <= s.base.jobs
    ensures var s' := AfterSync(s, batch, {});
            Weight(s') + |batch| <= Weight(s) && s'.base.jobs <= s.base.jobs && s'.base.db == s.base.db
  {
    var s' := AfterSync(s, batch, {});
    var done := JobsToDelete(s.base.db, s.es, batch);
    var repaired := batch * Mismatched(s);
    forall job | job in batch
      ensures job in done <==> job !in repaired
    {
      DecisionIsSound(s.base.db, s.es, job);
    }
    assert batch - repaired == done;
    Sizes(batch, repaired);
    Sizes(s.base.jobs, done);
    forall job | job in Mismatched(s')
      ensures job in Mismatched(s) - repaired
    {
      SyncOutcome(s, batch, {}, job.args.annotation);
      assert Watches(job, job.args.annotation);
    }
    Sizes(Mismatched(s), repaired);
    SmallerSet(Mismatched(s'), Mismatched(s) - repaired);
  }

  /** A batch of the whole queue leaves only jobs that the next run removes. */
  lemma WholeQueueRepairs(s: State)
    ensures Mismatched(AfterSync(s, s.base.jobs, {})) == {}
  {
    forall job | job in Mismatched(AfterSync(s, s.base.jobs, {}))
      ensures false
    {
      SyncOutcome(s, s.base.jobs, {}, job.args.annotation);
      assert Watches(job, job.args.annotation);
    }
  }

  lemma WholeQueueTaken(s: State, limit: nat, batches: seq<set<SyncJob>>)
    requires Batches(s, limit, batches) && batches != [] && |s.base.jobs| <= limit
    ensures batches[0] == s.base.jobs
  {
    Sizes(s.base.jobs, batches[0]);
    assert s.base.jobs - batches[0] == {};
  }

  /** Once the queue fits in one batch it is repaired, and then emptied. */
  lemma {:induction false} ShortQueueDrains(s: State, limit: nat, batches: seq<set<SyncJob>>)
    requires Batches(s, limit, batches) && |s.base.jobs| <= limit
    requires |batches| >= 2 || (|batches| == 1 && Mismatched(s) == {}) || s.base.jobs == {}
    ensures AfterSyncs(s, batches).base.jobs == {}
    decreases |batches|
  {
    if batches != [] {
      var s' := AfterSync(s, batches[0], {});
      WholeQueueTaken(s, limit, batches);
      WholeQueueRepairs(s);
      SyncLowersWeight(s, batches[0]);
      SmallerSet(s'.base.jobs, s.base.jobs);
      if Mismatched(s) == {} {
        forall job | job in s.base.jobs
          ensures job !in s'.base.jobs
        {
          DecisionIsSound(s.base.db, s.es, job);
        }
      }
      ShortQueueDrains(s', limit, batches[1..]);
    }
  }

  function Ceiling(n: nat, d: nat): (q: nat)
    requires d >= 1
    ensures q * d >= n
  {
    assert (n + d - 1) / d * d + (n + d - 1) % d == n + d - 1;
    (n + d - 1) / d
  }

  /** So many rounds, each worth `limit`, pay off the weight. */
  predicate PaysOff(rounds: nat, limit: nat, weight: nat) {
    rounds * limit >= weight
  }

  lemma OneRoundLess(rounds: nat, limit: nat, before: nat, after: nat)
    requires PaysOff(rounds, limit, before) && after + limit <= before && limit >= 1
    ensures rounds >= 1 && PaysOff(rounds - 1, limit, after)
  {
    if rounds >= 1 {
      assert rounds * limit == (rounds - 1) * limit + limit;
    }
  }

  lemma FirstBatch(s: State, limit: nat, batches: seq<set<SyncJob>>)
    requires Batches(s, limit, batches) && batches != [] && |s.base.jobs| > limit
    ensures var s' := AfterSync(s, batches[0], {});
            Weight(s') + limit <= Weight(s) && Batches(s', limit, batches[1..])
  {
    hide AfterSync, Weight;
    SyncLowersWeight(s, batches[0]);
  }

  /** Each run on a longer queue pays off `limit` units of weight. */
  lemma {:induction false} QueueDrains(s: State, limit: nat, batches: seq<set<SyncJob>>, rounds: nat)
    requires limit >= 1 && Batches(s, limit, batches)
    requires PaysOff(rounds, limit, Weight(s)) && |batches| >= rounds + 2
    ensures AfterSyncs(s, batches).base.jobs == {}
    decreases |batches|
  {
    hide PaysOff, Weight, AfterSync, Batches;
    if |s.base.jobs| <= limit {
      ShortQueueDrains(s, limit, batches);
    } else {
      var s' := AfterSync(s, batches[0], {});
      FirstBatch(s, limit, batches);
      OneRoundLess(rounds, limit, Weight(s), Weight(s'));
      QueueDrains(s', limit, batches[1..], rounds - 1);
    }
  }

  lemma {:induction false} SyncsKeepInv(s: State, limit: nat, batches: seq<set<SyncJob>>)
    requires Inv(s) && Batches(s, limit, batches)
    ensures Inv(AfterSyncs(s, batches)) && AfterSyncs(s, batches).base.db == s.base.db
    decreases |batches|
  {
    if batches != [] {
      SyncKeepsInv(s, batches[0], {});
      SyncsKeepInv(AfterSync(s, batches[0], {}), limit, batches[1..]);
    }
  }

  lemma ReachableQueueDrains(s: State, limit: nat, batches: seq<set<SyncJob>>)
    requires Inv(s) && limit >= 1 && Batches(s, limit, batches)
    requires |batches| >= Ceiling(2 * |s.base.jobs|, limit) + 2
    ensures var s' := AfterSyncs(s, batches);
            && s'.base.jobs == {}
            && s'.base.db == s.base.db
            && forall id: Id :: EsView(s'.es, id) == DbView(s.base.db, id)
  {
    SyncsKeepInv(s, limit, batches);
    SmallerSet(Mismatched(s), s.base.jobs);
    QueueDrains(s, limit, batches, Ceiling(2 * |s.base.jobs|, limit));
  }

  /** From any reachable state, ceil(2 * jobs / limit) + 2 runs empty the queue, and then the
      index agrees with the database on every annotation. */
  lemma SyncConverges(steps: seq<Step>, limit: nat, batches: seq<set<SyncJob>>)
    requires Legal(START, steps) && limit >= 1
    requires Batches(Run(START, steps), limit, batches)
    requires |batches| >= Ceiling(2 * |Run(START, steps).base.jobs|, limit) + 2
    ensures var s, s' := Run(START, steps), AfterSyncs(Run(START, steps), batches);
            && s'.base.jobs == {}
            && s'.base.db == s.base.db
            && forall id: Id :: EsView(s'.es, id) == DbView(s.base.db, id)
  {
    RunKeepsInv(START, steps);
    ReachableQueueDrains(Run(START, steps), limit, batches);
  }

  // ----- Contents -----

  lemma {:induction false} SyncsKeepContent(s: State, limit: nat, batches: seq<set<SyncJob>>)
    requires ContentInv(s) && Batches(s, limit, batches)
    ensures ContentInv(AfterSyncs(s, batches))
    decreases |batches|
  {
    hide ContentInv, AfterSync;
    if batches != [] {
      SyncLosesExactly(s, batches[0], {});
      SyncsKeepContent(AfterSync(s, batches[0], {}), limit, batches[1..]);
    }
  }

  /** A silent difference that no forced job is queued for is never repaired by `sync`. */
  lemma SilentDifferenceStays(s: State, batch: set<SyncJob>, id: Id)
    requires DiffersSilently(s, id) && !Forced(s.base.jobs, id) && batch <= s.base.jobs
    ensures var s' := AfterSync(s, batch, {}); DiffersSilently(s', id) && !Forced(s'.base.jobs, id)
  {
    var s' := AfterSync(s, batch, {});
    forall job | job in batch && job.args.annotation == id
      ensures !Forces(job, id) && Watches(job, id)
    {
      assert job in s.base.jobs;
    }
    assert EsDoc(s'.es, id) == EsDoc(s.es, id);
  }

  lemma {:induction false} SilentDifferenceOutlivesSyncs(s: State, limit: nat, batches: seq<set<SyncJob>>, id: Id)
    requires Batches(s, limit, batches)
    requires DiffersSilently(s, id) && !Forced(s.base.jobs, id)
    ensures DiffersSilently(AfterSyncs(s, batches), id)
    decreases |batches|
  {
    hide AfterSync, DiffersSilently, Forced;
    if batches != [] {
      SilentDifferenceStays(s, batches[0], id);
      SilentDifferenceOutlivesSyncs(AfterSync(s, batches[0], {}), limit, batches[1..], id);
    }
  }

  ghost predicate ContentsAgree(s: State) {
    forall id: Id :: EsDoc(s.es, id) == LiveDoc(s.base.db, id)
  }

  lemma ContentsConverge(s: State, limit: nat, batches: seq<set<SyncJob>>)
    requires Inv(s) && limit >= 1 && Batches(s, limit, batches)
    requires |batches| >= Ceiling(2 * |s.base.jobs|, limit) + 2
    ensures ContentsAgree(AfterSyncs(s, batches)) <==> ContentInv(s)
  {
    var s' := AfterSyncs(s, batches);
    ReachableQueueDrains(s, limit, batches);
    if ContentInv(s) {
      SyncsKeepContent(s, limit, batches);
      ContentInvMeansSafe(s');
    } else {
      var id: Id :| DiffersSilently(s, id) && !Forced(s.base.jobs, id);
      SilentDifferenceOutlivesSyncs(s, limit, batches, id);
    }
  }

  /** The same runs make all contents agree, silent updates included, exactly when the state
      they start from is content-safe; and every run that loses nothing ends in such a state. */
  lemma ContentsConvergeExactlyWhenSafe(steps: seq<Step>, limit: nat, batches: seq<set<SyncJob>>)
    requires Legal(START, steps) && limit >= 1
    requires Batches(Run(START, steps), limit, batches)
    requires |batches| >= Ceiling(2 * |Run(START, steps).base.jobs|, limit) + 2
    ensures ContentsAgree(AfterSyncs(Run(START, steps), batches)) <==> ContentSafe(Run(START, steps))
    ensures NeverLoses(START, steps) ==> ContentsAgree(AfterSyncs(Run(START, steps), batches))
  {
    var s := Run(START, steps);
    RunKeepsInv(START, steps);
    RunLosesExactly(START, steps);
    ContentInvMeansSafe(s);
    ContentsConverge(s, limit, batches);
  }
}
