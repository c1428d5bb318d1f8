/** The protocol when each handler, and each run of `sync`, is one atomic step. No timing is
    needed for safety here: transactions may carry any timestamps. Index writes inside `sync` may
    be lost, and the contents of the documents (not only their views) can be followed. */
module SyncAtomic {
  import opened Options
  import opened AnnotationStore
  import opened SyncDecision

  datatype State = State(base: Base, es: map<Id, Doc>)

  datatype Step =
    | Transaction(write: Write, time: Time, q: Queueing)
    | HandleUpsert(id: Id)
    | HandleDelete(id: Id)
    | Sync(batch: set<SyncJob>, lost: set<Id>)

  predicate Enabled(s: State, step: Step) {
    match step
    case Transaction(write, time, _) => Allowed(s.base, write, time)
    case HandleUpsert(id) => LiveDoc(s.base.db, id).Some?
    case HandleDelete(id) => DbView(s.base.db, id).None? && id in s.base.used
    case Sync(batch, _) => batch <= s.base.jobs
  }

  /** `sync` deletes the completed jobs, then indexes, then deletes documents. */
  function AfterSync(s: State, batch: set<SyncJob>, lost: set<Id>): State {
    var db := s.base.db;
    var indexed := BulkIndex(s.es, db, IdsToSync(db, s.es, batch), lost);
    s.(base := s.base.(jobs := s.base.jobs - JobsToDelete(db, s.es, batch)),
       es := BulkDelete(indexed, IdsToDelete(db, s.es, batch), lost))
  }

  function Next(s: State, step: Step): State
    requires Enabled(s, step)
  {
    match step
    case Transaction(write, time, q) => s.(base := Commit(s.base, write, time, q))
    case HandleUpsert(id) => s.(es := s.es[id := LiveDoc(s.base.db, id).value])
    case HandleDelete(id) => s.(es := s.es[id := Tombstone])
    case Sync(batch, lost) => AfterSync(s, batch, lost)
  }

  predicate Legal(s: State, steps: seq<Step>)
    decreases |steps|
  {
    steps == [] || (Enabled(s, steps[0]) && Legal(Next(s, steps[0]), steps[1..]))
  }

  function Run(s: State, steps: seq<Step>): State
    requires Legal(s, steps)
    decreases |steps|
  {
    if steps == [] then s else Run(Next(s, steps[0]), steps[1..])
  }

  const START := State(Base(map[], {}, {}), map[])

  // ----- Safety, whatever is lost -----

  ghost predicate Inv(s: State) {
    && s.base.db.Keys <= s.base.used
    && s.es.Keys <= s.base.used
    && Safe(s.base.db, s.es, s.base.jobs)
  }

  predicate Forces(job: SyncJob, id: Id) {
    job.args.annotation == id && job.args.force
  }

  /** What one run of `sync` leaves in the index for `id`. */
  lemma SyncOutcome(s: State, batch: set<SyncJob>, lost: set<Id>, id: Id)
    ensures var db, es' := s.base.db, AfterSync(s, batch, lost).es;
            && (EsDoc(es', id) == EsDoc(s.es, id) || EsDoc(es', id) == LiveDoc(db, id))
            && (id !in lost && (exists job :: job in batch && Watches(job, id)) ==> EsView(es', id) == DbView(db, id))
            && (id !in lost && DbView(db, id).Some? && (exists job :: job in batch && Forces(job, id)) ==>
                  EsDoc(es', id) == LiveDoc(db, id))
  {
    var db := s.base.db;
    if job :| job in batch && Watches(job, id) {
      DecisionIsSound(db, s.es, job);
    }
    if job :| job in batch && Forces(job, id) {
      DecisionIsSound(db, s.es, job);
      assert id in IdsToSync(db, s.es, batch);
    }
  }

  lemma SyncKeepsInv(s: State, batch: set<SyncJob>, lost: set<Id>)
    requires Inv(s) && batch <= s.base.jobs
    ensures Inv(AfterSync(s, batch, lost))
  {
    var s' := AfterSync(s, batch, lost);
    forall id: Id | DbView(s'.base.db, id) != EsView(s'.es, id)
      ensures Watched(s'.base.jobs, id)
    {
      SyncOutcome(s, batch, lost, id);
      var job :| job in s.base.jobs && Watches(job, id);
      DecisionIsSound(s.base.db, s.es, job);
      assert job in s'.base.jobs;
    }
  }

  lemma StepKeepsInv(s: State, step: Step)
    requires Inv(s) && Enabled(s, step)
    ensures Inv(Next(s, step))
  {
    match step
    case Transaction(write, time, q) =>
      var s' := Next(s, step);
      forall id: Id | DbView(s'.base.db, id) != EsView(s'.es, id)
        ensures Watched(s'.base.jobs, id)
      {
        CommitWatchesItsChanges(s.base, write, time, q, id);
      }
    case Sync(batch, lost) => SyncKeepsInv(s, batch, lost);
    case _ =>
  }

  lemma {:induction false} RunKeepsInv(s: State, steps: seq<Step>)
    requires Inv(s) && Legal(s, steps)
    ensures Inv(Run(s, steps))
    decreases |steps|
  {
    if steps != [] {
      StepKeepsInv(s, steps[0]);
      RunKeepsInv(Next(s, steps[0]), steps[1..]);
    }
  }

  /** With atomic handlers every interleaving is safe, even if any writes inside `sync` are lost. */
  lemma SafeWithoutTiming(steps: seq<Step>)
    requires Legal(START, steps)
    ensures var s := Run(START, steps); Safe(s.base.db, s.es, s.base.jobs)
  {
    RunKeepsInv(START, steps);
  }

  /** Expunging rows already marked as deleted never changes a view. */
  lemma ExpungeIsInvisible(b: Base, ids: set<Id>, now: Time, q: Queueing, id: Id)
    requires Allowed(b, Expunge(ids), now)
    ensures DbView(Commit(b, Expunge(ids), now, q).db, id) == DbView(b.db, id)
  {
    assert id in ids ==> id in b.db && b.db[id].deleted;
  }

  // ----- Contents -----

  ghost predicate Queued(jobs: set<SyncJob>, id: Id) {
    exists job :: job in jobs && job.args.annotation == id
  }

  ghost predicate Forced(jobs: set<SyncJob>, id: Id) {
    exists job :: job in jobs && Forces(job, id)
  }

  /** Comparing finds nothing although the contents differ. */
  predicate DiffersSilently(s: State, id: Id) {
    LiveDoc(s.base.db, id) != EsDoc(s.es, id) && DbView(s.base.db, id) == EsView(s.es, id)
  }

  /** A document whose content is out of date has a queued job, and a forced one where the
      views agree, so that comparing would find nothing. */
  ghost predicate ContentSafe(s: State) {
    forall id: Id :: LiveDoc(s.base.db, id) != EsDoc(s.es, id) ==>
      && Queued(s.base.jobs, id)
      && (DbView(s.base.db, id) == EsView(s.es, id) ==> Forced(s.base.jobs, id))
  }

  ghost predicate ContentInv(s: State) {
    Inv(s) && forall id: Id :: DiffersSilently(s, id) ==> Forced(s.base.jobs, id)
  }

  lemma ContentInvMeansSafe(s: State)
    ensures ContentInv(s) <==> Inv(s) && ContentSafe(s)
  {
    if ContentInv(s) {
      forall id: Id | LiveDoc(s.base.db, id) != EsDoc(s.es, id)
        ensures Queued(s.base.jobs, id) && (DbView(s.base.db, id) == EsView(s.es, id) ==> Forced(s.base.jobs, id))
      {
        if DbView(s.base.db, id) != EsView(s.es, id) {
          var job :| job in s.base.jobs && Watches(job, id);
          assert Queued(s.base.jobs, id);
        } else {
          assert DiffersSilently(s, id);
          var job :| job in s.base.jobs && Forces(job, id);
          assert Queued(s.base.jobs, id);
        }
      }
    }
  }

  /** A stamped update of a live row gives it the timestamp that the index already holds, by
      the same user but for another content. */
  predicate RepeatsTimestamp(s: State, write: Write, time: Time) {
    && write.Update? && write.updateTimestamp
    && LiveDoc(s.base.db, write.id).Some?
    && EsView(s.es, write.id) == Some(View(time, s.base.db[write.id].user))
    && EsDoc(s.es, write.id).value.content != write.content
  }

  /** What a step does wrong: it repeats a timestamp while no forced job is queued, or it
      takes the last forced job of a silent difference without landing its write. */
  ghost predicate Loses(s: State, step: Step) {
    match step
    case Transaction(write, time, _) => RepeatsTimestamp(s, write, time) && !Forced(s.base.jobs, write.id)
    case Sync(batch, lost) => exists id :: id in lost && DiffersSilently(s, id) && !Forced(s.base.jobs - batch, id)
    case _ => false
  }

  // ----- Each kind of step -----

  lemma TransactionEffect(s: State, write: Write, time: Time, q: Queueing, id: Id)
    requires ContentInv(s) && Enabled(s, Transaction(write, time, q))
    ensures var s' := Next(s, Transaction(write, time, q));
            if write.Update? && write.id == id && write.updateTimestamp then
              && (DiffersSilently(s', id) <==> RepeatsTimestamp(s, write, time))
              && (Forced(s'.base.jobs, id) <==> Forced(s.base.jobs, id))
            else
              DiffersSilently(s', id) ==> Forced(s'.base.jobs, id)
  {
    var s' := Next(s, Transaction(write, time, q));
    CommitWatchesItsChanges(s.base, write, time, q, id);
    if write.Update? && write.id == id {
      if write.updateTimestamp {
        StampedUpdate(s, write, time, q);
      } else if DiffersSilently(s', id) {
        assert Forces(NewJob(q, id, true, time, SCHEDULE_IN), id);
      }
    } else if DiffersSilently(s', id) {
      if LiveDoc(s.base.db, id) == LiveDoc(s'.base.db, id) {
        assert DiffersSilently(s, id);
        var job :| job in s.base.jobs && Forces(job, id);
        assert job in s'.base.jobs;
      }
    }
  }

  lemma StampedUpdate(s: State, write: Write, time: Time, q: Queueing)
    requires Enabled(s, Transaction(write, time, q)) && write.Update? && write.updateTimestamp
    ensures var s' := Next(s, Transaction(write, time, q));
            && (DiffersSilently(s', write.id) <==> RepeatsTimestamp(s, write, time))
            && (Forced(s'.base.jobs, write.id) <==> Forced(s.base.jobs, write.id))
  {
    var s' := Next(s, Transaction(write, time, q));
    var job := NewJob(q, write.id, false, time, SCHEDULE_IN);
    assert s'.base.jobs == s.base.jobs + {job} && !Forces(job, write.id);
  }

  /** A transaction loses content exactly when it repeats a timestamp. */
  lemma TransactionLosesExactly(s: State, write: Write, time: Time, q: Queueing)
    requires ContentInv(s) && Enabled(s, Transaction(write, time, q))
    ensures ContentInv(Next(s, Transaction(write, time, q))) <==> !Loses(s, Transaction(write, time, q))
  {
    hide DiffersSilently, RepeatsTimestamp, Forced, Inv;
    var s' := Next(s, Transaction(write, time, q));
    StepKeepsInv(s, Transaction(write, time, q));
    forall id: Id
      ensures if write.Update? && write.id == id && write.updateTimestamp then
                && (DiffersSilently(s', id) <==> RepeatsTimestamp(s, write, time))
                && (Forced(s'.base.jobs, id) <==> Forced(s.base.jobs, id))
              else
                DiffersSilently(s', id) ==> Forced(s'.base.jobs, id)
    {
      TransactionEffect(s, write, time, q, id);
    }
    assert RepeatsTimestamp(s, write, time) ==> write.Update? && write.updateTimestamp by {
      UpdatesRepeat(s, write, time);
    }
  }

  lemma UpdatesRepeat(s: State, write: Write, time: Time)
    ensures RepeatsTimestamp(s, write, time) ==> write.Update? && write.updateTimestamp
  {
  }

  lemma SyncEffect(s: State, batch: set<SyncJob>, lost: set<Id>, id: Id)
    requires ContentInv(s) && batch <= s.base.jobs
    ensures var s' := AfterSync(s, batch, lost);
            DiffersSilently(s', id) && !Forced(s'.base.jobs, id) <==>
            id in lost && DiffersSilently(s, id) && !Forced(s.base.jobs - batch, id)
  {
    var s' := AfterSync(s, batch, lost);
    SyncOutcome(s, batch, lost, id);
    ForcedJobsLeft(s, batch, lost, id);
    if DiffersSilently(s, id) {
      var job :| job in s.base.jobs && Forces(job, id);
      if id in lost {
        LostWriteChangesNothing(s, batch, lost, id);
      }
    }
  }

  lemma ForcedJobsLeft(s: State, batch: set<SyncJob>, lost: set<Id>, id: Id)
    requires batch <= s.base.jobs
    ensures Forced(AfterSync(s, batch, lost).base.jobs, id) <==> Forced(s.base.jobs - batch, id)
  {
    var left := AfterSync(s, batch, lost).base.jobs;
    forall job | job in s.base.jobs && Forces(job, id)
      ensures job in left <==> job !in batch
    {
      DecisionIsSound(s.base.db, s.es, job);
    }
  }

  lemma LostWriteChangesNothing(s: State, batch: set<SyncJob>, lost: set<Id>, id: Id)
    requires id in lost
    ensures EsDoc(AfterSync(s, batch, lost).es, id) == EsDoc(s.es, id)
  {
  }

  /** `sync` loses content exactly when a lost write was the last forced one. */
  lemma SyncLosesExactly(s: State, batch: set<SyncJob>, lost: set<Id>)
    requires ContentInv(s) && batch <= s.base.jobs
    ensures ContentInv(AfterSync(s, batch, lost)) <==> !Loses(s, Sync(batch, lost))
  {
    hide DiffersSilently, Forced, Inv, AfterSync;
    SyncKeepsInv(s, batch, lost);
    forall id: Id
      ensures var s' := AfterSync(s, batch, lost);
              DiffersSilently(s', id) && !Forced(s'.base.jobs, id) <==>
              id in lost && DiffersSilently(s, id) && !Forced(s.base.jobs - batch, id)
    {
      SyncEffect(s, batch, lost, id);
    }
  }

  lemma HandlersKeepContent(s: State, step: Step)
    requires ContentInv(s) && Enabled(s, step) && (step.HandleUpsert? || step.HandleDelete?)
    ensures ContentInv(Next(s, step))
  {
    var s' := Next(s, step);
    StepKeepsInv(s, step);
    forall id: Id | DiffersSilently(s', id)
      ensures Forced(s'.base.jobs, id)
    {
      assert id != step.id && DiffersSilently(s, id);
    }
  }

  lemma StepLosesExactly(s: State, step: Step)
    requires ContentInv(s) && Enabled(s, step)
    ensures ContentInv(Next(s, step)) <==> !Loses(s, step)
  {
    hide ContentInv, Forced, DiffersSilently, RepeatsTimestamp, AfterSync;
    match step
    case Transaction(write, time, q) => TransactionLosesExactly(s, write, time, q);
    case Sync(batch, lost) => SyncLosesExactly(s, batch, lost);
    case _ => HandlersKeepContent(s, step);
  }

  // ----- Whole runs -----

  ghost predicate AlwaysContentSafe(s: State, steps: seq<Step>)
    requires Legal(s, steps)
    decreases |steps|
  {
    ContentSafe(s) && (steps != [] ==> AlwaysContentSafe(Next(s, steps[0]), steps[1..]))
  }

  ghost predicate NeverLoses(s: State, steps: seq<Step>)
    requires Legal(s, steps)
    decreases |steps|
  {
    steps != [] ==> !Loses(s, steps[0]) && NeverLoses(Next(s, steps[0]), steps[1..])
  }

  lemma {:induction false} RunLosesExactly(s: State, steps: seq<Step>)
    requires ContentInv(s) && Legal(s, steps)
    ensures AlwaysContentSafe(s, steps) <==> NeverLoses(s, steps)
    ensures NeverLoses(s, steps) ==> ContentInv(Run(s, steps))
    decreases |steps|
  {
    hide Next, ContentInv, ContentSafe, Inv, Loses;
    ContentInvMeansSafe(s);
    if steps != [] {
      var s' := Next(s, steps[0]);
      StepLosesExactly(s, steps[0]);
      StepKeepsInv(s, steps[0]);
      ContentInvMeansSafe(s');
      if ContentInv(s') {
        RunLosesExactly(s', steps[1..]);
      } else {
        SafeAtFirst(s', steps[1..]);
      }
    }
  }

  lemma SafeAtFirst(s: State, steps: seq<Step>)
    requires Legal(s, steps)
    ensures AlwaysContentSafe(s, steps) ==> ContentSafe(s)
  {
  }

  /** No state along a run loses content, exactly when no step of it repeats the indexed
      timestamp of a live row without a forced job, nor drops the last forced job of a
      silently differing document together with its write. */
  lemma ContentIsSafeExactlyWhenNothingIsLost(steps: seq<Step>)
    requires Legal(START, steps)
    ensures AlwaysContentSafe(START, steps) <==> NeverLoses(START, steps)
  {
    RunLosesExactly(START, steps);
  }

  /** A stamped update brings a timestamp other than the indexed one, and no index write
      caused by a forced job is lost. */
  predicate Reliable(s: State, step: Step) {
    match step
    case Transaction(write, time, _) =>
      write.Update? && write.updateTimestamp && EsDoc(s.es, write.id).Some? ==> EsDoc(s.es, write.id).value.updated != time
    case Sync(batch, lost) => forall job :: job in batch && job.args.force ==> job.args.annotation !in lost
    case _ => true
  }

  predicate ReliableRun(s: State, steps: seq<Step>)
    requires Legal(s, steps)
    decreases |steps|
  {
    steps == [] || (Reliable(s, steps[0]) && ReliableRun(Next(s, steps[0]), steps[1..]))
  }

  lemma ReliableLosesNothing(s: State, step: Step)
    requires ContentInv(s) && Enabled(s, step) && Reliable(s, step)
    ensures !Loses(s, step)
  {
    if step.Sync? {
      forall id | id in step.lost && DiffersSilently(s, id)
        ensures Forced(s.base.jobs - step.batch, id)
      {
        var job :| job in s.base.jobs && Forces(job, id);
        assert job in s.base.jobs - step.batch;
      }
    }
  }

  lemma {:induction false} ReliableRunLosesNothing(s: State, steps: seq<Step>)
    requires ContentInv(s) && Legal(s, steps) && ReliableRun(s, steps)
    ensures NeverLoses(s, steps)
    decreases |steps|
  {
    if steps != [] {
      hide Next, ContentInv, Loses, Reliable;
      ReliableLosesNothing(s, steps[0]);
      StepLosesExactly(s, steps[0]);
      ReliableRunLosesNothing(Next(s, steps[0]), steps[1..]);
    }
  }

  /** In particular silent updates are not lost when timestamps are fresh and the index writes
      of forced jobs succeed. */
  lemma SilentUpdatesAreNotLost(steps: seq<Step>)
    requires Legal(START, steps) && ReliableRun(START, steps)
    ensures AlwaysContentSafe(START, steps) && ContentSafe(Run(START, steps))
  {
    ReliableRunLosesNothing(START, steps);
    RunLosesExactly(START, steps);
    ContentInvMeansSafe(Run(START, steps));
  }

  // ----- Each of the two losses happens -----

  lemma {:induction false} RunOf4(s: State, steps: seq<Step>, s1: State, s2: State, s3: State, s4: State)
    requires |steps| == 4
    requires Enabled(s, steps[0]) && Next(s, steps[0]) == s1
    requires Enabled(s1, steps[1]) && Next(s1, steps[1]) == s2
    requires Enabled(s2, steps[2]) && Next(s2, steps[2]) == s3
    requires Enabled(s3, steps[3]) && Next(s3, steps[3]) == s4
    ensures Legal(s, steps) && Run(s, steps) == s4
  {
    hide Enabled, Next;
    var tail := steps[1..][1..][1..];
    assert tail == [steps[3]] && tail[1..] == [];
    assert Legal(s4, tail[1..]) && Run(s4, tail[1..]) == s4;
    assert Legal(s3, tail) && Run(s3, tail) == s4;
    assert Legal(s2, steps[1..][1..]) && Run(s2, steps[1..][1..]) == s4;
    assert Legal(s1, steps[1..]) && Run(s1, steps[1..]) == s4;
  }

  predicate LosesNoWrite(steps: seq<Step>) {
    forall i :: 0 <= i < |steps| && steps[i].Sync? ==> steps[i].lost == {}
  }

  predicate TimesIncrease(steps: seq<Step>) {
    forall i, j :: 0 <= i < j < |steps| && steps[i].Transaction? && steps[j].Transaction? ==> steps[i].time < steps[j].time
  }

  /** The last step is a run of `sync` with the forced `job` in its batch, and the index write
      for that job is the only write that is ever lost. */
  predicate LosesOneForcedWrite(steps: seq<Step>, job: SyncJob) {
    steps != [] &&
    var last := steps[|steps| - 1];
    && last.Sync? && job in last.batch && job.args.force && last.lost == {job.args.annotation}
    && LosesNoWrite(steps[..|steps| - 1])
  }

  /** One update of annotation 0, then one run of `sync` over both jobs. */
  function UpdateAndSync(stamped: bool, first: Time, second: Time, lost: set<Id>): seq<Step> {
    [ Transaction(Create(0, 0, TEXT0), first, Promptly(0)),
      HandleUpsert(0),
      Transaction(Update(0, TEXT1, stamped), second, Promptly(1)),
      Sync({NewJob(Promptly(0), 0, false, first, SCHEDULE_IN), NewJob(Promptly(1), 0, !stamped, second, SCHEDULE_IN)}, lost) ]
  }

  lemma CreateAndIndex(first: Time)
    ensures var created := State(Base(map[0 := Row(first, 0, TEXT0, false)], {NewJob(Promptly(0), 0, false, first, SCHEDULE_IN)},
        {0}), map[]);
            && Enabled(START, Transaction(Create(0, 0, TEXT0), first, Promptly(0)))
            && Next(START, Transaction(Create(0, 0, TEXT0), first, Promptly(0))) == created
  {
  }

  lemma UpdateLosesContent(stamped: bool, first: Time, second: Time, lost: set<Id>)
    requires if stamped then first == second else 0 in lost
    ensures var steps := UpdateAndSync(stamped, first, second, lost);
            Legal(START, steps) && !ContentSafe(Run(START, steps))
  {
    var job0, job1 := NewJob(Promptly(0), 0, false, first, SCHEDULE_IN), NewJob(Promptly(1), 0, !stamped, second, SCHEDULE_IN);
    var row0, row1 := Row(first, 0, TEXT0, false), Row(first, 0, TEXT1, false);
    var s1 := State(Base(map[0 := row0], {job0}, {0}), map[]);
    var s2 := s1.(es := map[0 := DocOf(row0)]);
    var s3 := s2.(base := Base(map[0 := row1], {job0, job1}, {0}));
    var s4 := s3.(base := s3.base.(jobs := {}));
    var steps := UpdateAndSync(stamped, first, second, lost);
    CreateAndIndex(first);
    assert Next(s2, steps[2]) == s3;
    BothJobsDropped(s3, {job0, job1}, lost);
    assert AfterSync(s3, {job0, job1}, lost) == s4;
    RunOf4(START, steps, s1, s2, s3, s4);
    assert LiveDoc(s4.base.db, 0) != EsDoc(s4.es, 0) && !Queued(s4.base.jobs, 0);
  }

  /** All jobs are about annotation 0, whose views agree. */
  lemma BothJobsDropped(s: State, batch: set<SyncJob>, lost: set<Id>)
    requires forall job :: job in batch ==> job.args.annotation == 0 && (job.args.force ==> 0 in lost)
    requires DbView(s.base.db, 0) == EsView(s.es, 0)
    ensures AfterSync(s, batch, lost) == s.(base := s.base.(jobs := s.base.jobs - batch))
  {
    assert JobsToDelete(s.base.db, s.es, batch) == batch;
    assert IdsToDelete(s.base.db, s.es, batch) == {};
    assert IdsToSync(s.base.db, s.es, batch) <= lost;
  }

  /** With increasing timestamps, and one lost write of a forced job as the only failure, a
      silent update is lost. */
  lemma LostForcedWriteLosesContent()
    ensures exists steps, job ::
              && Legal(START, steps) && TimesIncrease(steps) && LosesOneForcedWrite(steps, job)
              && !ContentSafe(Run(START, steps))
  {
    var steps, job := UpdateAndSync(false, 1, 2, {0}), NewJob(Promptly(1), 0, true, 2, SCHEDULE_IN);
    UpdateLosesContent(false, 1, 2, {0});
    assert TimesIncrease(steps) && LosesOneForcedWrite(steps, job);
  }

  /** Two stamped updates in one microsecond: the views agree and the newer text is lost,
      although no write is. */
  lemma RepeatedTimestampLosesContent()
    ensures exists steps :: Legal(START, steps) && LosesNoWrite(steps) && !ContentSafe(Run(START, steps))
  {
    UpdateLosesContent(true, 1, 1, {});
    assert LosesNoWrite(UpdateAndSync(true, 1, 1, {}));
  }
}
