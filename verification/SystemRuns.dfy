/** Everything together: write services, purge, index writers and `sync` on one database and
    one index, as a refinement of the synchronisation protocol. */
module SystemRuns {
  import opened Options
  import opened AnnotationStore
  import opened Tables
  import opened SearchIndex
  import SlimMirror
  import PurgeLog
  import SyncAtomic
  import SyncDrain

  datatype State = State(db: Db, es: map<Id, Doc>)

  datatype Step =
    | Write(op: SlimMirror.Op, now: Time, q: Queueing)
    | Purge(event: PurgeLog.Event)
    | AddToIndex(id: Id)
    | DeleteFromIndex(id: Id)
    | Sync(batch: set<SyncJob>, lost: set<Id>)

  const START := State(EMPTY, map[])

  /** The annotations, jobs and documents, as the protocol sees them. */
  function ToProtocol(s: State): SyncAtomic.State {
    SyncAtomic.State(ToBase(s.db), s.es)
  }

  predicate MayWrite(db: Db, op: SlimMirror.Op, now: Time) {
    && UniqueKeys(db.users, db.groups)
    && SlimMirror.Permitted(db, op, now)
    && (op.Expunge? ==> Allowed(ToBase(db), AnnotationStore.Expunge(op.ids), now))
  }

  predicate Enabled(s: State, step: Step) {
    match step
    case Write(op, now, _) => MayWrite(s.db, op, now)
    case Purge(event) => PurgeLog.Possible(s.db, event)
    case AddToIndex(_) => ThreadOrder(s.db)
    case DeleteFromIndex(id) => DbView(ToBase(s.db).db, id).None? && id in s.db.usedIds
    case Sync(batch, _) => batch <= s.db.syncJobs
  }

  lemma VisitedAreRows(db: Db, id: Id)
    requires ThreadOrder(db)
    ensures Visited(db, id) <= db.annotations.Keys
  {
    VisitedIsLive(db, id);
  }

  function Next(s: State, step: Step): State
    requires Enabled(s, step)
  {
    match step
    case Write(op, now, q) => s.(db := SlimMirror.After(s.db, op, now, q))
    case Purge(event) => s.(db := PurgeLog.Apply(s.db, event))
    case AddToIndex(id) =>
      VisitedAreRows(s.db, id);
      s.(es := Reindexed(s.es, s.db, Visited(s.db, id)))
    case DeleteFromIndex(id) => s.(es := s.es[id := Tombstone])
    case Sync(batch, lost) =>
      var p := SyncAtomic.AfterSync(ToProtocol(s), batch, lost);
      State(s.db.(syncJobs := p.base.jobs), p.es)
  }

  predicate Legal(s: State, steps: seq<Step>)
    decreases |steps|
  {
    steps == [] || (Enabled(s, steps[0]) && Legal(Next(s, steps[0]), steps[1..]))
  }

  function Run(s: State, steps: seq<Step>): State
    requires Legal(s, steps)
    decreases |steps|
  {
    if steps == [] then s else Run(Next(s, steps[0]), steps[1..])
  }

  // ----- Invariants -----

  ghost predicate Inv(s: State) {
    SlimMirror.Inv(s.db) && ThreadOrder(s.db)
  }

  lemma PurgeKeepsThreads(db: Db, e: PurgeLog.Event)
    ensures KeepsThreads(db, PurgeLog.Apply(db, e))
  {
    if e.step.Annotations? {
      hide PurgeLog.DeleteLeaves, PurgeLog.RemoveCreators;
    } else {
      OtherStepsKeepIds(db, e);
      PurgeLog.OtherStepsSpareAnnotations(db, e);
      hide PurgeLog.Apply;
    }
  }

  lemma OtherStepsKeepIds(db: Db, e: PurgeLog.Event)
    ensures PurgeLog.Apply(db, e).usedIds == db.usedIds
  {
    MarkingKeepsIds(db, e.ids, e.now, e.queueing);
    DeletionsKeepIds(db, e.ids);
    LeavesKeepIds(db, e.step, e.ids);
    hide SlimMirror.MarkedDeleted, DeleteGroups, DeleteUsers, PurgeLog.RemoveCreators, PurgeLog.DeleteLeaves;
  }

  lemma MarkingKeepsIds(db: Db, ids: set<Id>, now: Time, q: Queueing)
    ensures SlimMirror.MarkedDeleted(db, ids, now, q).usedIds == db.usedIds
  {
  }

  lemma DeletionsKeepIds(db: Db, pks: set<Pk>)
    ensures DeleteGroups(db, pks).usedIds == db.usedIds && DeleteUsers(db, pks).usedIds == db.usedIds
    ensures PurgeLog.RemoveCreators(db, pks).usedIds == db.usedIds
  {
  }

  lemma LeavesKeepIds(db: Db, step: PurgeLog.Step, ids: set<nat>)
    ensures PurgeLog.DeleteLeaves(db, step, ids).usedIds == db.usedIds
  {
  }

  lemma StepKeepsInv(s: State, step: Step)
    requires Inv(s) && Enabled(s, step)
    ensures Inv(Next(s, step))
  {
    hide SlimMirror.After, PurgeLog.Apply, ThreadOrder, SlimMirror.Inv;
    match step
    case Write(op, now, q) =>
      SlimMirror.OpKeepsInv(s.db, op, now, q);
      OpKeepsThreadOrder(s.db, op, now, q);
    case Purge(event) =>
      PurgeLog.EventKeepsInv(s.db, event);
      PurgeKeepsThreads(s.db, event);
      KeptThreadsStayOrdered(s.db, PurgeLog.Apply(s.db, event));
    case Sync(batch, lost) =>
      SlimMirror.JobsAreIndependent(s.db, Next(s, step).db.syncJobs);
      KeptThreadsStayOrdered(s.db, Next(s, step).db);
    case _ =>
  }

  // ----- Refinement -----

  /** The protocol steps that indexing `id` amounts to, up to the root of its thread. */
  function IndexTrace(db: Db, id: Id): seq<SyncAtomic.Step>
    requires ThreadOrder(db)
    decreases if id in db.annotations then db.annotations[id].serial + 1 else 0
  {
    if id !in db.annotations || db.annotations[id].deleted then []
    else [SyncAtomic.HandleUpsert(id)]
         + if db.annotations[id].references == [] then [] else IndexTrace(db, db.annotations[id].references[0])
  }

  function Trace(s: State, step: Step): seq<SyncAtomic.Step>
    requires Enabled(s, step)
  {
    match step
    case Write(op, now, q) =>
      (match SlimMirror.ToWrite(op) case None => [] case Some(w) => [SyncAtomic.Transaction(w, now, q)])
    case Purge(e) => if e.step.Annotations? then [SyncAtomic.Transaction(MarkDeleted(e.ids), e.now, e.queueing)] else []
    case AddToIndex(id) => IndexTrace(s.db, id)
    case DeleteFromIndex(id) => [SyncAtomic.HandleDelete(id)]
    case Sync(batch, lost) => [SyncAtomic.Sync(batch, lost)]
  }

  ghost predicate Refines(p: SyncAtomic.State, trace: seq<SyncAtomic.Step>, p': SyncAtomic.State) {
    SyncAtomic.Legal(p, trace) && SyncAtomic.Run(p, trace) == p'
  }

  lemma OneStep(p: SyncAtomic.State, step: SyncAtomic.Step)
    requires SyncAtomic.Enabled(p, step)
    ensures Refines(p, [step], SyncAtomic.Next(p, step))
  {
    assert [step][1..] == [];
    hide SyncAtomic.Next, SyncAtomic.Enabled;
    var p' := SyncAtomic.Next(p, step);
    assert SyncAtomic.Legal(p', []) && SyncAtomic.Run(p', []) == p';
  }

  lemma {:induction false} TracesJoin(p: SyncAtomic.State, a: seq<SyncAtomic.Step>, q: SyncAtomic.State,
      b: seq<SyncAtomic.Step>, r: SyncAtomic.State)
    requires Refines(p, a, q) && Refines(q, b, r)
    ensures Refines(p, a + b, r)
    decreases |a|
  {
    hide SyncAtomic.Next, SyncAtomic.Enabled;
    if a == [] {
      assert a + b == b;
    } else {
      assert (a + b)[1..] == a[1..] + b && (a + b)[0] == a[0];
      TracesJoin(SyncAtomic.Next(p, a[0]), a[1..], q, b, r);
    }
  }

  lemma NothingIndexed(db: Db, es: map<Id, Doc>)
    ensures Refines(ToProtocol(State(db, es)), [], ToProtocol(State(db, Reindexed(es, db, {}))))
  {
    assert Reindexed(es, db, {}) == es;
  }

  lemma OneIndexed(db: Db, es: map<Id, Doc>, id: Id)
    requires id in db.annotations && !db.annotations[id].deleted
    ensures Refines(ToProtocol(State(db, es)), [SyncAtomic.HandleUpsert(id)],
                    ToProtocol(State(db, es[id := DocOf(ToRow(db.annotations[id]))])))
  {
    assert LiveDoc(ToBase(db).db, id) == Some(DocOf(ToRow(db.annotations[id])));
    OneStep(ToProtocol(State(db, es)), SyncAtomic.HandleUpsert(id));
    hide Refines;
  }

  lemma {:induction false} IndexRefines(db: Db, es: map<Id, Doc>, id: Id)
    requires ThreadOrder(db) && Visited(db, id) <= db.annotations.Keys
    ensures Refines(ToProtocol(State(db, es)), IndexTrace(db, id), ToProtocol(State(db, Reindexed(es, db, Visited(db, id)))))
    decreases if id in db.annotations then db.annotations[id].serial + 1 else 0
  {
    hide Refines, Reindexed, ToProtocol;
    if id !in db.annotations || db.annotations[id].deleted {
      NothingIndexed(db, es);
    } else {
      var a := db.annotations[id];
      var es' := es[id := DocOf(ToRow(a))];
      OneIndexed(db, es, id);
      if a.references == [] {
        NothingIndexed(db, es');
        JoinIndexed(db, es, id, [], {});
      } else {
        VisitedAreRows(db, a.references[0]);
        IndexRefines(db, es', a.references[0]);
        JoinIndexed(db, es, id, IndexTrace(db, a.references[0]), Visited(db, a.references[0]));
      }
    }
  }

  lemma JoinIndexed(db: Db, es: map<Id, Doc>, id: Id, trace: seq<SyncAtomic.Step>, rest: set<Id>)
    requires id in db.annotations && !db.annotations[id].deleted && rest <= db.annotations.Keys
    requires var es' := es[id := DocOf(ToRow(db.annotations[id]))];
             Refines(ToProtocol(State(db, es')), trace, ToProtocol(State(db, Reindexed(es', db, rest))))
    ensures Refines(ToProtocol(State(db, es)), [SyncAtomic.HandleUpsert(id)] + trace,
                    ToProtocol(State(db, Reindexed(es, db, {id} + rest))))
  {
    OneIndexed(db, es, id);
    ReindexedInOrder(es, db, id, rest);
    hide Refines, Reindexed, ToProtocol;
    var es' := es[id := DocOf(ToRow(db.annotations[id]))];
    TracesJoin(ToProtocol(State(db, es)), [SyncAtomic.HandleUpsert(id)], ToProtocol(State(db, es')), trace,
               ToProtocol(State(db, Reindexed(es', db, rest))));
  }

  lemma WriteRefines(s: State, op: SlimMirror.Op, now: Time, q: Queueing)
    requires MayWrite(s.db, op, now)
    ensures Refines(ToProtocol(s), Trace(s, Write(op, now, q)), ToProtocol(Next(s, Write(op, now, q))))
  {
    WritesAreAllowed(s.db, op, now);
    SlimMirror.WritesAreTransactions(s.db, op, now, q);
    hide ToBase, SlimMirror.After, SlimMirror.Permitted, Commit, Allowed;
    match SlimMirror.ToWrite(op)
    case None =>
    case Some(w) => OneStep(ToProtocol(s), SyncAtomic.Transaction(w, now, q));
  }

  lemma WritesAreAllowed(db: Db, op: SlimMirror.Op, now: Time)
    requires MayWrite(db, op, now)
    ensures SlimMirror.ToWrite(op).Some? ==> Allowed(ToBase(db), SlimMirror.ToWrite(op).value, now)
  {
  }

  lemma PurgeRefines(s: State, e: PurgeLog.Event)
    requires PurgeLog.Possible(s.db, e)
    ensures Refines(ToProtocol(s), Trace(s, Purge(e)), ToProtocol(Next(s, Purge(e))))
  {
    if e.step.Annotations? {
      hide ToBase, Commit;
      SlimMirror.PurgeIsTransaction(s.db, e.ids, e.now, e.queueing);
      MarkingIsAllowed(s.db, e);
      OneStep(ToProtocol(s), SyncAtomic.Transaction(MarkDeleted(e.ids), e.now, e.queueing));
    } else {
      OtherStepsKeepIds(s.db, e);
      PurgeLog.OtherStepsSpareAnnotations(s.db, e);
      hide PurgeLog.Apply;
      assert ToBase(PurgeLog.Apply(s.db, e)) == ToBase(s.db);
    }
  }

  lemma MarkingIsAllowed(db: Db, e: PurgeLog.Event)
    requires PurgeLog.Possible(db, e) && e.step.Annotations?
    ensures e.ids <= db.annotations.Keys && Allowed(ToBase(db), MarkDeleted(e.ids), e.now)
  {
  }

  /** Each step of the system is a run of the protocol. */
  lemma StepRefines(s: State, step: Step)
    requires Enabled(s, step)
    ensures Refines(ToProtocol(s), Trace(s, step), ToProtocol(Next(s, step)))
  {
    match step
    case Write(op, now, q) => WriteRefines(s, op, now, q);
    case Purge(e) => PurgeRefines(s, e);
    case AddToIndex(id) =>
      VisitedAreRows(s.db, id);
      IndexRefines(s.db, s.es, id);
    case DeleteFromIndex(id) => OneStep(ToProtocol(s), SyncAtomic.HandleDelete(id));
    case Sync(batch, lost) =>
      OneStep(ToProtocol(s), SyncAtomic.Sync(batch, lost));
      assert ToBase(Next(s, step).db) == SyncAtomic.AfterSync(ToProtocol(s), batch, lost).base;
  }

  function FullTrace(s: State, steps: seq<Step>): seq<SyncAtomic.Step>
    requires Legal(s, steps)
    decreases |steps|
  {
    if steps == [] then [] else Trace(s, steps[0]) + FullTrace(Next(s, steps[0]), steps[1..])
  }

  lemma {:induction false} RunRefines(s: State, steps: seq<Step>)
    requires Inv(s) && Legal(s, steps)
    ensures Refines(ToProtocol(s), FullTrace(s, steps), ToProtocol(Run(s, steps))) && Inv(Run(s, steps))
    decreases |steps|
  {
    hide Enabled, Next, Trace, Inv, ToProtocol;
    if steps == [] {
      assert Refines(ToProtocol(s), [], ToProtocol(s));
    } else {
      hide Refines;
      var s' := Next(s, steps[0]);
      StepRefines(s, steps[0]);
      StepKeepsInv(s, steps[0]);
      RunRefines(s', steps[1..]);
      TracesJoin(ToProtocol(s), Trace(s, steps[0]), ToProtocol(s'), FullTrace(s', steps[1..]), ToProtocol(Run(s', steps[1..])));
    }
  }

  lemma StartIsStart()
    ensures Inv(START) && ToProtocol(START) == SyncAtomic.START
  {
    assert ToBase(EMPTY) == Base(map[], {}, {});
  }

  /** Whatever writers, purges, index writers and `sync` do, in any order and with any writes
      of `sync` lost: the system follows a legal run of the protocol, so every annotation whose
      copies differ has a job that will notice; slim rows mirror, and threads stay ordered. */
  lemma SystemIsSafe(steps: seq<Step>)
    requires Legal(START, steps)
    ensures var s := Run(START, steps);
            && Refines(SyncAtomic.START, FullTrace(START, steps), ToProtocol(s))
            && Safe(ToBase(s.db).db, s.es, s.db.syncJobs)
            && Mirrored(s.db) && Consistent(s.db) && ThreadOrder(s.db)
  {
    StartIsStart();
    RunRefines(START, steps);
    SyncAtomic.SafeWithoutTiming(FullTrace(START, steps));
  }

  /** And once it is left alone, enough runs of `sync` make the views agree, and the contents as
      well exactly when no silent difference lacked its forced job. */
  lemma SystemConverges(steps: seq<Step>, limit: nat, batches: seq<set<SyncJob>>)
    requires Legal(START, steps) && limit >= 1
    requires SyncDrain.Batches(ToProtocol(Run(START, steps)), limit, batches)
    requires |batches| >= SyncDrain.Ceiling(2 * |Run(START, steps).db.syncJobs|, limit) + 2
    ensures var s, p := Run(START, steps), SyncDrain.AfterSyncs(ToProtocol(Run(START, steps)), batches);
            && p.base.jobs == {} && (forall id: Id :: EsView(p.es, id) == DbView(ToBase(s.db).db, id))
            && (SyncDrain.ContentsAgree(p) <==> SyncAtomic.ContentSafe(ToProtocol(s)))
  {
    SystemIsSafe(steps);
    hide Legal, Run, FullTrace;
    SyncDrain.SyncConverges(FullTrace(START, steps), limit, batches);
    SyncDrain.ContentsConvergeExactlyWhenSafe(FullTrace(START, steps), limit, batches);
  }
}
