/** The synchronisation protocol with time: transactions, index writes that are still in
    flight, and runs of `sync` interleave freely. */
module SyncTimed {
  import opened Options
  import opened AnnotationStore
  import opened Collections
  import opened SyncDecision
  import JobQueue

  /** An index write whose document was read from the database at `readAt` and has not
      landed yet; post-commit handlers, their retries, thread-root re-indexing and the bulk
      writes of `sync` are all of this form. */
  datatype Flight = Flight(key: nat, id: Id, doc: Doc, readAt: Time)

  datatype State = State(now: Time, base: Base, es: map<Id, Doc>, flights: set<Flight>)

  datatype Step =
    | Tick(time: Time)
    | Transaction(write: Write, stamp: Time, q: Queueing)
    | ReadForIndex(id: Id, key: nat)
    | DecideDelete(id: Id, key: nat)
    | Land(flight: Flight)
    | Lose(flight: Flight)
    | Sync(batch: set<SyncJob>, key: nat)

  function Start(time: Time): State {
    State(time, Base(map[], {}, {}), map[], {})
  }

  /** The longest time between a handler's database read and its index write, and between
      the moment a transaction schedules a job and its commit. */
  datatype Limits = Limits(maxFlight: nat, maxCommit: nat)

  predicate InTime(limits: Limits, now: Time, ids: set<Id>, stamp: Time, q: Queueing) {
    stamp <= now && forall id :: id in ids ==> now - limits.maxCommit <= Moment(q, id, stamp) <= now
  }

  predicate Enabled(limits: Limits, s: State, step: Step) {
    match step
    case Tick(time) => s.now <= time
    case Transaction(write, stamp, q) => Allowed(s.base, write, stamp) && InTime(limits, s.now, QueuedIds(write), stamp, q)
    case ReadForIndex(id, _) => LiveDoc(s.base.db, id).Some?
    case DecideDelete(id, _) => id in s.base.used && DbView(s.base.db, id).None?
    case Land(f) => f in s.flights && (f.doc.Tombstone? || s.now <= f.readAt + limits.maxFlight)
    case Lose(f) => f in s.flights
    case Sync(batch, _) => forall job :: job in batch ==> job in s.base.jobs && JobQueue.Visible(job, s.now)
  }

  function SyncFlights(s: State, batch: set<SyncJob>, key: nat): set<Flight> {
    var db := s.base.db;
    (set id | id in IdsToSync(db, s.es, batch) && LiveDoc(db, id).Some? :: Flight(key, id, LiveDoc(db, id).value, s.now))
    + (set id | id in IdsToDelete(db, s.es, batch) :: Flight(key, id, Tombstone, s.now))
  }

  function Next(limits: Limits, s: State, step: Step): State
    requires Enabled(limits, s, step)
  {
    match step
    case Tick(time) => s.(now := time)
    case Transaction(write, stamp, q) => s.(base := Commit(s.base, write, stamp, q))
    case ReadForIndex(id, key) => s.(flights := s.flights + {Flight(key, id, LiveDoc(s.base.db, id).value, s.now)})
    case DecideDelete(id, key) => s.(flights := s.flights + {Flight(key, id, Tombstone, s.now)})
    case Land(f) => s.(es := s.es[f.id := f.doc], flights := s.flights - {f})
    case Lose(f) => s.(flights := s.flights - {f})
    case Sync(batch, key) =>
      s.(base := s.base.(jobs := s.base.jobs - JobsToDelete(s.base.db, s.es, batch)),
         flights := s.flights + SyncFlights(s, batch, key))
  }

  predicate Legal(limits: Limits, s: State, steps: seq<Step>)
    decreases |steps|
  {
    steps == [] || (Enabled(limits, s, steps[0]) && Legal(limits, Next(limits, s, steps[0]), steps[1..]))
  }

  function Run(limits: Limits, s: State, steps: seq<Step>): State
    requires Legal(limits, s, steps)
    decreases |steps|
  {
    if steps == [] then s else Run(limits, Next(limits, s, steps[0]), steps[1..])
  }

  ghost predicate SafeState(s: State) {
    Safe(s.base.db, s.es, s.base.jobs)
  }

  // ----- The inductive invariant -----

  /** For how long after its commit the job of a transaction is invisible at least. */
  function Cover(limits: Limits): Time {
    SCHEDULE_IN - limits.maxCommit
  }

  predicate Stale(limits: Limits, s: State, f: Flight) {
    f.doc.Indexed? && s.now <= f.readAt + Cover(limits) && ViewOf(Some(f.doc)) != DbView(s.base.db, f.id)
  }

  /** A job that stays invisible for as long as `f` can still land. */
  ghost predicate Covered(limits: Limits, s: State, f: Flight) {
    exists job :: job in s.base.jobs && Watches(job, f.id) && job.scheduledAt >= f.readAt + Cover(limits)
  }

  ghost predicate FlightInv(limits: Limits, s: State, f: Flight) {
    && f.readAt <= s.now
    && f.id in s.base.used
    && (f.doc.Tombstone? ==> DbView(s.base.db, f.id).None?)
    && (Stale(limits, s, f) ==> Covered(limits, s, f))
  }

  ghost predicate Inv(limits: Limits, s: State) {
    && s.base.db.Keys <= s.base.used
    && s.es.Keys <= s.base.used
    && SafeState(s)
    && (forall f :: f in s.flights ==> FlightInv(limits, s, f))
  }

  lemma TransactionKeepsInv(limits: Limits, s: State, step: Step)
    requires step.Transaction? && Inv(limits, s) && Enabled(limits, s, step)
    ensures Inv(limits, Next(limits, s, step))
  {
    var s', write := Next(limits, s, step), step.write;
    forall id: Id | DbView(s'.base.db, id) != EsView(s'.es, id)
      ensures Watched(s'.base.jobs, id)
    {
      CommitWatchesItsChanges(s.base, write, step.stamp, step.q, id);
    }
    forall f | f in s'.flights
      ensures FlightInv(limits, s', f)
    {
      CommitWatchesItsChanges(s.base, write, step.stamp, step.q, f.id);
      if DbView(s.base.db, f.id).None? {
        DeletionIsFinal(s.base, write, step.stamp, step.q, f.id);
      }
      if DbView(s.base.db, f.id) != DbView(s'.base.db, f.id) {
        assert f.id in QueuedIds(write);
      }
    }
  }

  lemma LandKeepsInv(limits: Limits, s: State, f: Flight)
    requires Inv(limits, s) && Enabled(limits, s, Land(f)) && limits.maxFlight <= Cover(limits)
    ensures Inv(limits, Next(limits, s, Land(f)))
  {
    var s' := Next(limits, s, Land(f));
    assert FlightInv(limits, s, f);
    forall g | g in s'.flights
      ensures FlightInv(limits, s', g)
    {
      assert FlightInv(limits, s, g);
    }
  }

  lemma SyncKeepsInv(limits: Limits, s: State, batch: set<SyncJob>, key: nat)
    requires Inv(limits, s) && Enabled(limits, s, Sync(batch, key))
    ensures Inv(limits, Next(limits, s, Sync(batch, key)))
  {
    var s' := Next(limits, s, Sync(batch, key));
    forall id: Id | DbView(s'.base.db, id) != EsView(s'.es, id)
      ensures Watched(s'.base.jobs, id)
    {
      var job :| job in s.base.jobs && Watches(job, id);
      DecisionIsSound(s.base.db, s.es, job);
      assert job in s'.base.jobs;
    }
    forall f | f in s'.flights
      ensures FlightInv(limits, s', f)
    {
      if f in s.flights {
        assert FlightInv(limits, s, f);
        if Stale(limits, s, f) {
          var job :| job in s.base.jobs && Watches(job, f.id) && job.scheduledAt >= f.readAt + Cover(limits);
          assert !JobQueue.Visible(job, s.now);
          assert job in s'.base.jobs;
        }
      } else {
        NewFlightsAreFresh(limits, s, batch, key, f);
      }
    }
  }

  lemma NewFlightsAreFresh(limits: Limits, s: State, batch: set<SyncJob>, key: nat, f: Flight)
    requires Inv(limits, s) && f in SyncFlights(s, batch, key)
    ensures f.readAt == s.now && f.id in s.base.used && ViewOf(Some(f.doc)) == DbView(s.base.db, f.id)
  {
  }

  lemma StepKeepsInv(limits: Limits, s: State, step: Step)
    requires Inv(limits, s) && Enabled(limits, s, step) && limits.maxFlight + limits.maxCommit <= SCHEDULE_IN
    ensures Inv(limits, Next(limits, s, step))
  {
    match step
    case Transaction(_, _, _) => TransactionKeepsInv(limits, s, step);
    case Land(f) => LandKeepsInv(limits, s, f);
    case Sync(batch, key) => SyncKeepsInv(limits, s, batch, key);
    case _ =>
      var s' := Next(limits, s, step);
      forall f | f in s'.flights
        ensures FlightInv(limits, s', f)
      {
        assert f in s.flights ==> FlightInv(limits, s, f);
      }
  }

  lemma {:induction false} RunKeepsInv(limits: Limits, s: State, steps: seq<Step>)
    requires Inv(limits, s) && Legal(limits, s, steps) && limits.maxFlight + limits.maxCommit <= SCHEDULE_IN
    ensures Inv(limits, Run(limits, s, steps))
    decreases |steps|
  {
    if steps != [] {
      StepKeepsInv(limits, s, steps[0]);
      RunKeepsInv(limits, Next(limits, s, steps[0]), steps[1..]);
    }
  }

  // ----- The bound is exact -----

  /** A handler reads version 0 just before an update commits, `lag` after it scheduled its
      job; the update is indexed by its own handler, `sync` observes agreement and drops both
      jobs, and only then the old handler's write lands. */
  function SlowHandler(lag: nat): (steps: seq<Step>)
    ensures |steps| == 9
  {
    [ Transaction(Create(0, 0, TEXT0), 0, Promptly(0)),
      Tick(1 + lag),
      ReadForIndex(0, 0),
      Transaction(Update(0, TEXT1, true), 1, Promptly(1)),
      ReadForIndex(0, 1),
      Land(Flight(1, 0, Indexed(1, 0, TEXT1), 1 + lag)),
      Tick(SCHEDULE_IN + 2),
      Sync({NewJob(Promptly(0), 0, false, 0, SCHEDULE_IN), NewJob(Promptly(1), 0, false, 1, SCHEDULE_IN)}, 2),
      Land(Flight(0, 0, Indexed(0, 0, TEXT0), 1 + lag)) ]
  }

  /** The states of that run, one per step. */
  function SlowState(lag: nat, k: nat): State {
    var job0, job1 := NewJob(Promptly(0), 0, false, 0, SCHEDULE_IN), NewJob(Promptly(1), 0, false, 1, SCHEDULE_IN);
    var row0, row1 := Row(0, 0, TEXT0, false), Row(1, 0, TEXT1, false);
    var slow, prompt := Flight(0, 0, DocOf(row0), 1 + lag), Flight(1, 0, DocOf(row1), 1 + lag);
    var before, after := Base(map[0 := row0], {job0}, {0}), Base(map[0 := row1], {job0, job1}, {0});
    if k == 0 then Start(0)
    else if k == 1 then State(0, before, map[], {})
    else if k == 2 then State(1 + lag, before, map[], {})
    else if k == 3 then State(1 + lag, before, map[], {slow})
    else if k == 4 then State(1 + lag, after, map[], {slow})
    else if k == 5 then State(1 + lag, after, map[], {slow, prompt})
    else if k == 6 then State(1 + lag, after, map[0 := DocOf(row1)], {slow})
    else if k == 7 then State(SCHEDULE_IN + 2, after, map[0 := DocOf(row1)], {slow})
    else if k == 8 then State(SCHEDULE_IN + 2, after.(jobs := {}), map[0 := DocOf(row1)], {slow})
    else State(SCHEDULE_IN + 2, after.(jobs := {}), map[0 := DocOf(row0)], {})
  }

  /** The lag that run uses; nothing is gained by a longer one. */
  function Lag(limits: Limits): nat {
    Min(limits.maxCommit, SCHEDULE_IN + 1)
  }

  lemma SlowCreate(limits: Limits, lag: nat)
    ensures Enabled(limits, SlowState(lag, 0), SlowHandler(lag)[0])
    ensures Next(limits, SlowState(lag, 0), SlowHandler(lag)[0]) == SlowState(lag, 1)
  {
    hide JobQueue.Visible, SyncFlights;
  }

  lemma SlowUpdate(limits: Limits, lag: nat)
    requires lag <= limits.maxCommit
    ensures Enabled(limits, SlowState(lag, 3), SlowHandler(lag)[3])
    ensures Next(limits, SlowState(lag, 3), SlowHandler(lag)[3]) == SlowState(lag, 4)
  {
    hide JobQueue.Visible, SyncFlights;
  }

  lemma SlowSync(limits: Limits, lag: nat)
    ensures Enabled(limits, SlowState(lag, 7), SlowHandler(lag)[7])
    ensures Next(limits, SlowState(lag, 7), SlowHandler(lag)[7]) == SlowState(lag, 8)
  {
    var s := SlowState(lag, 7);
    var batch := SlowHandler(lag)[7].batch;
    assert JobsToDelete(s.base.db, s.es, batch) == batch;
    assert SyncFlights(s, batch, 2) == {};
  }

  lemma SlowIndexing(limits: Limits, lag: nat, k: nat)
    requires k in {1, 2, 4, 5, 6} && lag <= SCHEDULE_IN + 1
    ensures Enabled(limits, SlowState(lag, k), SlowHandler(lag)[k])
    ensures Next(limits, SlowState(lag, k), SlowHandler(lag)[k]) == SlowState(lag, k + 1)
  {
    hide JobQueue.Visible, SyncFlights, Commit;
  }

  lemma SlowLanding(limits: Limits, lag: nat)
    requires limits.maxFlight + lag > SCHEDULE_IN
    ensures Enabled(limits, SlowState(lag, 8), SlowHandler(lag)[8])
    ensures Next(limits, SlowState(lag, 8), SlowHandler(lag)[8]) == SlowState(lag, 9)
  {
    hide JobQueue.Visible, SyncFlights, Commit;
  }

  lemma SlowStep(limits: Limits, k: nat)
    requires limits.maxFlight + limits.maxCommit > SCHEDULE_IN && k < 9
    ensures var lag := Lag(limits);
            && Enabled(limits, SlowState(lag, k), SlowHandler(lag)[k])
            && Next(limits, SlowState(lag, k), SlowHandler(lag)[k]) == SlowState(lag, k + 1)
  {
    hide SlowState, SlowHandler, Enabled, Next;
    var lag := Lag(limits);
    if k == 0 {
      SlowCreate(limits, lag);
    } else if k == 3 {
      SlowUpdate(limits, lag);
    } else if k == 7 {
      SlowSync(limits, lag);
    } else if k == 8 {
      SlowLanding(limits, lag);
    } else {
      SlowIndexing(limits, lag, k);
    }
  }

  lemma {:induction false} SlowRun(limits: Limits, k: nat)
    requires limits.maxFlight + limits.maxCommit > SCHEDULE_IN && k <= 9
    ensures var lag := Lag(limits);
            && Legal(limits, SlowState(lag, k), SlowHandler(lag)[k..])
            && Run(limits, SlowState(lag, k), SlowHandler(lag)[k..]) == SlowState(lag, 9)
    decreases 9 - k
  {
    if k < 9 {
      hide SlowState, Enabled, Next;
      var steps := SlowHandler(Lag(limits));
      SlowStep(limits, k);
      SlowRun(limits, k + 1);
      assert steps[k..][1..] == steps[k + 1..] && steps[k..][0] == steps[k];
    }
  }

  lemma SlowHandlerIsUnsafe(limits: Limits)
    requires limits.maxFlight + limits.maxCommit > SCHEDULE_IN
    ensures Legal(limits, Start(0), SlowHandler(Lag(limits)))
    ensures !SafeState(Run(limits, Start(0), SlowHandler(Lag(limits))))
  {
    var lag := Lag(limits);
    SlowRun(limits, 0);
    assert SlowHandler(lag)[0..] == SlowHandler(lag);
    SlowEnd(lag);
    hide Run, Legal, SlowHandler;
    assert SlowState(lag, 0) == Start(0);
  }

  lemma SlowEnd(lag: nat)
    ensures !SafeState(SlowState(lag, 9))
  {
    var s := SlowState(lag, 9);
    assert DbView(s.base.db, 0) != EsView(s.es, 0) && !Watched(s.base.jobs, 0);
  }

  /** No run ever reaches a state in which the copies of some annotation differ and no
      non-forced job is queued for it, exactly when the time from a transaction's first
      scheduled job to its commit and the time from a handler's read to its index write
      together fit into the minute for which the job is held back. */
  lemma SafeExactlyWhenHandlersAreFast(limits: Limits)
    ensures (forall time, steps :: Legal(limits, Start(time), steps) ==> SafeState(Run(limits, Start(time), steps)))
            <==> limits.maxFlight + limits.maxCommit <= SCHEDULE_IN
  {
    if limits.maxFlight + limits.maxCommit <= SCHEDULE_IN {
      forall time, steps | Legal(limits, Start(time), steps)
        ensures SafeState(Run(limits, Start(time), steps))
      {
        RunKeepsInv(limits, Start(time), steps);
      }
    } else {
      SlowHandlerIsUnsafe(limits);
    }
  }
}
