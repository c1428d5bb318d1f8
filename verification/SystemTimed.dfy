/** The services on one database, with time: transactions take a while, and index writes land
    some time after the read they are based on. */
module SystemTimed {
  import opened Options
  import opened AnnotationStore
  import opened Tables
  import SlimMirror
  import PurgeLog
  import SyncTimed
  import SystemRuns

  datatype State = State(now: Time, db: Db, es: map<Id, Doc>, flights: set<SyncTimed.Flight>)

  /** Everything but the transactions is a step of the protocol itself: the clock, the reads and
      writes of handlers, which index a thread one annotation after another, and `sync`. */
  datatype Step =
    | Write(op: SlimMirror.Op, stamp: Time, q: Queueing)
    | Purge(event: PurgeLog.Event)
    | Protocol(step: SyncTimed.Step)

  function Start(time: Time): State {
    State(time, EMPTY, map[], {})
  }

  function ToProtocol(s: State): SyncTimed.State {
    SyncTimed.State(s.now, ToBase(s.db), s.es, s.flights)
  }

  function QueuedBy(op: SlimMirror.Op): set<Id> {
    match SlimMirror.ToWrite(op)
    case None => {}
    case Some(w) => QueuedIds(w)
  }

  predicate Enabled(limits: SyncTimed.Limits, s: State, step: Step) {
    match step
    case Write(op, stamp, q) =>
      SystemRuns.MayWrite(s.db, op, stamp) && SyncTimed.InTime(limits, s.now, QueuedBy(op), stamp, q)
    case Purge(e) =>
      && PurgeLog.Possible(s.db, e)
      && (e.step.Annotations? ==> SyncTimed.InTime(limits, s.now, e.ids, e.now, e.queueing))
    case Protocol(p) => !p.Transaction? && SyncTimed.Enabled(limits, ToProtocol(s), p)
  }

  function Next(limits: SyncTimed.Limits, s: State, step: Step): State
    requires Enabled(limits, s, step)
  {
    match step
    case Write(op, stamp, q) => s.(db := SlimMirror.After(s.db, op, stamp, q))
    case Purge(e) => s.(db := PurgeLog.Apply(s.db, e))
    case Protocol(p) =>
      var after := SyncTimed.Next(limits, ToProtocol(s), p);
      State(after.now, s.db.(syncJobs := after.base.jobs), after.es, after.flights)
  }

  predicate Legal(limits: SyncTimed.Limits, s: State, steps: seq<Step>)
    decreases |steps|
  {
    steps == [] || (Enabled(limits, s, steps[0]) && Legal(limits, Next(limits, s, steps[0]), steps[1..]))
  }

  function Run(limits: SyncTimed.Limits, s: State, steps: seq<Step>): State
    requires Legal(limits, s, steps)
    decreases |steps|
  {
    if steps == [] then s else Run(limits, Next(limits, s, steps[0]), steps[1..])
  }

  ghost predicate SafeState(s: State) {
    Safe(ToBase(s.db).db, s.es, s.db.syncJobs)
  }

  // ----- Refinement -----

  /** The protocol step that a step of the system amounts to, if it is visible at all. */
  function ToStep(step: Step): Option<SyncTimed.Step> {
    match step
    case Write(op, stamp, q) =>
      (match SlimMirror.ToWrite(op) case None => None case Some(w) => Some(SyncTimed.Transaction(w, stamp, q)))
    case Purge(e) =>
      if e.step.Annotations? then Some(SyncTimed.Transaction(MarkDeleted(e.ids), e.now, e.queueing)) else None
    case Protocol(p) => Some(p)
  }

  ghost predicate Follows(limits: SyncTimed.Limits, p: SyncTimed.State, step: Option<SyncTimed.Step>, p': SyncTimed.State) {
    match step
    case None => p' == p
    case Some(s) => SyncTimed.Enabled(limits, p, s) && p' == SyncTimed.Next(limits, p, s)
  }

  lemma WriteFollows(limits: SyncTimed.Limits, s: State, op: SlimMirror.Op, stamp: Time, q: Queueing)
    requires Enabled(limits, s, Write(op, stamp, q))
    ensures Follows(limits, ToProtocol(s), ToStep(Write(op, stamp, q)), ToProtocol(Next(limits, s, Write(op, stamp, q))))
  {
    SystemRuns.WritesAreAllowed(s.db, op, stamp);
    SlimMirror.WritesAreTransactions(s.db, op, stamp, q);
    hide ToBase, SlimMirror.After, SlimMirror.Permitted, Commit, Allowed, SyncTimed.InTime;
  }

  lemma PurgeFollows(limits: SyncTimed.Limits, s: State, e: PurgeLog.Event)
    requires Enabled(limits, s, Purge(e))
    ensures Follows(limits, ToProtocol(s), ToStep(Purge(e)), ToProtocol(Next(limits, s, Purge(e))))
  {
    if e.step.Annotations? {
      SystemRuns.MarkingIsAllowed(s.db, e);
      SlimMirror.PurgeIsTransaction(s.db, e.ids, e.now, e.queueing);
      hide ToBase, Commit, SyncTimed.InTime;
    } else {
      SystemRuns.OtherStepsKeepIds(s.db, e);
      PurgeLog.OtherStepsSpareAnnotations(s.db, e);
      hide PurgeLog.Apply;
      assert ToBase(PurgeLog.Apply(s.db, e)) == ToBase(s.db);
    }
  }

  lemma ProtocolFollows(limits: SyncTimed.Limits, s: State, p: SyncTimed.Step)
    requires !p.Transaction? && SyncTimed.Enabled(limits, ToProtocol(s), p)
    ensures ToProtocol(Next(limits, s, Protocol(p))) == SyncTimed.Next(limits, ToProtocol(s), p)
  {
  }

  /** Each step of the system is one step of the timed protocol, or invisible to it. */
  lemma StepFollows(limits: SyncTimed.Limits, s: State, step: Step)
    requires Enabled(limits, s, step)
    ensures Follows(limits, ToProtocol(s), ToStep(step), ToProtocol(Next(limits, s, step)))
  {
    match step
    case Write(op, stamp, q) => WriteFollows(limits, s, op, stamp, q);
    case Purge(e) => PurgeFollows(limits, s, e);
    case Protocol(p) => ProtocolFollows(limits, s, p);
  }

  lemma {:induction false} RunKeepsInv(limits: SyncTimed.Limits, s: State, steps: seq<Step>)
    requires SyncTimed.Inv(limits, ToProtocol(s)) && Legal(limits, s, steps)
    requires limits.maxFlight + limits.maxCommit <= SCHEDULE_IN
    ensures SyncTimed.Inv(limits, ToProtocol(Run(limits, s, steps)))
    decreases |steps|
  {
    hide Enabled, Next, SyncTimed.Enabled, SyncTimed.Next, SyncTimed.Inv, ToProtocol, ToStep;
    if steps != [] {
      StepFollows(limits, s, steps[0]);
      if ToStep(steps[0]).Some? {
        SyncTimed.StepKeepsInv(limits, ToProtocol(s), ToStep(steps[0]).value);
      }
      RunKeepsInv(limits, Next(limits, s, steps[0]), steps[1..]);
    }
  }

  lemma SafeWhenFast(limits: SyncTimed.Limits, time: Time, steps: seq<Step>)
    requires Legal(limits, Start(time), steps) && limits.maxFlight + limits.maxCommit <= SCHEDULE_IN
    ensures SafeState(Run(limits, Start(time), steps))
  {
    assert ToBase(EMPTY) == Base(map[], {}, {});
    RunKeepsInv(limits, Start(time), steps);
  }

  // ----- The bound is exact for the services as well -----

  lemma {:induction false} RunsJoin(limits: SyncTimed.Limits, s: State, a: seq<Step>, b: seq<Step>)
    requires Legal(limits, s, a) && Legal(limits, Run(limits, s, a), b)
    ensures Legal(limits, s, a + b) && Run(limits, s, a + b) == Run(limits, Run(limits, s, a), b)
    decreases |a|
  {
    hide Enabled, Next;
    if a == [] {
      assert a + b == b;
    } else {
      assert (a + b)[1..] == a[1..] + b && (a + b)[0] == a[0];
      RunsJoin(limits, Next(limits, s, a[0]), a[1..], b);
    }
  }

  function Lift(steps: seq<SyncTimed.Step>): seq<Step> {
    if steps == [] then [] else [Protocol(steps[0])] + Lift(steps[1..])
  }

  predicate NoTransaction(steps: seq<SyncTimed.Step>) {
    forall i :: 0 <= i < |steps| ==> !steps[i].Transaction?
  }

  /** Steps of the protocol other than transactions run as they are, and touch only jobs. */
  lemma {:induction false} LiftedRun(limits: SyncTimed.Limits, s: State, steps: seq<SyncTimed.Step>)
    requires SyncTimed.Legal(limits, ToProtocol(s), steps) && NoTransaction(steps)
    ensures Legal(limits, s, Lift(steps))
    ensures var s' := Run(limits, s, Lift(steps));
            ToProtocol(s') == SyncTimed.Run(limits, ToProtocol(s), steps) && s'.db == s.db.(syncJobs := s'.db.syncJobs)
    decreases |steps|
  {
    hide SyncTimed.Enabled, SyncTimed.Next, ToProtocol;
    if steps != [] {
      ProtocolFollows(limits, s, steps[0]);
      LiftedRun(limits, Next(limits, s, Protocol(steps[0])), steps[1..]);
      assert Lift(steps)[1..] == Lift(steps[1..]) && Lift(steps)[0] == Protocol(steps[0]);
    }
  }

  /** One write whose protocol transaction is `step`. */
  lemma WriteRun(limits: SyncTimed.Limits, s: State, op: SlimMirror.Op, stamp: Time, q: Queueing)
    requires Enabled(limits, s, Write(op, stamp, q))
    ensures var steps := [Write(op, stamp, q)];
            && Legal(limits, s, steps)
            && Run(limits, s, steps) == Next(limits, s, Write(op, stamp, q))
            && Follows(limits, ToProtocol(s), ToStep(Write(op, stamp, q)), ToProtocol(Run(limits, s, steps)))
  {
    StepFollows(limits, s, Write(op, stamp, q));
    hide Enabled, Next, Follows;
    var steps, s' := [Write(op, stamp, q)], Next(limits, s, Write(op, stamp, q));
    assert steps[1..] == [] && Legal(limits, s', []) && Run(limits, s', []) == s';
  }

  const ANNOTATION := Annotation(0, 0, 0, 0, 0, TEXT0, false, 0, [])

  /** The annotation is created ... */
  lemma SlowBeginning(limits: SyncTimed.Limits) returns (steps: seq<Step>)
    ensures Legal(limits, Start(0), steps)
    ensures var s := Run(limits, Start(0), steps);
            && ToProtocol(s) == SyncTimed.SlowState(SyncTimed.Lag(limits), 1)
            && UniqueKeys(s.db.users, s.db.groups) && 0 in s.db.documents && 0 in s.db.annotations
  {
    var lag := SyncTimed.Lag(limits);
    assert ToBase(EMPTY) == Base(map[], {}, {});
    var first, create := SlimMirror.AddDocument(0), SlimMirror.Op.Create(0, ANNOTATION);
    WriteRun(limits, Start(0), first, 0, Promptly(9));
    var s1 := Next(limits, Start(0), Write(first, 0, Promptly(9)));
    assert s1 == State(0, EMPTY.(documents := {0}), map[], {});
    assert ToProtocol(s1) == SyncTimed.Start(0) by {
      assert ToBase(s1.db) == Base(map[], {}, {});
    }
    WriteRun(limits, s1, create, 0, Promptly(0));
    SyncTimed.SlowCreate(limits, lag);
    CreatedTables(s1.db);
    RunsJoin(limits, Start(0), [Write(first, 0, Promptly(9))], [Write(create, 0, Promptly(0))]);
    steps := [Write(first, 0, Promptly(9))] + [Write(create, 0, Promptly(0))];
  }

  lemma CreatedTables(db: Db)
    requires db == EMPTY.(documents := {0})
    ensures var db' := SlimMirror.Created(db, 0, ANNOTATION, Promptly(0));
            UniqueKeys(db'.users, db'.groups) && 0 in db'.documents && 0 in db'.annotations
  {
  }

  lemma SlowMiddle(limits: SyncTimed.Limits)
    requires limits.maxFlight + limits.maxCommit > SCHEDULE_IN
    ensures var lag, middle := SyncTimed.Lag(limits), SyncTimed.SlowHandler(SyncTimed.Lag(limits))[1..3];
            && SyncTimed.Legal(limits, SyncTimed.SlowState(lag, 1), middle)
            && SyncTimed.Run(limits, SyncTimed.SlowState(lag, 1), middle) == SyncTimed.SlowState(lag, 3)
  {
    var lag, plan := SyncTimed.Lag(limits), SyncTimed.SlowHandler(SyncTimed.Lag(limits));
    var middle := plan[1..3];
    SyncTimed.SlowStep(limits, 1);
    SyncTimed.SlowStep(limits, 2);
    hide SyncTimed.Enabled, SyncTimed.Next, SyncTimed.SlowState, SyncTimed.SlowHandler;
    assert middle[0] == plan[1] && middle[1..][0] == plan[2] && middle[1..][1..] == [];
    var s3 := SyncTimed.SlowState(lag, 3);
    assert SyncTimed.Legal(limits, s3, []) && SyncTimed.Run(limits, s3, []) == s3;
    assert SyncTimed.Legal(limits, SyncTimed.SlowState(lag, 2), middle[1..]);
  }

  lemma UpdateIsEnabled(limits: SyncTimed.Limits, s: State, lag: nat)
    requires ToProtocol(s) == SyncTimed.SlowState(lag, 3) && lag <= limits.maxCommit
    requires UniqueKeys(s.db.users, s.db.groups) && 0 in s.db.documents && 0 in s.db.annotations
    ensures Enabled(limits, s, Write(SlimMirror.Op.Update(0, TEXT1, 0, true), 1, Promptly(1)))
    ensures ToStep(Write(SlimMirror.Op.Update(0, TEXT1, 0, true), 1, Promptly(1))) == Some(SyncTimed.SlowHandler(lag)[3])
  {
  }

  /** ... and updated while a handler already holds its first version ... */
  lemma SlowUpdate(limits: SyncTimed.Limits) returns (steps: seq<Step>)
    requires limits.maxFlight + limits.maxCommit > SCHEDULE_IN
    ensures Legal(limits, Start(0), steps)
    ensures ToProtocol(Run(limits, Start(0), steps)) == SyncTimed.SlowState(SyncTimed.Lag(limits), 4)
  {
    var lag, update := SyncTimed.Lag(limits), Write(SlimMirror.Op.Update(0, TEXT1, 0, true), 1, Promptly(1));
    var beginning := SlowBeginning(limits);
    var s1 := Run(limits, Start(0), beginning);
    var middle := SyncTimed.SlowHandler(lag)[1..3];
    SlowMiddle(limits);
    LiftedRun(limits, s1, middle);
    RunsJoin(limits, Start(0), beginning, Lift(middle));
    var s3 := Run(limits, s1, Lift(middle));
    SyncTimed.SlowUpdate(limits, lag);
    UpdateIsEnabled(limits, s3, lag);
    hide Legal, Run, Enabled, ToProtocol, SyncTimed.Enabled, SyncTimed.SlowState, SyncTimed.SlowHandler;
    WriteRun(limits, s3, update.op, update.stamp, update.q);
    RunsJoin(limits, Start(0), beginning + Lift(middle), [update]);
    steps := beginning + Lift(middle) + [update];
  }

  /** ... which writes it long after the jobs are gone. */
  lemma SlowSystem(limits: SyncTimed.Limits) returns (steps: seq<Step>)
    requires limits.maxFlight + limits.maxCommit > SCHEDULE_IN
    ensures Legal(limits, Start(0), steps)
    ensures ToProtocol(Run(limits, Start(0), steps)) == SyncTimed.SlowState(SyncTimed.Lag(limits), 9)
  {
    var update := SlowUpdate(limits);
    var ending := SyncTimed.SlowHandler(SyncTimed.Lag(limits))[4..];
    SyncTimed.SlowRun(limits, 4);
    assert NoTransaction(ending);
    hide Legal, Run, ToProtocol, SyncTimed.Legal, SyncTimed.Run, SyncTimed.SlowState, SyncTimed.SlowHandler;
    LiftedRun(limits, Run(limits, Start(0), update), ending);
    RunsJoin(limits, Start(0), update, Lift(ending));
    steps := update + Lift(ending);
  }

  /** The system is safe in every run, exactly when commits and index writes together take no
      longer than the minute for which jobs are held back. */
  lemma SystemIsSafeExactlyWhenFast(limits: SyncTimed.Limits)
    ensures (forall time, steps :: Legal(limits, Start(time), steps) ==> SafeState(Run(limits, Start(time), steps)))
            <==> limits.maxFlight + limits.maxCommit <= SCHEDULE_IN
  {
    hide Legal, Run, SafeState;
    if limits.maxFlight + limits.maxCommit <= SCHEDULE_IN {
      forall time, steps | Legal(limits, Start(time), steps)
        ensures SafeState(Run(limits, Start(time), steps))
      {
        SafeWhenFast(limits, time, steps);
      }
    } else {
      var steps := SlowSystem(limits);
      SyncTimed.SlowEnd(SyncTimed.Lag(limits));
      UnsafeEnd(Run(limits, Start(0), steps), SyncTimed.Lag(limits));
    }
  }

  lemma UnsafeEnd(s: State, lag: nat)
    requires ToProtocol(s) == SyncTimed.SlowState(lag, 9) && !SyncTimed.SafeState(SyncTimed.SlowState(lag, 9))
    ensures !SafeState(s)
  {
    assert ToBase(s.db).jobs == s.db.syncJobs;
  }
}
