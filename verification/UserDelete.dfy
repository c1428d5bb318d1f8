/** `UserDeleteService.purge_deleted_users`, statement by statement. */
module UserDelete {
  import opened Options
  import opened AnnotationStore
  import opened Collections
  import opened JobQueue
  import opened Tables
  import opened SlimMirror
  import opened PurgeLog
  import opened PurgeRuns

  /** Executes statements until it has affected `limit` rows. */
  class LimitedWorker {
    var limit: int

    constructor (limit: int)
      ensures this.limit == limit
    {
      this.limit := limit;
    }

    /** `None` stands for `LimitReached`; which rows LIMIT picks is unspecified. */
    method Execute(selected: set<nat>) returns (affected: Option<set<nat>>)
      modifies this
      ensures affected.None? <==> old(limit) < 1
      ensures affected.None? ==> limit == old(limit)
      ensures affected.Some? ==>
                && affected.value <= selected
                && |affected.value| == Min(old(limit), |selected|)
                && limit == old(limit) - |affected.value|
    {
      if limit < 1 {
        return None;
      }
      SubsetOfSize(selected, Min(limit, |selected|));
      var ids :| ids <= selected && |ids| == Min(limit, |selected|);
      limit := limit - |ids|;
      affected := Some(ids);
    }
  }

  // ----- What one statement achieves -----

  lemma WholeSet(s: set<nat>, part: set<nat>)
    requires part <= s && |part| == |s|
    ensures part == s
  {
    assert s == part + (s - part);
  }

  lemma OwnedGone(owners: map<Pk, Pk>, user: Pk)
    ensures OwnedBy(owners - OwnedBy(owners, user), user) == {}
  {
  }

  lemma FlagsGone(flags: map<Pk, Flag>, user: Pk)
    ensures FlagsBy(flags - FlagsBy(flags, user), user) == {}
  {
  }

  lemma MembershipsGone(memberships: map<Pk, Membership>, groups: map<Pk, Group>, user: Pk)
    ensures MembershipsOf(memberships - MembershipsOf(memberships, groups, user), groups, user) == {}
  {
  }

  lemma LeavesGone(db: Db, t: Target, step: Step)
    requires LosesLeaves(step)
    ensures Rows(DeleteLeaves(db, step, Rows(db, t, step)), t, step) == {}
  {
    hide OwnedBy, FlagsBy, MembershipsOf, LiveBy, EmptyAmong, CreatedBy;
    match step
    case AuthTickets => OwnedGone(db.authTickets, t.pk);
    case Tokens => OwnedGone(db.tokens, t.pk);
    case Flags => FlagsGone(db.flags, t.pk);
    case CohortMemberships => OwnedGone(db.cohortUsers, t.pk);
    case GroupMemberships => MembershipsGone(db.memberships, db.groups, t.pk);
  }

  lemma AnnotationsGone(db: Db, t: Target, now: Time, q: Queueing)
    ensures Rows(MarkedDeleted(db, Rows(db, t, Annotations), now, q), t, Annotations) == {}
  {
  }

  lemma GroupsGone(db: Db, t: Target)
    ensures Rows(DeleteGroups(db, Rows(db, t, Groups)), t, Groups) == {}
    ensures Rows(RemoveCreators(db, Rows(db, t, GroupCreators)), t, GroupCreators) == {}
  {
  }

  lemma AccountGone(db: Db, t: Target)
    ensures Rows(DeleteUsers(db, Rows(db, t, Account)), t, Account) == {}
  {
  }

  /** A statement that affected every selected row has nothing left to select. */
  lemma AllRowsGone(db: Db, e: Event)
    requires e.ids == Rows(db, e.target, e.step)
    ensures Rows(Apply(db, e), e.target, e.step) == {}
  {
    hide Rows, MarkedDeleted, DeleteGroups, DeleteUsers, RemoveCreators, DeleteLeaves;
    match e.step
    case Annotations => AnnotationsGone(db, e.target, e.now, e.queueing);
    case Groups => GroupsGone(db, e.target);
    case GroupCreators => GroupsGone(db, e.target);
    case Account => AccountGone(db, e.target);
    case _ => LeavesGone(db, e.target, e.step);
  }

  /** Budget that is left over proves that the rows are exhausted; the last step affects at
      most one row, so it is exhausted in any case. */
  lemma LeftoverMeansExhausted(db: Db, e: Event, budget: int)
    requires Possible(db, e) && |e.ids| == Min(budget, |Rows(db, e.target, e.step)|)
    requires budget > |e.ids| || (e.step.Account? && budget >= 1)
    requires ExhaustedBefore(db, e.target, Order(e.step))
    ensures ExhaustedBefore(Apply(db, e), e.target, Order(e.step) + 1)
  {
    hide UsersDeletable, OwnedBy, FlagsBy, LiveBy, EmptyAmong, CreatedBy, MembershipsOf, Apply;
    assert |Rows(db, e.target, e.step)| <= 1 || !e.step.Account? by {
      SmallAccount(db, e.target);
    }
    WholeSet(Rows(db, e.target, e.step), e.ids);
    AllRowsGone(db, e);
    hide Rows;
    EventKeepsExhausted(db, e, e.target, Order(e.step));
    forall step: Step | Order(step) < Order(e.step) + 1
      ensures Rows(Apply(db, e), e.target, step) == {}
    {
      assert Order(step) < Order(e.step) || step == e.step;
    }
  }

  lemma SmallAccount(db: Db, t: Target)
    ensures |Rows(db, t, Account)| <= 1
  {
    assert {t.pk} * db.users.Keys <= {t.pk};
    if t.pk in db.users {
      assert {t.pk} * db.users.Keys == {t.pk};
    } else {
      assert {t.pk} * db.users.Keys == {};
    }
  }

  /** When the ninth step runs, no key without a cascade points at the user any more. */
  lemma AccountIsDeletable(db: Db, t: Target)
    requires Consistent(db) && ExhaustedBefore(db, t, 8)
    ensures UsersDeletable(db, {t.pk})
  {
    assert Rows(db, t, CohortMemberships) == {} && Rows(db, t, GroupMemberships) == {} && Rows(db, t, GroupCreators) == {};
    assert OwnedBy(db.cohortUsers, t.pk) == {};
    assert MembershipsOf(db.memberships, db.groups, t.pk) == {};
    assert CreatedBy(db.groups, t.pk) == {};
    forall pk | pk in db.memberships
      ensures db.memberships[pk].user != t.pk
    {
      assert pk !in MembershipsOf(db.memberships, db.groups, t.pk);
    }
    forall pk | pk in db.cohortUsers
      ensures db.cohortUsers[pk] != t.pk
    {
      assert pk !in OwnedBy(db.cohortUsers, t.pk);
    }
    forall pk | pk in db.groups && db.groups[pk].creator.Some?
      ensures db.groups[pk].creator.value != t.pk
    {
      assert pk !in CreatedBy(db.groups, t.pk);
    }
  }

  // ----- The periodic purge -----

  lemma OtherWritesKeepUsers(db: Db, step: Step, ids: set<nat>, now: Time, q: Queueing)
    ensures MarkedDeleted(db, ids, now, q).users == db.users && DeleteGroups(db, ids).users == db.users
    ensures RemoveCreators(db, ids).users == db.users && DeleteLeaves(db, step, ids).users == db.users
  {
  }

  lemma UsersAfter(db: Db, e: Event)
    ensures Apply(db, e).users == (if e.step.Account? then db.users - e.ids else db.users)
  {
    OtherWritesKeepUsers(db, e.step, e.ids, e.now, e.queueing);
    assert e.step.Account? ==> DeleteUsers(db, e.ids).users == db.users - e.ids;
    hide MarkedDeleted, DeleteGroups, DeleteUsers, RemoveCreators, DeleteLeaves;
  }

  /** The event of one statement that affects `ids`, on a budget of at least one. */
  lemma StatementIsPossible(db: Db, e: Event)
    requires Inv(db) && ExhaustedBefore(db, e.target, Order(e.step)) && e.ids <= Rows(db, e.target, e.step)
    requires FreshKey(db.syncJobs, e.queueing.key) && QueuedAfter(e.queueing, e.ids, e.now)
    ensures Possible(db, e)
  {
    hide ExhaustedBefore;
    if e.step.Account? {
      AccountIsDeletable(db, e.target);
    }
  }

  predicate KeysBelow(jobs: set<SyncJob>, key: nat) {
    forall job :: job in jobs ==> job.key < key
  }

  lemma KeysBelowAreFresh(jobs: set<SyncJob>, key: nat)
    requires KeysBelow(jobs, key)
    ensures FreshKey(jobs, key)
  {
  }

  lemma EventKeepsKeys(db: Db, e: Event)
    requires KeysBelow(db.syncJobs, e.queueing.key)
    ensures KeysBelow(Apply(db, e).syncJobs, e.queueing.key + 1)
    ensures !e.step.Annotations? ==> KeysBelow(Apply(db, e).syncJobs, e.queueing.key)
  {
    if !e.step.Annotations? {
      OtherStepsSpareAnnotations(db, e);
      hide Apply;
    }
  }

  /** What a run started from, and whom it may purge. */
  datatype Plan = Plan(start: Db, budget: int, targets: set<Target>)

  lemma LogGrows(plan: Plan, log: seq<Event>, e: Event)
    requires Respects(plan.start, plan.budget, log) && plan.budget - Charged(log) >= 1
    requires Possible(Replay(plan.start, log), e)
    requires |e.ids| == Min(plan.budget - Charged(log), |Rows(Replay(plan.start, log), e.target, e.step)|)
    requires Victims(log, plan.targets) && e.target in plan.targets
    ensures Respects(plan.start, plan.budget, log + [e]) && Replay(plan.start, log + [e]) == Apply(Replay(plan.start, log), e)
    ensures Charged(log + [e]) == Charged(log) + |e.ids| && Victims(log + [e], plan.targets)
  {
    hide Possible, Rows, Apply;
    var mid := Replay(plan.start, log);
    RespectsSplits(plan.start, plan.budget, log, [e]);
    ReplaySplits(plan.start, log, [e]);
    assert Respects(Apply(mid, e), plan.budget - Charged(log) - |e.ids|, []);
    assert Replay(mid, [e]) == Replay(Apply(mid, e), []);
    assert Charged([e]) == |e.ids| + Charged([]);
  }

  lemma AccountRows(db: Db, t: Target, ids: set<nat>)
    requires ids <= Rows(db, t, Account) && |ids| == |Rows(db, t, Account)|
    ensures db.users - ids == db.users - {t.pk}
  {
    WholeSet(Rows(db, t, Account), ids);
  }

  /** What the local cache of one run may hold: rows as they were when the run began. */
  predicate CacheAgrees(cache: map<UserId, Option<Pk>>, start: Db, db: Db) {
    forall userid :: userid in cache ==>
      match cache[userid]
      case Some(pk) => pk in start.users && start.users[pk].userid == userid
      case None => NoUser(db, userid)
  }

  /** One user more: `before` lies between the start of the run and the state after `tail`. */
  lemma AfterOneUser(start: Db, before: Db, tail: seq<Event>, t: Target, completed: bool)
    requires Inv(start) && UserRowsOnlyVanish(start, before) && NoRemains(start, before)
    requires t.pk in start.users && start.users[t.pk].userid == t.userid
    requires var db := Replay(before, tail);
             if completed then Purged(db, t) && db.users == before.users - {t.pk} else db.users == before.users
    ensures var db := Replay(before, tail);
            && UserRowsOnlyVanish(start, db) && NoRemains(start, db)
            && (completed ==> NoUser(db, t.userid))
            && (forall userid :: NoUser(before, userid) ==> NoUser(db, userid))
  {
    hide Purged, Replay, Mirrored, ForeignKeys;
    var db := Replay(before, tail);
    assert NoRemains(before, db) by {
      forall pk | pk in before.users && pk !in db.users
        ensures Purged(db, Target(pk, before.users[pk].userid))
      {
        assert Target(pk, before.users[pk].userid) == t;
      }
    }
    RemainsCompose(start, before, db, tail);
  }

  lemma NothingBefore(db: Db, t: Target)
    ensures ExhaustedBefore(db, t, 0)
  {
  }

  lemma NoEvents(plan: Plan)
    ensures Respects(plan.start, plan.budget, []) && Replay(plan.start, []) == plan.start && Charged([]) == 0
    ensures Victims([], plan.targets) && UserRowsOnlyVanish(plan.start, plan.start) && NoRemains(plan.start, plan.start)
  {
  }

  lemma LogContinues(start: Db, log: seq<Event>, log': seq<Event>)
    requires log <= log'
    ensures Replay(start, log') == Replay(Replay(start, log), log'[|log|..])
  {
    hide Replay;
    assert log + log'[|log|..] == log';
    ReplaySplits(start, log, log'[|log|..]);
  }

  /** Due at once; `expires_at` and the rest are the defaults of the table. */
  function NewPurgeJob(key: nat, userid: UserId, now: Time): PurgeJob {
    Job(key, PurgeArgs(Some(userid)), now, now + LIFETIME, 0, now)
  }

  /** What the loop has established makes a valid run. */
  lemma RunIsValid(plan: Plan, rows: set<PurgeJob>, now: Time, jobs: seq<PurgeJob>, log: seq<Event>,
      completed: set<PurgeJob>, limitReached: bool)
    requires plan.budget >= 0 && IsSelection(rows, now, plan.budget, jobs) && plan.targets == Targets(plan.start, Elements(jobs))
    requires Respects(plan.start, plan.budget, log) && Victims(log, plan.targets)
    requires var db := Replay(plan.start, log);
             && UserRowsOnlyVanish(plan.start, db) && NoRemains(plan.start, db)
             && forall job :: job in completed && job.args.userid.Some? ==> NoUser(db, job.args.userid.value)
    requires completed <= Elements(jobs) && (!limitReached ==> completed == Elements(jobs))
    requires limitReached ==> plan.budget - Charged(log) < 1
    ensures ValidRun(plan.start, VisibleRows(rows, now), plan.budget, RunRecord(Elements(jobs), log, completed))
  {
    hide Replay, Respects, NoRemains, UserRowsOnlyVanish, NoUser, Targets, Victims;
    DistinctCount(jobs);
    BudgetIsNeverExceeded(plan.start, plan.budget, log);
  }

  lemma NoJobsYet(jobs: seq<PurgeJob>)
    ensures Elements(jobs[..0]) == {}
  {
  }

  lemma OneMoreJob(jobs: seq<PurgeJob>, i: nat)
    requires i < |jobs|
    ensures Elements(jobs[..i + 1]) == Elements(jobs[..i]) + {jobs[i]}
  {
  }

  lemma NamedBy(jobs: seq<PurgeJob>, i: nat)
    requires i < |jobs| && jobs[i].args.userid.Some?
    ensures Named(Elements(jobs), jobs[i].args.userid.value)
  {
    assert jobs[i] in Elements(jobs);
  }

  lemma AllJobs(jobs: seq<PurgeJob>, i: nat)
    requires i <= |jobs|
    ensures Elements(jobs[..i]) <= Elements(jobs) && (i == |jobs| ==> jobs[..i] == jobs)
  {
  }

  /** What is kept of a deleted account, for the record. */
  datatype UserDeletion = UserDeletion(userid: UserId, requestedAt: Time, requestedBy: UserId, tag: string,
                                       registered: Time, numAnnotations: nat)

  /** Live or not. */
  function AnnotationsOf(db: Db, userid: UserId): set<Id> {
    set id | id in db.annotations && db.annotations[id].userid == userid
  }

  class UserDeleteService {
    var db: Db
    /** The users whose `deleted` column is set: they cannot log in any more. */
    var deletedUsers: set<Pk>
    var deletions: set<UserDeletion>
    const purgeJobs: JobQueueService<PurgeArgs>
    var now: Time
    /** The sequence from which new rows of the job table take their keys. */
    var nextKey: nat
    /** The statements executed so far in this run. */
    ghost var log: seq<Event>

    constructor (db: Db, purgeJobs: JobQueueService<PurgeArgs>)
      ensures this.db == db && this.purgeJobs == purgeJobs && deletedUsers == {} && deletions == {}
    {
      this.db := db;
      this.deletedUsers := {};
      this.deletions := {};
      this.purgeJobs := purgeJobs;
    }

    /** Locks the account, queues the purge and keeps a record; the account itself is still
        there for the purge to work on. */
    method DeleteUser(user: Pk, requestedBy: UserId, tag: string, registered: Time)
      requires user in db.users
      modifies purgeJobs`rows, this`nextKey, this`deletedUsers, this`deletions
      ensures deletedUsers == old(deletedUsers) + {user}
      ensures var userid := db.users[user].userid;
              deletions == old(deletions) +
                {UserDeletion(userid, purgeJobs.now, requestedBy, tag, registered, |AnnotationsOf(db, userid)|)}
      ensures nextKey == old(nextKey) + 1
      ensures var userid := db.users[user].userid;
              && purgeJobs.rows == old(purgeJobs.rows) + {NewPurgeJob(old(nextKey), userid, purgeJobs.now)}
              && Named(purgeJobs.rows, userid)
              && Visible(NewPurgeJob(old(nextKey), userid, purgeJobs.now), purgeJobs.now + 1)
    {
      var userid := db.users[user].userid;
      deletedUsers := deletedUsers + {user};
      var job := NewPurgeJob(nextKey, userid, purgeJobs.now);
      purgeJobs.Add({job});
      nextKey := nextKey + 1;
      deletions := deletions + {UserDeletion(userid, purgeJobs.now, requestedBy, tag, registered, |AnnotationsOf(db, userid)|)};
      assert job in purgeJobs.rows && job.args.userid == Some(userid);
    }

    /** Reads the clock once for each job that is about to be queued. */
    method Schedule(ids: set<Id>) returns (at: map<Id, Time>)
      ensures at.Keys == ids && forall id :: id in ids ==> at[id] >= now
    {
      at := map[];
      var remaining := ids;
      while remaining != {}
        invariant remaining <= ids && at.Keys == ids - remaining
        invariant forall id :: id in at ==> at[id] >= now
        decreases remaining
      {
        var id :| id in remaining;
        var time :| time >= now;
        at := at[id := time];
        remaining := remaining - {id};
      }
    }

    /** Three statements: the rows, their slim rows, and a job for each of the rows. */
    method MarkAnnotations(ids: set<Id>, q: Queueing)
      modifies this`db
      ensures db == MarkedDeleted(old(db), ids, now, q)
    {
      hide NewJob;
      var annotations := map id | id in db.annotations ::
        if id in ids then db.annotations[id].(deleted := true, updated := now) else db.annotations[id];
      var slims := map id | id in db.slims ::
        if id in ids then db.slims[id].(deleted := true, updated := now) else db.slims[id];
      var jobs := db.syncJobs;
      var remaining := ids;
      while remaining != {}
        invariant remaining <= ids
        invariant jobs == db.syncJobs
                    + set id | id in ids - remaining && id in db.annotations :: NewJob(q, id, false, now, SCHEDULE_IN)
        decreases remaining
      {
        var id :| id in remaining;
        if id in annotations {
          jobs := jobs + {NewJob(q, id, false, now, SCHEDULE_IN)};
        }
        remaining := remaining - {id};
      }
      db := db.(annotations := annotations, slims := slims, syncJobs := jobs);
    }

    /** The log explains the tables and the budget that is left. */
    ghost predicate Tracks(worker: LimitedWorker, plan: Plan)
      reads this, worker
    {
      && Respects(plan.start, plan.budget, log) && Victims(log, plan.targets)
      && db == Replay(plan.start, log) && worker.limit == plan.budget - Charged(log)
      && Inv(db) && KeysBelow(db.syncJobs, nextKey)
    }

    method Perform(step: Step, user: Target, worker: LimitedWorker, ghost plan: Plan) returns (ok: bool)
      requires Tracks(worker, plan) && user in plan.targets
      requires worker.limit >= 1 ==> ExhaustedBefore(db, user, Order(step))
      modifies this`db, this`log, this`nextKey, worker
      ensures Tracks(worker, plan)
      ensures old(log) <= log
      ensures ok <==> old(worker.limit) >= 1
      ensures !ok ==> log == old(log) && worker.limit == old(worker.limit)
      ensures ok && (worker.limit >= 1 || step.Account?) ==> ExhaustedBefore(db, user, Order(step) + 1)
      ensures db.users == if ok && step.Account? then old(db.users) - {user.pk} else old(db.users)
    {
      hide Inv, ExhaustedBefore, Rows, Replay, Respects, Charged, KeysBelow, MarkedDeleted, DeleteGroups, DeleteUsers,
          RemoveCreators, DeleteLeaves;
      var selected := Rows(db, user, step);
      var affected := worker.Execute(selected);
      if affected.None? {
        return false;
      }
      var at := Schedule(affected.value);
      var e := Event(step, user, affected.value, now, Queueing(nextKey, at));
      KeysBelowAreFresh(db.syncJobs, nextKey);
      StatementIsPossible(db, e);
      LogGrows(plan, log, e);
      EventKeepsInv(db, e);
      EventKeepsKeys(db, e);
      UsersAfter(db, e);
      if old(worker.limit) > |e.ids| || step.Account? {
        LeftoverMeansExhausted(db, e, old(worker.limit));
      }
      if step.Account? {
        SmallAccount(db, user);
        assert step == Account;
        AccountRows(db, user, e.ids);
      }
      log := log + [e];
      if step.Annotations? {
        MarkAnnotations(e.ids, e.queueing);
        nextKey := nextKey + 1;
      } else {
        db := Apply(db, e);
      }
      ok := true;
    }

    /** The first five steps: what the user owns outright. */
    method PurgeBelongings(user: Target, worker: LimitedWorker, ghost plan: Plan) returns (ok: bool)
      requires Tracks(worker, plan) && user in plan.targets
      modifies this`db, this`log, this`nextKey, worker
      ensures Tracks(worker, plan)
      ensures old(log) <= log && db.users == old(db.users)
      ensures ok && worker.limit >= 1 ==> ExhaustedBefore(db, user, 5)
      ensures !ok ==> worker.limit < 1
    {
      NothingBefore(db, user);
      hide ExhaustedBefore, Tracks, Inv, Rows, Replay, Respects, Charged;
      ok := Perform(AuthTickets, user, worker, plan);
      if !ok { return; }
      ok := Perform(Tokens, user, worker, plan);
      if !ok { return; }
      ok := Perform(Flags, user, worker, plan);
      if !ok { return; }
      ok := Perform(CohortMemberships, user, worker, plan);
      if !ok { return; }
      ok := Perform(Annotations, user, worker, plan);
    }

    /** All nine steps in order; the first refusal ends the purge of this user. */
    method PurgeUser(user: Target, worker: LimitedWorker, ghost plan: Plan) returns (completed: bool)
      requires Tracks(worker, plan) && user in plan.targets
      modifies this`db, this`log, this`nextKey, worker
      ensures Tracks(worker, plan)
      ensures old(log) <= log
      ensures completed ==> Purged(db, user) && db.users == old(db.users) - {user.pk}
      ensures !completed ==> worker.limit < 1 && db.users == old(db.users)
    {
      hide ExhaustedBefore, Tracks, Inv, Rows, Replay, Respects, Charged;
      completed := PurgeBelongings(user, worker, plan);
      if !completed { return; }
      completed := Perform(Groups, user, worker, plan);
      if !completed { return; }
      completed := Perform(GroupMemberships, user, worker, plan);
      if !completed { return; }
      completed := Perform(GroupCreators, user, worker, plan);
      if !completed { return; }
      completed := Perform(Account, user, worker, plan);
    }

    /** Looks a user up, remembering the answer for the rest of the run. */
    method Fetch(userid: UserId, cache: map<UserId, Option<Pk>>, ghost start: Db)
      returns (user: Option<Pk>, cache': map<UserId, Option<Pk>>)
      requires CacheAgrees(cache, start, db) && UserRowsOnlyVanish(start, db)
      ensures CacheAgrees(cache', start, db) && userid in cache' && cache'[userid] == user
    {
      cache' := cache;
      if userid !in cache {
        if pk :| pk in db.users && db.users[pk].userid == userid {
          cache' := cache[userid := Some(pk)];
        } else {
          cache' := cache[userid := None];
        }
      }
      user := cache'[userid];
    }

    /** The loop body for a job that names a user; `false` means that the limit was reached. */
    method ProcessJob(userid: UserId, worker: LimitedWorker, cache: map<UserId, Option<Pk>>, ghost plan: Plan,
        ghost jobs: set<PurgeJob>)
      returns (completed: bool, cache': map<UserId, Option<Pk>>)
      requires Tracks(worker, plan) && Inv(plan.start)
      requires UserRowsOnlyVanish(plan.start, db) && NoRemains(plan.start, db) && CacheAgrees(cache, plan.start, db)
      requires plan.targets == Targets(plan.start, jobs) && Named(jobs, userid)
      modifies this`db, this`log, this`nextKey, worker
      ensures Tracks(worker, plan)
      ensures UserRowsOnlyVanish(plan.start, db) && NoRemains(plan.start, db) && CacheAgrees(cache', plan.start, db)
      ensures forall u :: old(NoUser(db, u)) ==> NoUser(db, u)
      ensures if completed then NoUser(db, userid) else worker.limit < 1
    {
      hide Inv, Purged, Replay, Respects, Charged;
      var user;
      user, cache' := Fetch(userid, cache, plan.start);
      completed := true;
      if user.Some? {
        ghost var before, logBefore := db, log;
        completed := PurgeUser(Target(user.value, userid), worker, plan);
        LogContinues(plan.start, logBefore, log);
        AfterOneUser(plan.start, before, log[|logBefore|..], Target(user.value, userid), completed);
      }
    }

    /** The loop over the batch, which ends early when the limit is reached. */
    method ProcessJobs(jobs: seq<PurgeJob>, worker: LimitedWorker, ghost plan: Plan)
      returns (completed: set<PurgeJob>, limitReached: bool)
      requires Tracks(worker, plan) && Inv(plan.start) && plan.targets == Targets(plan.start, Elements(jobs))
      requires UserRowsOnlyVanish(plan.start, db) && NoRemains(plan.start, db)
      modifies this`db, this`log, this`nextKey, worker
      ensures Tracks(worker, plan) && UserRowsOnlyVanish(plan.start, db) && NoRemains(plan.start, db)
      ensures completed <= Elements(jobs) && (!limitReached ==> completed == Elements(jobs))
      ensures limitReached ==> worker.limit < 1
      ensures forall job :: job in completed && job.args.userid.Some? ==> NoUser(db, job.args.userid.value)
    {
      hide Inv, Tracks, NoRemains, UserRowsOnlyVanish, NoUser, Targets, Elements;
      var cache: map<UserId, Option<Pk>> := map[];
      completed := {};
      limitReached := false;
      NoJobsYet(jobs);
      var i := 0;
      while i < |jobs| && !limitReached
        invariant 0 <= i <= |jobs|
        invariant Tracks(worker, plan)
        invariant UserRowsOnlyVanish(plan.start, db) && NoRemains(plan.start, db) && CacheAgrees(cache, plan.start, db)
        invariant completed <= Elements(jobs[..i]) && (!limitReached ==> completed == Elements(jobs[..i]))
        invariant limitReached ==> worker.limit < 1
        invariant forall job :: job in completed && job.args.userid.Some? ==> NoUser(db, job.args.userid.value)
      {
        var job := jobs[i];
        OneMoreJob(jobs, i);
        var done := true;
        if job.args.userid.Some? {
          NamedBy(jobs, i);
          done, cache := ProcessJob(job.args.userid.value, worker, cache, plan, Elements(jobs));
        }
        if done {
          completed := completed + {job};
        } else {
          limitReached := true;
        }
        i := i + 1;
      }
      AllJobs(jobs, i);
    }

    /** One run of the periodic purge. */
    method PurgeDeletedUsers(limit: nat) returns (ghost r: RunRecord)
      requires Inv(db) && KeysBelow(db.syncJobs, nextKey)
      modifies this`db, this`log, this`nextKey, purgeJobs`rows
      ensures ValidRun(old(db), VisibleRows(old(purgeJobs.rows), purgeJobs.now), limit, r)
      ensures db == Replay(old(db), r.log) && Inv(db) && KeysBelow(db.syncJobs, nextKey)
      ensures purgeJobs.rows == old(purgeJobs.rows) - r.completed
      ensures exists jobs :: IsSelection(old(purgeJobs.rows), purgeJobs.now, limit, jobs) && r.fetched == Elements(jobs)
    {
      hide Inv, Replay, Respects, NoRemains, UserRowsOnlyVanish, NoUser, Targets, ValidRun, KeysBelow, IsSelection;
      ghost var start := db;
      var jobs := purgeJobs.Get(limit);
      ghost var plan := Plan(start, limit, Targets(start, Elements(jobs)));
      NoEvents(plan);
      log := [];
      if jobs == [] {
        assert Elements(jobs) == {} && purgeJobs.rows == purgeJobs.rows - {};
        RunIsValid(plan, purgeJobs.rows, purgeJobs.now, jobs, log, {}, false);
        return RunRecord({}, [], {});
      }
      var worker := new LimitedWorker(limit);
      var completed, limitReached := ProcessJobs(jobs, worker, plan);
      RunIsValid(plan, purgeJobs.rows, purgeJobs.now, jobs, log, completed, limitReached);
      purgeJobs.Delete(completed);
      r := RunRecord(Elements(jobs), log, completed);
    }
  }
}
