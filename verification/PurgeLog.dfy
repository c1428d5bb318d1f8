/** Purging deleted users a bounded number of rows at a time. */
module PurgeLog {
  import opened Options
  import opened AnnotationStore
  import opened Collections
  import opened Tables
  import opened SlimMirror

  /** The fetched user object, which outlives the row it was read from. */
  datatype Target = Target(pk: Pk, userid: UserId)

  datatype Step =
    | AuthTickets | Tokens | Flags | CohortMemberships | Annotations | Groups | GroupMemberships | GroupCreators | Account

  /** One limited statement and the rows it affected. */
  datatype Event = Event(step: Step, target: Target, ids: set<nat>, now: Time, queueing: Queueing)

  function OwnedBy(owners: map<Pk, Pk>, user: Pk): set<Pk> {
    set pk | pk in owners && owners[pk] == user
  }

  function FlagsBy(flags: map<Pk, Flag>, user: Pk): set<Pk> {
    set pk | pk in flags && flags[pk].user == user
  }

  function LiveBy(annotations: map<Id, Annotation>, userid: UserId): set<Id> {
    set id | id in annotations && annotations[id].userid == userid && !annotations[id].deleted
  }

  predicate HasLiveAnnotation(annotations: map<Id, Annotation>, pubid: Pubid) {
    exists id :: id in annotations && annotations[id].groupid == pubid && !annotations[id].deleted
  }

  function CreatedBy(groups: map<Pk, Group>, user: Pk): set<Pk> {
    set pk | pk in groups && groups[pk].creator == Some(user)
  }

  function EmptyAmong(pks: set<Pk>, groups: map<Pk, Group>, annotations: map<Id, Annotation>): set<Pk> {
    set pk | pk in pks && pk in groups && !HasLiveAnnotation(annotations, groups[pk].pubid)
  }

  function MembershipsOf(memberships: map<Pk, Membership>, groups: map<Pk, Group>, user: Pk): set<Pk> {
    set pk | pk in memberships && memberships[pk].user == user && memberships[pk].group in groups
  }

  /** The rows that the statement of each step selects. */
  function Rows(db: Db, t: Target, step: Step): set<nat> {
    match step
    case AuthTickets => OwnedBy(db.authTickets, t.pk)
    case Tokens => OwnedBy(db.tokens, t.pk)
    case Flags => FlagsBy(db.flags, t.pk)
    case CohortMemberships => OwnedBy(db.cohortUsers, t.pk)
    case Annotations => LiveBy(db.annotations, t.userid)
    case Groups => EmptyAmong(CreatedBy(db.groups, t.pk), db.groups, db.annotations)
    case GroupMemberships => MembershipsOf(db.memberships, db.groups, t.pk)
    case GroupCreators => CreatedBy(db.groups, t.pk)
    case Account => {t.pk} * db.users.Keys
  }

  function WithoutCreator(groups: map<Pk, Group>, pks: set<Pk>): map<Pk, Group> {
    map pk | pk in groups :: if pk in pks then groups[pk].(creator := None) else groups[pk]
  }

  predicate LosesLeaves(step: Step) {
    step.AuthTickets? || step.Tokens? || step.Flags? || step.CohortMemberships? || step.GroupMemberships?
  }

  /** Nothing refers to the rows of these five tables. */
  function DeleteLeaves(db: Db, step: Step, ids: set<nat>): Db {
    db.(authTickets := if step.AuthTickets? then db.authTickets - ids else db.authTickets,
        tokens := if step.Tokens? then db.tokens - ids else db.tokens,
        flags := if step.Flags? then db.flags - ids else db.flags,
        cohortUsers := if step.CohortMemberships? then db.cohortUsers - ids else db.cohortUsers,
        memberships := if step.GroupMemberships? then db.memberships - ids else db.memberships)
  }

  function RemoveCreators(db: Db, pks: set<Pk>): Db {
    db.(groups := WithoutCreator(db.groups, pks))
  }

  /** The tables after the statement, with its cascades, has affected `e.ids`. */
  function Apply(db: Db, e: Event): Db {
    match e.step
    case Annotations => MarkedDeleted(db, e.ids, e.now, e.queueing)
    case Groups => DeleteGroups(db, e.ids)
    case GroupCreators => RemoveCreators(db, e.ids)
    case Account => DeleteUsers(db, e.ids)
    case _ => DeleteLeaves(db, e.step, e.ids)
  }

  /** The job table hands out each key once. */
  predicate FreshKey(jobs: set<SyncJob>, key: nat) {
    forall job :: job in jobs ==> job.key != key
  }

  /** The clock does not run backwards between stamping the rows and scheduling their jobs. */
  predicate QueuedAfter(q: Queueing, ids: set<Id>, stamp: Time) {
    forall id :: id in ids ==> Moment(q, id, stamp) >= stamp
  }

  /** A statement affects selected rows only, no foreign key refuses it, and new jobs are new. */
  predicate Possible(db: Db, e: Event) {
    && e.ids <= Rows(db, e.target, e.step)
    && (e.step.Account? ==> UsersDeletable(db, e.ids))
    && (e.step.Annotations? ==> FreshKey(db.syncJobs, e.queueing.key) && QueuedAfter(e.queueing, e.ids, e.now))
  }

  /** A run: each statement affects as many of its rows as the remaining budget allows, and
      none is started on an empty budget. */
  predicate Respects(db: Db, budget: int, log: seq<Event>)
    decreases |log|
  {
    log == [] ||
    (&& budget >= 1
     && Possible(db, log[0])
     && |log[0].ids| == Min(budget, |Rows(db, log[0].target, log[0].step)|)
     && Respects(Apply(db, log[0]), budget - |log[0].ids|, log[1..]))
  }

  /** Any number of runs, one after another. */
  predicate PossibleLog(db: Db, log: seq<Event>)
    decreases |log|
  {
    log == [] || (Possible(db, log[0]) && PossibleLog(Apply(db, log[0]), log[1..]))
  }

  function Replay(db: Db, log: seq<Event>): Db
    decreases |log|
  {
    if log == [] then db else Replay(Apply(db, log[0]), log[1..])
  }

  function Charged(log: seq<Event>): nat {
    if log == [] then 0 else |log[0].ids| + Charged(log[1..])
  }

  lemma {:induction false} ReplaySplits(db: Db, log: seq<Event>, tail: seq<Event>)
    ensures Replay(db, log + tail) == Replay(Replay(db, log), tail)
    ensures Charged(log + tail) == Charged(log) + Charged(tail)
    ensures PossibleLog(db, log + tail) <==> PossibleLog(db, log) && PossibleLog(Replay(db, log), tail)
    decreases |log|
  {
    hide Apply, Possible;
    if log == [] {
      assert log + tail == tail;
    } else {
      assert (log + tail)[0] == log[0] && (log + tail)[1..] == log[1..] + tail;
      ReplaySplits(Apply(db, log[0]), log[1..], tail);
    }
  }

  lemma {:induction false} RespectsSplits(db: Db, budget: int, log: seq<Event>, tail: seq<Event>)
    ensures Respects(db, budget, log + tail) <==>
        Respects(db, budget, log) && Respects(Replay(db, log), budget - Charged(log), tail)
    decreases |log|
  {
    hide Apply, Possible, Rows, Min;
    if log == [] {
      assert log + tail == tail;
    } else {
      assert (log + tail)[0] == log[0] && (log + tail)[1..] == log[1..] + tail;
      RespectsSplits(Apply(db, log[0]), budget - |log[0].ids|, log[1..], tail);
    }
  }

  /** A run never charges more rows than its budget. */
  lemma {:induction false} BudgetIsNeverExceeded(db: Db, budget: nat, log: seq<Event>)
    requires Respects(db, budget, log)
    ensures Charged(log) <= budget && PossibleLog(db, log)
    decreases |log|
  {
    hide Apply, Possible, Rows;
    if log != [] {
      BudgetIsNeverExceeded(Apply(db, log[0]), budget - |log[0].ids|, log[1..]);
    }
  }

  // ----- Constraints -----

  predicate Submap<V(==)>(a: map<nat, V>, b: map<nat, V>) {
    forall k :: k in a ==> k in b && a[k] == b[k]
  }

  /** Five tables that nothing else refers to may lose rows freely. */
  predicate LeavesLost(db: Db, db': Db) {
    && Submap(db'.authTickets, db.authTickets) && Submap(db'.tokens, db.tokens) && Submap(db'.flags, db.flags)
    && Submap(db'.cohortUsers, db.cohortUsers) && Submap(db'.memberships, db.memberships)
    && db'.users == db.users && db'.groups == db.groups && db'.documents == db.documents
    && db'.annotations == db.annotations && db'.slims == db.slims && db'.moderations == db.moderations
    && db'.syncJobs == db.syncJobs && db'.usedIds == db.usedIds
  }

  lemma LeafStepsLoseLeaves(db: Db, step: Step, ids: set<nat>)
    ensures LeavesLost(db, DeleteLeaves(db, step, ids))
  {
  }

  lemma LostLeavesKeepInv(db: Db, db': Db)
    requires Inv(db) && LeavesLost(db, db')
    ensures Inv(db')
  {
    forall id | id in db'.slims
      ensures Mirrors(db', id)
    {
      assert Mirrors(db, id);
    }
  }

  lemma CreatorsLeaveKeys(db: Db, pks: set<Pk>)
    requires Consistent(db)
    ensures Consistent(RemoveCreators(db, pks))
  {
  }

  lemma CreatorsLeave(db: Db, pks: set<Pk>)
    requires Inv(db)
    ensures Inv(RemoveCreators(db, pks))
  {
    hide Consistent;
    var db' := RemoveCreators(db, pks);
    CreatorsLeaveKeys(db, pks);
    forall id | id in db'.slims
      ensures Mirrors(db', id)
    {
      assert Mirrors(db, id);
    }
  }

  lemma EventKeepsInv(db: Db, e: Event)
    requires Inv(db) && Possible(db, e)
    ensures Inv(Apply(db, e))
  {
    hide Inv, Rows, MarkedDeleted, DeleteGroups, DeleteUsers, DeleteLeaves, RemoveCreators, LeavesLost;
    match e.step
    case Annotations =>
      MarkedDeletedKeepsInv(db, e.ids, e.now, e.queueing);
    case Groups => DeleteGroupsKeepsInv(db, e.ids);
    case Account => DeleteUsersKeepsInv(db, e.ids);
    case GroupCreators => CreatorsLeave(db, e.ids);
    case _ =>
      LeafStepsLoseLeaves(db, e.step, e.ids);
      LostLeavesKeepInv(db, Apply(db, e));
  }

  lemma {:induction false} LogKeepsInv(db: Db, log: seq<Event>)
    requires Inv(db) && PossibleLog(db, log)
    ensures Inv(Replay(db, log))
    decreases |log|
  {
    hide Apply, Inv, Possible;
    if log != [] {
      EventKeepsInv(db, log[0]);
      LogKeepsInv(Apply(db, log[0]), log[1..]);
    }
  }

  // ----- What a purge leaves alone -----

  predicate Victims(log: seq<Event>, targets: set<Target>) {
    forall i :: 0 <= i < |log| ==> log[i].target in targets
  }

  predicate ForeignLive(db: Db, id: Id, targets: set<Target>) {
    id in db.annotations && !db.annotations[id].deleted && forall t :: t in targets ==> db.annotations[id].userid != t.userid
  }

  ghost predicate AnnotationFrame(db: Db, db': Db, targets: set<Target>) {
    && db'.annotations.Keys == db.annotations.Keys
    && (forall id :: ForeignLive(db, id, targets) ==> db'.annotations[id] == db.annotations[id])
    && (forall id :: id in db.annotations && db.annotations[id].deleted ==> db'.annotations[id] == db.annotations[id])
  }

  /** Every annotation newly marked as deleted carries its time, and a job for it was added. */
  ghost predicate DeletionsAreQueued(db: Db, db': Db) {
    && db.syncJobs <= db'.syncJobs
    && (forall id :: id in db.annotations && id in db'.annotations && db'.annotations[id] != db.annotations[id] ==>
          && db'.annotations[id].deleted
          && db'.annotations[id] == db.annotations[id].(deleted := true, updated := db'.annotations[id].updated)
          && HasNewJob(id, db'.annotations[id].updated, db'.syncJobs - db.syncJobs))
  }

  /** A job that compares `id` is among `jobs`, held back for a minute after `stamp` at least. */
  ghost predicate HasNewJob(id: Id, stamp: Time, jobs: set<SyncJob>) {
    exists q :: NewJob(q, id, false, stamp, SCHEDULE_IN) in jobs && Moment(q, id, stamp) >= stamp
  }

  /** Groups holding a live annotation of someone else survive. */
  ghost predicate HeldGroupsSurvive(db: Db, db': Db, targets: set<Target>) {
    forall pk, id :: pk in db.groups && ForeignLive(db, id, targets) && db.annotations[id].groupid == db.groups[pk].pubid ==>
      pk in db'.groups && db'.groups[pk].pubid == db.groups[pk].pubid
  }

  ghost predicate GroupFrame(db: Db, db': Db, targets: set<Target>) {
    HeldGroupsSurvive(db, db', targets) && OthersStayMembers(db, db', targets)
  }

  /** Groups only vanish, and whoever is not a target stays a member of those that remain. */
  ghost predicate OthersStayMembers(db: Db, db': Db, targets: set<Target>) {
    && (forall pk :: pk in db'.groups ==> pk in db.groups)
    && (forall pk :: pk in db.memberships && db.memberships[pk].group in db'.groups
                     && (forall t :: t in targets ==> db.memberships[pk].user != t.pk) ==>
          pk in db'.memberships && db'.memberships[pk] == db.memberships[pk])
  }

  lemma MarkedDeletedFrame(db: Db, t: Target, ids: set<Id>, now: Time, q: Queueing, targets: set<Target>)
    requires ids <= LiveBy(db.annotations, t.userid) && t in targets
    requires FreshKey(db.syncJobs, q.key) && QueuedAfter(q, ids, now)
    ensures AnnotationFrame(db, MarkedDeleted(db, ids, now, q), targets)
    ensures DeletionsAreQueued(db, MarkedDeleted(db, ids, now, q))
  {
    var db' := MarkedDeleted(db, ids, now, q);
    forall id | id in db.annotations && db'.annotations[id] != db.annotations[id]
      ensures HasNewJob(id, db'.annotations[id].updated, db'.syncJobs - db.syncJobs)
    {
      assert NewJob(q, id, false, now, SCHEDULE_IN) in db'.syncJobs - db.syncJobs;
    }
  }

  predicate AnnotationsSpared(db: Db, db': Db) {
    db'.annotations == db.annotations && db'.syncJobs == db.syncJobs
  }

  lemma GroupDeletionSparesAnnotations(db: Db, pks: set<Pk>)
    ensures AnnotationsSpared(db, DeleteGroups(db, pks)) && AnnotationsSpared(db, RemoveCreators(db, pks))
  {
  }

  lemma UserDeletionSparesAnnotations(db: Db, pks: set<Pk>)
    ensures AnnotationsSpared(db, DeleteUsers(db, pks))
  {
  }

  lemma LeafDeletionSparesAnnotations(db: Db, step: Step, ids: set<nat>)
    ensures AnnotationsSpared(db, DeleteLeaves(db, step, ids))
  {
  }

  lemma OtherStepsSpareAnnotations(db: Db, e: Event)
    requires !e.step.Annotations?
    ensures AnnotationsSpared(db, Apply(db, e))
  {
    hide AnnotationsSpared, MarkedDeleted, DeleteGroups, RemoveCreators, DeleteUsers, DeleteLeaves;
    GroupDeletionSparesAnnotations(db, e.ids);
    UserDeletionSparesAnnotations(db, e.ids);
    LeafDeletionSparesAnnotations(db, e.step, e.ids);
  }

  lemma EventAnnotationFrame(db: Db, e: Event, targets: set<Target>)
    requires Possible(db, e) && e.target in targets
    ensures AnnotationFrame(db, Apply(db, e), targets) && DeletionsAreQueued(db, Apply(db, e))
  {
    if e.step.Annotations? {
      hide AnnotationFrame, DeletionsAreQueued, MarkedDeleted, LiveBy;
      MarkedDeletedFrame(db, e.target, e.ids, e.now, e.queueing, targets);
    } else {
      hide Apply, Possible;
      OtherStepsSpareAnnotations(db, e);
    }
  }

  lemma DeleteGroupsFrame(db: Db, pks: set<Pk>, targets: set<Target>)
    requires forall pk :: pk in pks ==> pk in db.groups && !HasLiveAnnotation(db.annotations, db.groups[pk].pubid)
    ensures GroupFrame(db, DeleteGroups(db, pks), targets)
  {
  }

  predicate GroupsSpared(db: Db, db': Db, user: Pk) {
    && db'.groups.Keys == db.groups.Keys
    && (forall pk :: pk in db.groups ==> db'.groups[pk].pubid == db.groups[pk].pubid)
    && (forall pk :: pk in db.memberships && db.memberships[pk].user != user ==>
          pk in db'.memberships && db'.memberships[pk] == db.memberships[pk])
  }

  lemma UserDeletionSparesGroups(db: Db, pks: set<Pk>, user: Pk, ids: set<Id>, now: Time, q: Queueing)
    ensures GroupsSpared(db, DeleteUsers(db, pks), user) && GroupsSpared(db, MarkedDeleted(db, ids, now, q), user)
  {
  }

  lemma LeafDeletionSparesGroups(db: Db, step: Step, ids: set<nat>, user: Pk)
    requires step.GroupMemberships? ==> ids <= MembershipsOf(db.memberships, db.groups, user)
    ensures GroupsSpared(db, DeleteLeaves(db, step, ids), user)
  {
  }

  lemma CreatorsSpareGroups(db: Db, pks: set<Pk>, user: Pk)
    ensures GroupsSpared(db, RemoveCreators(db, pks), user)
  {
  }

  lemma OtherStepsSpareGroups(db: Db, e: Event)
    requires Possible(db, e) && !e.step.Groups?
    ensures GroupsSpared(db, Apply(db, e), e.target.pk)
  {
    hide GroupsSpared, MarkedDeleted, DeleteGroups, DeleteUsers, RemoveCreators, DeleteLeaves;
    hide EmptyAmong, LiveBy, OwnedBy, FlagsBy, CreatedBy, MembershipsOf;
    UserDeletionSparesGroups(db, e.ids, e.target.pk, e.ids, e.now, e.queueing);
    CreatorsSpareGroups(db, e.ids, e.target.pk);
    LeafDeletionSparesGroups(db, e.step, if e.step.Annotations? then {} else e.ids, e.target.pk);
  }

  lemma EventGroupFrame(db: Db, e: Event, targets: set<Target>)
    requires Possible(db, e) && e.target in targets
    ensures GroupFrame(db, Apply(db, e), targets)
  {
    if e.step.Groups? {
      hide GroupFrame, DeleteGroups;
      DeleteGroupsFrame(db, e.ids, targets);
    } else {
      OtherStepsSpareGroups(db, e);
      hide Apply, Possible;
    }
  }

  lemma MoreNewJobs(id: Id, stamp: Time, some: set<SyncJob>, more: set<SyncJob>)
    requires HasNewJob(id, stamp, some) && some <= more
    ensures HasNewJob(id, stamp, more)
  {
    var q :| NewJob(q, id, false, stamp, SCHEDULE_IN) in some && Moment(q, id, stamp) >= stamp;
    assert NewJob(q, id, false, stamp, SCHEDULE_IN) in more;
  }

  lemma AnnotationFramesCompose(a: Db, b: Db, c: Db, targets: set<Target>)
    requires AnnotationFrame(a, b, targets) && DeletionsAreQueued(a, b)
    requires AnnotationFrame(b, c, targets) && DeletionsAreQueued(b, c)
    ensures AnnotationFrame(a, c, targets) && DeletionsAreQueued(a, c)
  {
    forall id | id in a.annotations && c.annotations[id] != a.annotations[id]
      ensures HasNewJob(id, c.annotations[id].updated, c.syncJobs - a.syncJobs)
    {
      if b.annotations[id] != a.annotations[id] {
        MoreNewJobs(id, c.annotations[id].updated, b.syncJobs - a.syncJobs, c.syncJobs - a.syncJobs);
      } else {
        MoreNewJobs(id, c.annotations[id].updated, c.syncJobs - b.syncJobs, c.syncJobs - a.syncJobs);
      }
    }
  }

  lemma GroupFramesCompose(a: Db, b: Db, c: Db, targets: set<Target>)
    requires AnnotationFrame(a, b, targets) && GroupFrame(a, b, targets) && GroupFrame(b, c, targets)
    ensures GroupFrame(a, c, targets)
  {
    HeldGroupsCompose(a, b, c, targets);
    hide HeldGroupsSurvive, AnnotationFrame;
  }

  lemma HeldGroupsCompose(a: Db, b: Db, c: Db, targets: set<Target>)
    requires AnnotationFrame(a, b, targets) && HeldGroupsSurvive(a, b, targets) && HeldGroupsSurvive(b, c, targets)
    ensures HeldGroupsSurvive(a, c, targets)
  {
    forall pk, id | pk in a.groups && ForeignLive(a, id, targets) && a.annotations[id].groupid == a.groups[pk].pubid
      ensures pk in c.groups && c.groups[pk].pubid == a.groups[pk].pubid
    {
      assert ForeignLive(b, id, targets);
    }
  }

  lemma {:induction false} LogFrames(db: Db, log: seq<Event>, targets: set<Target>)
    requires PossibleLog(db, log) && Victims(log, targets)
    ensures var db' := Replay(db, log);
            AnnotationFrame(db, db', targets) && DeletionsAreQueued(db, db') && GroupFrame(db, db', targets)
    decreases |log|
  {
    if log != [] {
      hide Apply, Possible, AnnotationFrame, DeletionsAreQueued, GroupFrame;
      EventAnnotationFrame(db, log[0], targets);
      EventGroupFrame(db, log[0], targets);
      assert Victims(log[1..], targets);
      LogFrames(Apply(db, log[0]), log[1..], targets);
      AnnotationFramesCompose(db, Apply(db, log[0]), Replay(db, log), targets);
      GroupFramesCompose(db, Apply(db, log[0]), Replay(db, log), targets);
    }
  }

  /** Over any sequence of partial runs: nothing of other users is lost, and every annotation
      newly marked as deleted has its own job and a matching slim row. */
  lemma PurgeFrame(db: Db, log: seq<Event>, targets: set<Target>)
    requires Inv(db) && PossibleLog(db, log) && Victims(log, targets)
    ensures var db' := Replay(db, log);
            && AnnotationFrame(db, db', targets) && GroupFrame(db, db', targets)
            && DeletionsAreQueued(db, db') && Mirrored(db')
  {
    LogFrames(db, log, targets);
    LogKeepsInv(db, log);
  }

  // ----- Progress -----

  function Pks(targets: set<Target>): set<Pk> {
    set t | t in targets :: t.pk
  }

  function Userids(targets: set<Target>): set<UserId> {
    set t | t in targets :: t.userid
  }

  /** What the users `targets` have in the table that a step works on. Groups that are deleted
      and groups that only lose their creator are counted together, as created groups. */
  function Owned(db: Db, targets: set<Target>, step: Step): set<nat> {
    match step
    case AuthTickets => set pk | pk in db.authTickets && db.authTickets[pk] in Pks(targets)
    case Tokens => set pk | pk in db.tokens && db.tokens[pk] in Pks(targets)
    case Flags => set pk | pk in db.flags && db.flags[pk].user in Pks(targets)
    case CohortMemberships => set pk | pk in db.cohortUsers && db.cohortUsers[pk] in Pks(targets)
    case Annotations =>
      set id | id in db.annotations && db.annotations[id].userid in Userids(targets) && !db.annotations[id].deleted
    case Groups => {}
    case GroupMemberships => set pk | pk in db.memberships && db.memberships[pk].user in Pks(targets)
    case GroupCreators =>
      set pk | pk in db.groups && db.groups[pk].creator.Some? && db.groups[pk].creator.value in Pks(targets)
    case Account => db.users.Keys * Pks(targets)
  }

  /** How many rows a purge of `targets` can ever be charged for. */
  function Size(db: Db, targets: set<Target>): nat {
    |Owned(db, targets, AuthTickets)| + |Owned(db, targets, Tokens)| + |Owned(db, targets, Flags)|
    + |Owned(db, targets, CohortMemberships)| + |Owned(db, targets, Annotations)| + |Owned(db, targets, GroupMemberships)|
    + |Owned(db, targets, GroupCreators)| + |Owned(db, targets, Account)|
  }

  function TableOf(step: Step): Step {
    if step.Groups? then GroupCreators else step
  }

  lemma Fewer(s: set<nat>, removed: set<nat>, s': set<nat>)
    requires removed <= s && s' <= s - removed
    ensures |s'| + |removed| <= |s|
  {
    assert |s - removed| == |s| - |removed|;
    assert s - removed == s' + (s - removed - s');
  }

  /** A step selects among what its target owns. */
  lemma SelectedIsOwned(db: Db, t: Target, step: Step, targets: set<Target>)
    requires t in targets
    ensures Rows(db, t, step) <= Owned(db, targets, TableOf(step))
  {
    assert t.pk in Pks(targets) && t.userid in Userids(targets);
  }

  lemma OwnedShrinks(db: Db, db': Db, targets: set<Target>, step: Step)
    requires TablesShrink(db, db')
    ensures Owned(db', targets, step) <= Owned(db, targets, step)
  {
    hide Pks, Userids;
  }

  lemma MoreTargetsOwnMore(db: Db, some: set<Target>, more: set<Target>)
    requires some <= more
    ensures Size(db, some) <= Size(db, more)
  {
    forall step: Step
      ensures |Owned(db, some, step)| <= |Owned(db, more, step)|
    {
      OwnedByMore(db, some, more, step);
      Fewer(Owned(db, more, step), {}, Owned(db, some, step));
    }
    hide Owned;
  }

  lemma OwnedByMore(db: Db, some: set<Target>, more: set<Target>, step: Step)
    requires some <= more
    ensures Owned(db, some, step) <= Owned(db, more, step)
  {
    assert Pks(some) <= Pks(more) && Userids(some) <= Userids(more);
    hide Pks, Userids;
  }

  lemma MarkedAreGone(db: Db, ids: set<nat>, now: Time, q: Queueing, targets: set<Target>)
    ensures Owned(MarkedDeleted(db, ids, now, q), targets, Annotations) !! ids
  {
  }

  lemma GroupsAreGone(db: Db, pks: set<nat>, targets: set<Target>)
    ensures Owned(DeleteGroups(db, pks), targets, GroupCreators) !! pks
    ensures Owned(RemoveCreators(db, pks), targets, GroupCreators) !! pks
  {
  }

  lemma AccountsAreGone(db: Db, pks: set<nat>, targets: set<Target>)
    ensures Owned(DeleteUsers(db, pks), targets, Account) !! pks
  {
  }

  lemma LeavesAreGone(db: Db, step: Step, ids: set<nat>, targets: set<Target>)
    requires LosesLeaves(step)
    ensures Owned(DeleteLeaves(db, step, ids), targets, step) !! ids
  {
    hide Pks;
  }

  /** What a statement affected is not owned any more. */
  lemma AffectedAreGone(db: Db, e: Event, targets: set<Target>)
    ensures Owned(Apply(db, e), targets, TableOf(e.step)) !! e.ids
  {
    hide Owned, MarkedDeleted, DeleteGroups, DeleteUsers, RemoveCreators, DeleteLeaves;
    match e.step
    case Annotations => MarkedAreGone(db, e.ids, e.now, e.queueing, targets);
    case Groups => GroupsAreGone(db, e.ids, targets);
    case GroupCreators => GroupsAreGone(db, e.ids, targets);
    case Account => AccountsAreGone(db, e.ids, targets);
    case _ => LeavesAreGone(db, e.step, e.ids, targets);
  }

  /** Each charged row is one row less that the targets own, cascades aside. */
  lemma EventShrinks(db: Db, e: Event, targets: set<Target>)
    requires Possible(db, e) && e.target in targets
    ensures Size(Apply(db, e), targets) + |e.ids| <= Size(db, targets)
  {
    hide Owned, Apply, Rows, TablesShrink;
    var db' := Apply(db, e);
    EventShrinksTables(db, e);
    SelectedIsOwned(db, e.target, e.step, targets);
    AffectedAreGone(db, e, targets);
    forall step: Step
      ensures |Owned(db', targets, step)| + (if step == TableOf(e.step) then |e.ids| else 0) <= |Owned(db, targets, step)|
    {
      OwnedShrinks(db, db', targets, step);
      Fewer(Owned(db, targets, step), if step == TableOf(e.step) then e.ids else {}, Owned(db', targets, step));
    }
    assert TableOf(e.step) in
        {AuthTickets, Tokens, Flags, CohortMemberships, Annotations, GroupMemberships, GroupCreators, Account};
  }

  lemma {:induction false} LogShrinks(db: Db, log: seq<Event>, targets: set<Target>)
    requires PossibleLog(db, log) && Victims(log, targets)
    ensures Size(Replay(db, log), targets) + Charged(log) <= Size(db, targets)
    decreases |log|
  {
    hide Size, Apply, Possible;
    if log != [] {
      EventShrinks(db, log[0], targets);
      assert Victims(log[1..], targets);
      LogShrinks(Apply(db, log[0]), log[1..], targets);
    }
  }

  // ----- Completeness -----

  function Order(step: Step): nat {
    match step
    case AuthTickets => 0 case Tokens => 1 case Flags => 2 case CohortMemberships => 3 case Annotations => 4
    case Groups => 5 case GroupMemberships => 6 case GroupCreators => 7 case Account => 8
  }

  /** The steps before `step` have nothing left to do. */
  predicate ExhaustedBefore(db: Db, t: Target, n: nat) {
    forall step: Step :: Order(step) < n ==> Rows(db, t, step) == {}
  }

  /** Statements only ever shrink the tables that the steps select from; live annotations
      leaving a group is the one change that can make a row eligible. */
  predicate TablesShrink(db: Db, db': Db) {
    && Submap(db'.authTickets, db.authTickets) && Submap(db'.tokens, db.tokens) && Submap(db'.flags, db.flags)
    && Submap(db'.cohortUsers, db.cohortUsers) && Submap(db'.memberships, db.memberships)
    && db'.users.Keys <= db.users.Keys
    && (forall pk :: pk in db'.groups ==> pk in db.groups && db'.groups[pk].pubid == db.groups[pk].pubid
                                          && (db'.groups[pk].creator.Some? ==> db'.groups[pk].creator == db.groups[pk].creator))
    && (forall id :: id in db'.annotations && !db'.annotations[id].deleted ==>
        id in db.annotations && db'.annotations[id] == db.annotations[id])
  }

  lemma MarkedDeletedShrinks(db: Db, ids: set<nat>, now: Time, q: Queueing)
    ensures TablesShrink(db, MarkedDeleted(db, ids, now, q))
  {
  }

  lemma DeleteGroupsShrinks(db: Db, pks: set<nat>)
    ensures TablesShrink(db, DeleteGroups(db, pks))
  {
  }

  lemma RemoveCreatorsShrinks(db: Db, pks: set<nat>)
    ensures TablesShrink(db, RemoveCreators(db, pks))
  {
  }

  lemma DeleteUsersShrinks(db: Db, pks: set<nat>)
    ensures TablesShrink(db, DeleteUsers(db, pks))
  {
  }

  lemma LostLeavesShrink(db: Db, db': Db)
    requires LeavesLost(db, db')
    ensures TablesShrink(db, db')
  {
  }

  lemma EventShrinksTables(db: Db, e: Event)
    ensures TablesShrink(db, Apply(db, e))
  {
    hide TablesShrink, LeavesLost, MarkedDeleted, DeleteGroups, DeleteUsers, RemoveCreators, DeleteLeaves;
    match e.step
    case Annotations => MarkedDeletedShrinks(db, e.ids, e.now, e.queueing);
    case Groups => DeleteGroupsShrinks(db, e.ids);
    case GroupCreators => RemoveCreatorsShrinks(db, e.ids);
    case Account => DeleteUsersShrinks(db, e.ids);
    case _ =>
      LeafStepsLoseLeaves(db, e.step, e.ids);
      LostLeavesShrink(db, Apply(db, e));
  }

  lemma RowsShrink(db: Db, db': Db, t: Target, step: Step)
    requires TablesShrink(db, db') && (step.Groups? ==> db'.annotations == db.annotations)
    ensures Rows(db', t, step) <= Rows(db, t, step)
  {
  }

  /** Later steps never bring rows back; once everything is exhausted, not even the purge of
      another user does. */
  lemma EventKeepsExhausted(db: Db, e: Event, t: Target, n: nat)
    requires ExhaustedBefore(db, t, n)
    requires n <= 5 || n == 9 || !e.step.Annotations?
    ensures ExhaustedBefore(Apply(db, e), t, n)
  {
    hide Apply, TablesShrink, Rows;
    EventShrinksTables(db, e);
    forall step: Step | Order(step) < n
      ensures Rows(Apply(db, e), t, step) == {}
    {
      assert Rows(db, t, step) == {};
      if !step.Groups? {
        RowsShrink(db, Apply(db, e), t, step);
      } else if !e.step.Annotations? {
        OtherStepsSpareAnnotations(db, e);
        RowsShrink(db, Apply(db, e), t, step);
      } else {
        assert Rows(db, t, GroupCreators) == {};
        RowsShrink(db, Apply(db, e), t, GroupCreators);
        EmptyGroupsAreCreated(Apply(db, e), t);
      }
    }
  }

  lemma EmptyGroupsAreCreated(db: Db, t: Target)
    ensures Rows(db, t, Groups) <= Rows(db, t, GroupCreators)
  {
  }

  /** The user `t` has left no trace in any of the tables. */
  predicate NothingLeft(db: Db, t: Target) {
    && t.pk !in db.users
    && (forall pk :: pk in db.authTickets ==> db.authTickets[pk] != t.pk)
    && (forall pk :: pk in db.tokens ==> db.tokens[pk] != t.pk)
    && (forall pk :: pk in db.flags ==> db.flags[pk].user != t.pk)
    && (forall pk :: pk in db.cohortUsers ==> db.cohortUsers[pk] != t.pk)
    && (forall pk :: pk in db.memberships ==> db.memberships[pk].user != t.pk)
    && (forall pk :: pk in db.groups ==> db.groups[pk].creator != Some(t.pk))
    && (forall id :: id in db.annotations && db.annotations[id].userid == t.userid ==> db.annotations[id].deleted)
    && (forall id :: id in db.slims ==> db.slims[id].user != t.pk)
  }

  /** Once no step has anything left to do, nothing is left at all. */
  lemma ExhaustedMeansNothingLeft(db: Db, t: Target)
    requires Inv(db) && ExhaustedBefore(db, t, 9)
    ensures NothingLeft(db, t)
  {
    assert Rows(db, t, AuthTickets) == {} && Rows(db, t, Tokens) == {} && Rows(db, t, Flags) == {};
    assert Rows(db, t, CohortMemberships) == {} && Rows(db, t, Annotations) == {} && Rows(db, t, GroupMemberships) == {};
    assert Rows(db, t, GroupCreators) == {} && Rows(db, t, Account) == {};
    hide Rows, Mirrored, ExhaustedBefore;
    RowsAreTraces(db, t);
    forall id | id in db.slims
      ensures db.slims[id].user != t.pk
    {
      MirrorImpliesSlimKeys(db, id);
    }
  }

  lemma RowsAreTraces(db: Db, t: Target)
    requires MembershipKeys(db.memberships, db.users, db.groups)
    ensures t.pk !in db.users <==> Rows(db, t, Account) == {}
    ensures forall pk :: pk in db.authTickets && db.authTickets[pk] == t.pk ==> pk in Rows(db, t, AuthTickets)
    ensures forall pk :: pk in db.tokens && db.tokens[pk] == t.pk ==> pk in Rows(db, t, Tokens)
    ensures forall pk :: pk in db.flags && db.flags[pk].user == t.pk ==> pk in Rows(db, t, Flags)
    ensures forall pk :: pk in db.cohortUsers && db.cohortUsers[pk] == t.pk ==> pk in Rows(db, t, CohortMemberships)
    ensures forall pk :: pk in db.memberships && db.memberships[pk].user == t.pk ==> pk in Rows(db, t, GroupMemberships)
    ensures forall pk :: pk in db.groups && db.groups[pk].creator == Some(t.pk) ==> pk in Rows(db, t, GroupCreators)
    ensures forall id :: id in db.annotations && db.annotations[id].userid == t.userid && !db.annotations[id].deleted ==>
        id in Rows(db, t, Annotations)
  {
    if t.pk in db.users {
      assert t.pk in Rows(db, t, Account);
    }
  }
}
