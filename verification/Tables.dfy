/** The relational tables around annotations, their foreign keys, and what the database does
    to dependent rows when a row is deleted. */
module Tables {
  import opened Options
  import opened AnnotationStore

  type Pk = nat
  type Pubid = nat

  datatype User = User(userid: UserId)
  datatype Group = Group(pubid: Pubid, creator: Option<Pk>)
  datatype Membership = Membership(user: Pk, group: Pk)
  datatype Flag = Flag(user: Pk, annotation: Id)
  /** `serial` numbers annotations in the order of their creation; it is not a column. */
  datatype Annotation = Annotation(serial: nat, created: Time, updated: Time, userid: UserId, groupid: Pubid, content: Content,
                                   deleted: bool, document: Pk, references: seq<Id>)
  /** A row of annotation_slim, filed under its unique `pubid`. */
  datatype Slim = Slim(created: Time, updated: Time, deleted: bool, shared: bool, document: Pk,
                       group: Pk, user: Pk, moderated: bool)
  datatype PurgeArgs = PurgeArgs(userid: Option<UserId>)

  datatype Db = Db(
    users: map<Pk, User>, groups: map<Pk, Group>, documents: set<Pk>,
    annotations: map<Id, Annotation>, slims: map<Id, Slim>, moderations: set<Id>,
    authTickets: map<Pk, Pk>, tokens: map<Pk, Pk>, flags: map<Pk, Flag>,
    cohortUsers: map<Pk, Pk>, memberships: map<Pk, Membership>,
    syncJobs: set<SyncJob>, usedIds: set<Id>)

  const EMPTY := Db(map[], map[], {}, map[], map[], {}, map[], map[], map[], map[], map[], {}, {})

  // ----- Constraints -----

  predicate UniqueKeys(users: map<Pk, User>, groups: map<Pk, Group>) {
    && (forall a, b :: a in users && b in users && users[a].userid == users[b].userid ==> a == b)
    && (forall a, b :: a in groups && b in groups && groups[a].pubid == groups[b].pubid ==> a == b)
  }

  predicate RefersTo(owners: map<Pk, Pk>, users: map<Pk, User>) {
    forall pk :: pk in owners ==> owners[pk] in users
  }

  predicate FlagKeys(flags: map<Pk, Flag>, users: map<Pk, User>, annotations: map<Id, Annotation>) {
    forall pk :: pk in flags ==> flags[pk].user in users && flags[pk].annotation in annotations
  }

  predicate MembershipKeys(memberships: map<Pk, Membership>, users: map<Pk, User>, groups: map<Pk, Group>) {
    forall pk :: pk in memberships ==> memberships[pk].user in users && memberships[pk].group in groups
  }

  predicate CreatorKeys(groups: map<Pk, Group>, users: map<Pk, User>) {
    forall pk :: pk in groups && groups[pk].creator.Some? ==> groups[pk].creator.value in users
  }

  predicate AnnotationKeys(annotations: map<Id, Annotation>, documents: set<Pk>, usedIds: set<Id>) {
    forall id :: id in annotations ==> annotations[id].document in documents && id in usedIds
  }

  /** The keys of annotation_slim follow from the mirror below. */
  predicate ForeignKeys(db: Db) {
    && RefersTo(db.authTickets, db.users)
    && RefersTo(db.tokens, db.users)
    && RefersTo(db.cohortUsers, db.users)
    && FlagKeys(db.flags, db.users, db.annotations)
    && MembershipKeys(db.memberships, db.users, db.groups)
    && CreatorKeys(db.groups, db.users)
    && AnnotationKeys(db.annotations, db.documents, db.usedIds)
    && db.moderations <= db.annotations.Keys
  }

  predicate Consistent(db: Db) {
    UniqueKeys(db.users, db.groups) && ForeignKeys(db)
  }

  /** `s` equals the projection of annotation `a`. */
  predicate Projects(s: Slim, a: Annotation, groups: map<Pk, Group>, users: map<Pk, User>, moderated: bool) {
    && s.created == a.created && s.updated == a.updated
    && s.deleted == a.deleted && s.shared == a.content.shared && s.document == a.document
    && s.group in groups && groups[s.group].pubid == a.groupid
    && s.user in users && users[s.user].userid == a.userid
    && s.moderated == moderated
  }

  predicate Mirrors(db: Db, id: Id)
    requires id in db.slims
  {
    id in db.annotations && Projects(db.slims[id], db.annotations[id], db.groups, db.users, id in db.moderations)
  }

  predicate Mirrored(db: Db) {
    forall id :: id in db.slims ==> Mirrors(db, id)
  }

  /** Hence the foreign keys of annotation_slim hold as well. */
  lemma MirrorImpliesSlimKeys(db: Db, id: Id)
    requires Consistent(db) && Mirrored(db) && id in db.slims
    ensures id in db.annotations && db.slims[id].user in db.users
            && db.slims[id].group in db.groups && db.slims[id].document in db.documents
  {
  }

  // ----- Deletion -----

  /** Foreign keys without ON DELETE CASCADE make the database refuse. */
  predicate UsersDeletable(db: Db, pks: set<Pk>) {
    && (forall pk :: pk in db.cohortUsers ==> db.cohortUsers[pk] !in pks)
    && (forall pk :: pk in db.memberships ==> db.memberships[pk].user !in pks)
    && (forall pk :: pk in db.groups && db.groups[pk].creator.Some? ==> db.groups[pk].creator.value !in pks)
  }

  function DeleteUsers(db: Db, pks: set<Pk>): Db {
    db.(users := db.users - pks,
        authTickets := map pk | pk in db.authTickets && db.authTickets[pk] !in pks :: db.authTickets[pk],
        tokens := map pk | pk in db.tokens && db.tokens[pk] !in pks :: db.tokens[pk],
        flags := map pk | pk in db.flags && db.flags[pk].user !in pks :: db.flags[pk],
        slims := map id | id in db.slims && db.slims[id].user !in pks :: db.slims[id])
  }

  function DeleteGroups(db: Db, pks: set<Pk>): Db {
    db.(groups := db.groups - pks,
        memberships := map pk | pk in db.memberships && db.memberships[pk].group !in pks :: db.memberships[pk],
        slims := map id | id in db.slims && db.slims[id].group !in pks :: db.slims[id])
  }

  function DeleteAnnotations(db: Db, ids: set<Id>): Db {
    db.(annotations := db.annotations - ids,
        slims := db.slims - ids,
        moderations := db.moderations - ids,
        flags := map pk | pk in db.flags && db.flags[pk].annotation !in ids :: db.flags[pk])
  }

  predicate DocumentsDeletable(db: Db, pks: set<Pk>) {
    forall id :: id in db.annotations ==> db.annotations[id].document !in pks
  }

  function DeleteDocuments(db: Db, pks: set<Pk>): Db {
    db.(documents := db.documents - pks,
        slims := map id | id in db.slims && db.slims[id].document !in pks :: db.slims[id])
  }

  /** The annotations and jobs, as the synchronisation protocol sees them. */
  function ToBase(db: Db): Base {
    Base(map id | id in db.annotations :: ToRow(db.annotations[id]), db.syncJobs, db.usedIds)
  }

  function ToRow(a: Annotation): Row {
    Row(a.updated, a.userid, a.content, a.deleted)
  }
}
