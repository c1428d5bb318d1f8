/** The write services, and the mirror between `annotation` and `annotation_slim`. */
module SlimMirror {
  import opened Options
  import opened AnnotationStore
  import opened Tables

  // ----- What each write does -----

  function GroupWith(db: Db, pubid: Pubid): (pk: Option<Pk>)
    requires UniqueKeys(db.users, db.groups)
    ensures pk.Some? ==> pk.value in db.groups && db.groups[pk.value].pubid == pubid
    ensures pk.None? ==> forall g :: g in db.groups ==> db.groups[g].pubid != pubid
  {
    if exists g :: g in db.groups && db.groups[g].pubid == pubid then
      var g :| g in db.groups && db.groups[g].pubid == pubid;
      Some(g)
    else None
  }

  function UserWith(db: Db, userid: UserId): (pk: Option<Pk>)
    requires UniqueKeys(db.users, db.groups)
    ensures pk.Some? ==> pk.value in db.users && db.users[pk.value].userid == userid
    ensures pk.None? ==> forall u :: u in db.users ==> db.users[u].userid != userid
  {
    if exists u :: u in db.users && db.users[u].userid == userid then
      var u :| u in db.users && db.users[u].userid == userid;
      Some(u)
    else None
  }

  /** The values that an upsert inserts; on conflict it leaves `created` alone. */
  function SlimValues(db: Db, id: Id, group: Pk, user: Pk): Slim
    requires id in db.annotations
  {
    var a := db.annotations[id];
    Slim(if id in db.slims then db.slims[id].created else a.created,
         a.updated, a.deleted, a.content.shared, a.document, group, user, id in db.moderations)
  }

  /** Nothing is written when the group or the user is gone. */
  function Upsert(db: Db, id: Id): Db
    requires UniqueKeys(db.users, db.groups) && id in db.annotations
  {
    var a := db.annotations[id];
    var group, user := GroupWith(db, a.groupid), UserWith(db, a.userid);
    if group.None? || user.None? then db
    else db.(slims := db.slims[id := SlimValues(db, id, group.value, user.value)])
  }

  function Created(db: Db, id: Id, a: Annotation, q: Queueing): Db
    requires UniqueKeys(db.users, db.groups)
  {
    var db1 := db.(annotations := db.annotations[id := a], usedIds := db.usedIds + {id});
    var db2 := Upsert(db1, id);
    db2.(syncJobs := db2.syncJobs + {NewJob(q, id, false, a.created, SCHEDULE_IN)})
  }

  function Edited(a: Annotation, content: Content, document: Pk, updateTimestamp: bool, now: Time): Annotation {
    a.(content := content, document := document, updated := if updateTimestamp then now else a.updated)
  }

  function Updated(db: Db, id: Id, content: Content, document: Pk, updateTimestamp: bool, now: Time, q: Queueing): Db
    requires UniqueKeys(db.users, db.groups) && id in db.annotations
  {
    var a := Edited(db.annotations[id], content, document, updateTimestamp, now);
    var db2 := Upsert(db.(annotations := db.annotations[id := a]), id);
    db2.(syncJobs := db2.syncJobs + {NewJob(q, id, !updateTimestamp, now, SCHEDULE_IN)})
  }

  function Hidden(db: Db, id: Id, hidden: bool): Db
    requires UniqueKeys(db.users, db.groups) && id in db.annotations
  {
    Upsert(db.(moderations := if hidden then db.moderations + {id} else db.moderations - {id}), id)
  }

  function DeletedOne(db: Db, id: Id, now: Time, q: Queueing): Db
    requires UniqueKeys(db.users, db.groups) && id in db.annotations
  {
    var a := db.annotations[id].(deleted := true, updated := now);
    Upsert(db.(annotations := db.annotations[id := a],
               syncJobs := db.syncJobs + {NewJob(q, id, false, now, SCHEDULE_IN)}), id)
  }

  function DocumentChanged(db: Db, olds: set<Pk>, master: Pk): Db {
    db.(annotations := Repointed(db.annotations, olds, master), slims := RepointedSlims(db.slims, olds, master))
  }

  function Repointed(annotations: map<Id, Annotation>, olds: set<Pk>, master: Pk): map<Id, Annotation> {
    map id | id in annotations ::
      if annotations[id].document in olds then annotations[id].(document := master) else annotations[id]
  }

  function RepointedSlims(slims: map<Id, Slim>, olds: set<Pk>, master: Pk): map<Id, Slim> {
    map id | id in slims :: if slims[id].document in olds then slims[id].(document := master) else slims[id]
  }

  /** The bulk form used when a user is purged: rows, slim rows and jobs separately. */
  function MarkedDeleted(db: Db, ids: set<Id>, now: Time, q: Queueing): Db {
    db.(annotations := map id | id in db.annotations ::
          if id in ids then db.annotations[id].(deleted := true, updated := now) else db.annotations[id],
        slims := map id | id in db.slims ::
          if id in ids then db.slims[id].(deleted := true, updated := now) else db.slims[id],
        syncJobs := db.syncJobs + set id | id in ids && id in db.annotations :: NewJob(q, id, false, now, SCHEDULE_IN))
  }

  // ----- Each write keeps the constraints and the mirror -----

  ghost predicate Inv(db: Db) {
    Consistent(db) && Mirrored(db)
  }

  /** All slim rows but that of `id` mirror, and that one still points at its own user and group. */
  ghost predicate MirrorsExcept(db: Db, id: Id) {
    && (forall other :: other in db.slims && other != id ==> Mirrors(db, other))
    && (id in db.slims ==>
          && id in db.annotations
          && var s, a := db.slims[id], db.annotations[id];
             && s.created == a.created
             && s.group in db.groups && db.groups[s.group].pubid == a.groupid
             && s.user in db.users && db.users[s.user].userid == a.userid)
  }

  /** The early return is harmless: a slim row pins its user and its group. */
  lemma UpsertRestoresMirror(db: Db, id: Id)
    requires UniqueKeys(db.users, db.groups) && id in db.annotations && MirrorsExcept(db, id)
    ensures Mirrored(Upsert(db, id)) && Upsert(db, id) == db.(slims := Upsert(db, id).slims)
    ensures GroupWith(db, db.annotations[id].groupid).Some? && UserWith(db, db.annotations[id].userid).Some? ==>
        id in Upsert(db, id).slims
  {
    var db' := Upsert(db, id);
    forall other | other in db'.slims
      ensures Mirrors(db', other)
    {
      assert other != id ==> Mirrors(db, other);
    }
  }

  datatype Op =
    | AddUser(pk: Pk, userid: UserId)
    | AddGroup(pk: Pk, pubid: Pubid, creator: Option<Pk>)
    | AddDocument(pk: Pk)
    | Create(id: Id, annotation: Annotation)
    | Update(id: Id, content: Content, document: Pk, updateTimestamp: bool)
    | Hide(id: Id)
    | Unhide(id: Id)
    | Delete(id: Id)
    | ChangeDocument(olds: set<Pk>, master: Pk)
    | PurgeAnnotations(ids: set<Id>)
    | RemoveGroups(pks: set<Pk>)
    | RemoveUsers(pks: set<Pk>)
    | RemoveDocuments(pks: set<Pk>)
    | Expunge(ids: set<Id>)
    | Backfill(id: Id)

  /** What the unique and foreign keys, and the callers, guarantee. */
  predicate Permitted(db: Db, op: Op, now: Time) {
    match op
    case AddUser(pk, userid) => pk !in db.users && forall u :: u in db.users ==> db.users[u].userid != userid
    case AddGroup(pk, pubid, creator) =>
      && pk !in db.groups && (forall g :: g in db.groups ==> db.groups[g].pubid != pubid)
      && (creator.Some? ==> creator.value in db.users)
    case AddDocument(_) => true
    case Create(id, a) =>
      && id !in db.usedIds && a.document in db.documents && a.created == a.updated == now && !a.deleted
      && a.serial == |db.usedIds|
      && (a.references != [] ==> a.references[0] in db.annotations && a.groupid == db.annotations[a.references[0]].groupid)
    case Update(id, _, document, _) => id in db.annotations && document in db.documents
    case Hide(id) => id in db.annotations
    case Unhide(id) => id in db.annotations
    case Delete(id) => id in db.annotations
    case ChangeDocument(_, master) => master in db.documents
    case PurgeAnnotations(ids) => ids <= db.annotations.Keys
    case RemoveGroups(_) => true
    case RemoveUsers(pks) => UsersDeletable(db, pks)
    case RemoveDocuments(pks) => DocumentsDeletable(db, pks)
    case Expunge(_) => true
    case Backfill(id) => id in db.annotations
  }

  function After(db: Db, op: Op, now: Time, q: Queueing): Db
    requires UniqueKeys(db.users, db.groups) && Permitted(db, op, now)
  {
    match op
    case AddUser(pk, userid) => db.(users := db.users[pk := User(userid)])
    case AddGroup(pk, pubid, creator) => db.(groups := db.groups[pk := Group(pubid, creator)])
    case AddDocument(pk) => db.(documents := db.documents + {pk})
    case Create(id, a) => Created(db, id, a, q)
    case Update(id, content, document, updateTimestamp) => Updated(db, id, content, document, updateTimestamp, now, q)
    case Hide(id) => Hidden(db, id, true)
    case Unhide(id) => Hidden(db, id, false)
    case Delete(id) => DeletedOne(db, id, now, q)
    case ChangeDocument(olds, master) => DocumentChanged(db, olds, master)
    case PurgeAnnotations(ids) => MarkedDeleted(db, ids, now, q)
    case RemoveGroups(pks) => DeleteGroups(db, pks)
    case RemoveUsers(pks) => DeleteUsers(db, pks)
    case RemoveDocuments(pks) => DeleteDocuments(db, pks)
    case Expunge(ids) => DeleteAnnotations(db, ids)
    case Backfill(id) => Upsert(db, id)
  }

  /** An annotation write prepares the tables, then upserts the slim row. */
  predicate Upserts(op: Op) {
    op.Create? || op.Update? || op.Hide? || op.Unhide? || op.Delete? || op.Backfill?
  }

  /** The tables just before the upsert: one annotation row, its moderation and its id have moved. */
  function Prepared(db: Db, id: Id, a: Annotation, moderations: set<Id>): Db {
    db.(annotations := db.annotations[id := a], moderations := moderations, usedIds := db.usedIds + {id})
  }

  lemma UpsertTouchesSlims(db: Db, id: Id)
    requires UniqueKeys(db.users, db.groups) && id in db.annotations
    ensures Upsert(db, id) == db.(slims := Upsert(db, id).slims)
  {
  }

  lemma JobsAreIndependent(db: Db, jobs: set<SyncJob>)
    requires Inv(db)
    ensures Inv(db.(syncJobs := jobs))
  {
    forall id | id in db.slims
      ensures Mirrors(db.(syncJobs := jobs), id)
    {
      assert Mirrors(db, id);
    }
  }

  /** The annotation keeps what a slim row pins: its creation time, its group and its user. */
  predicate KeepsOrigin(db: Db, id: Id, a: Annotation) {
    id in db.annotations ==>
      && a.created == db.annotations[id].created
      && a.groupid == db.annotations[id].groupid
      && a.userid == db.annotations[id].userid
  }

  lemma PreparedIsConsistent(db: Db, id: Id, a: Annotation, moderations: set<Id>)
    requires Consistent(db) && moderations <= db.annotations.Keys + {id} && a.document in db.documents
    ensures Consistent(Prepared(db, id, a, moderations))
  {
  }

  lemma PreparedMirrorsTheRest(db: Db, id: Id, a: Annotation, moderations: set<Id>)
    requires Mirrored(db) && KeepsOrigin(db, id, a)
    requires forall other :: other != id ==> (other in moderations <==> other in db.moderations)
    ensures MirrorsExcept(Prepared(db, id, a, moderations), id)
  {
    var mid := Prepared(db, id, a, moderations);
    assert id in db.slims ==> Mirrors(db, id);
    forall other | other in mid.slims && other != id
      ensures Mirrors(mid, other)
    {
      assert Mirrors(db, other);
    }
  }

  lemma UpsertKeepsInv(db: Db, id: Id, a: Annotation, moderations: set<Id>, db': Db)
    requires Inv(db) && moderations <= db.annotations.Keys + {id} && a.document in db.documents
    requires forall other :: other != id ==> (other in moderations <==> other in db.moderations)
    requires KeepsOrigin(db, id, a)
    requires db' == Upsert(Prepared(db, id, a, moderations), id).(syncJobs := db'.syncJobs)
    ensures Inv(db')
  {
    var mid := Prepared(db, id, a, moderations);
    PreparedIsConsistent(db, id, a, moderations);
    PreparedMirrorsTheRest(db, id, a, moderations);
    UpsertRestoresMirror(mid, id);
    assert id in mid.annotations;
    hide Upsert, Prepared, Mirrored, MirrorsExcept, KeepsOrigin;
    UpsertTouchesSlims(mid, id);
    JobsAreIndependent(Upsert(mid, id), db'.syncJobs);
  }

  lemma CreateKeepsInv(db: Db, id: Id, a: Annotation, q: Queueing)
    requires Inv(db) && a.document in db.documents && id !in db.usedIds
    ensures Inv(Created(db, id, a, q))
  {
    UpsertKeepsInv(db, id, a, db.moderations, Created(db, id, a, q));
  }

  lemma UpdateKeepsInv(db: Db, id: Id, content: Content, document: Pk, stamp: bool, now: Time, q: Queueing)
    requires Inv(db) && id in db.annotations && document in db.documents
    ensures Inv(Updated(db, id, content, document, stamp, now, q))
  {
    var a := Edited(db.annotations[id], content, document, stamp, now);
    assert db.usedIds + {id} == db.usedIds;
    UpsertKeepsInv(db, id, a, db.moderations, Updated(db, id, content, document, stamp, now, q));
  }

  lemma DeleteKeepsInv(db: Db, id: Id, now: Time, q: Queueing)
    requires Inv(db) && id in db.annotations
    ensures Inv(DeletedOne(db, id, now, q))
  {
    var a := db.annotations[id].(deleted := true, updated := now);
    assert db.usedIds + {id} == db.usedIds;
    UpsertKeepsInv(db, id, a, db.moderations, DeletedOne(db, id, now, q));
  }

  lemma ModerationKeepsInv(db: Db, id: Id, moderations: set<Id>)
    requires Inv(db) && id in db.annotations
    requires moderations == db.moderations || moderations == db.moderations + {id} || moderations == db.moderations - {id}
    ensures Inv(Upsert(db.(moderations := moderations), id))
  {
    assert db.usedIds + {id} == db.usedIds;
    assert db.annotations[id := db.annotations[id]] == db.annotations;
    assert Prepared(db, id, db.annotations[id], moderations) == db.(moderations := moderations);
    UpsertKeepsInv(db, id, db.annotations[id], moderations, Upsert(db.(moderations := moderations), id));
  }

  lemma MarkedDeletedKeepsInv(db: Db, ids: set<Id>, now: Time, q: Queueing)
    requires Inv(db)
    ensures Inv(MarkedDeleted(db, ids, now, q))
  {
    var db' := MarkedDeleted(db, ids, now, q);
    forall id | id in db'.slims
      ensures Mirrors(db', id)
    {
      assert Mirrors(db, id);
    }
  }

  lemma DocumentChangedKeepsInv(db: Db, olds: set<Pk>, master: Pk)
    requires Inv(db) && master in db.documents
    ensures Inv(DocumentChanged(db, olds, master))
  {
    var db' := DocumentChanged(db, olds, master);
    forall id | id in db'.slims
      ensures Mirrors(db', id)
    {
      assert Mirrors(db, id);
    }
  }

  lemma DeleteGroupsKeepsInv(db: Db, pks: set<Pk>)
    requires Inv(db)
    ensures Inv(DeleteGroups(db, pks))
  {
    var db' := DeleteGroups(db, pks);
    forall id | id in db'.slims
      ensures Mirrors(db', id)
    {
      assert Mirrors(db, id);
    }
  }

  lemma DeleteUsersKeepsKeys(db: Db, pks: set<Pk>)
    requires Consistent(db) && UsersDeletable(db, pks)
    ensures Consistent(DeleteUsers(db, pks))
  {
  }

  lemma DeleteUsersKeepsMirror(db: Db, pks: set<Pk>)
    requires Mirrored(db)
    ensures Mirrored(DeleteUsers(db, pks))
  {
    var db' := DeleteUsers(db, pks);
    forall id | id in db'.slims
      ensures Mirrors(db', id)
    {
      assert Mirrors(db, id);
    }
  }

  lemma DeleteUsersKeepsInv(db: Db, pks: set<Pk>)
    requires Inv(db) && UsersDeletable(db, pks)
    ensures Inv(DeleteUsers(db, pks))
  {
    hide Consistent, Mirrored, DeleteUsers;
    DeleteUsersKeepsKeys(db, pks);
    DeleteUsersKeepsMirror(db, pks);
  }

  lemma DeleteAnnotationsKeepsInv(db: Db, ids: set<Id>)
    requires Inv(db)
    ensures Inv(DeleteAnnotations(db, ids))
  {
    var db' := DeleteAnnotations(db, ids);
    forall id | id in db'.slims
      ensures Mirrors(db', id)
    {
      assert Mirrors(db, id);
    }
  }

  lemma MoreParentsKeepInv(db: Db, users: map<Pk, User>, groups: map<Pk, Group>, documents: set<Pk>)
    requires Inv(db) && UniqueKeys(users, groups) && CreatorKeys(groups, users) && db.documents <= documents
    requires forall pk :: pk in db.users ==> pk in users && users[pk] == db.users[pk]
    requires forall pk :: pk in db.groups ==> pk in groups && groups[pk] == db.groups[pk]
    ensures Inv(db.(users := users, groups := groups, documents := documents))
  {
    var db' := db.(users := users, groups := groups, documents := documents);
    forall id | id in db'.slims
      ensures Mirrors(db', id)
    {
      assert Mirrors(db, id);
    }
  }

  lemma DeleteDocumentsKeepsInv(db: Db, pks: set<Pk>)
    requires Inv(db) && DocumentsDeletable(db, pks)
    ensures Inv(DeleteDocuments(db, pks))
  {
    var db' := DeleteDocuments(db, pks);
    forall id | id in db'.slims
      ensures Mirrors(db', id)
    {
      assert Mirrors(db, id);
    }
  }

  lemma InvImpliesKeys(db: Db)
    requires Inv(db)
    ensures UniqueKeys(db.users, db.groups) && CreatorKeys(db.groups, db.users)
  {
  }

  lemma NewUserKeepsInv(db: Db, pk: Pk, userid: UserId)
    requires Inv(db) && pk !in db.users && forall u :: u in db.users ==> db.users[u].userid != userid
    ensures Inv(db.(users := db.users[pk := User(userid)]))
  {
    assert UniqueKeys(db.users[pk := User(userid)], db.groups);
    MoreParentsKeepInv(db, db.users[pk := User(userid)], db.groups, db.documents);
  }

  lemma NewGroupKeepsInv(db: Db, pk: Pk, pubid: Pubid, creator: Option<Pk>)
    requires Inv(db) && pk !in db.groups && forall g :: g in db.groups ==> db.groups[g].pubid != pubid
    requires creator.Some? ==> creator.value in db.users
    ensures Inv(db.(groups := db.groups[pk := Group(pubid, creator)]))
  {
    assert UniqueKeys(db.users, db.groups[pk := Group(pubid, creator)]);
    MoreParentsKeepInv(db, db.users, db.groups[pk := Group(pubid, creator)], db.documents);
  }

  lemma OpKeepsInv(db: Db, op: Op, now: Time, q: Queueing)
    requires Inv(db) && Permitted(db, op, now)
    ensures Inv(After(db, op, now, q))
  {
    hide Inv, MarkedDeleted, DeleteGroups, DeleteUsers, DeleteAnnotations, DeleteDocuments, DocumentChanged;
    match op
    case Create(id, a) => CreateKeepsInv(db, id, a, q);
    case Update(id, content, document, stamp) => UpdateKeepsInv(db, id, content, document, stamp, now, q);
    case Delete(id) => DeleteKeepsInv(db, id, now, q);
    case Hide(id) => ModerationKeepsInv(db, id, db.moderations + {id});
    case Unhide(id) => ModerationKeepsInv(db, id, db.moderations - {id});
    case Backfill(id) => ModerationKeepsInv(db, id, db.moderations);
    case ChangeDocument(olds, master) => DocumentChangedKeepsInv(db, olds, master);
    case PurgeAnnotations(ids) => MarkedDeletedKeepsInv(db, ids, now, q);
    case RemoveGroups(pks) => DeleteGroupsKeepsInv(db, pks);
    case RemoveUsers(pks) => DeleteUsersKeepsInv(db, pks);
    case Expunge(ids) => DeleteAnnotationsKeepsInv(db, ids);
    case RemoveDocuments(pks) => DeleteDocumentsKeepsInv(db, pks);
    case AddUser(pk, userid) => NewUserKeepsInv(db, pk, userid);
    case AddGroup(pk, pubid, creator) => NewGroupKeepsInv(db, pk, pubid, creator);
    case AddDocument(pk) =>
      InvImpliesKeys(db);
      assert After(db, op, now, q) == db.(users := db.users, groups := db.groups, documents := db.documents + {pk});
      MoreParentsKeepInv(db, db.users, db.groups, db.documents + {pk});
  }

  predicate Legal(db: Db, run: seq<(Op, Time, Queueing)>)
    decreases |run|
  {
    run == [] || (UniqueKeys(db.users, db.groups) && Permitted(db, run[0].0, run[0].1)
                  && Legal(After(db, run[0].0, run[0].1, run[0].2), run[1..]))
  }

  function Run(db: Db, run: seq<(Op, Time, Queueing)>): Db
    requires Legal(db, run)
    decreases |run|
  {
    if run == [] then db else Run(After(db, run[0].0, run[0].1, run[0].2), run[1..])
  }

  lemma {:induction false} RunKeepsInv(db: Db, run: seq<(Op, Time, Queueing)>)
    requires Inv(db) && Legal(db, run)
    ensures Inv(Run(db, run))
    decreases |run|
  {
    if run != [] {
      var (op, now, q) := run[0];
      OpKeepsInv(db, op, now, q);
      RunKeepsInv(After(db, op, now, q), run[1..]);
    }
  }

  /** Starting from empty tables, after any writes and any cascades, every slim row still
      equals the projection of its annotation. */
  lemma SlimRowsAlwaysMirror(run: seq<(Op, Time, Queueing)>)
    requires Legal(EMPTY, run)
    ensures Mirrored(Run(EMPTY, run))
  {
    RunKeepsInv(EMPTY, run);
  }

  // ----- The link to the synchronisation protocol -----

  /** The protocol transaction that an operation amounts to, if it touches annotations or jobs. */
  function ToWrite(op: Op): Option<Write> {
    match op
    case Create(id, a) => Some(Write.Create(id, a.userid, a.content))
    case Update(id, content, _, updateTimestamp) => Some(Write.Update(id, content, updateTimestamp))
    case Delete(id) => Some(MarkDeleted({id}))
    case PurgeAnnotations(ids) => Some(MarkDeleted(ids))
    case Expunge(ids) => Some(Write.Expunge(ids))
    case _ => None
  }

  lemma UpsertIsInvisible(db: Db, id: Id)
    requires UniqueKeys(db.users, db.groups) && id in db.annotations
    ensures ToBase(Upsert(db, id)) == ToBase(db)
  {
  }

  lemma ModerationIsInvisible(db: Db, id: Id, hidden: bool)
    requires UniqueKeys(db.users, db.groups) && id in db.annotations
    ensures ToBase(Hidden(db, id, hidden)) == ToBase(db)
  {
    var moderations := if hidden then db.moderations + {id} else db.moderations - {id};
    UpsertIsInvisible(db.(moderations := moderations), id);
  }

  /** Each write commits exactly one transaction of the protocol, job included; hiding,
      document merges and cascades commit none. */
  lemma WritesAreTransactions(db: Db, op: Op, now: Time, q: Queueing)
    requires UniqueKeys(db.users, db.groups) && Permitted(db, op, now)
    requires ToWrite(op).Some? ==> AnnotationStore.Allowed(ToBase(db), ToWrite(op).value, now)
    ensures ToBase(After(db, op, now, q)) ==
            match ToWrite(op) { case Some(write) => Commit(ToBase(db), write, now, q) case None => ToBase(db) }
  {
    hide Created, Updated, DeletedOne, Upsert, ToBase, Commit, DeleteGroups, DeleteUsers, DeleteDocuments,
        DeleteAnnotations, DocumentChanged, MarkedDeleted;
    match op
    case Create(id, a) => CreateIsTransaction(db, id, a, now, q);
    case Update(id, content, document, stamp) => UpdateIsTransaction(db, id, content, document, stamp, now, q);
    case Delete(id) => DeleteIsTransaction(db, id, now, q);
    case Hide(id) => ModerationIsInvisible(db, id, true);
    case Unhide(id) => ModerationIsInvisible(db, id, false);
    case Backfill(id) => UpsertIsInvisible(db, id);
    case PurgeAnnotations(ids) => PurgeIsTransaction(db, ids, now, q);
    case Expunge(ids) => ExpungeIsTransaction(db, ids, now, q);
    case _ => CascadesAreInvisible(db, op, now, q);
  }

  lemma PurgeIsTransaction(db: Db, ids: set<Id>, now: Time, q: Queueing)
    requires ids <= db.annotations.Keys
    ensures ToBase(MarkedDeleted(db, ids, now, q)) == Commit(ToBase(db), MarkDeleted(ids), now, q)
  {
    assert ToBase(MarkedDeleted(db, ids, now, q)).db == Commit(ToBase(db), MarkDeleted(ids), now, q).db;
  }

  lemma ExpungeIsTransaction(db: Db, ids: set<Id>, now: Time, q: Queueing)
    requires AnnotationStore.Allowed(ToBase(db), Write.Expunge(ids), now)
    ensures ToBase(DeleteAnnotations(db, ids)) == Commit(ToBase(db), Write.Expunge(ids), now, q)
  {
    assert ToBase(DeleteAnnotations(db, ids)).db == Commit(ToBase(db), Write.Expunge(ids), now, q).db;
  }

  lemma CascadesAreInvisible(db: Db, op: Op, now: Time, q: Queueing)
    requires UniqueKeys(db.users, db.groups) && Permitted(db, op, now) && !Upserts(op) && ToWrite(op).None?
    ensures ToBase(After(db, op, now, q)) == ToBase(db)
  {
    hide Created, Updated, DeletedOne, Hidden, MarkedDeleted, Upsert, DeleteAnnotations;
  }

  lemma CreateIsTransaction(db: Db, id: Id, a: Annotation, now: Time, q: Queueing)
    requires UniqueKeys(db.users, db.groups) && Permitted(db, Op.Create(id, a), now)
    requires AnnotationStore.Allowed(ToBase(db), Write.Create(id, a.userid, a.content), now)
    ensures ToBase(Created(db, id, a, q)) == Commit(ToBase(db), Write.Create(id, a.userid, a.content), now, q)
  {
    var mid := db.(annotations := db.annotations[id := a], usedIds := db.usedIds + {id});
    UpsertIsInvisible(mid, id);
    UpsertTouchesSlims(mid, id);
    hide Upsert;
    assert ToBase(mid).db == ToBase(db).db[id := Row(now, a.userid, a.content, false)];
    assert NewJobs(ToBase(mid).db, {id}, q, false, now, SCHEDULE_IN) == {NewJob(q, id, false, now, SCHEDULE_IN)};
  }

  lemma UpdateIsTransaction(db: Db, id: Id, content: Content, document: Pk, stamp: bool, now: Time, q: Queueing)
    requires UniqueKeys(db.users, db.groups) && id in db.annotations
    ensures ToBase(Updated(db, id, content, document, stamp, now, q)) ==
        Commit(ToBase(db), Write.Update(id, content, stamp), now, q)
  {
    var a := Edited(db.annotations[id], content, document, stamp, now);
    var mid := db.(annotations := db.annotations[id := a]);
    UpsertIsInvisible(mid, id);
    assert ToBase(mid).db == ToBase(db).db[id := ToRow(a)];
    assert NewJobs(ToBase(mid).db, {id}, q, !stamp, now, SCHEDULE_IN) == {NewJob(q, id, !stamp, now, SCHEDULE_IN)};
  }

  lemma DeleteIsTransaction(db: Db, id: Id, now: Time, q: Queueing)
    requires UniqueKeys(db.users, db.groups) && id in db.annotations
    ensures ToBase(DeletedOne(db, id, now, q)) == Commit(ToBase(db), MarkDeleted({id}), now, q)
  {
    var a := db.annotations[id].(deleted := true, updated := now);
    var mid := db.(annotations := db.annotations[id := a], syncJobs := db.syncJobs + {NewJob(q, id, false, now, SCHEDULE_IN)});
    UpsertIsInvisible(mid, id);
    assert ToBase(mid).db == Commit(ToBase(db), MarkDeleted({id}), now, q).db;
    assert NewJobs(ToBase(mid).db, {id}, q, false, now, SCHEDULE_IN) == {NewJob(q, id, false, now, SCHEDULE_IN)};
  }
}
