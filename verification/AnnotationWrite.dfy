/** The write and delete services, statement by statement, on a session whose failed requests
    roll back. */
module AnnotationWrite {
  import opened Options
  import opened AnnotationStore
  import opened Collections
  import opened Tables
  import opened SlimMirror

  datatype ValidationError = RootDoesNotExist | InvalidGroup | NotAllowedInGroup | OutsideGroupScope

  datatype Outcome = Ok | Invalid(error: ValidationError)

  /** Validated request data; `target` is the document that the target URI resolves to. */
  datatype Data = Data(userid: UserId, groupid: Pubid, content: Content, target: Pk, references: seq<Id>)

  /** The group in which a new annotation ends up: a reply joins the group of its root. */
  function EffectiveGroup(db: Db, data: Data): Option<Pubid> {
    if data.references == [] then Some(data.groupid)
    else if data.references[0] in db.annotations then Some(db.annotations[data.references[0]].groupid)
    else None
  }

  /** The first check that fails, in the order of the code. */
  function GroupProblem(group: Option<Pk>, mayWrite: bool, enforceWrite: bool, inScope: bool): Outcome {
    if group.None? then Invalid(InvalidGroup)
    else if enforceWrite && !mayWrite then Invalid(NotAllowedInGroup)
    else if !inScope then Invalid(OutsideGroupScope)
    else Ok
  }

  lemma ModerationAfter(db: Db, id: Id, hidden: bool)
    requires UniqueKeys(db.users, db.groups) && id in db.annotations
    ensures id in Hidden(db, id, hidden).moderations <==> hidden
  {
    UpsertTouchesSlims(db.(moderations := if hidden then db.moderations + {id} else db.moderations - {id}), id);
    hide Upsert;
  }

  lemma HidingKeeps(db: Db, id: Id, hidden: bool)
    requires UniqueKeys(db.users, db.groups) && id in db.annotations
    ensures var db' := Hidden(db, id, hidden);
            && ToBase(db') == ToBase(db) && (id in db'.moderations <==> hidden)
            && (Inv(db) ==> Inv(db'))
  {
    ModerationIsInvisible(db, id, hidden);
    ModerationAfter(db, id, hidden);
    hide ToBase, Inv, Upsert;
    if Inv(db) {
      ModerationKeepsInv(db, id, if hidden then db.moderations + {id} else db.moderations - {id});
    }
  }

  class AnnotationWriteService {
    var db: Db

    constructor (db: Db)
      ensures this.db == db
    {
      this.db := db;
    }

    method UpsertAnnotationSlim(id: Id)
      requires UniqueKeys(db.users, db.groups) && id in db.annotations
      modifies this
      ensures db == Upsert(old(db), id)
    {
      var annotation := db.annotations[id];
      var user := UserWith(db, annotation.userid);
      var group := GroupWith(db, annotation.groupid);
      if group.None? || user.None? {
        return;
      }
      var moderated := id in db.moderations;
      if id in db.slims {
        var row := db.slims[id].(updated := annotation.updated, deleted := annotation.deleted,
                                 shared := annotation.content.shared, document := annotation.document,
                                 group := group.value, user := user.value, moderated := moderated);
        db := db.(slims := db.slims[id := row]);
      } else {
        var row := Slim(annotation.created, annotation.updated, annotation.deleted, annotation.content.shared,
                        annotation.document, group.value, user.value, moderated);
        db := db.(slims := db.slims[id := row]);
      }
    }

    /** `JobQueueService.add_by_id`: one job, provided that the annotation row exists. */
    method AddById(id: Id, force: bool, now: Time, q: Queueing)
      modifies this
      ensures db == old(db).(syncJobs := old(db).syncJobs +
                  if id in old(db).annotations then {NewJob(q, id, force, now, SCHEDULE_IN)} else {})
    {
      db := db.(syncJobs := db.syncJobs + set a | a in db.annotations && a == id :: NewJob(q, a, force, now, SCHEDULE_IN));
    }

    method CreateAnnotation(id: Id, data: Data, mayWrite: bool, inScope: bool, now: Time, q: Queueing) returns (r: Outcome)
      requires UniqueKeys(db.users, db.groups) && id !in db.usedIds && data.target in db.documents
      modifies this
      ensures r.Invalid? ==> db == old(db)
      ensures r == match EffectiveGroup(old(db), data) {
                     case None => Invalid(RootDoesNotExist)
                     case Some(groupid) => GroupProblem(GroupWith(old(db), groupid), mayWrite, true, inScope) }
      ensures r.Ok? ==>
                var a := Annotation(|old(db).usedIds|, now, now, data.userid, EffectiveGroup(old(db), data).value,
                                    data.content, false, data.target, data.references);
                Permitted(old(db), Op.Create(id, a), now) && db == Created(old(db), id, a, q)
    {
      var groupid := data.groupid;
      if data.references != [] {
        if data.references[0] !in db.annotations {
          return Invalid(RootDoesNotExist);
        }
        groupid := db.annotations[data.references[0]].groupid;
      }
      r := GroupProblem(GroupWith(db, groupid), mayWrite, true, inScope);
      if r.Invalid? {
        return;
      }
      var annotation := Annotation(|db.usedIds|, now, now, data.userid, groupid, data.content, false,
                                   data.target, data.references);
      db := db.(annotations := db.annotations[id := annotation], usedIds := db.usedIds + {id});
      UpsertAnnotationSlim(id);
      AddById(id, false, now, q);
    }

    method UpdateAnnotation(id: Id, content: Content, document: Pk, updateTimestamp: bool, enforceWrite: bool,
                            mayWrite: bool, inScope: bool, now: Time, q: Queueing) returns (r: Outcome)
      requires UniqueKeys(db.users, db.groups) && id in db.annotations && document in db.documents
      modifies this
      ensures r.Invalid? ==> db == old(db)
      ensures r == GroupProblem(GroupWith(old(db), old(db).annotations[id].groupid), mayWrite, enforceWrite, inScope)
      ensures r.Ok? ==> db == Updated(old(db), id, content, document, updateTimestamp, now, q)
    {
      var updated := if updateTimestamp then now else db.annotations[id].updated;
      var annotation := db.annotations[id].(content := content, updated := updated);
      r := GroupProblem(GroupWith(db, annotation.groupid), mayWrite, enforceWrite, inScope);
      if r.Invalid? {
        return;
      }
      annotation := annotation.(document := document);
      ghost var mid := db.(annotations := db.annotations[id := annotation]);
      db := db.(annotations := db.annotations[id := annotation]);
      UpsertAnnotationSlim(id);
      assert db == Upsert(mid, id) && db.annotations == mid.annotations;
      AddById(id, !updateTimestamp, now, q);
    }

    method Hide(id: Id)
      requires UniqueKeys(db.users, db.groups) && id in db.annotations
      modifies this
      ensures db == Hidden(old(db), id, true) && id in db.moderations
      ensures ToBase(db) == ToBase(old(db)) && (Inv(old(db)) ==> Inv(db))
    {
      HidingKeeps(db, id, true);
      if id !in db.moderations {
        db := db.(moderations := db.moderations + {id});
      }
      assert db.moderations == old(db).moderations + {id};
      UpsertAnnotationSlim(id);
    }

    method Unhide(id: Id)
      requires UniqueKeys(db.users, db.groups) && id in db.annotations
      modifies this
      ensures db == Hidden(old(db), id, false) && id !in db.moderations
      ensures ToBase(db) == ToBase(old(db)) && (Inv(old(db)) ==> Inv(db))
    {
      HidingKeeps(db, id, false);
      db := db.(moderations := db.moderations - {id});
      UpsertAnnotationSlim(id);
    }

    method ChangeDocument(olds: set<Pk>, master: Pk)
      requires UniqueKeys(db.users, db.groups) && master in db.documents
      modifies this
      ensures db == DocumentChanged(old(db), olds, master)
      ensures ToBase(db) == ToBase(old(db)) && (Inv(old(db)) ==> Inv(db))
      ensures forall id :: id in db.annotations && db.annotations[id].document in olds ==> db.annotations[id].document == master
    {
      if Inv(db) {
        DocumentChangedKeepsInv(db, olds, master);
      }
      db := db.(annotations := Repointed(db.annotations, olds, master));
      db := db.(slims := RepointedSlims(db.slims, olds, master));
    }
  }

  // ----- Deletion -----

  const EXPUNGE_LIMIT := 1000

  /** Rows marked as deleted long enough ago. */
  function Expungeable(db: Db, now: Time): set<Id> {
    set id | id in db.annotations && db.annotations[id].deleted && db.annotations[id].updated < now - EXPUNGE_AGE
  }

  lemma DeletedOneEffect(db: Db, id: Id, now: Time, q: Queueing)
    requires UniqueKeys(db.users, db.groups) && id in db.annotations
    ensures var db' := DeletedOne(db, id, now, q);
            && db'.users == db.users && db'.groups == db.groups
            && db'.annotations == db.annotations[id := db.annotations[id].(deleted := true, updated := now)]
            && db'.syncJobs == db.syncJobs + {NewJob(q, id, false, now, SCHEDULE_IN)}
  {
  }

  lemma DeletingKeeps(db: Db, id: Id, now: Time, q: Queueing)
    requires UniqueKeys(db.users, db.groups) && id in db.annotations
    ensures ToBase(DeletedOne(db, id, now, q)) == Commit(ToBase(db), MarkDeleted({id}), now, q)
    ensures Inv(db) ==> Inv(DeletedOne(db, id, now, q))
  {
    hide Inv, ToBase, Commit, DeletedOne;
    DeleteIsTransaction(db, id, now, q);
    if Inv(db) {
      DeleteKeepsInv(db, id, now, q);
    }
  }

  /** Each of `ids` is marked as deleted and has a job of its own, queued as `qs` says, and no
      other row changed. */
  predicate AllDeleted(before: Db, after: Db, ids: seq<Id>, times: seq<Time>, qs: seq<Queueing>)
    requires |times| == |ids| == |qs|
  {
    RowsDeleted(before.annotations, after.annotations, ids) && JobsQueued(before.syncJobs, after.syncJobs, ids, times, qs)
  }

  predicate RowsDeleted(before: map<Id, Annotation>, after: map<Id, Annotation>, ids: seq<Id>) {
    && after.Keys == before.Keys
    && (forall i :: 0 <= i < |ids| ==> ids[i] in after && after[ids[i]].deleted)
    && (forall id :: id in before && id !in ids ==> after[id] == before[id])
  }

  predicate JobsQueued(before: set<SyncJob>, after: set<SyncJob>, ids: seq<Id>, times: seq<Time>, qs: seq<Queueing>)
    requires |times| == |ids| == |qs|
  {
    before <= after && forall i :: 0 <= i < |ids| ==> NewJob(qs[i], ids[i], false, times[i], SCHEDULE_IN) in after
  }

  lemma NothingDeleted(db: Db, ids: seq<Id>, times: seq<Time>, qs: seq<Queueing>)
    requires ids == [] && times == [] && qs == []
    ensures AllDeleted(db, db, ids, times, qs)
  {
  }

  lemma OneMoreDeleted(before: Db, mid: Db, ids: seq<Id>, times: seq<Time>, qs: seq<Queueing>, i: nat)
    requires UniqueKeys(mid.users, mid.groups) && |times| == |ids| == |qs| && i < |ids| && ids[i] in mid.annotations
    requires AllDeleted(before, mid, ids[..i], times[..i], qs[..i])
    ensures AllDeleted(before, DeletedOne(mid, ids[i], times[i], qs[i]), ids[..i + 1], times[..i + 1], qs[..i + 1])
    ensures DeletedOne(mid, ids[i], times[i], qs[i]).annotations.Keys == mid.annotations.Keys
  {
    DeletedOneEffect(mid, ids[i], times[i], qs[i]);
    OneMoreRow(before.annotations, mid.annotations, ids, times[i], i);
    OneMoreJob(before.syncJobs, mid.syncJobs, ids, times, qs, i);
    hide DeletedOne, NewJob, RowsDeleted, JobsQueued;
  }

  lemma OneMoreRow(before: map<Id, Annotation>, mid: map<Id, Annotation>, ids: seq<Id>, time: Time, i: nat)
    requires i < |ids| && ids[i] in mid && RowsDeleted(before, mid, ids[..i])
    ensures RowsDeleted(before, mid[ids[i] := mid[ids[i]].(deleted := true, updated := time)], ids[..i + 1])
  {
    assert ids[..i + 1] == ids[..i] + [ids[i]];
  }

  lemma OneMoreJob(before: set<SyncJob>, mid: set<SyncJob>, ids: seq<Id>, times: seq<Time>, qs: seq<Queueing>, i: nat)
    requires |times| == |ids| == |qs| && i < |ids| && JobsQueued(before, mid, ids[..i], times[..i], qs[..i])
    ensures JobsQueued(before, mid + {NewJob(qs[i], ids[i], false, times[i], SCHEDULE_IN)}, ids[..i + 1], times[..i + 1],
              qs[..i + 1])
  {
    hide NewJob;
    assert ids[..i + 1] == ids[..i] + [ids[i]] && times[..i + 1] == times[..i] + [times[i]] && qs[..i + 1] == qs[..i] + [qs[i]];
  }

  /** The jobs are new when the keys are. */
  lemma DeletionJobsAreNew(before: Db, ids: seq<Id>, times: seq<Time>, qs: seq<Queueing>, i: nat)
    requires |times| == |ids| == |qs| && i < |ids|
    requires forall job :: job in before.syncJobs ==> job.key != qs[i].key
    ensures NewJob(qs[i], ids[i], false, times[i], SCHEDULE_IN) !in before.syncJobs
  {
  }

  lemma InvMeansUnique(db: Db)
    requires Inv(db)
    ensures UniqueKeys(db.users, db.groups)
  {
  }

  class AnnotationDeleteService {
    const annotationWrite: AnnotationWriteService

    constructor (annotationWrite: AnnotationWriteService)
      ensures this.annotationWrite == annotationWrite
    {
      this.annotationWrite := annotationWrite;
    }

    /** The job is queued before the slim row is updated. */
    method Delete(id: Id, now: Time, q: Queueing)
      requires UniqueKeys(annotationWrite.db.users, annotationWrite.db.groups) && id in annotationWrite.db.annotations
      modifies annotationWrite
      ensures annotationWrite.db == DeletedOne(old(annotationWrite.db), id, now, q)
      ensures ToBase(annotationWrite.db) == Commit(ToBase(old(annotationWrite.db)), MarkDeleted({id}), now, q)
      ensures Inv(old(annotationWrite.db)) ==> Inv(annotationWrite.db)
    {
      DeletingKeeps(annotationWrite.db, id, now, q);
      hide Inv, ToBase, Commit;
      var annotation := annotationWrite.db.annotations[id].(updated := now, deleted := true);
      annotationWrite.db := annotationWrite.db.(annotations := annotationWrite.db.annotations[id := annotation]);
      annotationWrite.AddById(id, false, now, q);
      annotationWrite.UpsertAnnotationSlim(id);
    }

    /** One deletion after another; each has its own time and its own job. */
    method DeleteAll(ids: seq<Id>, times: seq<Time>, qs: seq<Queueing>)
      requires Inv(annotationWrite.db) && |times| == |ids| == |qs|
      requires forall i :: 0 <= i < |ids| ==> ids[i] in annotationWrite.db.annotations
      modifies annotationWrite
      ensures Inv(annotationWrite.db)
      ensures AllDeleted(old(annotationWrite.db), annotationWrite.db, ids, times, qs)
    {
      hide Inv, UniqueKeys, AllDeleted, DeletedOne;
      NothingDeleted(annotationWrite.db, ids[..0], times[..0], qs[..0]);
      for i := 0 to |ids|
        invariant Inv(annotationWrite.db)
        invariant annotationWrite.db.annotations.Keys == old(annotationWrite.db.annotations.Keys)
        invariant AllDeleted(old(annotationWrite.db), annotationWrite.db, ids[..i], times[..i], qs[..i])
      {
        InvMeansUnique(annotationWrite.db);
        DeleteKeepsInv(annotationWrite.db, ids[i], times[i], qs[i]);
        OneMoreDeleted(old(annotationWrite.db), annotationWrite.db, ids, times, qs, i);
        Delete(ids[i], times[i], qs[i]);
      }
      assert ids[..|ids|] == ids && times[..|ids|] == times && qs[..|ids|] == qs;
    }

    /** Expunges as many rows as are due, up to the limit; which ones is unspecified. */
    method BulkDelete(now: Time) returns (expunged: set<Id>)
      modifies annotationWrite
      ensures expunged <= Expungeable(old(annotationWrite.db), now)
      ensures |expunged| == Min(EXPUNGE_LIMIT, |Expungeable(old(annotationWrite.db), now)|)
      ensures annotationWrite.db == DeleteAnnotations(old(annotationWrite.db), expunged)
      ensures Allowed(ToBase(old(annotationWrite.db)), Write.Expunge(expunged), now)
    {
      var due := Expungeable(annotationWrite.db, now);
      SubsetOfSize(due, Min(EXPUNGE_LIMIT, |due|));
      expunged :| expunged <= due && |expunged| == Min(EXPUNGE_LIMIT, |due|);
      annotationWrite.db := DeleteAnnotations(annotationWrite.db, expunged);
    }
  }
}
