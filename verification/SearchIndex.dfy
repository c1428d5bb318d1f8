/** Direct writes to the search index, and the recursion to the root of a thread. */
module SearchIndex {
  import opened Options
  import opened AnnotationStore
  import opened Tables
  import opened SlimMirror

  /** Whatever `references[0]` still names was created strictly earlier. */
  predicate ThreadOrder(db: Db) {
    forall id :: id in db.annotations ==>
      && db.annotations[id].serial < |db.usedIds|
      && (db.annotations[id].references != [] ==>
            && db.annotations[id].references[0] in db.usedIds
            && (db.annotations[id].references[0] in db.annotations ==>
                  db.annotations[db.annotations[id].references[0]].serial < db.annotations[id].serial))
  }

  /** Rows keep their place in the order of creation and their references. */
  predicate KeepsThreads(db: Db, db': Db) {
    && db'.usedIds == db.usedIds
    && (forall id :: id in db'.annotations ==>
          && id in db.annotations
          && db'.annotations[id].serial == db.annotations[id].serial
          && db'.annotations[id].references == db.annotations[id].references)
  }

  lemma KeptThreadsStayOrdered(db: Db, db': Db)
    requires ThreadOrder(db) && KeepsThreads(db, db')
    ensures ThreadOrder(db')
  {
  }

  lemma NewRowKeepsThreadOrder(db: Db, db': Db, id: Id, a: Annotation)
    requires ThreadOrder(db) && db.annotations.Keys <= db.usedIds
    requires id !in db.usedIds && a.serial == |db.usedIds|
    requires a.references != [] ==> a.references[0] in db.annotations
    requires db'.usedIds == db.usedIds + {id} && db'.annotations == db.annotations[id := a]
    ensures ThreadOrder(db')
  {
    assert |db'.usedIds| == |db.usedIds| + 1;
  }

  lemma CreatedRow(db: Db, id: Id, a: Annotation, q: Queueing)
    requires UniqueKeys(db.users, db.groups)
    ensures Created(db, id, a, q).annotations == db.annotations[id := a]
    ensures Created(db, id, a, q).usedIds == db.usedIds + {id}
  {
    UpsertTouchesSlims(db.(annotations := db.annotations[id := a], usedIds := db.usedIds + {id}), id);
    hide Upsert;
  }

  lemma CreateKeepsThreadOrder(db: Db, id: Id, a: Annotation, q: Queueing)
    requires UniqueKeys(db.users, db.groups) && AnnotationKeys(db.annotations, db.documents, db.usedIds)
    requires ThreadOrder(db) && id !in db.usedIds && a.serial == |db.usedIds|
    requires a.references != [] ==> a.references[0] in db.annotations
    ensures ThreadOrder(Created(db, id, a, q))
  {
    CreatedRow(db, id, a, q);
    hide Created, ThreadOrder;
    NewRowKeepsThreadOrder(db, Created(db, id, a, q), id, a);
  }

  lemma UpsertKeepsThreads(db: Db, mid: Db, id: Id, db': Db)
    requires UniqueKeys(mid.users, mid.groups) && id in mid.annotations && KeepsThreads(db, mid)
    requires db' == Upsert(mid, id).(syncJobs := db'.syncJobs)
    ensures KeepsThreads(db, db')
  {
    UpsertTouchesSlims(mid, id);
    hide Upsert;
    assert db'.annotations == mid.annotations && db'.usedIds == mid.usedIds;
  }

  lemma UpdateKeepsThreads(db: Db, id: Id, content: Content, document: Pk, stamp: bool, now: Time, q: Queueing)
    requires UniqueKeys(db.users, db.groups) && id in db.annotations
    ensures KeepsThreads(db, Updated(db, id, content, document, stamp, now, q))
  {
    var a := Edited(db.annotations[id], content, document, stamp, now);
    UpsertKeepsThreads(db, db.(annotations := db.annotations[id := a]), id, Updated(db, id, content, document, stamp, now, q));
  }

  lemma DeleteKeepsThreads(db: Db, id: Id, now: Time, q: Queueing)
    requires UniqueKeys(db.users, db.groups) && id in db.annotations
    ensures KeepsThreads(db, DeletedOne(db, id, now, q))
  {
    var a := db.annotations[id].(deleted := true, updated := now);
    var mid := db.(annotations := db.annotations[id := a], syncJobs := db.syncJobs + {NewJob(q, id, false, now, SCHEDULE_IN)});
    UpsertKeepsThreads(db, mid, id, DeletedOne(db, id, now, q));
  }

  lemma UpsertsKeepThreads(db: Db, op: Op, now: Time, q: Queueing)
    requires UniqueKeys(db.users, db.groups) && Permitted(db, op, now) && Upserts(op) && !op.Create?
    ensures KeepsThreads(db, After(db, op, now, q))
  {
    match op
    case Update(id, content, document, stamp) => UpdateKeepsThreads(db, id, content, document, stamp, now, q);
    case Delete(id) => DeleteKeepsThreads(db, id, now, q);
    case Hide(id) => UpsertKeepsThreads(db, db.(moderations := db.moderations + {id}), id, After(db, op, now, q));
    case Unhide(id) => UpsertKeepsThreads(db, db.(moderations := db.moderations - {id}), id, After(db, op, now, q));
    case Backfill(id) => UpsertKeepsThreads(db, db, id, After(db, op, now, q));
  }

  lemma BulkWritesKeepThreads(db: Db, op: Op, now: Time, q: Queueing)
    requires UniqueKeys(db.users, db.groups) && Permitted(db, op, now) && !Upserts(op)
    ensures KeepsThreads(db, After(db, op, now, q))
  {
  }

  lemma OpKeepsThreadOrder(db: Db, op: Op, now: Time, q: Queueing)
    requires Inv(db) && ThreadOrder(db) && Permitted(db, op, now)
    ensures ThreadOrder(After(db, op, now, q))
  {
    if op.Create? {
      CreateKeepsThreadOrder(db, op.id, op.annotation, q);
    } else {
      if Upserts(op) {
        UpsertsKeepThreads(db, op, now, q);
      } else {
        BulkWritesKeepThreads(db, op, now, q);
      }
      KeptThreadsStayOrdered(db, After(db, op, now, q));
    }
  }

  lemma {:induction false} RunKeepsThreadOrder(db: Db, run: seq<(Op, Time, Queueing)>)
    requires Inv(db) && ThreadOrder(db) && Legal(db, run)
    ensures ThreadOrder(Run(db, run))
    decreases |run|
  {
    if run != [] {
      var (op, now, q) := run[0];
      OpKeepsInv(db, op, now, q);
      OpKeepsThreadOrder(db, op, now, q);
      RunKeepsThreadOrder(After(db, op, now, q), run[1..]);
    }
  }

  /** In every reachable store the recursion to thread roots is well-founded. */
  lemma ThreadsAreOrdered(run: seq<(Op, Time, Queueing)>)
    requires Legal(EMPTY, run)
    ensures ThreadOrder(Run(EMPTY, run))
  {
    RunKeepsThreadOrder(EMPTY, run);
  }

  /** The live annotations that indexing `id` visits, up to the root of its thread. */
  function Visited(db: Db, id: Id): set<Id>
    requires ThreadOrder(db)
    decreases if id in db.annotations then db.annotations[id].serial + 1 else 0
  {
    if id !in db.annotations || db.annotations[id].deleted then {}
    else {id} + if db.annotations[id].references == [] then {} else Visited(db, db.annotations[id].references[0])
  }

  /** Indexing leaves the current document of every visited annotation and touches nothing else. */
  function Reindexed(index: map<Id, Doc>, db: Db, ids: set<Id>): map<Id, Doc>
    requires ids <= db.annotations.Keys
  {
    map id | id in index.Keys + ids :: if id in ids then DocOf(ToRow(db.annotations[id])) else index[id]
  }

  lemma {:induction false} VisitedIsLive(db: Db, id: Id)
    requires ThreadOrder(db)
    ensures forall v :: v in Visited(db, id) ==>
        v in db.annotations && LiveDoc(ToBase(db).db, v) == Some(DocOf(ToRow(db.annotations[v])))
    decreases if id in db.annotations then db.annotations[id].serial + 1 else 0
  {
    if id in db.annotations && !db.annotations[id].deleted && db.annotations[id].references != [] {
      VisitedIsLive(db, db.annotations[id].references[0]);
    }
  }

  lemma ReindexedInOrder(index: map<Id, Doc>, db: Db, id: Id, rest: set<Id>)
    requires id in db.annotations && rest <= db.annotations.Keys
    ensures Reindexed(index[id := DocOf(ToRow(db.annotations[id]))], db, rest) == Reindexed(index, db, {id} + rest)
  {
  }

  class SearchIndexService {
    var index: map<Id, Doc>
    /** The index being built while a full re-index is taking place. */
    var futureIndex: Option<map<Id, Doc>>

    constructor (index: map<Id, Doc>, futureIndex: Option<map<Id, Doc>>)
      ensures this.index == index && this.futureIndex == futureIndex
    {
      this.index, this.futureIndex := index, futureIndex;
    }

    method IndexAnnotationBody(id: Id, body: Doc)
      modifies this
      ensures index == old(index)[id := body]
      ensures futureIndex == match old(futureIndex) { case None => None case Some(m) => Some(m[id := body]) }
    {
      index := index[id := body];
      if futureIndex.Some? {
        futureIndex := Some(futureIndex.value[id := body]);
      }
    }

    method AddAnnotation(annotation: Annotation, id: Id)
      modifies this
      ensures annotation.deleted ==> index == old(index) && futureIndex == old(futureIndex)
      ensures !annotation.deleted ==>
                && index == old(index)[id := DocOf(ToRow(annotation))]
                && futureIndex ==
                   match old(futureIndex) { case None => None case Some(m) => Some(m[id := DocOf(ToRow(annotation))]) }
    {
      if annotation.deleted {
        return;
      }
      IndexAnnotationBody(id, DocOf(ToRow(annotation)));
    }

    /** Indexes `id` and then the root of its thread, and so on. */
    method AddAnnotationById(db: Db, id: Id)
      requires ThreadOrder(db)
      modifies this
      ensures Visited(db, id) <= db.annotations.Keys
      ensures index == Reindexed(old(index), db, Visited(db, id))
      ensures futureIndex == match old(futureIndex) { case None => None case Some(m) => Some(Reindexed(m, db, Visited(db, id))) }
      decreases if id in db.annotations then db.annotations[id].serial + 1 else 0
    {
      VisitedIsLive(db, id);
      assert forall m: map<Id, Doc> :: Reindexed(m, db, {}) == m;
      if id !in db.annotations || db.annotations[id].deleted {
        return;
      }
      var annotation := db.annotations[id];
      AddAnnotation(annotation, id);
      ghost var rest := if annotation.references == [] then {} else Visited(db, annotation.references[0]);
      if annotation.references != [] {
        VisitedIsLive(db, annotation.references[0]);
        AddAnnotationById(db, annotation.references[0]);
      }
      assert Visited(db, id) == {id} + rest;
      ReindexedInOrder(old(index), db, id, rest);
      if old(futureIndex).Some? {
        ReindexedInOrder(old(futureIndex).value, db, id, rest);
      }
    }

    /** The document becomes a tombstone, which the synchronisation counts as absent. */
    method DeleteAnnotationById(id: Id)
      modifies this
      ensures EsDoc(index, id).None? && forall other: Id :: other != id ==> EsDoc(index, other) == EsDoc(old(index), other)
      ensures futureIndex == match old(futureIndex) { case None => None case Some(m) => Some(m[id := Tombstone]) }
    {
      IndexAnnotationBody(id, Tombstone);
    }
  }
}
