/** The two copies of an annotation (the Postgres row and the Elasticsearch document), the
    rows of the job table, and the writes that one committed transaction makes to them. */
module Options {
  datatype Option<+T> = None | Some(value: T)
}

module AnnotationStore {
  import opened Options

  type Id = nat
  type UserId = nat
  /** Microseconds, the resolution of the timestamps that are compared. */
  type Time = int

  /** `schedule_in` of every writer: one minute. */
  const SCHEDULE_IN: Time := 60_000_000
  /** A row marked as deleted is expunged once it is older than ten minutes. */
  const EXPUNGE_AGE: Time := 600_000_000
  const LIFETIME: Time := 2_592_000_000_000
  const PRIORITY_SINGLE_ITEM := 1

  /** What the author can edit: the text and so on, and whether the group may see it. */
  datatype Content = Content(text: nat, shared: bool)

  const TEXT0 := Content(0, false)
  const TEXT1 := Content(1, false)

  /** A row of the annotation table, as far as synchronisation is concerned. */
  datatype Row = Row(updated: Time, user: UserId, content: Content, deleted: bool)

  /** A search index document; a tombstone has neither `updated` nor `user`. */
  datatype Doc = Tombstone | Indexed(updated: Time, user: UserId, content: Content)

  /** What the synchronisation compares. */
  datatype View = View(updated: Time, user: UserId)

  /** A row of the job table; `args` are its keyword arguments. */
  datatype Job<A> = Job(key: nat, args: A, scheduledAt: Time, expiresAt: Time, priority: nat, enqueuedAt: Time)

  datatype SyncArgs = SyncArgs(annotation: Id, force: bool)

  type SyncJob = Job<SyncArgs>

  function DocOf(row: Row): Doc {
    Indexed(row.updated, row.user, row.content)
  }

  /** The document that indexing `id` now would write; rows marked as deleted are skipped. */
  function LiveDoc(db: map<Id, Row>, id: Id): Option<Doc> {
    if id in db && !db[id].deleted then Some(DocOf(db[id])) else None
  }

  /** The document found in the index; a tombstone counts as absent. */
  function EsDoc(es: map<Id, Doc>, id: Id): Option<Doc> {
    if id in es && es[id].Indexed? then Some(es[id]) else None
  }

  function ViewOf(doc: Option<Doc>): Option<View> {
    if doc.Some? && doc.value.Indexed? then Some(View(doc.value.updated, doc.value.user)) else None
  }

  function DbView(db: map<Id, Row>, id: Id): Option<View> {
    ViewOf(LiveDoc(db, id))
  }

  function EsView(es: map<Id, Doc>, id: Id): Option<View> {
    ViewOf(EsDoc(es, id))
  }

  /** A queued job that will compare the two copies of `id`. */
  predicate Watches(job: SyncJob, id: Id) {
    job.args.annotation == id && !job.args.force
  }

  ghost predicate Watched(jobs: set<SyncJob>, id: Id) {
    exists job :: job in jobs && Watches(job, id)
  }

  /** The safety property: an annotation whose copies differ has a job that will notice. */
  ghost predicate Safe(db: map<Id, Row>, es: map<Id, Doc>, jobs: set<SyncJob>) {
    forall id: Id :: DbView(db, id) != EsView(es, id) ==> Watched(jobs, id)
  }

  // ----- Transactions -----

  /** What the database holds; `used` remembers every id ever handed out. */
  datatype Base = Base(db: map<Id, Row>, jobs: set<SyncJob>, used: set<Id>)

  datatype Write =
    | Create(id: Id, user: UserId, content: Content)
    | Update(id: Id, content: Content, updateTimestamp: bool)
    | MarkDeleted(ids: set<Id>)
    | Expunge(ids: set<Id>)
    | Enqueue(ids: set<Id>, force: bool, scheduleIn: Time)

  /** How a transaction queues its jobs: under a key of its own, and each job at a moment of
      its own; jobs without one are queued when the rows are stamped. */
  datatype Queueing = Queueing(key: nat, at: map<Id, Time>)

  function Promptly(key: nat): Queueing {
    Queueing(key, map[])
  }

  function Moment(q: Queueing, id: Id, stamp: Time): Time {
    if id in q.at then q.at[id] else stamp
  }

  function NewJob(q: Queueing, id: Id, force: bool, stamp: Time, scheduleIn: Time): SyncJob {
    var moment := Moment(q, id, stamp);
    Job(q.key, SyncArgs(id, force), moment + scheduleIn, moment + LIFETIME, PRIORITY_SINGLE_ITEM, moment)
  }

  /** `INSERT ... SELECT`: one job for each annotation row that matches. */
  function NewJobs(db: map<Id, Row>, ids: set<Id>, q: Queueing, force: bool, stamp: Time, scheduleIn: Time): set<SyncJob> {
    set id | id in ids && id in db :: NewJob(q, id, force, stamp, scheduleIn)
  }

  function Deleted(row: Row, now: Time): Row {
    row.(deleted := true, updated := now)
  }

  predicate Allowed(b: Base, w: Write, now: Time) {
    match w
    case Create(id, _, _) => id !in b.used
    case Update(id, _, _) => id in b.db
    case MarkDeleted(ids) => ids <= b.db.Keys
    case Expunge(ids) => forall id :: id in ids ==> id in b.db && b.db[id].deleted && b.db[id].updated < now - EXPUNGE_AGE
    case Enqueue(_, _, _) => true
  }

  /** The database after one transaction; the annotation change and its job commit together. */
  function Commit(b: Base, w: Write, now: Time, q: Queueing): Base
    requires Allowed(b, w, now)
  {
    match w
    case Create(id, user, content) =>
      var db := b.db[id := Row(now, user, content, false)];
      Base(db, b.jobs + NewJobs(db, {id}, q, false, now, SCHEDULE_IN), b.used + {id})
    case Update(id, content, updateTimestamp) =>
      var updated := if updateTimestamp then now else b.db[id].updated;
      var db := b.db[id := b.db[id].(content := content, updated := updated)];
      b.(db := db, jobs := b.jobs + NewJobs(db, {id}, q, !updateTimestamp, now, SCHEDULE_IN))
    case MarkDeleted(ids) =>
      var db := map id | id in b.db :: if id in ids then Deleted(b.db[id], now) else b.db[id];
      b.(db := db, jobs := b.jobs + NewJobs(db, ids, q, false, now, SCHEDULE_IN))
    case Expunge(ids) =>
      b.(db := b.db - ids)
    case Enqueue(ids, force, scheduleIn) =>
      b.(jobs := b.jobs + NewJobs(b.db, ids, q, force, now, scheduleIn))
  }

  /** The annotations for which a write queues a job. */
  function QueuedIds(w: Write): set<Id> {
    match w
    case Create(id, _, _) => {id}
    case Update(id, _, _) => {id}
    case MarkDeleted(ids) => ids
    case Expunge(_) => {}
    case Enqueue(ids, _, _) => ids
  }

  /** The view of `id` moves only in a transaction that also queues a job comparing `id`,
      and that job stays invisible for a full minute from the moment it was queued. */
  lemma CommitWatchesItsChanges(b: Base, w: Write, now: Time, q: Queueing, id: Id)
    requires Allowed(b, w, now)
    ensures var b' := Commit(b, w, now, q);
            b.jobs <= b'.jobs &&
            (DbView(b.db, id) != DbView(b'.db, id) ==>
               id in QueuedIds(w) &&
               exists job :: job in b'.jobs && Watches(job, id) && job.scheduledAt == Moment(q, id, now) + SCHEDULE_IN)
  {
    var b' := Commit(b, w, now, q);
    if DbView(b.db, id) != DbView(b'.db, id) {
      var job := NewJob(q, id, false, now, SCHEDULE_IN);
      assert Watches(job, id) && job in b'.jobs;
    }
  }

  /** Ids are never reused, so an annotation that has left the live set never returns to it. */
  lemma DeletionIsFinal(b: Base, w: Write, now: Time, q: Queueing, id: Id)
    requires Allowed(b, w, now)
    requires b.db.Keys <= b.used && id in b.used && DbView(b.db, id) == None
    ensures var b' := Commit(b, w, now, q);
            b'.db.Keys <= b'.used && id in b'.used && DbView(b'.db, id) == None
  {
  }
}
