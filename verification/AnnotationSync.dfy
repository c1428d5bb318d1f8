/** The decision that one run of `sync` takes for each job of its batch. */
module SyncDecision {
  import opened Options
  import opened AnnotationStore

  datatype Action =
    | SyncedForced | SyncedDeleted | CompletedDeleted
    | SyncedMissing | SyncedDifferent | CompletedUpToDate

  /** The branches of `sync`, in order. */
  function Decide(force: bool, fromDb: Option<View>, fromEs: Option<View>): Action {
    if force then SyncedForced
    else if fromDb.None? && fromEs.Some? then SyncedDeleted
    else if fromDb.None? && fromEs.None? then CompletedDeleted
    else if fromEs.None? then SyncedMissing
    else if fromEs.value != fromDb.value then SyncedDifferent
    else CompletedUpToDate
  }

  predicate Indexes(a: Action) {
    a.SyncedForced? || a.SyncedMissing? || a.SyncedDifferent?
  }

  predicate Completes(a: Action) {
    a.SyncedForced? || a.CompletedDeleted? || a.CompletedUpToDate?
  }

  function ActionFor(db: map<Id, Row>, es: map<Id, Doc>, job: SyncJob): Action {
    Decide(job.args.force, DbView(db, job.args.annotation), EsView(es, job.args.annotation))
  }

  function JobsToDelete(db: map<Id, Row>, es: map<Id, Doc>, batch: set<SyncJob>): set<SyncJob> {
    set job | job in batch && Completes(ActionFor(db, es, job))
  }

  function IdsToSync(db: map<Id, Row>, es: map<Id, Doc>, batch: set<SyncJob>): set<Id> {
    set job | job in batch && Indexes(ActionFor(db, es, job)) :: job.args.annotation
  }

  function IdsToDelete(db: map<Id, Row>, es: map<Id, Doc>, batch: set<SyncJob>): set<Id> {
    set job | job in batch && ActionFor(db, es, job).SyncedDeleted? :: job.args.annotation
  }

  /** A job is removed on sight of agreement, or because it is forced; any other job stays
      and causes exactly the index write that restores agreement. */
  lemma DecisionIsSound(db: map<Id, Row>, es: map<Id, Doc>, job: SyncJob)
    ensures var a, force := ActionFor(db, es, job), job.args.force;
            var inDb, inEs := DbView(db, job.args.annotation), EsView(es, job.args.annotation);
            && (Completes(a) <==> force || inDb == inEs)
            && (Indexes(a) <==> force || (inDb.Some? && inDb != inEs))
            && (a.SyncedDeleted? <==> !force && inDb.None? && inEs.Some?)
  {
  }

  /** The bulk index: rows that are missing or marked as deleted are filtered out, and the
      writes in `lost` fail without stopping the others. */
  function BulkIndex(es: map<Id, Doc>, db: map<Id, Row>, ids: set<Id>, lost: set<Id>): map<Id, Doc> {
    map id | id in es.Keys + ids && (id in es || (id !in lost && LiveDoc(db, id).Some?)) ::
      if id in ids && id !in lost && LiveDoc(db, id).Some? then LiveDoc(db, id).value else es[id]
  }

  function BulkDelete(es: map<Id, Doc>, ids: set<Id>, lost: set<Id>): map<Id, Doc> {
    map id | id in es.Keys + (ids - lost) :: if id in ids - lost then Tombstone else es[id]
  }
}

/** `AnnotationSyncService.sync` and the bulk indexer, step by step. */
module AnnotationSync {
  import opened Options
  import opened AnnotationStore
  import opened Collections
  import opened SyncDecision
  import opened JobQueue
  import SyncAtomic

  class Counter {
    var annotationIdsToSync: set<Id>
    var annotationIdsToDelete: set<Id>
    var jobsToDelete: set<SyncJob>

    constructor ()
      ensures annotationIdsToSync == {} && annotationIdsToDelete == {} && jobsToDelete == {}
    {
      annotationIdsToSync, annotationIdsToDelete, jobsToDelete := {}, {}, {};
    }

    method AnnotationSynced(job: SyncJob)
      modifies this`annotationIdsToSync
      ensures annotationIdsToSync == old(annotationIdsToSync) + {job.args.annotation}
    {
      annotationIdsToSync := annotationIdsToSync + {job.args.annotation};
    }

    method AnnotationDeleted(job: SyncJob)
      modifies this`annotationIdsToDelete
      ensures annotationIdsToDelete == old(annotationIdsToDelete) + {job.args.annotation}
    {
      annotationIdsToDelete := annotationIdsToDelete + {job.args.annotation};
    }

    method JobCompleted(job: SyncJob)
      modifies this`jobsToDelete
      ensures jobsToDelete == old(jobsToDelete) + {job}
    {
      jobsToDelete := jobsToDelete + {job};
    }
  }

  /** The batch indexer over one search index; writes to ids in `lost` are rejected. */
  class BatchIndexer {
    var es: map<Id, Doc>

    constructor (es: map<Id, Doc>)
      ensures this.es == es
    {
      this.es := es;
    }

    /** Returns the ids whose write failed, as `index` does. */
    method Index(db: map<Id, Row>, ids: set<Id>, lost: set<Id>) returns (errored: set<Id>)
      modifies this
      ensures es == BulkIndex(old(es), db, ids, lost)
      ensures errored == set id | id in ids && LiveDoc(db, id).Some? && id in lost
    {
      errored := {};
      var live := set id | id in ids && LiveDoc(db, id).Some?;
      var pending := live;
      while pending != {}
        invariant pending <= live
        invariant errored == (live - pending) * lost
        invariant es == BulkIndex(old(es), db, live - pending, lost)
        decreases pending
      {
        var id :| id in pending;
        if id in lost {
          errored := errored + {id};
        } else {
          es := es[id := LiveDoc(db, id).value];
        }
        pending := pending - {id};
      }
      assert live - pending == live;
      assert BulkIndex(old(es), db, live, lost) == BulkIndex(old(es), db, ids, lost);
    }

    method Delete(ids: set<Id>, lost: set<Id>)
      modifies this
      ensures es == BulkDelete(old(es), ids, lost)
    {
      var pending := ids;
      while pending != {}
        invariant pending <= ids
        invariant es == BulkDelete(old(es), ids - pending, lost)
        decreases pending
      {
        var id :| id in pending;
        if id !in lost {
          es := es[id := Tombstone];
        }
        pending := pending - {id};
      }
      assert ids - pending == ids;
    }
  }

  function NonForcedIds(jobs: seq<SyncJob>): set<Id> {
    set job | job in jobs && !job.args.force :: job.args.annotation
  }

  /** `DBHelper.get`: live annotations of the non-forced jobs. */
  function FromDb(db: map<Id, Row>, jobs: seq<SyncJob>): map<Id, View> {
    map id | id in NonForcedIds(jobs) && DbView(db, id).Some? :: DbView(db, id).value
  }

  /** `ESHelper.get`: hits without `updated` and `user` are dropped. */
  function FromEs(es: map<Id, Doc>, jobs: seq<SyncJob>): map<Id, View> {
    map id | id in NonForcedIds(jobs) && EsView(es, id).Some? :: EsView(es, id).value
  }

  /** `dict.get`, with the view being `None` when there is no such key. */
  function Lookup(views: map<Id, View>, id: Id): Option<View> {
    if id in views then Some(views[id]) else None
  }

  class AnnotationSyncService {
    const queue: JobQueueService<SyncArgs>
    const indexer: BatchIndexer

    constructor (queue: JobQueueService<SyncArgs>, indexer: BatchIndexer)
      ensures this.queue == queue && this.indexer == indexer
    {
      this.queue := queue;
      this.indexer := indexer;
    }

    /** The protocol state that this service acts on. */
    ghost function Snapshot(db: map<Id, Row>): SyncAtomic.State
      reads queue, indexer
    {
      SyncAtomic.State(Base(db, queue.rows, db.Keys), indexer.es)
    }

    /** The branches of the loop body. */
    method ClassifyJob(job: SyncJob, fromDb: Option<View>, fromEs: Option<View>, counter: Counter)
      modifies counter
      ensures var action := Decide(job.args.force, fromDb, fromEs);
              && counter.jobsToDelete == old(counter.jobsToDelete) + (if Completes(action) then {job} else {})
              && counter.annotationIdsToSync ==
                   old(counter.annotationIdsToSync) + (if Indexes(action) then {job.args.annotation} else {})
              && counter.annotationIdsToDelete ==
                   old(counter.annotationIdsToDelete) + (if action.SyncedDeleted? then {job.args.annotation} else {})
    {
      if job.args.force {
        counter.AnnotationSynced(job);
        counter.JobCompleted(job);
      } else if fromDb.None? && fromEs.Some? {
        counter.AnnotationDeleted(job);
      } else if fromDb.None? && fromEs.None? {
        counter.JobCompleted(job);
      } else if fromEs.None? {
        counter.AnnotationSynced(job);
      } else if fromEs.value != fromDb.value {
        counter.AnnotationSynced(job);
      } else {
        counter.JobCompleted(job);
      }
    }

    /** The loop over the batch: each job lands in the sets that its decision names. */
    method Classify(db: map<Id, Row>, jobs: seq<SyncJob>) returns (counter: Counter)
      ensures fresh(counter)
      ensures counter.jobsToDelete == JobsToDelete(db, indexer.es, Elements(jobs))
      ensures counter.annotationIdsToSync == IdsToSync(db, indexer.es, Elements(jobs))
      ensures counter.annotationIdsToDelete == IdsToDelete(db, indexer.es, Elements(jobs))
    {
      counter := new Counter();
      var annotationsFromDb := FromDb(db, jobs);
      var annotationsFromEs := FromEs(indexer.es, jobs);
      EmptyBatch(db, indexer.es, Elements(jobs[..0]));
      hide FromDb, FromEs, JobsToDelete, IdsToSync, IdsToDelete, DbView, EsView, Decide;
      for i := 0 to |jobs|
        invariant fresh(counter)
        invariant counter.jobsToDelete == JobsToDelete(db, indexer.es, Elements(jobs[..i]))
        invariant counter.annotationIdsToSync == IdsToSync(db, indexer.es, Elements(jobs[..i]))
        invariant counter.annotationIdsToDelete == IdsToDelete(db, indexer.es, Elements(jobs[..i]))
      {
        var job := jobs[i];
        assert Elements(jobs[..i + 1]) == Elements(jobs[..i]) + {job};
        AddToBatch(db, indexer.es, Elements(jobs[..i]), job);
        FetchedAction(db, indexer.es, jobs, job);
        ClassifyJob(job, Lookup(annotationsFromDb, job.args.annotation), Lookup(annotationsFromEs, job.args.annotation), counter);
      }
      assert jobs[..|jobs|] == jobs;
    }

    /** One run takes a batch the queue may select and is exactly a `Sync` step of the protocol. */
    method Sync(db: map<Id, Row>, limit: nat, lost: set<Id>) returns (jobs: seq<SyncJob>)
      modifies queue`rows, indexer
      ensures IsSelection(old(queue.rows), queue.now, limit, jobs)
      ensures Snapshot(db) == SyncAtomic.AfterSync(old(Snapshot(db)), Elements(jobs), lost)
    {
      jobs := queue.Get(limit);
      NoWrites(indexer.es, db, lost);
      if jobs == [] {
        assert Elements(jobs) == {};
        return;
      }
      var counter := Classify(db, jobs);
      var toSync, toDelete := counter.annotationIdsToSync, counter.annotationIdsToDelete;
      queue.Delete(counter.jobsToDelete);
      if toSync != {} {
        var _ := indexer.Index(db, toSync, lost);
      }
      NoWrites(indexer.es, db, lost);
      if toDelete != {} {
        indexer.Delete(toDelete, lost);
      }
    }
  }

  lemma NoWrites(es: map<Id, Doc>, db: map<Id, Row>, lost: set<Id>)
    ensures BulkIndex(es, db, {}, lost) == es && BulkDelete(es, {}, lost) == es
  {
  }

  /** What the two fetched dictionaries say about a non-forced job of the batch. */
  lemma FetchedViews(db: map<Id, Row>, es: map<Id, Doc>, jobs: seq<SyncJob>, job: SyncJob)
    requires job in jobs
    ensures var id := job.args.annotation; !job.args.force ==>
      && (id in FromDb(db, jobs) <==> DbView(db, id).Some?)
      && (id in FromEs(es, jobs) <==> EsView(es, id).Some?)
      && (id in FromDb(db, jobs) ==> FromDb(db, jobs)[id] == DbView(db, id).value)
      && (id in FromEs(es, jobs) ==> FromEs(es, jobs)[id] == EsView(es, id).value)
  {
    assert !job.args.force ==> job.args.annotation in NonForcedIds(jobs);
  }

  lemma FetchedAction(db: map<Id, Row>, es: map<Id, Doc>, jobs: seq<SyncJob>, job: SyncJob)
    requires job in jobs
    ensures Decide(job.args.force, Lookup(FromDb(db, jobs), job.args.annotation), Lookup(FromEs(es, jobs), job.args.annotation))
            == ActionFor(db, es, job)
  {
    FetchedViews(db, es, jobs, job);
  }

  lemma EmptyBatch(db: map<Id, Row>, es: map<Id, Doc>, batch: set<SyncJob>)
    requires batch == {}
    ensures JobsToDelete(db, es, batch) == {} && IdsToSync(db, es, batch) == {} && IdsToDelete(db, es, batch) == {}
  {
  }

  /** How the three result sets grow by one job. */
  lemma AddToBatch(db: map<Id, Row>, es: map<Id, Doc>, batch: set<SyncJob>, job: SyncJob)
    ensures var a, id := ActionFor(db, es, job), job.args.annotation;
            && JobsToDelete(db, es, batch + {job}) == JobsToDelete(db, es, batch) + (if Completes(a) then {job} else {})
            && IdsToSync(db, es, batch + {job}) == IdsToSync(db, es, batch) + (if Indexes(a) then {id} else {})
            && IdsToDelete(db, es, batch + {job}) == IdsToDelete(db, es, batch) + (if a.SyncedDeleted? then {id} else {})
  {
  }
}
