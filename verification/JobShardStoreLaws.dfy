/** What each operation of the shard store does to the entries of a shard, told entry by entry. */
module JobShardStoreLaws {
  import opened Wrappers
  import opened OrderedMap
  import opened JobShardStore

  /** The entry of the id, if there is one, is as it was. */
  ghost predicate SameEntry(jobs: Entries<JobId, Entry>, after: Entries<JobId, Entry>, id: JobId) {
    (Has(jobs, id) <==> Has(after, id)) && (Has(jobs, id) ==> Get(after, id) == Get(jobs, id))
  }

  /** A job is persisted for its due time, with no attempt made and no run recorded. */
  lemma AddStores(jobs: Entries<JobId, Entry>, job: Job, x: JobId)
    ensures var after := AddJob(jobs, job);
      && Has(after, job.id) && Get(after, job.id).job == job && Get(after, job.id).dueMs == job.dueMs
      && Get(after, job.id).dequeueCount == 0 && Get(after, job.id).runId.None? && !Get(after, job.id).completed
      && (x != job.id ==> SameEntry(jobs, after, x))
  {
    var e := Entry(job, 0, job.dueMs, None, false);
    PutHas(jobs, job.id, e, job.id);
    PutHas(jobs, job.id, e, x);
  }

  /** A retry stores its due time and count of attempts for a job that is there, and changes nothing else of it. */
  lemma RetryStores(jobs: Entries<JobId, Entry>, id: JobId, dueMs: int, count: nat, x: JobId)
    ensures var after := RetryJob(jobs, id, dueMs, count);
      && (Has(jobs, id) ==>
            && Has(after, id) && Get(after, id).dueMs == dueMs && Get(after, id).dequeueCount == count
            && Get(after, id).job == Get(jobs, id).job && Get(after, id).runId == Get(jobs, id).runId
            && Get(after, id).completed == Get(jobs, id).completed)
      && (!Has(jobs, id) ==> after == jobs)
      && (x != id ==> SameEntry(jobs, after, x))
  {
    if Has(jobs, id) {
      var e := Get(jobs, id).(dueMs := dueMs, dequeueCount := count);
      PutHas(jobs, id, e, id);
      PutHas(jobs, id, e, x);
    }
  }

  /** A run that starts is recorded, and takes a completion marker off. */
  lemma StartStores(jobs: Entries<JobId, Entry>, id: JobId, run: RunId, x: JobId)
    ensures var after := StartRun(jobs, id, run);
      && (Has(jobs, id) ==>
            && Has(after, id) && Get(after, id).runId == Some(run) && !Get(after, id).completed
            && Get(after, id).job == Get(jobs, id).job && Get(after, id).dueMs == Get(jobs, id).dueMs
            && Get(after, id).dequeueCount == Get(jobs, id).dequeueCount)
      && (!Has(jobs, id) ==> after == jobs)
      && (x != id ==> SameEntry(jobs, after, x))
  {
    if Has(jobs, id) {
      var e := Get(jobs, id).(runId := Some(run), completed := false);
      PutHas(jobs, id, e, id);
      PutHas(jobs, id, e, x);
    }
  }

  /** A completion is marked exactly if the run is the one last recorded for the job. */
  lemma CompleteStores(jobs: Entries<JobId, Entry>, id: JobId, run: RunId, x: JobId)
    ensures var after := CompleteRun(jobs, id, run);
      && (Has(jobs, id) ==>
            && Has(after, id) && (Get(after, id).completed <==> Get(jobs, id).completed || Get(jobs, id).runId == Some(run))
            && Get(after, id).runId == Get(jobs, id).runId && Get(after, id).job == Get(jobs, id).job
            && Get(after, id).dueMs == Get(jobs, id).dueMs && Get(after, id).dequeueCount == Get(jobs, id).dequeueCount)
      && (!Has(jobs, id) ==> after == jobs)
      && (x != id ==> SameEntry(jobs, after, x))
  {
    if Has(jobs, id) && Get(jobs, id).runId == Some(run) {
      var e := Get(jobs, id).(completed := true);
      PutHas(jobs, id, e, id);
      PutHas(jobs, id, e, x);
    }
  }

  /** A removed job's entry is gone, and no other. */
  lemma RemoveStores(jobs: Entries<JobId, Entry>, id: JobId, x: JobId)
    requires Distinct(jobs)
    ensures !Has(Delete(jobs, id), id)
    ensures x != id ==> SameEntry(jobs, Delete(jobs, id), x)
  {
    DeleteHas(jobs, id, id);
    DeleteHas(jobs, id, x);
  }

  /** A run that has been recorded and completed leaves a tombstone, whatever was recorded before it. */
  lemma MarkedAfterItsRun(jobs: Entries<JobId, Entry>, id: JobId, run: RunId)
    requires Has(jobs, id)
    ensures var after := CompleteRun(StartRun(jobs, id, run), id, run); Has(after, id) && Get(after, id).completed
  {
    StartStores(jobs, id, run, id);
    CompleteStores(StartRun(jobs, id, run), id, run, id);
  }

  /** A run that was superseded leaves no tombstone. */
  lemma SupersededIsNotMarked(jobs: Entries<JobId, Entry>, id: JobId, run: RunId, later: RunId)
    requires Has(jobs, id) && run != later
    ensures var after := CompleteRun(StartRun(StartRun(jobs, id, run), id, later), id, run);
      Has(after, id) && !Get(after, id).completed && Get(after, id).runId == Some(later)
  {
    StartStores(jobs, id, run, id);
    StartStores(StartRun(jobs, id, run), id, later, id);
    CompleteStores(StartRun(StartRun(jobs, id, run), id, later), id, run, id);
  }

  /** A release frees the shard of its owner, and nobody else's; the record is otherwise as it was. */
  lemma ReleaseFrees(r: Record, owner: Silo)
    ensures var after := Release(r, owner);
      && after.owner != Some(owner)
      && (r.owner != Some(owner) ==> after == r)
      && after.adoptedCount == r.adoptedCount && after.poisoned == r.poisoned
  {
  }
}
