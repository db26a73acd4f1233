/**
 * One shard through crashes and successors: jobs persisted with a marker for a completed run, the
 * executor of the moment, and what has been invoked. A job whose completion marker is stored is
 * never invoked again.
 */
module Tombstones {
  import opened Wrappers
  import opened OrderedMap
  import opened JobShardStore
  import opened JobQueue
  import opened ShardExecutor
  import opened ExecutorConservation

  datatype Event = Invoked(id: JobId) | Marked(id: JobId)

  /**
   * `runIds` are the ids of the executor's current runs, by job; `used` every job id ever scheduled.
   * `history` is ghost bookkeeping: the invocations of handlers and the completion markers stored.
   */
  datatype World = World(
    entries: Entries<JobId, Entry>, exec: Option<Exec>, runIds: map<JobId, RunId>, nextRun: RunId,
    used: set<JobId>, history: seq<Event>)

  datatype Action =
    | Add(job: Job, enqueue: bool, now: int)
    | Reload(now: int, kept: set<JobId>)
    | Crash
    | CancelJob(id: JobId, here: bool, lost: bool)
    | StopExec
    | Timer(free: nat, now: int, overloaded: bool)
    | StartStored(k: nat)
    | MarkStored(k: nat)
    | RemoveStored(k: nat)
    | RunStep(k: nat, result: Result, now: int, lost: bool)

  /** The persisted jobs, in the order the store lists them. */
  function Persisted(entries: Entries<JobId, Entry>): (r: seq<Entry>)
    ensures |r| == |entries|
  {
    seq(|entries|, i requires 0 <= i < |entries| => entries[i].1)
  }

  /** A reload removes the tombstones it finds, as far as the store obeys. */
  function CleanUp(entries: Entries<JobId, Entry>, kept: set<JobId>): Entries<JobId, Entry> {
    if entries == [] then []
    else (if entries[0].1.completed && entries[0].0 !in kept then [] else [entries[0]]) + CleanUp(entries[1..], kept)
  }

  /** Fresh run ids for the runs from index `from` on. */
  function AssignIds(runIds: map<JobId, RunId>, runs: seq<Run>, from: nat, next: RunId): map<JobId, RunId>
    decreases |runs| - from
  {
    if from >= |runs| then runIds else AssignIds(runIds[runs[from].job.id := next], runs, from + 1, next + 1)
  }

  /** The phase of run `k` of the executor, if there is one. */
  predicate InPhase(w: World, k: nat, phase: Phase) {
    w.exec.Some? && k < |w.exec.value.runs| && w.exec.value.runs[k].phase == phase
  }

  function RunJob(w: World, k: nat): JobId
    requires w.exec.Some? && k < |w.exec.value.runs|
  {
    w.exec.value.runs[k].job.id
  }

  /** What a result writes to the store while the run settles: a retry's due time and count. */
  function Written(o: Options, entries: Entries<JobId, Entry>, run: Run, result: Result, now: int, lost: bool): Entries<JobId, Entry> {
    if lost || run.phase != Invoking then entries
    else
      match result
      case Completed => entries
      case PollAfter(delay) => RetryJob(entries, run.job.id, now + delay, run.job.dequeueCount)
      case Failed =>
        match o.shouldRetry(run.job.dequeueCount + 1)
        case Some(backoff) => RetryJob(entries, run.job.id, now + backoff, run.job.dequeueCount + 1)
        case None => entries
  }

  function Next(o: Options, w: World, action: Action): World {
    match action
    case Add(job, enqueue, now) =>
      w.(entries := AddJob(w.entries, job), used := w.used + {job.id},
         exec := if enqueue && w.exec.Some? then Some(Enqueue(w.exec.value, job, now)) else w.exec)
    case Reload(now, kept) =>
      if w.exec.Some? then w
      else w.(exec := Some(Load(Fresh(o, now), Persisted(w.entries), now)), entries := CleanUp(w.entries, kept))
    case Crash => w.(exec := None)
    case CancelJob(id, here, lost) =>
      // A silo that does not run the shard removes the job from the store alone.
      w.(exec := if here && w.exec.Some? then Some(Cancel(w.exec.value, id)) else w.exec,
         entries := if lost then w.entries else Delete(w.entries, id))
    case StopExec => if w.exec.Some? then w.(exec := Some(Stop(w.exec.value))) else w
    case Timer(free, now, overloaded) =>
      if w.exec.Some? && w.exec.value.handle.Some? then
        var n := |w.exec.value.runs|;
        var (e, _) := Poll(o, Fired(w.exec.value), free, now, overloaded);
        w.(exec := Some(e), runIds := AssignIds(w.runIds, e.runs, n, w.nextRun), nextRun := w.nextRun + |e.runs|)
      else w
    case StartStored(k) =>
      if InPhase(w, k, Starting) && RunJob(w, k) in w.runIds then
        w.(entries := StartRun(w.entries, RunJob(w, k), w.runIds[RunJob(w, k)]))
      else w
    case MarkStored(k) =>
      if InPhase(w, k, Completing) && RunJob(w, k) in w.runIds then
        var id := RunJob(w, k);
        var stored := Has(w.entries, id) && Get(w.entries, id).runId == Some(w.runIds[id]);
        w.(entries := CompleteRun(w.entries, id, w.runIds[id]), history := w.history + if stored then [Marked(id)] else [])
      else w
    case RemoveStored(k) =>
      if InPhase(w, k, Removing) then w.(entries := Delete(w.entries, RunJob(w, k))) else w
    case RunStep(k, result, now, lost) =>
      if w.exec.Some? && k < |w.exec.value.runs| then
        var run := w.exec.value.runs[k];
        w.(exec := Some(RunOn(o, w.exec.value, k, result, now).0),
           entries := Written(o, w.entries, run, result, now, lost),
           history := w.history + if run.phase == Starting then [Invoked(run.job.id)] else [])
      else w
  }

  /** Job ids are new when they are scheduled. */
  ghost predicate Legal(w: World, action: Action) {
    action.Add? ==> action.job.id !in w.used
  }

  function After(o: Options, w: World, actions: seq<Action>): World {
    if actions == [] then w else Next(o, After(o, w, actions[..|actions| - 1]), actions[|actions| - 1])
  }

  const EMPTY := World([], None, map[], 0, {}, [])

  // ----- The invariant -----

  ghost predicate StoreGood(entries: Entries<JobId, Entry>, used: set<JobId>) {
    && Distinct(entries)
    && forall i | 0 <= i < |entries| :: EntryGood(entries[i], used)
  }

  ghost predicate EntryGood(e: (JobId, Entry), used: set<JobId>) {
    e.1.job.id == e.0 && e.0 in used
  }

  /** Nothing of the executor will start the job; when `strict`, nothing of it knows the job at all. */
  ghost predicate Quiet(e: Exec, id: JobId, strict: bool) {
    && !Has(e.queue, id)
    && (strict ==> id !in e.jobs)
    && forall i | 0 <= i < |e.runs| :: RunQuiet(e.runs[i], id, strict)
  }

  ghost predicate RunQuiet(run: Run, id: JobId, strict: bool) {
    run.job.id == id ==> !strict && (run.phase == Completing || run.phase == Removing)
  }

  ghost predicate ExecUses(e: Exec, used: set<JobId>) {
    forall id | id !in used :: Quiet(e, id, true)
  }

  ghost predicate Tombstone(entries: Entries<JobId, Entry>, id: JobId) {
    Has(entries, id) ==> Get(entries, id).completed
  }

  /** Nothing can invoke the job any more. */
  ghost predicate Dead(w: World, id: JobId) {
    && id in w.used
    && Tombstone(w.entries, id)
    && (w.exec.Some? ==> Quiet(w.exec.value, id, false))
  }

  ghost predicate NotBefore(h: seq<Event>, i: nat, j: nat)
    requires i < |h| && j < |h|
  {
    h[i].Marked? && h[j].Invoked? ==> h[i].id != h[j].id
  }

  ghost predicate NoneAfterMark(h: seq<Event>) {
    forall i, j | 0 <= i < j < |h| :: NotBefore(h, i, j)
  }

  ghost predicate DeadIfMarked(w: World, e: Event) {
    e.Marked? ==> Dead(w, e.id)
  }

  ghost predicate Inv(w: World) {
    && StoreGood(w.entries, w.used)
    && (w.exec.Some? ==> ExecInv(w.exec.value) && ExecUses(w.exec.value, w.used))
    && (forall i | 0 <= i < |w.history| :: DeadIfMarked(w, w.history[i]))
    && NoneAfterMark(w.history)
  }

  // ----- What the executor's steps do to a quiet job -----

  lemma SchedulePollQuiet(e: Exec, now: int, id: JobId, strict: bool)
    requires Quiet(e, id, strict)
    ensures Quiet(SchedulePoll(e, now), id, strict)
  {
  }

  lemma EnqueueQuiet(e: Exec, job: Job, now: int, id: JobId, strict: bool)
    requires Quiet(e, id, strict) && job.id != id
    ensures Quiet(Enqueue(e, job, now), id, strict)
  {
    var q := Queued(job.id, job.dueMs, 0);
    PutHas(e.queue, job.id, q, id);
    SchedulePollQuiet(Take(e, q), now, id, strict);
  }

  lemma {:induction false} LoadAllQuiet(e: Exec, entries: seq<Entry>, id: JobId)
    requires Quiet(e, id, true)
    requires forall i | 0 <= i < |entries| && entries[i].job.id == id :: entries[i].completed
    ensures Quiet(LoadAll(e, entries), id, true)
    decreases |entries|
  {
    if entries != [] {
      var p := entries[0];
      var q := Queued(p.job.id, p.dueMs, p.dequeueCount);
      PutHas(e.queue, p.job.id, q, id);
      LoadAllQuiet(if p.completed then e else Take(e, q), entries[1..], id);
    }
  }

  lemma LoadQuiet(o: Options, entries: seq<Entry>, now: int, id: JobId)
    requires forall i | 0 <= i < |entries| && entries[i].job.id == id :: entries[i].completed
    ensures Quiet(Load(Fresh(o, now), entries, now), id, true)
  {
    LoadAllQuiet(Fresh(o, now), entries, id);
    SchedulePollQuiet(LoadAll(Fresh(o, now), entries), now, id, true);
  }

  lemma CancelQuiet(e: Exec, x: JobId, id: JobId, strict: bool)
    requires ExecInv(e) && Quiet(e, id, strict)
    ensures Quiet(Cancel(e, x), id, strict)
  {
    DeleteHas(e.queue, x, id);
    forall i | 0 <= i < |e.runs| ensures RunQuiet(Cancel(e, x).runs[i], id, strict) {
      assert RunQuiet(e.runs[i], id, strict);
    }
  }

  lemma {:induction false} PollLoopQuiet(e: Exec, free: nat, due: seq<Queued>, now: int, id: JobId, strict: bool)
    requires Quiet(e, id, strict) && !Out(due, id)
    ensures Quiet(PollLoop(e, free, due, now).e, id, strict)
    decreases |due|
  {
    if due != [] {
      var job := due[0];
      OutTail(due, id);
      if e.running >= e.concurrency || free == 0 {
        var f := e.(queue := Added(e.queue, job.(dueMs := now)), liveIds := e.liveIds + {job.id});
        PutHas(e.queue, job.id, job.(dueMs := now), id);
        PollLoopQuiet(f, free, due[1..], now, id, strict);
      } else if job.id !in e.jobs {
        SchedulePollQuiet(e, now, id, strict);
        PollLoopQuiet(SchedulePoll(e, now), free, due[1..], now, id, strict);
      } else {
        var f := e.(running := e.running + 1, runs := e.runs + [Run(job, Starting, false)]);
        assert Quiet(f, id, strict);
        PollLoopQuiet(f, free - 1, due[1..], now, id, strict);
      }
    }
  }

  lemma PollQuiet(o: Options, e: Exec, free: nat, now: int, overloaded: bool, id: JobId, strict: bool)
    requires ExecInv(e) && Quiet(e, id, strict)
    ensures Quiet(Poll(o, Fired(e), free, now, overloaded).0, id, strict)
  {
    var g := Fired(e);
    if !e.stopped && !overloaded {
      var (due, rest) := Dequeued(g.queue, now);
      DequeuedSplits(g.queue, now, id);
      var ready := g.(concurrency := Max(g.concurrency, Ceiling(o, g.startedAt, now)), queue := rest);
      hide Ceiling, Dequeued, ExecInv;
      assert Quiet(ready, id, strict);
      PollLoopQuiet(ready, free, due, now, id, strict);
      SchedulePollQuiet(PollLoop(ready, free, due, now).e, now, id, strict);
    }
  }

  lemma FinishQuiet(e: Exec, k: nat, now: int, id: JobId, strict: bool)
    requires Quiet(e, id, strict) && k < |e.runs|
    ensures Quiet(Finish(e, k, now), id, strict)
  {
    var f := e.(runs := e.runs[..k] + e.runs[k + 1..], running := e.running - 1);
    forall i | 0 <= i < |f.runs| ensures RunQuiet(f.runs[i], id, strict) {
      assert RunQuiet(e.runs[if i < k then i else i + 1], id, strict);
    }
    SchedulePollQuiet(f, now, id, strict);
  }

  lemma RescheduleQuiet(e: Exec, k: nat, job: Queued, delay: int, now: int, id: JobId, strict: bool)
    requires Quiet(e, id, strict) && k < |e.runs| && job.id != id
    ensures Quiet(Finish(Reschedule(e, job, delay, now), k, now), id, strict)
  {
    PutHas(e.queue, job.id, job.(dueMs := now + delay), id);
    SchedulePollQuiet(e.(queue := Retried(e.queue, e.liveIds, job, delay, now)), now, id, strict);
    FinishQuiet(Reschedule(e, job, delay, now), k, now, id, strict);
  }

  lemma RunOnQuiet(o: Options, e: Exec, k: nat, result: Result, now: int, id: JobId, strict: bool)
    requires Quiet(e, id, strict) && k < |e.runs|
    ensures Quiet(RunOn(o, e, k, result, now).0, id, strict)
  {
    var run := e.runs[k];
    assert RunQuiet(run, id, strict);
    match run.phase
    case Invoking => {
      match result
      case PollAfter(delay) => RescheduleQuiet(e, k, run.job, delay, now, id, strict);
      case Failed =>
        var attempt := run.job.dequeueCount + 1;
        if o.shouldRetry(attempt).Some? {
          RescheduleQuiet(e, k, run.job.(dequeueCount := attempt), o.shouldRetry(attempt).value, now, id, strict);
        }
      case Completed =>
    }
    case Removing => FinishQuiet(e, k, now, id, strict);
    case _ =>
  }

  // ----- What the store's steps do -----

  lemma StorePut(entries: Entries<JobId, Entry>, used: set<JobId>, id: JobId, e: Entry, x: JobId)
    requires StoreGood(entries, used) && e.job.id == id && id in used
    ensures StoreGood(Put(entries, id, e), used)
    ensures Tombstone(entries, x) && (x == id ==> e.completed) ==> Tombstone(Put(entries, id, e), x)
  {
    PutDistinct(entries, id, e);
    PutHas(entries, id, e, x);
    PutGood(entries, used, id, e);
  }

  lemma {:induction false} PutGood(entries: Entries<JobId, Entry>, used: set<JobId>, id: JobId, e: Entry)
    requires forall i | 0 <= i < |entries| :: EntryGood(entries[i], used)
    requires EntryGood((id, e), used)
    ensures forall i | 0 <= i < |Put(entries, id, e)| :: EntryGood(Put(entries, id, e)[i], used)
  {
    if entries != [] && entries[0].0 != id {
      forall i | 0 <= i < |entries[1..]| ensures EntryGood(entries[1..][i], used) { assert EntryGood(entries[i + 1], used); }
      PutGood(entries[1..], used, id, e);
    }
  }

  lemma StoreGet(entries: Entries<JobId, Entry>, used: set<JobId>, id: JobId)
    requires StoreGood(entries, used) && Has(entries, id)
    ensures Get(entries, id).job.id == id && id in used
  {
    HasIndex(entries, id);
    var i :| 0 <= i < |entries| && entries[i].0 == id;
    GetIndex(entries, i);
    assert EntryGood(entries[i], used);
  }

  lemma {:induction false} DeleteGood(entries: Entries<JobId, Entry>, used: set<JobId>, id: JobId)
    requires forall i | 0 <= i < |entries| :: EntryGood(entries[i], used)
    ensures forall i | 0 <= i < |Delete(entries, id)| :: EntryGood(Delete(entries, id)[i], used)
  {
    if entries != [] && entries[0].0 != id {
      forall i | 0 <= i < |entries[1..]| ensures EntryGood(entries[1..][i], used) { assert EntryGood(entries[i + 1], used); }
      DeleteGood(entries[1..], used, id);
    }
  }

  lemma StoreDelete(entries: Entries<JobId, Entry>, used: set<JobId>, id: JobId, x: JobId)
    requires StoreGood(entries, used)
    ensures StoreGood(Delete(entries, id), used)
    ensures Tombstone(entries, x) ==> Tombstone(Delete(entries, id), x)
  {
    DeleteDistinct(entries, id);
    DeleteHas(entries, id, x);
    DeleteGood(entries, used, id);
  }

  lemma {:induction false} CleanUpHas(entries: Entries<JobId, Entry>, kept: set<JobId>, x: JobId)
    requires Distinct(entries)
    ensures Has(CleanUp(entries, kept), x) ==> Has(entries, x) && Get(CleanUp(entries, kept), x) == Get(entries, x)
  {
    if entries != [] {
      DistinctTail(entries);
      HeadKeyIsNew(entries);
      CleanUpHas(entries[1..], kept, x);
      var rest := CleanUp(entries[1..], kept);
      assert ([entries[0]] + rest)[1..] == rest;
      assert CleanUp(entries, kept) == rest || CleanUp(entries, kept) == [entries[0]] + rest;
    }
  }

  lemma {:induction false} CleanUpGood(entries: Entries<JobId, Entry>, used: set<JobId>, kept: set<JobId>)
    requires StoreGood(entries, used)
    ensures StoreGood(CleanUp(entries, kept), used)
  {
    if entries != [] {
      DistinctTail(entries);
      HeadKeyIsNew(entries);
      forall i | 0 <= i < |entries[1..]| ensures EntryGood(entries[1..][i], used) { assert EntryGood(entries[i + 1], used); }
      CleanUpGood(entries[1..], used, kept);
      CleanUpHas(entries[1..], kept, entries[0].0);
      var rest := CleanUp(entries[1..], kept);
      DistinctCons(entries[0].0, entries[0].1, rest);
      assert CleanUp(entries, kept) == rest || CleanUp(entries, kept) == [(entries[0].0, entries[0].1)] + rest;
      assert EntryGood(entries[0], used);
    }
  }

  // ----- Every step -----

  ghost predicate DeadStays(w: World, w': World, id: JobId) {
    Dead(w, id) ==> Dead(w', id)
  }

  /** All but the history. */
  ghost predicate StateGood(w: World) {
    && StoreGood(w.entries, w.used)
    && (w.exec.Some? ==> ExecInv(w.exec.value) && ExecUses(w.exec.value, w.used))
  }

  ghost predicate StepGood(w: World, w': World) {
    StateGood(w') && forall id :: DeadStays(w, w', id)
  }

  lemma AddGood(o: Options, w: World, job: Job, enqueue: bool, now: int)
    requires StateGood(w) && job.id !in w.used
    ensures StepGood(w, Next(o, w, Add(job, enqueue, now)))
  {
    hide ExecInv, Enqueue, Distinct, Has;
    var w' := Next(o, w, Add(job, enqueue, now));
    var e := Entry(job, 0, job.dueMs, None, false);
    forall i | 0 <= i < |w.entries| ensures EntryGood(w.entries[i], w'.used) { assert EntryGood(w.entries[i], w.used); }
    forall id ensures DeadStays(w, w', id) {
      StorePut(w.entries, w'.used, job.id, e, id);
      if w.exec.Some? && Dead(w, id) { EnqueueQuiet(w.exec.value, job, now, id, false); }
    }
    StorePut(w.entries, w'.used, job.id, e, 0);
    if w.exec.Some? {
      assert Quiet(w.exec.value, job.id, true);
      QuietIsNew(w.exec.value, job.id);
      EnqueueKeeps(w.exec.value, job, now);
      forall id | id !in w'.used ensures Quiet(w'.exec.value, id, true) {
        assert Quiet(w.exec.value, id, true);
        EnqueueQuiet(w.exec.value, job, now, id, true);
      }
    }
  }

  lemma QuietIsNew(e: Exec, id: JobId)
    requires Quiet(e, id, true)
    ensures IsNew(e, id)
  {
    forall i | 0 <= i < |e.runs| ensures e.runs[i].job.id != id { assert RunQuiet(e.runs[i], id, true); }
  }

  lemma PersistedUnique(entries: Entries<JobId, Entry>, used: set<JobId>)
    requires StoreGood(entries, used)
    ensures UniqueIds(Persisted(entries))
  {
    forall i, j | 0 <= i < j < |entries| ensures Persisted(entries)[i].job.id != Persisted(entries)[j].job.id {
      assert EntryGood(entries[i], used) && EntryGood(entries[j], used);
      KeysAt(entries, i, j);
    }
  }

  lemma PersistedTombstone(entries: Entries<JobId, Entry>, used: set<JobId>, id: JobId)
    requires StoreGood(entries, used) && Tombstone(entries, id)
    ensures forall i | 0 <= i < |entries| && Persisted(entries)[i].job.id == id :: Persisted(entries)[i].completed
  {
    forall i | 0 <= i < |entries| && Persisted(entries)[i].job.id == id ensures Persisted(entries)[i].completed {
      assert EntryGood(entries[i], used);
      GetIndex(entries, i);
    }
  }

  lemma UnusedIsTombstone(entries: Entries<JobId, Entry>, used: set<JobId>, id: JobId)
    requires StoreGood(entries, used) && id !in used
    ensures Tombstone(entries, id)
  {
    if Has(entries, id) {
      StoreGet(entries, used, id);
    }
  }

  lemma ReloadGood(o: Options, w: World, now: int, kept: set<JobId>)
    requires StateGood(w)
    ensures StepGood(w, Next(o, w, Reload(now, kept)))
  {
    hide ExecInv, Load, Distinct, Has;
    var w' := Next(o, w, Reload(now, kept));
    if w.exec.None? {
      PersistedUnique(w.entries, w.used);
      OpenGood(o, Persisted(w.entries), now);
      CleanUpGood(w.entries, w.used, kept);
      forall id | Tombstone(w.entries, id) ensures Quiet(w'.exec.value, id, true) {
        PersistedTombstone(w.entries, w.used, id);
        LoadQuiet(o, Persisted(w.entries), now, id);
      }
      forall id | id !in w.used ensures Quiet(w'.exec.value, id, true) { UnusedIsTombstone(w.entries, w.used, id); }
      forall id ensures DeadStays(w, w', id) {
        CleanUpHas(w.entries, kept, id);
        if Dead(w, id) { QuietIsQuiet(w'.exec.value, id); }
      }
    }
  }

  lemma QuietIsQuiet(e: Exec, id: JobId)
    requires Quiet(e, id, true)
    ensures Quiet(e, id, false)
  {
    forall i | 0 <= i < |e.runs| ensures RunQuiet(e.runs[i], id, false) { assert RunQuiet(e.runs[i], id, true); }
  }

  lemma CancelGood(o: Options, w: World, x: JobId, here: bool, lost: bool)
    requires StateGood(w)
    ensures StepGood(w, Next(o, w, Action.CancelJob(x, here, lost)))
  {
    hide ExecInv, Cancel, Distinct, Has;
    var w' := Next(o, w, Action.CancelJob(x, here, lost));
    StoreDelete(w.entries, w.used, x, 0);
    if here && w.exec.Some? {
      var e := w.exec.value;
      CancelKeeps(e, x);
      forall id | id !in w.used ensures Quiet(w'.exec.value, id, true) {
        assert Quiet(e, id, true);
        CancelQuiet(e, x, id, true);
      }
    }
    forall id ensures DeadStays(w, w', id) {
      StoreDelete(w.entries, w.used, x, id);
      if Dead(w, id) && here && w.exec.Some? { CancelQuiet(w.exec.value, x, id, false); }
    }
  }

  /** A step of the executor alone. */
  lemma ExecStepGood(w: World, e: Exec, w': World)
    requires StateGood(w) && w.exec.Some? && ExecInv(e)
    requires forall id, strict | Quiet(w.exec.value, id, strict) :: Quiet(e, id, strict)
    requires w'.exec == Some(e) && w'.entries == w.entries && w'.used == w.used
    ensures StepGood(w, w')
  {
    forall id | id !in w.used ensures Quiet(e, id, true) { assert Quiet(w.exec.value, id, true); }
    forall id ensures DeadStays(w, w', id) {
      if Dead(w, id) { assert Quiet(w.exec.value, id, false); }
    }
  }

  lemma StopGood(o: Options, w: World)
    requires StateGood(w)
    ensures StepGood(w, Next(o, w, Action.StopExec))
  {
    if w.exec.Some? {
      StopKeeps(w.exec.value);
      hide ExecInv;
      ExecStepGood(w, Stop(w.exec.value), Next(o, w, Action.StopExec));
    }
  }

  lemma TimerGood(o: Options, w: World, free: nat, now: int, overloaded: bool)
    requires StateGood(w)
    ensures StepGood(w, Next(o, w, Action.Timer(free, now, overloaded)))
  {
    hide ExecInv, Poll, Quiet;
    if w.exec.Some? && w.exec.value.handle.Some? {
      var e := w.exec.value;
      PollKeeps(o, e, free, now, overloaded);
      var f := Poll(o, Fired(e), free, now, overloaded).0;
      forall id, strict | Quiet(e, id, strict) ensures Quiet(f, id, strict) {
        PollQuiet(o, e, free, now, overloaded, id, strict);
      }
      ExecStepGood(w, f, Next(o, w, Action.Timer(free, now, overloaded)));
    }
  }

  /** A write to the store alone, which makes no entry of a completed job look uncompleted. */
  lemma StoreStepGood(w: World, w': World)
    requires StateGood(w) && StoreGood(w'.entries, w.used)
    requires forall id | Dead(w, id) :: Tombstone(w'.entries, id)
    requires w'.exec == w.exec && w'.used == w.used
    ensures StepGood(w, w')
  {
    forall id ensures DeadStays(w, w', id) {
    }
  }

  lemma RunNotDead(w: World, k: nat, id: JobId)
    requires w.exec.Some? && k < |w.exec.value.runs| && w.exec.value.runs[k].job.id == id
    requires w.exec.value.runs[k].phase == Starting || w.exec.value.runs[k].phase == Invoking
    ensures !Dead(w, id)
  {
    assert !RunQuiet(w.exec.value.runs[k], id, false);
  }

  lemma StartStoredGood(o: Options, w: World, k: nat)
    requires StateGood(w)
    ensures StepGood(w, Next(o, w, StartStored(k)))
  {
    hide ExecInv, Distinct, Has, Get;
    var w' := Next(o, w, StartStored(k));
    if InPhase(w, k, Starting) && RunJob(w, k) in w.runIds && Has(w.entries, RunJob(w, k)) {
      var id := RunJob(w, k);
      var e := Get(w.entries, id).(runId := Some(w.runIds[id]), completed := false);
      StoreGet(w.entries, w.used, id);
      StorePut(w.entries, w.used, id, e, id);
      RunNotDead(w, k, id);
      forall x | Dead(w, x) ensures Tombstone(w'.entries, x) { StorePut(w.entries, w.used, id, e, x); }
    }
    StoreStepGood(w, w');
  }

  lemma RemoveStoredGood(o: Options, w: World, k: nat)
    requires StateGood(w)
    ensures StepGood(w, Next(o, w, RemoveStored(k)))
  {
    hide ExecInv, Distinct, Has, Get;
    var w' := Next(o, w, RemoveStored(k));
    if InPhase(w, k, Removing) {
      StoreDelete(w.entries, w.used, RunJob(w, k), 0);
      forall x | Dead(w, x) ensures Tombstone(w'.entries, x) { StoreDelete(w.entries, w.used, RunJob(w, k), x); }
    }
    StoreStepGood(w, w');
  }

  /** When a marker is stored, the job's only run is past its handler and the queue no longer has it. */
  lemma CompletingIsQuiet(e: Exec, k: nat)
    requires ExecInv(e) && k < |e.runs| && e.runs[k].phase == Completing
    ensures Quiet(e, e.runs[k].job.id, false)
  {
    var id := e.runs[k].job.id;
    assert RunGood(e, e.runs[k]);
    forall i | 0 <= i < |e.runs| ensures RunQuiet(e.runs[i], id, false) { RunsAt(e.runs, i, k); }
  }

  lemma MarkStoredGood(o: Options, w: World, k: nat)
    requires StateGood(w)
    ensures var w' := Next(o, w, MarkStored(k));
      StepGood(w, w') && forall e | e in w'.history[|w.history|..] :: e.Marked? && Dead(w', e.id)
  {
    var w' := Next(o, w, MarkStored(k));
    if InPhase(w, k, Completing) && RunJob(w, k) in w.runIds {
      var id := RunJob(w, k);
      CompletingIsQuiet(w.exec.value, k);
      if Has(w.entries, id) && Get(w.entries, id).runId == Some(w.runIds[id]) {
        MarkedIsDead(w, k, id, w');
      }
    }
    hide ExecInv, Distinct, Has, Get;
    StoreStepGood(w, w');
  }

  lemma MarkedIsDead(w: World, k: nat, id: JobId, w': World)
    requires StateGood(w) && InPhase(w, k, Completing) && id == RunJob(w, k) && Quiet(w.exec.value, id, false)
    requires Has(w.entries, id)
    requires w'.entries == Put(w.entries, id, Get(w.entries, id).(completed := true))
    requires w'.exec == w.exec && w'.used == w.used
    ensures StoreGood(w'.entries, w.used) && Dead(w', id)
    ensures forall x | Dead(w, x) :: Tombstone(w'.entries, x)
  {
    hide ExecInv, Distinct;
    var e := Get(w.entries, id).(completed := true);
    StoreGet(w.entries, w.used, id);
    StorePut(w.entries, w.used, id, e, id);
    PutHas(w.entries, id, e, id);
    forall x | Dead(w, x) ensures Tombstone(w'.entries, x) { StorePut(w.entries, w.used, id, e, x); }
  }

  lemma RetryKeeps(entries: Entries<JobId, Entry>, used: set<JobId>, id: JobId, dueMs: int, count: nat, x: JobId)
    requires StoreGood(entries, used)
    ensures StoreGood(RetryJob(entries, id, dueMs, count), used)
    ensures x != id && Tombstone(entries, x) ==> Tombstone(RetryJob(entries, id, dueMs, count), x)
  {
    if Has(entries, id) {
      StoreGet(entries, used, id);
      var e := Get(entries, id).(dueMs := dueMs, dequeueCount := count);
      StorePut(entries, used, id, e, x);
    }
  }

  lemma WrittenKeeps(o: Options, w: World, k: nat, result: Result, now: int, lost: bool, x: JobId)
    requires StateGood(w) && w.exec.Some? && k < |w.exec.value.runs|
    ensures var entries := Written(o, w.entries, w.exec.value.runs[k], result, now, lost);
      StoreGood(entries, w.used) && (Dead(w, x) ==> Tombstone(entries, x))
  {
    hide ExecInv, Distinct, Has, Get;
    var run := w.exec.value.runs[k];
    if !lost && run.phase == Invoking {
      RunNotDead(w, k, run.job.id);
      hide RetryJob;
      match result
      case Completed =>
      case PollAfter(delay) => RetryKeeps(w.entries, w.used, run.job.id, now + delay, run.job.dequeueCount, x);
      case Failed =>
        if o.shouldRetry(run.job.dequeueCount + 1).Some? {
          RetryKeeps(w.entries, w.used, run.job.id, now + o.shouldRetry(run.job.dequeueCount + 1).value, run.job.dequeueCount + 1, x);
        }
    }
  }

  lemma RunStepGood(o: Options, w: World, k: nat, result: Result, now: int, lost: bool)
    requires StateGood(w)
    ensures var w' := Next(o, w, Action.RunStep(k, result, now, lost));
      StepGood(w, w') && forall e | e in w'.history[|w.history|..] :: e.Invoked? && !Dead(w, e.id)
  {
    hide ExecInv, Distinct, Has, Get, RunOn, Quiet, Written, Tombstone;
    var w' := Next(o, w, Action.RunStep(k, result, now, lost));
    if w.exec.Some? && k < |w.exec.value.runs| {
      var e := w.exec.value;
      if e.runs[k].phase == Starting { RunNotDead(w, k, e.runs[k].job.id); }
      RunOnKeeps(o, e, k, result, now);
      forall id, strict | Quiet(e, id, strict) ensures Quiet(w'.exec.value, id, strict) {
        RunOnQuiet(o, e, k, result, now, id, strict);
      }
      WrittenKeeps(o, w, k, result, now, lost, 0);
      forall x | Dead(w, x) ensures Tombstone(w'.entries, x) { WrittenKeeps(o, w, k, result, now, lost, x); }
      var mid := w.(entries := w'.entries);
      StoreStepGood(w, mid);
      ExecStepGood(mid, w'.exec.value, w');
      forall id ensures DeadStays(w, w', id) { assert DeadStays(w, mid, id) && DeadStays(mid, w', id); }
    }
  }

  lemma HistoryGood(w: World, w': World)
    requires Inv(w) && StepGood(w, w') && w.history <= w'.history && |w'.history| <= |w.history| + 1
    requires forall e | e in w'.history[|w.history|..] :: if e.Marked? then Dead(w', e.id) else !Dead(w, e.id)
    ensures Inv(w')
  {
    var n := |w.history|;
    forall i | 0 <= i < |w'.history| ensures DeadIfMarked(w', w'.history[i]) {
      if i < n {
        assert DeadIfMarked(w, w.history[i]) && DeadStays(w, w', w.history[i].id);
      } else {
        assert w'.history[i] == w'.history[n..][i - n];
      }
    }
    forall i, j | 0 <= i < j < |w'.history| ensures NotBefore(w'.history, i, j) {
      if j < n {
        assert NotBefore(w.history, i, j);
      } else {
        assert w'.history[j] == w'.history[n..][j - n];
        assert DeadIfMarked(w, w.history[i]);
      }
    }
  }

  lemma NextKeepsInv(o: Options, w: World, action: Action)
    requires Inv(w) && Legal(w, action)
    ensures Inv(Next(o, w, action))
  {
    var w' := Next(o, w, action);
    StepIsGood(o, w, action);
    hide Next, Dead, StepGood;
    HistoryGood(w, w');
  }

  lemma StepIsGood(o: Options, w: World, action: Action)
    requires StateGood(w) && Legal(w, action)
    ensures var w' := Next(o, w, action);
      && StepGood(w, w') && w.history <= w'.history && |w'.history| <= |w.history| + 1
      && forall e | e in w'.history[|w.history|..] :: if e.Marked? then Dead(w', e.id) else !Dead(w, e.id)
  {
    hide StateGood, StepGood, Dead, CompleteRun, Written, RunOn, Poll;
    match action
    case Add(job, enqueue, now) => AddGood(o, w, job, enqueue, now);
    case Reload(now, kept) => ReloadGood(o, w, now, kept);
    case Crash => CrashGood(o, w);
    case CancelJob(x, here, lost) => CancelGood(o, w, x, here, lost);
    case StopExec => StopGood(o, w);
    case Timer(free, now, overloaded) => TimerGood(o, w, free, now, overloaded);
    case StartStored(k) => StartStoredGood(o, w, k);
    case MarkStored(k) => MarkStoredGood(o, w, k);
    case RemoveStored(k) => RemoveStoredGood(o, w, k);
    case RunStep(k, result, now, lost) => RunStepGood(o, w, k, result, now, lost);
  }

  lemma CrashGood(o: Options, w: World)
    requires StateGood(w)
    ensures StepGood(w, Next(o, w, Crash))
  {
    forall id ensures DeadStays(w, Next(o, w, Crash), id) {
    }
  }

  ghost predicate LegalAt(o: Options, actions: seq<Action>, i: nat)
    requires i < |actions|
  {
    Legal(After(o, EMPTY, actions[..i]), actions[i])
  }

  lemma {:induction false} RunKeepsInv(o: Options, actions: seq<Action>)
    requires forall i | 0 <= i < |actions| :: LegalAt(o, actions, i)
    ensures Inv(After(o, EMPTY, actions))
    decreases |actions|
  {
    if actions != [] {
      var init := actions[..|actions| - 1];
      forall i | 0 <= i < |init| ensures LegalAt(o, init, i) {
        assert LegalAt(o, actions, i) && init[..i] == actions[..i];
      }
      RunKeepsInv(o, init);
      assert LegalAt(o, actions, |actions| - 1);
      NextKeepsInv(o, After(o, EMPTY, init), actions[|actions| - 1]);
    }
  }

  /**
   * A job is never invoked after its completion marker is stored: whatever is scheduled, cancelled,
   * polled, lost or crashed, at whatever point of a run, and however many successors reload the shard.
   */
  lemma NeverInvokedAfterMarker(o: Options, actions: seq<Action>, i: nat, j: nat)
    requires forall k | 0 <= k < |actions| :: LegalAt(o, actions, k)
    requires i < j < |After(o, EMPTY, actions).history|
    ensures var h := After(o, EMPTY, actions).history; h[i].Marked? && h[j].Invoked? ==> h[i].id != h[j].id
  {
    RunKeepsInv(o, actions);
    assert NotBefore(After(o, EMPTY, actions).history, i, j);
  }
}
