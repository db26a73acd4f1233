/** What each operation of an executor does to a job, told by the job's place, due time and attempts. */
module ExecutorLaws {
  import opened Wrappers
  import opened OrderedMap
  import opened JobShardStore
  import opened JobQueue
  import opened ShardExecutor
  import opened ExecutorConservation
  import Tombstones

  /** The job is queued for this time, with this many attempts made. */
  ghost predicate QueuedAs(e: Exec, id: JobId, dueMs: int, count: nat) {
    Has(e.queue, id) && Get(e.queue, id) == Queued(id, dueMs, count)
  }

  ghost predicate SameQueued(q: Queue, r: Queue, id: JobId) {
    (Has(q, id) <==> Has(r, id)) && (Has(q, id) ==> Get(r, id) == Get(q, id))
  }

  /** The job is where it was. */
  ghost predicate Untouched(e: Exec, f: Exec, id: JobId) {
    (id in e.jobs <==> id in f.jobs) && SameQueued(e.queue, f.queue, id)
  }

  // ----- Taking jobs in -----

  lemma TakeQueues(e: Exec, job: Queued, x: JobId)
    ensures var f := Take(e, job); job.id in f.jobs && QueuedAs(f, job.id, job.dueMs, job.dequeueCount)
    ensures x != job.id ==> Untouched(e, Take(e, job), x)
  {
    PutHas(e.queue, job.id, job, job.id);
    PutHas(e.queue, job.id, job, x);
  }

  /** A job scheduled here is known, and queued for its due time with no attempt made; nothing else changes. */
  lemma EnqueueQueues(e: Exec, job: Job, now: int, x: JobId)
    ensures var f := Enqueue(e, job, now); job.id in f.jobs && QueuedAs(f, job.id, job.dueMs, 0) && f.runs == e.runs
    ensures x != job.id ==> Untouched(e, Enqueue(e, job, now), x)
  {
    TakeQueues(e, Queued(job.id, job.dueMs, 0), x);
  }

  ghost predicate Listed(entries: seq<Entry>, id: JobId) {
    exists i :: 0 <= i < |entries| && entries[i].job.id == id
  }

  lemma {:induction false} LoadAllTakes(e: Exec, entries: seq<Entry>, i: nat, x: JobId)
    requires UniqueIds(entries)
    ensures i < |entries| && !entries[i].completed ==>
      var f := LoadAll(e, entries); entries[i].job.id in f.jobs && QueuedAs(f, entries[i].job.id, entries[i].dueMs, entries[i].dequeueCount)
    ensures i < |entries| && entries[i].completed ==> Untouched(e, LoadAll(e, entries), entries[i].job.id)
    ensures !Listed(entries, x) ==> Untouched(e, LoadAll(e, entries), x)
    decreases entries
  {
    if entries != [] {
      var p, rest := entries[0], entries[1..];
      var job := Queued(p.job.id, p.dueMs, p.dequeueCount);
      var f := if p.completed then e else Take(e, job);
      assert UniqueIds(rest);
      var k: nat := if i == 0 then 0 else i - 1;
      LoadAllTakes(f, rest, k, x);
      if !p.completed { TakeQueues(e, job, x); }
      if !Listed(entries, x) {
        assert entries[0].job.id != x;
      }
      if i == 0 {
        LoadAllTakes(f, rest, 0, p.job.id);
      } else if i < |entries| {
        assert rest[k] == entries[i] && entries[0].job.id != entries[i].job.id;
        TakeQueues(e, job, entries[i].job.id);
      }
    }
  }

  /**
   * A load takes in exactly the persisted jobs without a completion marker, each for its persisted
   * due time and with its persisted count of attempts.
   */
  lemma LoadTakes(o: Options, entries: seq<Entry>, began: int, now: int, i: nat, x: JobId)
    requires UniqueIds(entries)
    ensures var f := Load(Fresh(o, began), entries, now);
      && (i < |entries| && !entries[i].completed ==>
            entries[i].job.id in f.jobs && QueuedAs(f, entries[i].job.id, entries[i].dueMs, entries[i].dequeueCount))
      && (i < |entries| && entries[i].completed ==> entries[i].job.id !in f.jobs && !Has(f.queue, entries[i].job.id))
      && (!Listed(entries, x) ==> x !in f.jobs && !Has(f.queue, x))
  {
    LoadAllTakes(Fresh(o, began), entries, i, x);
  }

  /** A cancelled job is neither known nor queued, its runs are marked, and nothing else changes. */
  lemma CancelTakesOut(e: Exec, id: JobId, x: JobId, i: nat)
    requires Distinct(e.queue)
    ensures var f := Cancel(e, id);
      && id !in f.jobs && !Has(f.queue, id) && id !in f.liveIds
      && (x != id ==> Untouched(e, f, x) && (x in f.liveIds <==> x in e.liveIds))
      && |f.runs| == |e.runs|
      && (i < |e.runs| ==> f.runs[i] == if e.runs[i].job.id == id then e.runs[i].(cancelled := true) else e.runs[i])
  {
    DeleteHas(e.queue, id, id);
    DeleteHas(e.queue, id, x);
  }

  /** Stopping loses no job and no run: it takes the timer. */
  lemma StopKeepsJobs(e: Exec)
    requires TimersGood(e)
    ensures var f := Stop(e);
      f.stopped && f.timers == map[] && f.jobs == e.jobs && f.queue == e.queue && f.runs == e.runs && f.liveIds == e.liveIds
  {
  }

  // ----- What a result does -----

  lemma RetriedQueues(e: Exec, job: Queued, delay: int, now: int, x: JobId)
    ensures var q := Retried(e.queue, e.liveIds, job, delay, now);
      && (job.id in e.liveIds ==> Has(q, job.id) && Get(q, job.id) == Queued(job.id, now + delay, job.dequeueCount))
      && (job.id !in e.liveIds ==> q == e.queue)
      && (x != job.id ==> SameQueued(e.queue, q, x))
  {
    PutHas(e.queue, job.id, job.(dueMs := now + delay), job.id);
    PutHas(e.queue, job.id, job.(dueMs := now + delay), x);
  }

  lemma FinishedRun(e: Exec, k: nat, job: Queued, delay: int, now: int, x: JobId)
    requires k < |e.runs|
    ensures var f := Finish(Reschedule(e, job, delay, now), k, now);
      && f.jobs == e.jobs && f.queue == Retried(e.queue, e.liveIds, job, delay, now)
      && f.runs == e.runs[..k] + e.runs[k + 1..]
  {
    hide NextDue, Retried;
  }

  /** What the job of a run that is not cancelled comes to, by its handler's result. */
  ghost predicate Outcome(o: Options, f: Exec, run: Run, result: Result, now: int) {
    var id, made := run.job.id, run.job.dequeueCount + 1;
    match result
    case Completed => id in f.jobs && !Has(f.queue, id)
    case PollAfter(delay) => id in f.jobs && QueuedAs(f, id, now + delay, made - 1)
    case Failed =>
      if o.shouldRetry(made).Some? then id in f.jobs && QueuedAs(f, id, now + o.shouldRetry(made).value, made)
      else id !in f.jobs && !Has(f.queue, id)
  }

  /** Whether the handler's result ends its run: not while its completion or its removal is to be stored. */
  ghost predicate Ends(o: Options, run: Run, result: Result) {
    result.PollAfter? || (result.Failed? && o.shouldRetry(run.job.dequeueCount + 1).Some?)
  }

  /**
   * What a handler's result does. A supervised poll is queued for later with the same count; a
   * failure is queued for later with one attempt more, if the policy grants a retry, and is forgotten
   * if not; a completion is not queued again. A cancelled job never is. No other job is touched.
   */
  lemma ResultDecides(o: Options, e: Exec, k: nat, result: Result, now: int, x: JobId)
    requires ExecInv(e) && k < |e.runs| && e.runs[k].phase == Invoking
    ensures var (f, released) := RunOn(o, e, k, result, now); var run := e.runs[k];
      && (!run.cancelled ==> Outcome(o, f, run, result, now))
      && (run.cancelled ==> run.job.id !in f.jobs && !Has(f.queue, run.job.id))
      && (x != run.job.id ==> Untouched(e, f, x))
      && (released <==> Ends(o, run, result))
      && f.runs == if released then e.runs[..k] + e.runs[k + 1..]
                   else e.runs[k := run.(phase := if result.Completed? then Completing else Removing)]
  {
    var run := e.runs[k];
    assert RunGood(e, run);
    var made := run.job.dequeueCount + 1;
    if result.PollAfter? {
      FinishedRun(e, k, run.job, result.delay, now, x);
      RetriedQueues(e, run.job, result.delay, now, x);
    } else if result.Failed? && o.shouldRetry(made).Some? {
      FinishedRun(e, k, run.job.(dequeueCount := made), o.shouldRetry(made).value, now, x);
      RetriedQueues(e, run.job.(dequeueCount := made), o.shouldRetry(made).value, now, x);
    }
    hide Books, Finish, Reschedule, Retried;
  }

  /** The other stretches of a run: the handler is invoked; a marked job is forgotten; a removed one's run is over. */
  lemma OtherStretches(o: Options, e: Exec, k: nat, result: Result, now: int, x: JobId)
    requires k < |e.runs| && e.runs[k].phase != Invoking
    ensures var (f, released) := RunOn(o, e, k, result, now); var run := e.runs[k];
      && f.queue == e.queue
      && (x in f.jobs <==> x in e.jobs && !(run.phase == Completing && x == run.job.id))
      && (released <==> run.phase == Removing)
      && f.runs == if released then e.runs[..k] + e.runs[k + 1..]
                   else e.runs[k := run.(phase := if run.phase == Starting then Invoking else Removing)]
  {
    hide NextDue;
  }

  lemma RetriedEntry(entries: Entries<JobId, Entry>, id: JobId, dueMs: int, count: nat)
    requires Has(entries, id)
    ensures var after := RetryJob(entries, id, dueMs, count);
      Has(after, id) && Get(after, id) == Get(entries, id).(dueMs := dueMs, dequeueCount := count)
  {
    PutHas(entries, id, Get(entries, id).(dueMs := dueMs, dequeueCount := count), id);
  }

  /** What is queued for later is stored for the same time with the same count, so a successor takes it up just so. */
  lemma RetryIsStored(o: Options, w: Tombstones.World, k: nat, result: Result, now: int)
    requires w.exec.Some? && ExecInv(w.exec.value) && k < |w.exec.value.runs|
    requires w.exec.value.runs[k].phase == Invoking && !w.exec.value.runs[k].cancelled
    requires Ends(o, w.exec.value.runs[k], result) && Has(w.entries, w.exec.value.runs[k].job.id)
    ensures var id := w.exec.value.runs[k].job.id;
      var w' := Tombstones.Next(o, w, Tombstones.RunStep(k, result, now, false));
      && w'.exec.Some? && Has(w'.entries, id) && Has(w'.exec.value.queue, id)
      && Get(w'.entries, id).dueMs == Get(w'.exec.value.queue, id).dueMs
      && Get(w'.entries, id).dequeueCount == Get(w'.exec.value.queue, id).dequeueCount
  {
    hide RunOn, ExecInv, RetryJob;
    var run := w.exec.value.runs[k];
    ResultDecides(o, w.exec.value, k, result, now, 0);
    if result.PollAfter? {
      RetriedEntry(w.entries, run.job.id, now + result.delay, run.job.dequeueCount);
    } else {
      RetriedEntry(w.entries, run.job.id, now + o.shouldRetry(run.job.dequeueCount + 1).value, run.job.dequeueCount + 1);
    }
  }

  // ----- Over all runs -----

  lemma {:induction false} PollLoopKeepsJobs(e: Exec, free: nat, due: seq<Queued>, now: int)
    ensures PollLoop(e, free, due, now).e.jobs == e.jobs
    decreases due
  {
    if due != [] {
      var job := due[0];
      if e.running >= e.concurrency || free == 0 {
        PollLoopKeepsJobs(e.(queue := Added(e.queue, job.(dueMs := now)), liveIds := e.liveIds + {job.id}), free, due[1..], now);
      } else if job.id !in e.jobs {
        PollLoopKeepsJobs(SchedulePoll(e, now), free, due[1..], now);
      } else {
        PollLoopKeepsJobs(e.(running := e.running + 1, runs := e.runs + [Run(job, Starting, false)]), free - 1, due[1..], now);
      }
    }
  }

  lemma PollKeepsJobs(o: Options, e: Exec, free: nat, now: int, overloaded: bool)
    ensures Poll(o, e, free, now, overloaded).0.jobs == e.jobs
  {
    if !e.stopped && !overloaded {
      var (due, rest) := Dequeued(e.queue, now);
      PollLoopKeepsJobs(e.(concurrency := Max(e.concurrency, Ceiling(o, e.startedAt, now)), queue := rest), free, due, now);
    }
  }

  /** The step cancels the job, or records its completion, or gives up on it as the policy says. */
  ghost predicate LetsGo(o: Options, s: SiloJobs, x: nat, action: Action, id: JobId)
    requires x < |s.execs|
  {
    || action == Action.CancelJob(x, id)
    || (action.RunStep? && action.x == x && action.k < |s.execs[x].runs|
        && var run := s.execs[x].runs[action.k];
        && run.job.id == id
        && (run.phase == Completing
            || (run.phase == Invoking && action.result.Failed? && o.shouldRetry(run.job.dequeueCount + 1).None?)))
  }

  /** An executor forgets a job it knows only by a cancellation, a recorded completion, or a failure the policy does not retry. */
  lemma ForgottenOnlyIf(o: Options, s: SiloJobs, action: Action, x: nat, id: JobId)
    requires x < |s.execs| && id in s.execs[x].jobs
    ensures x < |Next(o, s, action).execs|
    ensures id in Next(o, s, action).execs[x].jobs || LetsGo(o, s, x, action, id)
  {
    if action.Timer? && action.x < |s.execs| {
      PollKeepsJobs(o, Fired(s.execs[action.x]), if s.inUse < s.max then s.max - s.inUse else 0, action.now, action.overloaded);
    }
    hide Poll, NextDue, Load;
  }

  ghost predicate LetGoAt(o: Options, s: SiloJobs, actions: seq<Action>, i: nat, x: nat, id: JobId)
    requires i < |actions|
  {
    var before := After(o, s, actions[..i]);
    x < |before.execs| && LetsGo(o, before, x, actions[i], id)
  }

  /** Over any run: a job once known is known at the end, unless some step has let it go. */
  lemma {:induction false} KnownUntilLetGo(o: Options, s: SiloJobs, actions: seq<Action>, x: nat, id: JobId)
    requires x < |s.execs| && id in s.execs[x].jobs
    requires forall i | 0 <= i < |actions| :: !LetGoAt(o, s, actions, i, x, id)
    ensures x < |After(o, s, actions).execs| && id in After(o, s, actions).execs[x].jobs
    decreases |actions|
  {
    if actions != [] {
      var n := |actions| - 1;
      var init := actions[..n];
      forall i | 0 <= i < n ensures !LetGoAt(o, s, init, i, x, id) {
        assert !LetGoAt(o, s, actions, i, x, id);
        assert init[..i] == actions[..i];
      }
      KnownUntilLetGo(o, s, init, x, id);
      assert !LetGoAt(o, s, actions, n, x, id);
      ForgottenOnlyIf(o, After(o, s, init), actions[n], x, id);
    }
  }

  // ----- A poll -----

  function Least(a: int, b: int): int {
    if a <= b then a else b
  }

  ghost predicate AllKnown(e: Exec, due: seq<Queued>) {
    forall i | 0 <= i < |due| :: due[i].id in e.jobs
  }

  ghost predicate NewRuns(runs: seq<Run>, due: seq<Queued>, n: nat) {
    |runs| == n <= |due| && forall i | 0 <= i < n :: runs[i] == Run(due[i], Starting, false)
  }

  ghost predicate InDue(due: seq<Queued>, id: JobId) {
    exists i :: 0 <= i < |due| && due[i].id == id
  }

  /** What room there is for runs. */
  function Room(e: Exec, free: nat): nat {
    Least(free, if e.concurrency > e.running then e.concurrency - e.running else 0)
  }

  /** The executor with the first due job put back, or started. */
  function PutBack(e: Exec, job: Queued, now: int): Exec {
    e.(queue := Added(e.queue, job.(dueMs := now)), liveIds := e.liveIds + {job.id})
  }

  function Started(e: Exec, job: Queued): Exec {
    e.(running := e.running + 1, runs := e.runs + [Run(job, Starting, false)])
  }

  lemma LoopSteps(e: Exec, free: nat, due: seq<Queued>, now: int)
    requires due != [] && AllKnown(e, due)
    ensures var p := PollLoop(e, free, due, now);
      if Room(e, free) == 0 then
        p == PollLoop(PutBack(e, due[0], now), free, due[1..], now).(blocked := true)
      else
        var rest := PollLoop(Started(e, due[0]), free - 1, due[1..], now);
        p == rest.(taken := rest.taken + 1, admitted := rest.admitted + 1)
  {
    assert due[0].id in e.jobs;
  }

  /** The first jobs due are run, in order, as many as there is room for. */
  lemma {:induction false} LoopRuns(e: Exec, free: nat, due: seq<Queued>, now: int)
    requires AllKnown(e, due)
    ensures var r := PollLoop(e, free, due, now); var n := Least(|due|, Room(e, free));
      && r.taken == r.admitted == n && (r.blocked <==> n < |due|)
      && |r.e.runs| == |e.runs| + n && r.e.runs[..|e.runs|] == e.runs && NewRuns(r.e.runs[|e.runs|..], due, n)
      && r.e.startedAt == e.startedAt && r.e.concurrency == e.concurrency && r.e.stopped == e.stopped
    decreases due
  {
    hide PollLoop;
    if due == [] {
      NothingDue(e, free, now);
    } else {
      LoopSteps(e, free, due, now);
      var rest := due[1..];
      assert forall i | 0 <= i < |rest| :: rest[i] == due[i + 1];
      if Room(e, free) == 0 {
        LoopRuns(PutBack(e, due[0], now), free, rest, now);
      } else {
        var f := Started(e, due[0]);
        LoopRuns(f, free - 1, rest, now);
        var runs := PollLoop(f, free - 1, rest, now).e.runs;
        assert runs[..|e.runs|] == runs[..|f.runs|][..|e.runs|];
        assert runs[|e.runs|..] == [runs[..|f.runs|][|e.runs|]] + runs[|f.runs|..];
      }
    }
  }

  lemma NothingDue(e: Exec, free: nat, now: int)
    ensures PollLoop(e, free, [], now) == Polled(e, 0, 0, false)
  {
  }

  /** A job that is not due, or is run, is not queued by the loop. */
  lemma {:induction false} LoopLeaves(e: Exec, free: nat, due: seq<Queued>, now: int, x: JobId)
    requires AllKnown(e, due)
    requires forall i | 0 <= i < |due| && due[i].id == x :: i < Room(e, free)
    ensures SameQueued(e.queue, PollLoop(e, free, due, now).e.queue, x)
    decreases due
  {
    hide PollLoop;
    if due == [] {
      NothingDue(e, free, now);
    } else {
      LoopSteps(e, free, due, now);
      var rest := due[1..];
      assert forall i | 0 <= i < |rest| :: rest[i] == due[i + 1];
      if Room(e, free) == 0 {
        PutHas(e.queue, due[0].id, due[0].(dueMs := now), x);
        LoopLeaves(PutBack(e, due[0], now), free, rest, now, x);
      } else {
        LoopLeaves(Started(e, due[0]), free - 1, rest, now, x);
      }
    }
  }

  /** A job there is no room for is queued again, for now. */
  lemma {:induction false} LoopPutsBack(e: Exec, free: nat, due: seq<Queued>, now: int, i: nat)
    requires AllKnown(e, due) && DifferentIds(due) && Room(e, free) <= i < |due|
    ensures QueuedAs(PollLoop(e, free, due, now).e, due[i].id, now, due[i].dequeueCount)
    decreases due
  {
    hide PollLoop;
    LoopSteps(e, free, due, now);
    var rest := due[1..];
    assert forall j | 0 <= j < |rest| :: rest[j] == due[j + 1];
    if Room(e, free) > 0 {
      LoopPutsBack(Started(e, due[0]), free - 1, rest, now, i - 1);
    } else if i > 0 {
      LoopPutsBack(PutBack(e, due[0], now), free, rest, now, i - 1);
    } else {
      PutHas(e.queue, due[0].id, due[0].(dueMs := now), due[0].id);
      LoopLeaves(PutBack(e, due[0], now), free, rest, now, due[0].id);
    }
  }

  // ----- A whole cycle -----

  /** A cycle of an overloaded silo runs nothing, touches no job, and comes again after the backoff. */
  lemma OverloadBacksOff(o: Options, e: Exec, free: nat, now: int)
    requires !e.stopped
    ensures var (f, taken) := Poll(o, e, free, now, true);
      && taken == 0 && f.jobs == e.jobs && f.queue == e.queue && f.runs == e.runs && f.concurrency == e.concurrency
      && f.handle.Some? && f.handle.value in f.timers && f.timers[f.handle.value] == now + o.overloadBackoffMs
  {
  }

  lemma DueAreKnown(e: Exec, now: int)
    requires Books(e, [])
    ensures var due := Dequeued(e.queue, now).0; AllKnown(e, due) && DifferentIds(due)
    ensures forall i | 0 <= i < |Dequeued(e.queue, now).0| :: Has(e.queue, Dequeued(e.queue, now).0[i].id)
  {
    var (due, rest) := Dequeued(e.queue, now);
    DequeuedSplits(e.queue, now, 0);
    forall i | 0 <= i < |due| ensures due[i].id in e.jobs && Has(e.queue, due[i].id) {
      assert OutAt(due, i, due[i].id);
      DequeuedSplits(e.queue, now, due[i].id);
      assert KnownGood(e, [], due[i].id);
    }
  }

  lemma TimersLeaveRuns(o: Options, e: Exec, now: int)
    ensures SameBooks(e, SchedulePoll(e, now)) && SameBooks(e, ScheduleSaturatedPoll(o, e, now))
  {
    hide NextDue, ElapsedIntervals;
  }

  /** What a cycle with this ceiling has room for, and what it makes of the jobs that are due. */
  lemma PollIs(o: Options, e: Exec, free: nat, now: int)
    requires !e.stopped
    ensures var ready := e.(concurrency := Max(e.concurrency, Ceiling(o, e.startedAt, now)), queue := Dequeued(e.queue, now).1);
      var p := PollLoop(ready, free, Dequeued(e.queue, now).0, now);
      var (f, taken) := Poll(o, e, free, now, false);
      && taken == p.taken && SameBooks(p.e, f)
      && f == if p.admitted == 0 && p.blocked then ScheduleSaturatedPoll(o, p.e, now) else SchedulePoll(p.e, now)
  {
    hide PollLoop, SchedulePoll, ScheduleSaturatedPoll, Ceiling, Dequeued, SameBooks;
    var ready := e.(concurrency := Max(e.concurrency, Ceiling(o, e.startedAt, now)), queue := Dequeued(e.queue, now).1);
    TimersLeaveRuns(o, PollLoop(ready, free, Dequeued(e.queue, now).0, now).e, now);
  }

  /**
   * A poll cycle raises the ceiling as the slow start allows, and runs the jobs that are due,
   * earliest first, as many as the ceiling and the limiter leave room for. Those it has no room for
   * are queued for now with their counts; what is not due stays as it was.
   */
  lemma PollRunsTheDue(o: Options, e: Exec, free: nat, now: int, i: nat, x: JobId)
    requires Books(e, []) && !e.stopped
    ensures var (f, taken) := Poll(o, e, free, now, false);
      var due := Dequeued(e.queue, now).0;
      var ceiling := Max(e.concurrency, Ceiling(o, e.startedAt, now));
      && f.concurrency == ceiling && f.jobs == e.jobs
      && taken == Least(|due|, Least(free, ceiling - |e.runs|))
      && |f.runs| == |e.runs| + taken && f.runs[..|e.runs|] == e.runs && NewRuns(f.runs[|e.runs|..], due, taken)
      && (taken <= i < |due| ==> QueuedAs(f, due[i].id, now, due[i].dequeueCount))
      && (i < taken ==> !Has(f.queue, due[i].id))
      && (!InDue(due, x) ==> SameQueued(e.queue, f.queue, x))
  {
    hide Poll, PollLoop, Books, Ceiling, Dequeued;
    var (due, rest) := Dequeued(e.queue, now);
    var ready := e.(concurrency := Max(e.concurrency, Ceiling(o, e.startedAt, now)), queue := rest);
    RunningIsRuns(e);
    DueAreKnown(e, now);
    PollIs(o, e, free, now);
    PollKeepsJobs(o, e, free, now, false);
    LoopRuns(ready, free, due, now);
    var n := Least(|due|, Room(ready, free));
    if n <= i < |due| { LoopPutsBack(ready, free, due, now, i); }
    if i < n {
      LoopLeaves(ready, free, due, now, due[i].id);
      RestHas(e.queue, now, due[i].id);
    }
    if !InDue(due, x) {
      LoopLeaves(ready, free, due, now, x);
      RestHas(e.queue, now, x);
    }
  }

  lemma RunningIsRuns(e: Exec)
    requires Books(e, [])
    ensures e.running == |e.runs| <= e.concurrency && Distinct(e.queue) && Filed(e.queue)
  {
  }

  lemma RestHas(q: Queue, now: int, id: JobId)
    requires Distinct(q) && Filed(q)
    ensures var (due, rest) := Dequeued(q, now);
      if InDue(due, id) then !Has(rest, id) else SameQueued(q, rest, id)
  {
    DequeuedSplits(q, now, id);
    NotDueByHas(q, now, id);
    var due := Dequeued(q, now).0;
    if j :| 0 <= j < |due| && due[j].id == id { assert OutAt(due, j, id); }
  }

  // ----- When the next cycle is -----

  /**
   * A saturated executor polls again after now: at the next boundary at which its ceiling can grow,
   * or, at its maximum, after the overload backoff.
   */
  lemma SaturatedWaits(o: Options, e: Exec, now: int)
    requires !e.stopped
    ensures var f := ScheduleSaturatedPoll(o, e, now);
      && f.handle.Some? && f.handle.value in f.timers
      && var at := f.timers[f.handle.value];
      && now < at
      && (if e.concurrency < o.maxConcurrentJobs && o.intervalMs > 0 then
            && (exists m: int :: m >= 1 && at == e.startedAt + m * o.intervalMs)
            && (now >= e.startedAt ==> at <= now + o.intervalMs)
            && (now < e.startedAt ==> at == e.startedAt + o.intervalMs)
          else at == now + Max(1, o.overloadBackoffMs))
  {
    if e.concurrency < o.maxConcurrentJobs && o.intervalMs > 0 {
      var n := ElapsedIntervals(o, e.startedAt, now);
      DivBounds(now - e.startedAt, o.intervalMs);
      var q := (now - e.startedAt) / o.intervalMs;
      assert (n + 1) * o.intervalMs == n * o.intervalMs + o.intervalMs;
      if now < e.startedAt {
        assert q < 0 by { if q >= 0 { MultipleGrows(0, q, o.intervalMs); } }
      } else {
        assert q >= 0 by { if q < 0 { MultipleGrows(1, -q, o.intervalMs); } }
        assert n == q;
      }
      var at := e.startedAt + (n + 1) * o.intervalMs;
      assert n + 1 >= 1;
    }
  }

  /**
   * After `n` whole intervals the ceiling is the initial concurrency multiplied `n` times by the
   * growth factor, rounded up, between one and the maximum; without a slow start, it is the maximum.
   */
  lemma CeilingIsGrowth(o: Options, startedAt: int, now: int, n: nat)
    requires o.intervalMs > 0 ==>
      if now < startedAt then n == 0 else n * o.intervalMs <= now - startedAt < n * o.intervalMs + o.intervalMs
    ensures var c := Ceiling(o, startedAt, now); var grown := o.initialConcurrency as real * Pow(o.growthFactor, n);
      if o.intervalMs <= 0 || o.maxConcurrentJobs < 1 then c == o.maxConcurrentJobs
      else if grown <= 1.0 then c == 1
      else if grown > (o.maxConcurrentJobs - 1) as real then c == o.maxConcurrentJobs
      else (c - 1) as real < grown <= c as real
  {
    if o.intervalMs > 0 { WholeIntervals(o, startedAt, now, n); }
    hide Pow, ElapsedIntervals;
  }

  lemma WholeIntervals(o: Options, startedAt: int, now: int, n: nat)
    requires o.intervalMs > 0
    requires if now < startedAt then n == 0 else n * o.intervalMs <= now - startedAt < n * o.intervalMs + o.intervalMs
    ensures ElapsedIntervals(o, startedAt, now) == n
  {
    var q := (now - startedAt) / o.intervalMs;
    DivBounds(now - startedAt, o.intervalMs);
    if now < startedAt {
      if q >= 0 { MultipleGrows(0, q, o.intervalMs); }
    } else if q < n {
      MultipleGrows(1, n - q, o.intervalMs);
    } else if q > n {
      MultipleGrows(1, q - n, o.intervalMs);
    }
  }
}
