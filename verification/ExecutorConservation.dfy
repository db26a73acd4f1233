/** What every run of a silo's executors keeps: no job lost or doubled, no slot leaked, one timer each. */
module ExecutorConservation {
  import opened Wrappers
  import opened OrderedMap
  import opened Sorting
  import opened JobShardStore
  import opened JobQueue
  import opened ShardExecutor

  // ----- The jobs of one executor -----

  /** The run still answers for its job. */
  predicate Holds(run: Run) {
    !run.cancelled && run.phase != Removing
  }

  ghost predicate RunAt(runs: seq<Run>, i: int, id: JobId) {
    0 <= i < |runs| && runs[i].job.id == id && Holds(runs[i])
  }

  /** A run under way answers for the job. */
  ghost predicate Running(runs: seq<Run>, id: JobId) {
    exists i :: RunAt(runs, i, id)
  }

  ghost predicate Out(out: seq<Queued>, id: JobId) {
    exists i :: OutAt(out, i, id)
  }

  ghost predicate OutAt(out: seq<Queued>, i: int, id: JobId) {
    0 <= i < |out| && out[i].id == id
  }

  ghost predicate RunsDiffer(runs: seq<Run>, i: nat, j: nat)
    requires i < |runs| && j < |runs|
  {
    runs[i].job.id != runs[j].job.id
  }

  ghost predicate RunsDistinct(runs: seq<Run>) {
    forall i, j | 0 <= i < j < |runs| :: RunsDiffer(runs, i, j)
  }

  ghost predicate RunGood(e: Exec, run: Run) {
    && !Has(e.queue, run.job.id)
    && (Holds(run) <==> run.job.id in e.jobs)
    && (Holds(run) ==> run.job.id in e.liveIds)
    && (run.cancelled ==> run.job.id !in e.liveIds)
  }

  ghost predicate RunsGood(e: Exec) {
    forall i | 0 <= i < |e.runs| :: RunGood(e, e.runs[i])
  }

  ghost predicate OutGood(e: Exec, out: seq<Queued>, i: nat)
    requires i < |out|
  {
    var id := out[i].id;
    id in e.jobs && id in e.liveIds && !Has(e.queue, id) && NoRun(e.runs, id)
  }

  ghost predicate NoRun(runs: seq<Run>, id: JobId) {
    forall i | 0 <= i < |runs| :: runs[i].job.id != id
  }

  /** Every known job is queued, or running, or just taken out of the queue: exactly one of them. */
  ghost predicate KnownGood(e: Exec, out: seq<Queued>, id: JobId) {
    id in e.jobs <==> Has(e.queue, id) || Running(e.runs, id) || Out(out, id)
  }

  ghost predicate QueueGood(e: Exec) {
    && Distinct(e.queue) && Filed(e.queue)
    && forall id | Has(e.queue, id) :: id in e.liveIds
  }

  /** `out` is what a poll cycle has taken out of the queue and not yet dealt with. */
  ghost predicate Books(e: Exec, out: seq<Queued>) {
    && QueueGood(e)
    && RunsDistinct(e.runs)
    && RunsGood(e)
    && DifferentIds(out)
    && (forall i | 0 <= i < |out| :: OutGood(e, out, i))
    && (forall id :: KnownGood(e, out, id))
    && e.running == |e.runs| <= e.concurrency
    && e.concurrency >= 1
  }

  // ----- Its timer -----

  ghost predicate TimersGood(e: Exec) {
    && e.timers.Keys == (if e.handle.Some? then {e.handle.value} else {})
    && (e.handle.Some? ==> e.handle.value < e.nextTimer)
    && (e.stopped ==> e.handle.None?)
  }

  /** An unstopped executor with queued work has its one timer armed. */
  ghost predicate Armed(e: Exec) {
    TimersGood(e) && (!e.stopped && e.queue != [] ==> e.handle.Some?)
  }

  ghost predicate ExecInv(e: Exec) {
    Books(e, []) && Armed(e)
  }

  /** The parts of an executor its jobs depend on. */
  ghost predicate SameBooks(e: Exec, f: Exec) {
    && f.jobs == e.jobs && f.queue == e.queue && f.liveIds == e.liveIds && f.runs == e.runs
    && f.running == e.running && f.concurrency == e.concurrency
  }

  lemma TimersLeaveBooks(e: Exec, f: Exec, out: seq<Queued>)
    requires Books(e, out) && SameBooks(e, f)
    ensures Books(f, out)
  {
    forall i | 0 <= i < |out| ensures OutGood(f, out, i) { assert OutGood(e, out, i); }
    forall i | 0 <= i < |f.runs| ensures RunGood(f, f.runs[i]) { assert RunGood(e, e.runs[i]); }
    forall id ensures KnownGood(f, out, id) { assert KnownGood(e, out, id); }
  }

  lemma ScheduleArms(e: Exec, now: int)
    requires TimersGood(e)
    ensures Armed(SchedulePoll(e, now)) && SameBooks(e, SchedulePoll(e, now))
    ensures !e.stopped && e.queue != [] ==>
      var f := SchedulePoll(e, now); f.timers[f.handle.value] == Max(now, NextDue(e.queue).value)
    ensures SchedulePoll(e, now).stopped == e.stopped
  {
    NextDueIsEarliest(e.queue);
  }

  lemma SaturatedArms(o: Options, e: Exec, now: int)
    requires TimersGood(e)
    ensures Armed(ScheduleSaturatedPoll(o, e, now)) && SameBooks(e, ScheduleSaturatedPoll(o, e, now))
  {
  }

  lemma ScheduleKeeps(e: Exec, now: int)
    requires Books(e, []) && TimersGood(e)
    ensures ExecInv(SchedulePoll(e, now))
  {
    ScheduleArms(e, now);
    TimersLeaveBooks(e, SchedulePoll(e, now), []);
  }

  // ----- Taking a job in -----

  lemma QueuePut(e: Exec, job: Queued, live: set<JobId>)
    requires QueueGood(e) && e.liveIds <= live && job.id in live
    ensures QueueGood(e.(queue := Added(e.queue, job), liveIds := live))
    ensures forall id :: Has(Added(e.queue, job), id) <==> id == job.id || Has(e.queue, id)
  {
    PutDistinct(e.queue, job.id, job);
    PutFiled(e.queue, job);
    forall id ensures Has(Added(e.queue, job), id) <==> id == job.id || Has(e.queue, id) {
      PutHas(e.queue, job.id, job, id);
    }
  }

  lemma TakeKeeps(e: Exec, job: Queued)
    requires Books(e, []) && IsNew(e, job.id)
    ensures Books(Take(e, job), [])
  {
    hide Filed, Distinct, Has;
    var f := Take(e, job);
    QueuePut(e, job, f.liveIds);
    forall i | 0 <= i < |f.runs| ensures RunGood(f, f.runs[i]) {
      assert RunGood(e, e.runs[i]) && e.runs[i].job.id != job.id;
    }
    forall id ensures KnownGood(f, [], id) { assert KnownGood(e, [], id); }
  }

  lemma {:induction false} LoadKeeps(e: Exec, entries: seq<Entry>)
    requires Books(e, []) && e.runs == [] && UniqueIds(entries)
    requires forall i | 0 <= i < |entries| :: entries[i].job.id !in e.jobs
    ensures Books(LoadAll(e, entries), [])
    ensures SameTimers(e, LoadAll(e, entries))
    ensures forall id | id in LoadAll(e, entries).jobs && id !in e.jobs ::
      exists i :: 0 <= i < |entries| && entries[i].job.id == id && !entries[i].completed
    decreases |entries|
  {
    if entries != [] {
      var p := entries[0];
      var f := if p.completed then e else Take(e, Queued(p.job.id, p.dueMs, p.dequeueCount));
      if !p.completed {
        TakeKeeps(e, Queued(p.job.id, p.dueMs, p.dequeueCount));
      }
      hide Books;
      LoadKeeps(f, entries[1..]);
      forall id | id in LoadAll(e, entries).jobs && id !in e.jobs
        ensures exists i :: 0 <= i < |entries| && entries[i].job.id == id && !entries[i].completed
      {
        if id in f.jobs {
          assert entries[0].job.id == id;
        } else {
          var i :| 0 <= i < |entries[1..]| && entries[1..][i].job.id == id && !entries[1..][i].completed;
          assert entries[i + 1].job.id == id;
        }
      }
    }
  }

  ghost predicate SameTimers(e: Exec, f: Exec) {
    f.timers == e.timers && f.handle == e.handle && f.nextTimer == e.nextTimer && f.stopped == e.stopped
  }

  lemma OpenGood(o: Options, entries: seq<Entry>, now: int)
    requires UniqueIds(entries)
    ensures ExecInv(Load(Fresh(o, now), entries, now)) && Load(Fresh(o, now), entries, now).runs == []
  {
    var e := Fresh(o, now);
    assert Books(e, []) by {
      forall id ensures KnownGood(e, [], id) {
      }
    }
    LoadKeeps(e, entries);
    LoadRunsNothing(e, entries);
    ScheduleKeeps(LoadAll(e, entries), now);
    ScheduleArms(LoadAll(e, entries), now);
  }

  lemma {:induction false} LoadRunsNothing(e: Exec, entries: seq<Entry>)
    ensures LoadAll(e, entries).runs == e.runs
    decreases |entries|
  {
    if entries != [] {
      var p := entries[0];
      LoadRunsNothing(if p.completed then e else Take(e, Queued(p.job.id, p.dueMs, p.dequeueCount)), entries[1..]);
    }
  }

  // ----- Cancelling -----

  lemma CancelKeeps(e: Exec, id: JobId)
    requires ExecInv(e)
    ensures ExecInv(Cancel(e, id)) && |Cancel(e, id).runs| == |e.runs|
  {
    hide Filed, Distinct, Has;
    var f := Cancel(e, id);
    DeleteDistinct(e.queue, id);
    DeleteFiled(e.queue, id);
    forall x ensures Has(f.queue, x) <==> x != id && Has(e.queue, x) { DeleteHas(e.queue, id, x); }
    forall i, j | 0 <= i < j < |f.runs| ensures RunsDiffer(f.runs, i, j) { assert RunsDiffer(e.runs, i, j); }
    forall i | 0 <= i < |f.runs| ensures RunGood(f, f.runs[i]) { assert RunGood(e, e.runs[i]); }
    forall x ensures KnownGood(f, [], x) {
      assert KnownGood(e, [], x);
      CancelledRuns(e, id, x);
    }
    EmptyQueueStays(e.queue, id);
  }

  lemma EmptyQueueStays(q: Queue, id: JobId)
    ensures q == [] ==> Delete(q, id) == []
  {
  }

  lemma CancelledRuns(e: Exec, id: JobId, x: JobId)
    ensures Running(MarkCancelled(e.runs, id), x) <==> x != id && Running(e.runs, x)
  {
    var marked := MarkCancelled(e.runs, id);
    if Running(e.runs, x) && x != id {
      var i :| RunAt(e.runs, i, x);
      assert RunAt(marked, i, x);
    }
    if Running(marked, x) {
      var i :| RunAt(marked, i, x);
      assert RunAt(e.runs, i, x);
    }
  }

  lemma StopKeeps(e: Exec)
    requires ExecInv(e)
    ensures ExecInv(Stop(e)) && Stop(e).runs == e.runs
  {
    TimersLeaveBooks(e, Stop(e), []);
  }

  // ----- One poll cycle -----

  lemma OutTail(out: seq<Queued>, id: JobId)
    requires out != []
    ensures Out(out, id) <==> out[0].id == id || Out(out[1..], id)
  {
    if Out(out, id) {
      var i :| OutAt(out, i, id);
      if i > 0 { assert OutAt(out[1..], i - 1, id); }
    }
    if out[0].id == id { assert OutAt(out, 0, id); }
    if Out(out[1..], id) {
      var i :| OutAt(out[1..], i, id);
      assert OutAt(out, i + 1, id);
    }
  }

  lemma OutHead(e: Exec, out: seq<Queued>)
    requires Books(e, out) && out != []
    ensures OutGood(e, out, 0) && DifferentIds(out[1..]) && !Out(out[1..], out[0].id)
    ensures forall i | 0 <= i < |out[1..]| :: OutGood(e, out, i + 1) && out[1..][i].id != out[0].id
  {
    assert out[1..] == out[1..];
  }

  lemma PutBackKeeps(e: Exec, out: seq<Queued>, now: int)
    requires Books(e, out) && out != []
    ensures var job := out[0];
      Books(e.(queue := Added(e.queue, job.(dueMs := now)), liveIds := e.liveIds + {job.id}), out[1..])
  {
    var job := out[0];
    var f := e.(queue := Added(e.queue, job.(dueMs := now)), liveIds := e.liveIds + {job.id});
    OutHead(e, out);
    hide Filed, Distinct, Has;
    QueuePut(e, job.(dueMs := now), f.liveIds);
    forall i | 0 <= i < |f.runs| ensures RunGood(f, f.runs[i]) { assert RunGood(e, e.runs[i]); }
    forall i | 0 <= i < |out[1..]| ensures OutGood(f, out[1..], i) { assert OutGood(e, out, i + 1); }
    forall id ensures KnownGood(f, out[1..], id) {
      assert KnownGood(e, out, id);
      OutTail(out, id);
    }
  }

  lemma RunningSnoc(runs: seq<Run>, run: Run, id: JobId)
    ensures Running(runs + [run], id) <==> Running(runs, id) || (run.job.id == id && Holds(run))
  {
    if Running(runs, id) {
      var i :| RunAt(runs, i, id);
      assert RunAt(runs + [run], i, id);
    }
    if run.job.id == id && Holds(run) { assert RunAt(runs + [run], |runs|, id); }
    if Running(runs + [run], id) {
      var i :| RunAt(runs + [run], i, id);
      assert i < |runs| ==> RunAt(runs, i, id);
    }
  }

  lemma AdmitKeeps(e: Exec, out: seq<Queued>)
    requires Books(e, out) && out != [] && e.running < e.concurrency
    ensures Books(e.(running := e.running + 1, runs := e.runs + [Run(out[0], Starting, false)]), out[1..])
  {
    var job := out[0];
    var run := Run(job, Starting, false);
    var f := e.(running := e.running + 1, runs := e.runs + [run]);
    OutHead(e, out);
    hide Filed, Distinct, Has;
    forall i, j | 0 <= i < j < |f.runs| ensures RunsDiffer(f.runs, i, j) {
      assert j < |e.runs| ==> RunsDiffer(e.runs, i, j);
    }
    forall i | 0 <= i < |f.runs| ensures RunGood(f, f.runs[i]) {
      assert i < |e.runs| ==> RunGood(e, e.runs[i]);
    }
    forall i | 0 <= i < |out[1..]| ensures OutGood(f, out[1..], i) { assert OutGood(e, out, i + 1); }
    forall id ensures KnownGood(f, out[1..], id) {
      assert KnownGood(e, out, id);
      OutTail(out, id);
      RunningSnoc(e.runs, run, id);
    }
  }

  /** A cycle takes as many slots as it starts runs, and no more than are free. */
  lemma {:induction false} PollLoopKeeps(e: Exec, free: nat, due: seq<Queued>, now: int)
    requires Books(e, due)
    ensures var r := PollLoop(e, free, due, now);
      Books(r.e, []) && SameTimers(e, r.e) && r.taken <= free && r.e.running == e.running + r.taken
    decreases |due|
  {
    if due != [] {
      var job := due[0];
      assert OutGood(e, due, 0);
      if e.running >= e.concurrency || free == 0 {
        PutBackKeeps(e, due, now);
        hide Books;
        PollLoopKeeps(e.(queue := Added(e.queue, job.(dueMs := now)), liveIds := e.liveIds + {job.id}), free, due[1..], now);
      } else {
        AdmitKeeps(e, due);
        hide Books;
        PollLoopKeeps(e.(running := e.running + 1, runs := e.runs + [Run(job, Starting, false)]), free - 1, due[1..], now);
      }
    }
  }

  lemma {:induction false} DueByIn(q: Queue, now: int, id: JobId)
    requires Filed(q) && Out(DueBy(q, now), id)
    ensures Has(q, id)
  {
    if q != [] {
      FiledTail(q);
      var d := DueBy(q[1..], now);
      if q[0].0 != id {
        if q[0].1.dueMs <= now {
          OutTail([q[0].1] + d, id);
          assert ([q[0].1] + d)[1..] == d;
        } else {
          assert DueBy(q, now) == d;
        }
        DueByIn(q[1..], now, id);
      }
    }
  }

  lemma DifferentCons(x: Queued, s: seq<Queued>)
    requires DifferentIds(s) && !Out(s, x.id)
    ensures DifferentIds([x] + s)
  {
    forall i, j | 0 <= i < j < |[x] + s| ensures ([x] + s)[i].id != ([x] + s)[j].id {
      if i == 0 { assert !OutAt(s, j - 1, x.id); }
    }
  }

  lemma {:induction false} DueByDifferent(q: Queue, now: int)
    requires Distinct(q) && Filed(q)
    ensures DifferentIds(DueBy(q, now))
  {
    if q != [] {
      DistinctTail(q);
      HeadKeyIsNew(q);
      FiledTail(q);
      DueByDifferent(q[1..], now);
      hide Distinct, Has, DifferentIds;
      var d := DueBy(q[1..], now);
      if Out(d, q[0].1.id) { DueByIn(q[1..], now, q[0].1.id); }
      DifferentCons(q[0].1, d);
    }
  }

  lemma {:induction false} InsertDifferent(x: Queued, s: seq<Queued>)
    requires DifferentIds(s) && !Out(s, x.id)
    ensures DifferentIds(Insert(Earlier, x, s))
    ensures forall id :: Out(Insert(Earlier, x, s), id) <==> x.id == id || Out(s, id)
  {
    if s == [] || Earlier(x, s[0]) {
      DifferentCons(x, s);
      forall id ensures Out([x] + s, id) <==> x.id == id || Out(s, id) {
        OutTail([x] + s, id);
        assert ([x] + s)[1..] == s;
      }
    } else {
      var rest := Insert(Earlier, x, s[1..]);
      OutTail(s, x.id);
      HeadDiffers(s);
      InsertDifferent(x, s[1..]);
      DifferentCons(s[0], rest);
      forall id ensures Out([s[0]] + rest, id) <==> x.id == id || Out(s, id) {
        OutTail([s[0]] + rest, id);
        assert ([s[0]] + rest)[1..] == rest;
        OutTail(s, id);
      }
    }
  }

  lemma HeadDiffers(s: seq<Queued>)
    requires DifferentIds(s) && s != []
    ensures DifferentIds(s[1..]) && !Out(s[1..], s[0].id)
  {
  }

  lemma {:induction false} SortDifferent(s: seq<Queued>)
    requires DifferentIds(s)
    ensures DifferentIds(Sort(Earlier, s))
    ensures forall id :: Out(Sort(Earlier, s), id) <==> Out(s, id)
  {
    if s != [] {
      HeadDiffers(s);
      SortDifferent(s[1..]);
      hide DifferentIds, Insert;
      InsertDifferent(s[0], Sort(Earlier, s[1..]));
      forall id ensures Out(Sort(Earlier, s), id) <==> Out(s, id) { OutTail(s, id); }
    }
  }

  lemma DueHasOut(q: Queue, now: int, id: JobId)
    requires Distinct(q) && Filed(q)
    ensures Out(DueBy(q, now), id) <==> Has(q, id) && Get(q, id).dueMs <= now
  {
    var due := DueBy(q, now);
    if Out(due, id) {
      var i :| OutAt(due, i, id);
      DueByHolds(q, now, due[i]);
      InQueue(q, due[i]);
      assert due[i] in due;
    }
    if Has(q, id) && Get(q, id).dueMs <= now {
      HasIndex(q, id);
      var i :| 0 <= i < |q| && q[i].0 == id;
      GetIndex(q, i);
      DueByHolds(q, now, q[i].1);
      assert q[i].1 in due;
      var k :| 0 <= k < |due| && due[k] == q[i].1;
      assert OutAt(due, k, id);
    }
  }

  lemma DequeuedSplits(q: Queue, now: int, id: JobId)
    requires Distinct(q) && Filed(q)
    ensures var (due, rest) := Dequeued(q, now);
      && Distinct(rest) && Filed(rest) && DifferentIds(due)
      && (Has(q, id) <==> Has(rest, id) || Out(due, id))
      && !(Has(rest, id) && Out(due, id))
  {
    NotDueByDistinct(q, now);
    NotDueByFiled(q, now);
    NotDueByHas(q, now, id);
    DueByDifferent(q, now);
    DueHasOut(q, now, id);
    SortDifferent(DueBy(q, now));
  }

  lemma DequeueKeeps(e: Exec, now: int, concurrency: int)
    requires Books(e, []) && e.concurrency <= concurrency
    ensures var (due, rest) := Dequeued(e.queue, now); Books(e.(queue := rest, concurrency := concurrency), due)
  {
    hide Filed, Distinct, Has, Dequeued;
    var (due, rest) := Dequeued(e.queue, now);
    var f := e.(queue := rest, concurrency := concurrency);
    forall id ensures Has(e.queue, id) <==> Has(rest, id) || Out(due, id) { DequeuedSplits(e.queue, now, id); }
    forall id ensures !(Has(rest, id) && Out(due, id)) { DequeuedSplits(e.queue, now, id); }
    DequeuedSplits(e.queue, now, 0);
    forall i | 0 <= i < |f.runs| ensures RunGood(f, f.runs[i]) { assert RunGood(e, e.runs[i]); }
    forall i | 0 <= i < |due| ensures OutGood(f, due, i) {
      var id := due[i].id;
      assert OutAt(due, i, id);
      assert KnownGood(e, [], id);
      forall k | 0 <= k < |e.runs| ensures e.runs[k].job.id != id { assert RunGood(e, e.runs[k]); }
    }
    forall id ensures KnownGood(f, due, id) { assert KnownGood(e, [], id); }
  }

  lemma PollKeeps(o: Options, e: Exec, free: nat, now: int, overloaded: bool)
    requires ExecInv(e) && e.handle.Some?
    ensures var (f, taken) := Poll(o, Fired(e), free, now, overloaded);
      ExecInv(f) && taken <= free && f.running == e.running + taken
  {
    var g := Fired(e);
    TimersLeaveBooks(e, g, []);
    if overloaded {
      TimersLeaveBooks(g, SetTimer(g, now + o.overloadBackoffMs), []);
    } else {
      var (due, rest) := Dequeued(g.queue, now);
      var ready := g.(concurrency := Max(g.concurrency, Ceiling(o, g.startedAt, now)), queue := rest);
      DequeueKeeps(g, now, ready.concurrency);
      hide Books, Dequeued, Ceiling;
      PollLoopKeeps(ready, free, due, now);
      var r := PollLoop(ready, free, due, now);
      ScheduleArms(r.e, now);
      SaturatedArms(o, r.e, now);
      TimersLeaveBooks(r.e, SchedulePoll(r.e, now), []);
      TimersLeaveBooks(r.e, ScheduleSaturatedPoll(o, r.e, now), []);
    }
  }

  // ----- One stretch of a run -----

  lemma AtRemoved(runs: seq<Run>, k: nat, id: JobId)
    requires k < |runs|
    ensures Running(runs[..k] + runs[k + 1..], id) ==> Running(runs, id)
    ensures Running(runs, id) && runs[k].job.id != id ==> Running(runs[..k] + runs[k + 1..], id)
  {
    var left := runs[..k] + runs[k + 1..];
    if Running(left, id) {
      var i :| RunAt(left, i, id);
      assert RunAt(runs, if i < k then i else i + 1, id);
    }
    if Running(runs, id) && runs[k].job.id != id {
      var i :| RunAt(runs, i, id);
      assert RunAt(left, if i < k then i else i - 1, id);
    }
  }

  lemma LeftDistinct(runs: seq<Run>, k: nat)
    requires RunsDistinct(runs) && k < |runs|
    ensures RunsDistinct(runs[..k] + runs[k + 1..]) && NoRun(runs[..k] + runs[k + 1..], runs[k].job.id)
  {
    var left := runs[..k] + runs[k + 1..];
    forall i, j | 0 <= i < j < |left| ensures RunsDiffer(left, i, j) {
      assert RunsDiffer(runs, if i < k then i else i + 1, if j < k then j else j + 1);
    }
    forall i | 0 <= i < |left| ensures left[i].job.id != runs[k].job.id {
      assert i < k ==> RunsDiffer(runs, i, k);
      assert i >= k ==> RunsDiffer(runs, k, i + 1);
    }
  }

  /** A run that no longer answers for its job leaves. */
  lemma LeaveKeeps(e: Exec, k: nat)
    requires Books(e, []) && k < |e.runs| && !Holds(e.runs[k])
    ensures Books(e.(runs := e.runs[..k] + e.runs[k + 1..], running := e.running - 1), [])
  {
    hide Filed, Distinct, Has;
    var f := e.(runs := e.runs[..k] + e.runs[k + 1..], running := e.running - 1);
    LeftDistinct(e.runs, k);
    forall i | 0 <= i < |f.runs| ensures RunGood(f, f.runs[i]) { assert RunGood(e, e.runs[if i < k then i else i + 1]); }
    forall id ensures KnownGood(f, [], id) {
      assert KnownGood(e, [], id);
      AtRemoved(e.runs, k, id);
      if Running(e.runs, id) && e.runs[k].job.id == id {
        OnlyRunHolds(e.runs, k, id);
      }
    }
  }

  lemma RunsAt(runs: seq<Run>, i: nat, k: nat)
    requires RunsDistinct(runs) && i < |runs| && k < |runs|
    ensures runs[i].job.id == runs[k].job.id <==> i == k
  {
    if i < k {
      assert RunsDiffer(runs, i, k);
    } else if k < i {
      assert RunsDiffer(runs, k, i);
    }
  }

  lemma OnlyRunHolds(runs: seq<Run>, k: nat, id: JobId)
    requires RunsDistinct(runs) && k < |runs| && runs[k].job.id == id
    ensures Running(runs, id) <==> Holds(runs[k])
  {
    if Running(runs, id) {
      var i :| RunAt(runs, i, id);
      RunsAt(runs, i, k);
    }
    if Holds(runs[k]) { assert RunAt(runs, k, id); }
  }

  /** A run that answers for its job puts it back in the queue and leaves. */
  lemma RequeueKeeps(e: Exec, k: nat, job: Queued)
    requires Books(e, []) && k < |e.runs| && Holds(e.runs[k]) && job.id == e.runs[k].job.id
    ensures Books(e.(queue := Added(e.queue, job), runs := e.runs[..k] + e.runs[k + 1..], running := e.running - 1), [])
  {
    hide Filed, Distinct, Has;
    assert RunGood(e, e.runs[k]);
    var f := e.(queue := Added(e.queue, job), runs := e.runs[..k] + e.runs[k + 1..], running := e.running - 1);
    QueuePut(e, job, e.liveIds);
    LeftDistinct(e.runs, k);
    forall i | 0 <= i < |f.runs| ensures RunGood(f, f.runs[i]) {
      assert RunGood(e, e.runs[if i < k then i else i + 1]);
      assert f.runs[i].job.id != job.id;
    }
    forall id ensures KnownGood(f, [], id) {
      assert KnownGood(e, [], id);
      AtRemoved(e.runs, k, id);
    }
  }

  lemma MovedRun(runs: seq<Run>, k: nat, run: Run, id: JobId)
    requires RunsDistinct(runs) && k < |runs| && run.job.id == runs[k].job.id
    ensures RunsDistinct(runs[k := run])
    ensures Running(runs[k := run], id) <==> if id == run.job.id then Holds(run) else Running(runs, id)
  {
    var moved := runs[k := run];
    forall i, j | 0 <= i < j < |moved| ensures RunsDiffer(moved, i, j) { assert RunsDiffer(runs, i, j); }
    if id == run.job.id {
      OnlyRunHolds(moved, k, id);
    } else {
      if Running(runs, id) { var i :| RunAt(runs, i, id); assert RunAt(moved, i, id); }
      if Running(moved, id) { var i :| RunAt(moved, i, id); assert RunAt(runs, i, id); }
    }
  }

  /** A run moves on; it forgets its job, if at all, for good. */
  lemma MoveKeeps(e: Exec, k: nat, run: Run)
    requires Books(e, []) && k < |e.runs|
    requires run.job == e.runs[k].job && run.cancelled == e.runs[k].cancelled && e.runs[k].phase != Removing
    ensures Books(e.(jobs := if run.phase == Removing then e.jobs - {run.job.id} else e.jobs, runs := e.runs[k := run]), [])
  {
    hide Filed, Distinct, Has;
    var f := e.(jobs := if run.phase == Removing then e.jobs - {run.job.id} else e.jobs, runs := e.runs[k := run]);
    assert RunGood(e, e.runs[k]);
    MovedRun(e.runs, k, run, run.job.id);
    forall i | 0 <= i < |f.runs| ensures RunGood(f, f.runs[i]) {
      assert RunGood(e, e.runs[i]);
      assert i < k ==> RunsDiffer(e.runs, i, k);
      assert k < i ==> RunsDiffer(e.runs, k, i);
    }
    forall id ensures KnownGood(f, [], id) {
      assert KnownGood(e, [], id);
      MovedRun(e.runs, k, run, id);
      OnlyRunHolds(e.runs, k, run.job.id);
    }
  }

  lemma RescheduleBooks(e: Exec, k: nat, job: Queued, delay: int, now: int)
    requires Books(e, []) && k < |e.runs| && job.id == e.runs[k].job.id && e.runs[k].phase == Invoking
    ensures Books(e.(queue := Retried(e.queue, e.liveIds, job, delay, now), runs := e.runs[..k] + e.runs[k + 1..], running := e.running - 1), [])
  {
    assert RunGood(e, e.runs[k]);
    hide Books;
    if Holds(e.runs[k]) {
      RequeueKeeps(e, k, job.(dueMs := now + delay));
    } else {
      LeaveKeeps(e, k);
    }
  }

  lemma FinishRescheduled(e: Exec, k: nat, job: Queued, delay: int, now: int)
    requires Books(e, []) && TimersGood(e) && k < |e.runs| && job.id == e.runs[k].job.id && e.runs[k].phase == Invoking
    ensures var f := Finish(Reschedule(e, job, delay, now), k, now); ExecInv(f) && f.running == e.running - 1
  {
    RescheduleBooks(e, k, job, delay, now);
    hide Books, Retried;
    var mid := e.(queue := Retried(e.queue, e.liveIds, job, delay, now));
    ScheduleArms(mid, now);
    var armed := Reschedule(e, job, delay, now);
    var left := armed.(runs := armed.runs[..k] + armed.runs[k + 1..], running := armed.running - 1);
    TimersLeaveBooks(mid.(runs := e.runs[..k] + e.runs[k + 1..], running := e.running - 1), left, []);
    ScheduleKeeps(left, now);
    ScheduleArms(left, now);
  }

  lemma RunOnKeeps(o: Options, e: Exec, k: nat, result: Result, now: int)
    requires ExecInv(e) && k < |e.runs|
    ensures var (f, released) := RunOn(o, e, k, result, now);
      ExecInv(f) && f.running == e.running - if released then 1 else 0
  {
    assert 0 < e.running == |e.runs|;
    var run := e.runs[k];
    hide Books;
    match run.phase
    case Starting => MoveKeeps(e, k, run.(phase := Invoking));
    case Invoking => {
      match result
      case Completed => MoveKeeps(e, k, run.(phase := Completing));
      case PollAfter(delay) => FinishRescheduled(e, k, run.job, delay, now);
      case Failed =>
        var attempt := run.job.dequeueCount + 1;
        match o.shouldRetry(attempt)
        case Some(backoff) => FinishRescheduled(e, k, run.job.(dequeueCount := attempt), backoff, now);
        case None => MoveKeeps(e, k, run.(phase := Removing));
    }
    case Completing => MoveKeeps(e, k, run.(phase := Removing));
    case Removing =>
      LeaveKeeps(e, k);
      ScheduleKeeps(e.(runs := e.runs[..k] + e.runs[k + 1..], running := e.running - 1), now);
      ScheduleArms(e.(runs := e.runs[..k] + e.runs[k + 1..], running := e.running - 1), now);
  }

  // ----- The silo -----

  function Total(execs: seq<Exec>): int {
    if execs == [] then 0 else execs[0].running + Total(execs[1..])
  }

  lemma {:induction false} TotalUpdate(execs: seq<Exec>, x: nat, e: Exec)
    requires x < |execs|
    ensures Total(execs[x := e]) == Total(execs) - execs[x].running + e.running
  {
    if x == 0 {
      assert execs[x := e][1..] == execs[1..];
    } else {
      assert execs[x := e][1..] == execs[1..][x - 1 := e];
      TotalUpdate(execs[1..], x - 1, e);
    }
  }

  lemma {:induction false} TotalSnoc(execs: seq<Exec>, e: Exec)
    ensures Total(execs + [e]) == Total(execs) + e.running
  {
    if execs == [] {
      assert [e][1..] == [];
    } else {
      assert (execs + [e])[1..] == execs[1..] + [e];
      TotalSnoc(execs[1..], e);
    }
  }

  lemma {:induction false} TotalCovers(execs: seq<Exec>, x: nat)
    requires x < |execs| && forall i | 0 <= i < |execs| :: execs[i].running >= 0
    ensures Total(execs) >= execs[x].running >= 0
  {
    if x > 0 {
      assert execs[1..][x - 1] == execs[x];
      TotalCovers(execs[1..], x - 1);
    } else if |execs| > 1 {
      TotalCovers(execs[1..], 0);
    }
  }

  ghost predicate SiloInv(s: SiloJobs) {
    && (forall x | 0 <= x < |s.execs| :: ExecInv(s.execs[x]))
    && s.inUse == Total(s.execs) <= s.max
  }

  lemma WithKeeps(s: SiloJobs, x: nat, e: Exec, inUse: nat)
    requires SiloInv(s) && x < |s.execs| && ExecInv(e)
    requires inUse == s.inUse - s.execs[x].running + e.running <= s.max
    ensures SiloInv(With(s, x, e).(inUse := inUse))
  {
    TotalUpdate(s.execs, x, e);
  }

  lemma RunningBounds(s: SiloJobs, x: nat)
    requires SiloInv(s) && x < |s.execs|
    ensures 0 <= s.execs[x].running <= s.inUse && s.execs[x].running == |s.execs[x].runs|
  {
    forall i | 0 <= i < |s.execs| ensures s.execs[i].running >= 0 { assert ExecInv(s.execs[i]); }
    TotalCovers(s.execs, x);
    assert ExecInv(s.execs[x]);
  }

  lemma EnqueueKeeps(e: Exec, job: Job, now: int)
    requires ExecInv(e) && IsNew(e, job.id)
    ensures ExecInv(Enqueue(e, job, now)) && Enqueue(e, job, now).running == e.running
  {
    TakeKeeps(e, Queued(job.id, job.dueMs, 0));
    ScheduleKeeps(Take(e, Queued(job.id, job.dueMs, 0)), now);
    ScheduleArms(Take(e, Queued(job.id, job.dueMs, 0)), now);
  }

  lemma NextKeepsInv(o: Options, s: SiloJobs, action: Action)
    requires SiloInv(s) && Legal(s, action)
    ensures SiloInv(Next(o, s, action)) && Next(o, s, action).max == s.max
  {
    hide ExecInv, Load, Enqueue, Cancel, Stop, Poll, RunOn;
    match action
    case Open(entries, now) =>
      OpenGood(o, entries, now);
      OpenIdle(o, entries, now);
      TotalSnoc(s.execs, Load(Fresh(o, now), entries, now));
    case Schedule(x, job, now) =>
      if x < |s.execs| {
        EnqueueKeeps(s.execs[x], job, now);
        WithKeeps(s, x, Enqueue(s.execs[x], job, now), s.inUse);
      }
    case CancelJob(x, id) =>
      if x < |s.execs| {
        CancelKeeps(s.execs[x], id);
        CancelIdle(s.execs[x], id);
        WithKeeps(s, x, Cancel(s.execs[x], id), s.inUse);
      }
    case StopExec(x) =>
      if x < |s.execs| {
        StopKeeps(s.execs[x]);
        StopIdle(s.execs[x]);
        WithKeeps(s, x, Stop(s.execs[x]), s.inUse);
      }
    case Timer(x, now, overloaded) =>
      if x < |s.execs| && s.execs[x].handle.Some? {
        var free := if s.inUse < s.max then s.max - s.inUse else 0;
        PollKeeps(o, s.execs[x], free, now, overloaded);
        var (e, taken) := Poll(o, Fired(s.execs[x]), free, now, overloaded);
        WithKeeps(s, x, e, s.inUse + taken);
      }
    case RunStep(x, k, result, now) =>
      if x < |s.execs| && k < |s.execs[x].runs| {
        RunningBounds(s, x);
        RunOnKeeps(o, s.execs[x], k, result, now);
        var (e, released) := RunOn(o, s.execs[x], k, result, now);
        WithKeeps(s, x, e, if released then s.inUse - 1 else s.inUse);
      }
  }

  lemma OpenIdle(o: Options, entries: seq<Entry>, now: int)
    requires UniqueIds(entries)
    ensures Load(Fresh(o, now), entries, now).running == 0
  {
    OpenGood(o, entries, now);
  }

  lemma CancelIdle(e: Exec, id: JobId)
    ensures Cancel(e, id).running == e.running
  {
  }

  lemma StopIdle(e: Exec)
    ensures Stop(e).running == e.running
  {
  }

  ghost predicate LegalAt(o: Options, s: SiloJobs, actions: seq<Action>, i: nat)
    requires i < |actions|
  {
    Legal(After(o, s, actions[..i]), actions[i])
  }

  ghost predicate AllLegal(o: Options, s: SiloJobs, actions: seq<Action>) {
    forall i | 0 <= i < |actions| :: LegalAt(o, s, actions, i)
  }

  lemma {:induction false} RunKeepsInv(o: Options, s: SiloJobs, actions: seq<Action>)
    requires SiloInv(s) && AllLegal(o, s, actions)
    ensures SiloInv(After(o, s, actions)) && After(o, s, actions).max == s.max
    decreases |actions|
  {
    if actions != [] {
      var init := actions[..|actions| - 1];
      forall i | 0 <= i < |init| ensures LegalAt(o, s, init, i) {
        assert LegalAt(o, s, actions, i) && init[..i] == actions[..i];
      }
      RunKeepsInv(o, s, init);
      assert LegalAt(o, s, actions, |actions| - 1);
      NextKeepsInv(o, After(o, s, init), actions[|actions| - 1]);
    }
  }

  /**
   * Conservation: after any run of loads, schedules, cancellations, polls, results and stops, the jobs
   * an executor knows are exactly the queued ones and the ones a run answers for, with no overlap; no
   * job is running twice; the limiter's slots in use are the runs of all executors together, within
   * its maximum; no executor exceeds its ceiling; and an unstopped executor with queued work has
   * exactly one timer armed.
   */
  lemma Conservation(o: Options, max: nat, actions: seq<Action>, x: nat, id: JobId)
    requires AllLegal(o, SiloJobs(max, 0, []), actions) && x < |After(o, SiloJobs(max, 0, []), actions).execs|
    ensures var s := After(o, SiloJobs(max, 0, []), actions); var e := s.execs[x];
      && (id in e.jobs <==> Has(e.queue, id) || Running(e.runs, id))
      && !(Has(e.queue, id) && Running(e.runs, id))
      && RunsDistinct(e.runs)
      && s.inUse == Total(s.execs) <= max
      && 0 <= e.running == |e.runs| <= e.concurrency
      && (!e.stopped && e.queue != [] ==> e.handle.Some? && e.timers.Keys == {e.handle.value})
      && (e.stopped ==> e.timers == map[])
  {
    RunKeepsInv(o, SiloJobs(max, 0, []), actions);
    var e := After(o, SiloJobs(max, 0, []), actions).execs[x];
    assert ExecInv(e);
    assert KnownGood(e, [], id);
    if Running(e.runs, id) {
      var i :| RunAt(e.runs, i, id);
      assert RunGood(e, e.runs[i]);
    }
  }
}
