/**
 * The executors of a silo: each polls its queue on one timer, runs due jobs under its slow-start
 * ceiling and the silo's shared limiter, and reschedules, retries or drops them by their results.
 */
module ShardExecutor {
  import opened Wrappers
  import opened OrderedMap
  import opened JobShardStore
  import opened JobQueue

  /** `shouldRetry` answers the backoff after so many attempts, or `None` to drop the job. */
  datatype Options = Options(
    maxConcurrentJobs: int, initialConcurrency: int, growthFactor: real, intervalMs: int,
    overloadBackoffMs: int, shouldRetry: nat -> Option<int>)

  /** The awaits of one run. */
  datatype Phase = Starting | Invoking | Completing | Removing

  datatype Run = Run(job: Queued, phase: Phase, cancelled: bool)

  /**
   * `jobs` are the ids whose payload is held; `timers` the armed timers, with their times, of which
   * `handle` is the one the executor remembers.
   */
  datatype Exec = Exec(
    jobs: set<JobId>, queue: Queue, liveIds: set<JobId>, runs: seq<Run>, running: int,
    concurrency: int, startedAt: int, timers: map<nat, int>, handle: Option<nat>, nextTimer: nat, stopped: bool)

  datatype Result = Completed | PollAfter(delay: int) | Failed

  function Max(a: int, b: int): int { if a < b then b else a }

  function Min(a: int, b: int): int { if a < b then a else b }

  // ----- The ceiling -----

  function Pow(x: real, n: nat): real {
    if n == 0 then 1.0 else x * Pow(x, n - 1)
  }

  function Ceil(x: real): int {
    -((-x).Floor)
  }

  function ElapsedIntervals(o: Options, startedAt: int, now: int): nat
    requires o.intervalMs > 0
  {
    Max(0, (now - startedAt) / o.intervalMs)
  }

  function Grown(o: Options, intervals: nat): real {
    o.initialConcurrency as real * Pow(o.growthFactor, intervals)
  }

  function Ceiling(o: Options, startedAt: int, now: int): int {
    if o.intervalMs <= 0 then o.maxConcurrentJobs
    else Min(o.maxConcurrentJobs, Max(1, Ceil(Grown(o, ElapsedIntervals(o, startedAt, now)))))
  }

  lemma {:induction false} PowGrows(x: real, n: nat, m: nat)
    requires x >= 1.0 && n <= m
    ensures 1.0 <= Pow(x, n) <= Pow(x, m)
    decreases m
  {
    if n < m {
      PowGrows(x, n, m - 1);
      assert Pow(x, m) - Pow(x, m - 1) == (x - 1.0) * Pow(x, m - 1);
    } else if n > 0 {
      PowGrows(x, n - 1, n - 1);
      assert Pow(x, n) - Pow(x, n - 1) == (x - 1.0) * Pow(x, n - 1);
    }
  }

  lemma ScaleGrows(a: real, x: real, y: real)
    requires 0.0 <= a && x <= y
    ensures a * x <= a * y
  {
  }

  lemma CeilGrows(x: real, y: real)
    requires x <= y
    ensures Ceil(x) <= Ceil(y)
  {
  }

  lemma MultipleGrows(a: int, b: int, f: int)
    requires 0 <= a <= b && 0 <= f
    ensures 0 <= a * f <= b * f
  {
  }

  lemma DivBounds(a: int, n: int)
    requires n > 0
    ensures n * (a / n) <= a < n * (a / n) + n
  {
    assert a == n * (a / n) + a % n;
  }

  lemma DivGrows(a: int, b: int, n: int)
    requires a <= b && n > 0
    ensures a / n <= b / n
  {
    DivBounds(a, n);
    DivBounds(b, n);
    if a / n > b / n {
      MultipleGrows(1, a / n - b / n, n);
    }
  }

  lemma IntervalsGrow(o: Options, startedAt: int, now: int, later: int)
    requires o.intervalMs > 0 && now <= later
    ensures ElapsedIntervals(o, startedAt, now) <= ElapsedIntervals(o, startedAt, later)
  {
    DivGrows(now - startedAt, later - startedAt, o.intervalMs);
  }

  lemma GrownGrows(o: Options, n: nat, m: nat)
    requires o.growthFactor >= 1.0 && o.initialConcurrency >= 0 && n <= m
    ensures Grown(o, n) <= Grown(o, m)
  {
    PowGrows(o.growthFactor, n, m);
    hide Pow;
    ScaleGrows(o.initialConcurrency as real, Pow(o.growthFactor, n), Pow(o.growthFactor, m));
  }

  /** A ceiling that stays at one job, or at a maximum below that. */
  lemma FlatCeiling(o: Options, startedAt: int, now: int)
    requires o.intervalMs > 0 && forall n :: Grown(o, n) <= 1.0
    ensures Ceiling(o, startedAt, now) == Min(o.maxConcurrentJobs, 1)
  {
    hide Grown, ElapsedIntervals;
    CeilGrows(Grown(o, ElapsedIntervals(o, startedAt, now)), 1.0);
  }

  lemma NonNegative(a: real, b: real)
    requires 0.0 <= a && 0.0 <= b
    ensures 0.0 <= a * b
  {
  }

  lemma AtMost(c: real, a: real)
    requires 0.0 <= c <= 1.0 && a <= 1.0
    ensures c * a <= 1.0
  {
    NonNegative(c, 1.0 - a);
    assert c * (1.0 - a) == c - c * a;
  }

  lemma Opposite(a: real, b: real)
    ensures (-a) * b == -(a * b) && a * (-b) == -(a * b)
  {
  }

  lemma ProductBound(a: real, b: real)
    requires -1.0 <= a <= 1.0 && -1.0 <= b <= 1.0
    ensures -1.0 <= a * b <= 1.0
  {
    Opposite(a, b);
    Opposite(-a, b);
    if a >= 0.0 {
      AtMost(a, b);
      AtMost(a, -b);
    } else {
      AtMost(-a, b);
      AtMost(-a, -b);
    }
  }

  lemma {:induction false} PowSmall(x: real, n: nat)
    requires -1.0 <= x <= 1.0
    ensures -1.0 <= Pow(x, n) <= 1.0 && (x >= 0.0 ==> Pow(x, n) >= 0.0)
  {
    if n > 0 {
      PowSmall(x, n - 1);
      ProductBound(x, Pow(x, n - 1));
      if x >= 0.0 { ScaleGrows(x, 0.0, Pow(x, n - 1)); }
    }
  }

  /** Exactly the options under which the ceiling never falls; a growth factor below one only suits a start at one job. */
  predicate Steady(o: Options) {
    || o.intervalMs <= 0
    || o.maxConcurrentJobs <= 1
    || o.growthFactor >= 1.0
    || (o.initialConcurrency <= 1 &&
        (o.growthFactor < 0.0 ==> o.initialConcurrency as real * o.growthFactor <= 1.0 && (o.initialConcurrency == 1 ==> o.growthFactor >= -1.0)))
  }

  lemma NegativeScale(a: real, x: real)
    requires a <= 0.0 && 0.0 <= x
    ensures a * x <= 0.0
  {
    ScaleGrows(x, a, 0.0);
  }

  lemma NegativeBase(i: int, g: real)
    requires i < 0 && g < 0.0 && i as real * g <= 1.0
    ensures -1.0 <= g && 0.0 <= i as real * g
  {
    ScaleGrows(-g, 1.0, (-i) as real);
  }

  /** Options that keep the ceiling at one. */
  lemma GrownStaysSmall(o: Options, n: nat)
    requires Steady(o) && o.intervalMs > 0 && o.maxConcurrentJobs > 1
    requires o.growthFactor < 1.0 || o.initialConcurrency < 0
    ensures Grown(o, n) <= 1.0
  {
    var i, g := o.initialConcurrency, o.growthFactor;
    if g >= 1.0 {
      PowGrows(g, n, n);
      NegativeScale(i as real, Pow(g, n));
    } else if i == 1 {
      PowSmall(g, n);
    } else if i < 0 && g >= 0.0 {
      PowSmall(g, n);
      NegativeScale(i as real, Pow(g, n));
    } else if i < 0 && n > 0 {
      NegativeBase(i, g);
      PowSmall(g, n - 1);
      StaysBelow(i as real, g, Pow(g, n - 1));
    }
  }

  lemma StaysBelow(a: real, g: real, p: real)
    requires 0.0 <= a * g <= 1.0 && p <= 1.0
    ensures a * (g * p) <= 1.0
  {
    AtMost(a * g, p);
    assert a * (g * p) == (a * g) * p;
  }

  lemma CeilingOnlyGrows(o: Options, startedAt: int, now: int, later: int)
    requires Steady(o) && now <= later
    ensures Ceiling(o, startedAt, now) <= Ceiling(o, startedAt, later)
  {
    if o.intervalMs > 0 && o.maxConcurrentJobs > 1 {
      if o.growthFactor < 1.0 || o.initialConcurrency < 0 {
        forall n: nat ensures Grown(o, n) <= 1.0 { GrownStaysSmall(o, n); }
        FlatCeiling(o, startedAt, now);
        FlatCeiling(o, startedAt, later);
      } else {
        var n, m := ElapsedIntervals(o, startedAt, now), ElapsedIntervals(o, startedAt, later);
        IntervalsGrow(o, startedAt, now, later);
        GrownGrows(o, n, m);
        CeilGrows(Grown(o, n), Grown(o, m));
      }
    }
  }

  // ----- Options under which it falls -----

  lemma AfterIntervals(o: Options, startedAt: int, n: nat)
    requires o.intervalMs > 0
    ensures ElapsedIntervals(o, startedAt, startedAt + n * o.intervalMs) == n
  {
    DivBounds(n * o.intervalMs, o.intervalMs);
    var q := n * o.intervalMs / o.intervalMs;
    if q < n {
      MultipleGrows(1, n - q, o.intervalMs);
    } else if q > n {
      MultipleGrows(1, q - n, o.intervalMs);
    }
  }

  ghost predicate FallsBetween(o: Options, startedAt: int, now: int, later: int) {
    now <= later && Ceiling(o, startedAt, now) > Ceiling(o, startedAt, later)
  }

  ghost predicate Falls(o: Options, startedAt: int) {
    exists now, later :: FallsBetween(o, startedAt, now, later)
  }

  lemma CeilAboveOne(x: real)
    ensures x > 1.0 ==> Ceil(x) >= 2
    ensures x <= 1.0 ==> Ceil(x) <= 1
  {
  }

  lemma FallsAt(o: Options, startedAt: int, n: nat, m: nat)
    requires o.intervalMs > 0 && o.maxConcurrentJobs > 1 && n < m
    requires Grown(o, n) > 1.0 && Grown(o, m) <= 1.0
    ensures Falls(o, startedAt)
  {
    hide Grown, Ceil, ElapsedIntervals;
    var now, later := startedAt + n * o.intervalMs, startedAt + m * o.intervalMs;
    AfterIntervals(o, startedAt, n);
    AfterIntervals(o, startedAt, m);
    CeilAboveOne(Grown(o, n));
    CeilAboveOne(Grown(o, m));
    MultipleGrows(n, m, o.intervalMs);
    assert FallsBetween(o, startedAt, now, later);
  }

  lemma BernoulliStep(g: real, d: real, p: real, k: real)
    requires 0.0 < g < 1.0 && g * (1.0 + d) == 1.0 && d > 0.0 && k >= 0.0 && p >= 0.0 && p * (1.0 + k * d) <= 1.0
    ensures g * p * (1.0 + (k + 1.0) * d) <= 1.0
  {
    var s := 1.0 + k * d;
    assert (1.0 + d) * s - (s + d) == d * (k * d);
    ScaleGrows(k, 0.0, d);
    ScaleGrows(d, 0.0, k * d);
    assert 1.0 + (k + 1.0) * d == s + d;
    ScaleGrows(g, 0.0, p);
    ScaleGrows(g * p, s + d, (1.0 + d) * s);
    assert g * p * ((1.0 + d) * s) == (g * (1.0 + d)) * (p * s);
  }

  /** Bernoulli's inequality for the inverse of a factor below one. */
  lemma {:induction false} Bernoulli(g: real, d: real, n: nat)
    requires 0.0 < g < 1.0 && g * (1.0 + d) == 1.0 && d > 0.0
    ensures Pow(g, n) * (1.0 + n as real * d) <= 1.0
  {
    if n > 0 {
      Bernoulli(g, d, n - 1);
      PowSmall(g, n - 1);
      BernoulliStep(g, d, Pow(g, n - 1), (n - 1) as real);
    }
  }

  /** Whatever it starts from, a ceiling whose growth factor is below one comes down to one. */
  lemma Decays(o: Options) returns (n: nat)
    requires 0.0 <= o.growthFactor < 1.0 && o.initialConcurrency > 1
    ensures n > 0 && Grown(o, n) <= 1.0
  {
    var g, i := o.growthFactor, o.initialConcurrency as real;
    if g == 0.0 {
      n := 1;
    } else {
      var d := 1.0 / g - 1.0;
      assert g * (1.0 + d) == 1.0;
      n := (i / d).Floor + 1;
      assert n as real * d >= i by { ScaleGrows(d, i / d, n as real); }
      Bernoulli(g, d, n);
      PowSmall(g, n);
      ScaleGrows(Pow(g, n), i, 1.0 + n as real * d);
    }
  }

  lemma FallsIfNotSteady(o: Options, startedAt: int)
    requires !Steady(o)
    ensures Falls(o, startedAt)
  {
    var i, g := o.initialConcurrency, o.growthFactor;
    if g >= 0.0 {
      var n := Decays(o);
      assert Grown(o, 0) == i as real;
      FallsAt(o, startedAt, 0, n);
    } else if i > 1 {
      assert Grown(o, 0) == i as real;
      NegativeScale(g, i as real);
      assert Grown(o, 1) == i as real * (g * Pow(g, 0));
      FallsAt(o, startedAt, 0, 1);
    } else if i == 1 {
      ScaleGrows(-g, 1.0, -g);
      assert Grown(o, 2) == Pow(g, 2) == g * (g * Pow(g, 0));
      assert Grown(o, 3) == Pow(g, 3) == g * Pow(g, 2);
      NegativeScale(g, Pow(g, 2));
      FallsAt(o, startedAt, 2, 3);
    } else {
      assert Grown(o, 1) == i as real * (g * Pow(g, 0)) == i as real * g;
      assert Grown(o, 2) == i as real * (g * Pow(g, 1)) == (i as real * g) * g;
      NegativeScale(g, i as real * g);
      FallsAt(o, startedAt, 1, 2);
    }
  }

  /**
   * The slow-start ceiling is at most the silo's maximum, and at least one job if that is. Exactly
   * under steady options it never falls as time passes.
   */
  lemma CeilingOnlyGrowsIff(o: Options, startedAt: int)
    ensures forall now :: Ceiling(o, startedAt, now) <= o.maxConcurrentJobs && (o.maxConcurrentJobs >= 1 ==> Ceiling(o, startedAt, now) >= 1)
    ensures (forall now, later | now <= later :: Ceiling(o, startedAt, now) <= Ceiling(o, startedAt, later)) <==> Steady(o)
  {
    if Steady(o) {
      forall now, later | now <= later ensures Ceiling(o, startedAt, now) <= Ceiling(o, startedAt, later) {
        CeilingOnlyGrows(o, startedAt, now, later);
      }
    } else {
      FallsIfNotSteady(o, startedAt);
      var now, later :| FallsBetween(o, startedAt, now, later);
    }
  }

  // ----- Timers -----

  function SetTimer(e: Exec, at: int): Exec {
    e.(timers := e.timers[e.nextTimer := at], handle := Some(e.nextTimer), nextTimer := e.nextTimer + 1)
  }

  function ClearPoll(e: Exec): Exec {
    if e.handle.Some? then e.(timers := e.timers - {e.handle.value}, handle := None) else e
  }

  /** Re-arms the timer for the next due job, or for now if one is due already. */
  function SchedulePoll(e: Exec, now: int): Exec {
    if e.stopped then e
    else
      match NextDue(e.queue)
      case None => ClearPoll(e)
      case Some(due) => SetTimer(ClearPoll(e), now + Max(0, due - now))
  }

  function ScheduleSaturatedPoll(o: Options, e: Exec, now: int): Exec {
    if e.stopped then e
    else if e.concurrency < o.maxConcurrentJobs && o.intervalMs > 0 then
      var boundary := e.startedAt + (ElapsedIntervals(o, e.startedAt, now) + 1) * o.intervalMs;
      SetTimer(ClearPoll(e), now + Max(1, boundary - now))
    else SetTimer(ClearPoll(e), now + Max(1, o.overloadBackoffMs))
  }

  // ----- Working set -----

  function Fresh(o: Options, now: int): Exec {
    Exec({}, [], {}, [], 0, Max(1, o.initialConcurrency), now, map[], None, 0, false)
  }

  function Take(e: Exec, job: Queued): Exec {
    e.(jobs := e.jobs + {job.id}, queue := Added(e.queue, job), liveIds := e.liveIds + {job.id})
  }

  /** Takes in the persisted jobs, except those whose completion was recorded. */
  function LoadAll(e: Exec, entries: seq<Entry>): Exec
    decreases entries
  {
    if entries == [] then e
    else
      var p := entries[0];
      LoadAll(if p.completed then e else Take(e, Queued(p.job.id, p.dueMs, p.dequeueCount)), entries[1..])
  }

  function Load(e: Exec, entries: seq<Entry>, now: int): Exec {
    SchedulePoll(LoadAll(e, entries), now)
  }

  function Enqueue(e: Exec, job: Job, now: int): Exec {
    SchedulePoll(Take(e, Queued(job.id, job.dueMs, 0)), now)
  }

  function MarkCancelled(runs: seq<Run>, id: JobId): (r: seq<Run>)
    ensures |r| == |runs|
  {
    seq(|runs|, i requires 0 <= i < |runs| => if runs[i].job.id == id then runs[i].(cancelled := true) else runs[i])
  }

  function Cancel(e: Exec, id: JobId): Exec {
    e.(jobs := e.jobs - {id}, queue := Delete(e.queue, id), liveIds := e.liveIds - {id}, runs := MarkCancelled(e.runs, id))
  }

  function Stop(e: Exec): Exec {
    ClearPoll(e.(stopped := true))
  }

  // ----- Polling -----

  /** `taken` limiter slots are held by the runs admitted in this cycle. */
  datatype Polled = Polled(e: Exec, taken: nat, admitted: nat, blocked: bool)

  /** The jobs of one cycle in order: each is run, or put back for now when there is no room. */
  function PollLoop(e: Exec, free: nat, due: seq<Queued>, now: int): Polled
    decreases due
  {
    if due == [] then Polled(e, 0, 0, false)
    else
      var job := due[0];
      if e.running >= e.concurrency || free == 0 then
        var back := job.(dueMs := now);
        PollLoop(e.(queue := Added(e.queue, back), liveIds := e.liveIds + {job.id}), free, due[1..], now).(blocked := true)
      else if job.id !in e.jobs then
        // The run finds its payload gone, and gives its slot back at once.
        var r := PollLoop(SchedulePoll(e, now), free, due[1..], now);
        r.(admitted := r.admitted + 1)
      else
        var r := PollLoop(e.(running := e.running + 1, runs := e.runs + [Run(job, Starting, false)]), free - 1, due[1..], now);
        r.(taken := r.taken + 1, admitted := r.admitted + 1)
  }

  /** The timer fires: it is gone, and the executor polls. */
  function Fired(e: Exec): Exec {
    ClearPoll(e)
  }

  function Poll(o: Options, e: Exec, free: nat, now: int, overloaded: bool): (Exec, nat) {
    if e.stopped then (e, 0)
    else if overloaded then (SetTimer(e, now + o.overloadBackoffMs), 0)
    else
      var (due, rest) := Dequeued(e.queue, now);
      var ready := e.(concurrency := Max(e.concurrency, Ceiling(o, e.startedAt, now)), queue := rest);
      var r := PollLoop(ready, free, due, now);
      (if r.admitted == 0 && r.blocked then ScheduleSaturatedPoll(o, r.e, now) else SchedulePoll(r.e, now), r.taken)
  }

  // ----- Runs -----

  function Reschedule(e: Exec, job: Queued, delay: int, now: int): Exec {
    SchedulePoll(e.(queue := Retried(e.queue, e.liveIds, job, delay, now)), now)
  }

  /** The run has settled: its slot is given back and the executor re-arms. */
  function Finish(e: Exec, k: nat, now: int): Exec
    requires k < |e.runs|
  {
    SchedulePoll(e.(runs := e.runs[..k] + e.runs[k + 1..], running := e.running - 1), now)
  }

  /** One stretch of run `k`; the second result says whether its limiter slot has been given back. */
  function RunOn(o: Options, e: Exec, k: nat, result: Result, now: int): (Exec, bool)
    requires k < |e.runs|
  {
    var run := e.runs[k];
    var id := run.job.id;
    match run.phase
    case Starting => (e.(runs := e.runs[k := run.(phase := Invoking)]), false)
    case Invoking => (
      match result
      case Completed => (e.(runs := e.runs[k := run.(phase := Completing)]), false)
      case PollAfter(delay) => (Finish(Reschedule(e, run.job, delay, now), k, now), true)
      case Failed =>
        var attempt := run.job.dequeueCount + 1;
        match o.shouldRetry(attempt)
        case Some(backoff) => (Finish(Reschedule(e, run.job.(dequeueCount := attempt), backoff, now), k, now), true)
        case None => (e.(jobs := e.jobs - {id}, runs := e.runs[k := run.(phase := Removing)]), false)
    )
    case Completing => (e.(jobs := e.jobs - {id}, runs := e.runs[k := run.(phase := Removing)]), false)
    case Removing => (Finish(e, k, now), true)
  }

  // ----- A silo -----

  /** The executors of a silo, stopped ones included, and the limiter they share. */
  datatype SiloJobs = SiloJobs(max: nat, inUse: nat, execs: seq<Exec>)

  datatype Action =
    | Open(entries: seq<Entry>, now: int)
    | Schedule(x: nat, job: Job, now: int)
    | CancelJob(x: nat, id: JobId)
    | StopExec(x: nat)
    | Timer(x: nat, now: int, overloaded: bool)
    | RunStep(x: nat, k: nat, result: Result, now: int)

  function With(s: SiloJobs, x: nat, e: Exec): SiloJobs
    requires x < |s.execs|
  {
    s.(execs := s.execs[x := e])
  }

  function Next(o: Options, s: SiloJobs, action: Action): SiloJobs {
    match action
    case Open(entries, now) => s.(execs := s.execs + [Load(Fresh(o, now), entries, now)])
    case Schedule(x, job, now) => if x < |s.execs| then With(s, x, Enqueue(s.execs[x], job, now)) else s
    case CancelJob(x, id) => if x < |s.execs| then With(s, x, Cancel(s.execs[x], id)) else s
    case StopExec(x) => if x < |s.execs| then With(s, x, Stop(s.execs[x])) else s
    case Timer(x, now, overloaded) =>
      if x < |s.execs| && s.execs[x].handle.Some? then
        var (e, taken) := Poll(o, Fired(s.execs[x]), if s.inUse < s.max then s.max - s.inUse else 0, now, overloaded);
        With(s, x, e).(inUse := s.inUse + taken)
      else s
    case RunStep(x, k, result, now) =>
      if x < |s.execs| && k < |s.execs[x].runs| then
        var (e, released) := RunOn(o, s.execs[x], k, result, now);
        With(s, x, e).(inUse := if released && s.inUse > 0 then s.inUse - 1 else s.inUse)
      else s
  }

  /** No executor still knows the id, and no run of it is under way there. */
  ghost predicate IsNew(e: Exec, id: JobId) {
    id !in e.jobs && forall i | 0 <= i < |e.runs| :: e.runs[i].job.id != id
  }

  ghost predicate UniqueIds(entries: seq<Entry>) {
    forall i, j | 0 <= i < j < |entries| :: entries[i].job.id != entries[j].job.id
  }

  /** Ids are new when they are scheduled, and the store lists each job once. */
  ghost predicate Legal(s: SiloJobs, action: Action) {
    match action
    case Open(entries, _) => UniqueIds(entries)
    case Schedule(x, job, _) => x < |s.execs| ==> IsNew(s.execs[x], job.id)
    case _ => true
  }

  function After(o: Options, s: SiloJobs, actions: seq<Action>): SiloJobs {
    if actions == [] then s else Next(o, After(o, s, actions[..|actions| - 1]), actions[|actions| - 1])
  }
}
