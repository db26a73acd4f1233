/** The limiter and the executor as the objects that carry out the polls and the runs. */
module ShardExecutorLoop {
  import opened Wrappers
  import opened OrderedMap
  import opened JobShardStore
  import opened JobQueue
  import SE = ShardExecutor

  class ConcurrencyLimiter {
    const max: nat
    var inUse: nat

    ghost predicate Valid()
      reads this
    {
      inUse <= max
    }

    constructor (max: nat)
      ensures Valid() && this.max == max && inUse == 0
    {
      this.max, inUse := max, 0;
    }

    method TryAcquire() returns (acquired: bool)
      requires Valid()
      modifies this
      ensures Valid()
      ensures acquired <==> old(inUse) < max
      ensures inUse == old(inUse) + if acquired then 1 else 0
    {
      if inUse >= max {
        return false;
      }
      inUse := inUse + 1;
      return true;
    }

    method Release()
      requires Valid()
      modifies this
      ensures Valid()
      ensures inUse == if old(inUse) > 0 then old(inUse) - 1 else 0
    {
      if inUse > 0 {
        inUse := inUse - 1;
      }
    }
  }

  class ShardExecutor {
    const options: SE.Options
    const limiter: ConcurrencyLimiter
    const queue: InMemoryJobQueue
    var jobs: set<JobId>
    var runs: seq<SE.Run>
    var running: int
    var concurrency: int
    var startedAt: int
    var timers: map<nat, int>
    var handle: Option<nat>
    var nextTimer: nat
    var stopped: bool

    ghost predicate Valid()
      reads this, queue, limiter
    {
      queue.Valid() && limiter.Valid()
    }

    function State(): SE.Exec
      reads this, queue
    {
      SE.Exec(jobs, queue.jobs, queue.liveIds, runs, running, concurrency, startedAt, timers, handle, nextTimer, stopped)
    }

    constructor (options: SE.Options, limiter: ConcurrencyLimiter, now: int)
      requires limiter.Valid()
      ensures Valid() && fresh(queue) && this.options == options && this.limiter == limiter
      ensures State() == SE.Fresh(options, now)
    {
      this.options, this.limiter := options, limiter;
      queue := new InMemoryJobQueue();
      jobs, runs, running := {}, [], 0;
      concurrency, startedAt := SE.Max(1, options.initialConcurrency), now;
      timers, handle, nextTimer, stopped := map[], None, 0, false;
    }

    method SetTimer(at: int)
      modifies this`timers, this`handle, this`nextTimer
      ensures State() == SE.SetTimer(old(State()), at)
    {
      timers := timers[nextTimer := at];
      handle := Some(nextTimer);
      nextTimer := nextTimer + 1;
    }

    method ClearPoll()
      modifies this`timers, this`handle
      ensures State() == SE.ClearPoll(old(State()))
    {
      if handle.Some? {
        timers := timers - {handle.value};
        handle := None;
      }
    }

    /** Re-arms the one timer for the next due job. */
    method SchedulePoll(now: int)
      requires Valid()
      modifies this`timers, this`handle, this`nextTimer
      ensures Valid() && State() == SE.SchedulePoll(old(State()), now)
    {
      if stopped {
        return;
      }
      ClearPoll();
      var next := queue.NextDueMs();
      if next.None? {
        return;
      }
      SetTimer(now + SE.Max(0, next.value - now));
    }

    /** Re-arms for the next time the ceiling can grow, or after a bounded wait. */
    method ScheduleSaturatedPoll(now: int)
      requires Valid()
      modifies this`timers, this`handle, this`nextTimer
      ensures Valid() && State() == SE.ScheduleSaturatedPoll(options, old(State()), now)
    {
      if stopped {
        return;
      }
      ClearPoll();
      var delay;
      if concurrency < options.maxConcurrentJobs && options.intervalMs > 0 {
        var boundary := startedAt + (SE.ElapsedIntervals(options, startedAt, now) + 1) * options.intervalMs;
        delay := SE.Max(1, boundary - now);
      } else {
        delay := SE.Max(1, options.overloadBackoffMs);
      }
      SetTimer(now + delay);
    }

    method Take(job: Queued)
      requires Valid()
      modifies this`jobs, queue
      ensures Valid() && State() == SE.Take(old(State()), job)
    {
      jobs := jobs + {job.id};
      queue.Add(job);
    }

    /** Takes in the shard's persisted jobs, skipping those already marked completed. */
    method Load(entries: seq<Entry>, now: int)
      requires Valid()
      modifies this, queue
      ensures Valid() && State() == SE.Load(old(State()), entries, now)
    {
      for i := 0 to |entries|
        invariant Valid()
        invariant SE.LoadAll(State(), entries[i..]) == SE.LoadAll(old(State()), entries)
      {
        assert entries[i..][1..] == entries[i + 1..];
        var p := entries[i];
        if p.completed {
          continue;
        }
        Take(Queued(p.job.id, p.dueMs, p.dequeueCount));
      }
      SchedulePoll(now);
    }

    method Enqueue(job: Job, now: int)
      requires Valid()
      modifies this, queue
      ensures Valid() && State() == SE.Enqueue(old(State()), job, now)
    {
      Take(Queued(job.id, job.dueMs, 0));
      SchedulePoll(now);
    }

    method Cancel(id: JobId) returns (removed: bool)
      requires Valid()
      modifies this, queue
      ensures Valid() && State() == SE.Cancel(old(State()), id)
      ensures removed == Has(old(queue.jobs), id)
    {
      removed := queue.Cancel(id);
      jobs := jobs - {id};
      runs := SE.MarkCancelled(runs, id);
    }

    method Stop()
      modifies this
      ensures State() == SE.Stop(old(State()))
    {
      stopped := true;
      ClearPoll();
    }

    /** Runs one due job, or puts it back for now when there is no room for it. */
    method AdmitOne(job: Queued, now: int) returns (ran: bool)
      requires Valid()
      modifies this, queue, limiter
      ensures Valid()
      ensures ran <==> old(running) < old(concurrency) && old(limiter.inUse) < limiter.max
      ensures !ran ==> limiter.inUse == old(limiter.inUse) && State() == old(State()).(
          queue := Added(old(queue.jobs), job.(dueMs := now)), liveIds := old(queue.liveIds) + {job.id})
      ensures ran && job.id in old(jobs) ==> limiter.inUse == old(limiter.inUse) + 1 && State() == old(State()).(
          running := old(running) + 1, runs := old(runs) + [SE.Run(job, SE.Starting, false)])
      ensures ran && job.id !in old(jobs) ==> limiter.inUse == old(limiter.inUse) && State() == SE.SchedulePoll(old(State()), now)
    {
      ran := false;
      if running < concurrency {
        ran := limiter.TryAcquire();
      }
      if !ran {
        queue.Add(job.(dueMs := now));
      } else if job.id in jobs {
        running := running + 1;
        runs := runs + [SE.Run(job, SE.Starting, false)];
      } else {
        limiter.Release();
        SchedulePoll(now);
      }
    }

    /** Runs the due jobs in order as far as ceiling and limiter allow, and puts the others back. */
    method Admit(due: seq<Queued>, now: int) returns (admitted: nat, blocked: bool)
      requires Valid()
      modifies this, queue, limiter
      ensures Valid()
      ensures var r := SE.PollLoop(old(State()), limiter.max - old(limiter.inUse), due, now);
        State() == r.e && limiter.inUse == old(limiter.inUse) + r.taken && admitted == r.admitted && blocked == r.blocked
    {
      hide SE.SchedulePoll, Added;
      admitted, blocked := 0, false;
      ghost var whole := SE.PollLoop(State(), limiter.max - limiter.inUse, due, now);
      for i := 0 to |due|
        invariant Valid() && limiter.inUse >= old(limiter.inUse)
        invariant var r := SE.PollLoop(State(), limiter.max - limiter.inUse, due[i..], now);
          && r.e == whole.e
          && whole.taken == (limiter.inUse - old(limiter.inUse)) + r.taken
          && whole.admitted == admitted + r.admitted
          && whole.blocked == (blocked || r.blocked)
      {
        assert due[i..][1..] == due[i + 1..] && due[i..][0] == due[i];
        var ran := AdmitOne(due[i], now);
        if ran {
          admitted := admitted + 1;
        } else {
          blocked := true;
        }
      }
    }

    /** One poll cycle, once the timer has fired. */
    method Poll(now: int, overloaded: bool)
      requires Valid()
      modifies this, queue, limiter
      ensures Valid()
      ensures var (e, taken) := SE.Poll(options, old(State()), limiter.max - old(limiter.inUse), now, overloaded);
        State() == e && limiter.inUse == old(limiter.inUse) + taken
    {
      hide SE.PollLoop, Dequeued;
      if stopped {
        return;
      }
      if overloaded {
        SetTimer(now + options.overloadBackoffMs);
        return;
      }
      concurrency := SE.Max(concurrency, SE.Ceiling(options, startedAt, now));
      var due := queue.DequeueDue(now);
      var admitted, blocked := Admit(due, now);
      if admitted == 0 && blocked {
        ScheduleSaturatedPoll(now);
      } else {
        SchedulePoll(now);
      }
    }

    method Reschedule(job: Queued, delay: int, now: int)
      requires Valid()
      modifies this`timers, this`handle, this`nextTimer, queue
      ensures Valid() && State() == SE.Reschedule(old(State()), job, delay, now)
    {
      queue.RetryLater(job, delay, now);
      SchedulePoll(now);
    }

    method Finish(k: nat, now: int)
      requires Valid() && k < |runs|
      modifies this, limiter
      ensures Valid() && State() == SE.Finish(old(State()), k, now)
      ensures limiter.inUse == if old(limiter.inUse) > 0 then old(limiter.inUse) - 1 else 0
    {
      runs := runs[..k] + runs[k + 1..];
      running := running - 1;
      limiter.Release();
      SchedulePoll(now);
    }

    method MoveOn(k: nat, phase: SE.Phase)
      requires k < |runs|
      modifies this`runs
      ensures runs == old(runs)[k := old(runs)[k].(phase := phase)]
    {
      runs := runs[k := runs[k].(phase := phase)];
    }

    /** Resumes run `k` with what it was waiting for. */
    method RunOn(k: nat, result: SE.Result, now: int)
      requires Valid() && k < |runs|
      modifies this, queue, limiter
      ensures Valid()
      ensures var (e, released) := SE.RunOn(options, old(State()), k, result, now);
        State() == e && limiter.inUse == if released && old(limiter.inUse) > 0 then old(limiter.inUse) - 1 else old(limiter.inUse)
    {
      hide SE.Reschedule, SE.Finish;
      var run := runs[k];
      match run.phase {
        case Starting => MoveOn(k, SE.Invoking);
        case Invoking => {
          match result {
            case Completed => MoveOn(k, SE.Completing);
            case PollAfter(delay) =>
              RescheduleKeepsRuns(State(), run.job, delay, now);
              Reschedule(run.job, delay, now);
              Finish(k, now);
            case Failed =>
              var attempt := run.job.dequeueCount + 1;
              var backoff := options.shouldRetry(attempt);
              if backoff.None? {
                jobs := jobs - {run.job.id};
                MoveOn(k, SE.Removing);
              } else {
                var again := run.job.(dequeueCount := attempt);
                RescheduleKeepsRuns(State(), again, backoff.value, now);
                Reschedule(again, backoff.value, now);
                Finish(k, now);
              }
          }
        }
        case Completing =>
          jobs := jobs - {run.job.id};
          MoveOn(k, SE.Removing);
        case Removing => Finish(k, now);
      }
    }
  }

  lemma RescheduleKeepsRuns(e: SE.Exec, job: Queued, delay: int, now: int)
    ensures SE.Reschedule(e, job, delay, now).runs == e.runs
  {
  }
}
