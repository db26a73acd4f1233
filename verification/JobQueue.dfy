/** The working set of a shard: jobs by due time, and the ids that may still come back from a run. */
module JobQueue {
  import opened Wrappers
  import opened OrderedMap
  import opened Sorting
  import opened JobShardStore

  /** `dequeueCount` is the number of attempts already made. */
  datatype Queued = Queued(id: JobId, dueMs: int, dequeueCount: nat)

  type Queue = Entries<JobId, Queued>

  /** Entries are filed under their own id. */
  ghost predicate Filed(q: Queue) {
    forall i | 0 <= i < |q| :: q[i].1.id == q[i].0
  }

  function Added(q: Queue, job: Queued): Queue {
    Put(q, job.id, job)
  }

  function NextDue(q: Queue): Option<int> {
    if q == [] then None
    else
      var rest := NextDue(q[1..]);
      if rest.Some? && rest.value < q[0].1.dueMs then rest else Some(q[0].1.dueMs)
  }

  predicate Earlier(a: Queued, b: Queued) {
    a.dueMs <= b.dueMs
  }

  function DueBy(q: Queue, now: int): seq<Queued> {
    if q == [] then [] else (if q[0].1.dueMs <= now then [q[0].1] else []) + DueBy(q[1..], now)
  }

  function NotDueBy(q: Queue, now: int): Queue {
    if q == [] then [] else (if q[0].1.dueMs <= now then [] else [q[0]]) + NotDueBy(q[1..], now)
  }

  /** Every job due by now, earliest first and in queue order among equals; the rest stay. */
  function Dequeued(q: Queue, now: int): (seq<Queued>, Queue) {
    (Sort(Earlier, DueBy(q, now)), NotDueBy(q, now))
  }

  function Retried(q: Queue, live: set<JobId>, job: Queued, delay: int, now: int): Queue {
    if job.id in live then Put(q, job.id, job.(dueMs := now + delay)) else q
  }

  // ----- Properties -----

  lemma {:induction false} NextDueIsEarliest(q: Queue)
    ensures NextDue(q).None? <==> q == []
    ensures NextDue(q).Some? ==>
      && (exists i :: 0 <= i < |q| && q[i].1.dueMs == NextDue(q).value)
      && (forall i | 0 <= i < |q| :: NextDue(q).value <= q[i].1.dueMs)
  {
    if q != [] {
      NextDueIsEarliest(q[1..]);
      assert q == [q[0]] + q[1..];
      if NextDue(q) == Some(q[0].1.dueMs) {
        assert q[0].1.dueMs == NextDue(q).value;
      } else {
        var i :| 0 <= i < |q[1..]| && q[1..][i].1.dueMs == NextDue(q[1..]).value;
        assert q[i + 1].1.dueMs == NextDue(q).value;
      }
      forall i | 0 <= i < |q| ensures NextDue(q).value <= q[i].1.dueMs {
        if i > 0 {
          assert q[i] == q[1..][i - 1];
        }
      }
    }
  }

  lemma {:induction false} DueByHolds(q: Queue, now: int, job: Queued)
    ensures job in DueBy(q, now) <==> job.dueMs <= now && exists i :: 0 <= i < |q| && q[i].1 == job
    ensures |DueBy(q, now)| + |NotDueBy(q, now)| == |q|
  {
    if q != [] {
      DueByHolds(q[1..], now, job);
      if i :| 0 <= i < |q| && q[i].1 == job {
        if i > 0 {
          assert q[1..][i - 1].1 == job;
        }
      }
      if i :| 0 <= i < |q[1..]| && q[1..][i].1 == job {
        assert q[i + 1].1 == job;
      }
    }
  }

  lemma NotDueByStep(q: Queue, now: int, id: JobId)
    requires q != []
    ensures var rest := NotDueBy(q[1..], now);
      && NotDueBy(q, now) == (if q[0].1.dueMs > now then [q[0]] + rest else rest)
      && Has(q, id) == (q[0].0 == id || Has(q[1..], id))
      && (Has(q, id) ==> Get(q, id) == if q[0].0 == id then q[0].1 else Get(q[1..], id))
      && Has([q[0]] + rest, id) == (q[0].0 == id || Has(rest, id))
      && (Has([q[0]] + rest, id) ==> Get([q[0]] + rest, id) == if q[0].0 == id then q[0].1 else Get(rest, id))
  {
    var rest := NotDueBy(q[1..], now);
    assert ([q[0]] + rest)[1..] == rest;
  }

  lemma {:induction false} NotDueByHas(q: Queue, now: int, id: JobId)
    requires Distinct(q)
    ensures Has(NotDueBy(q, now), id) <==> Has(q, id) && Get(q, id).dueMs > now
    ensures Has(NotDueBy(q, now), id) ==> Get(NotDueBy(q, now), id) == Get(q, id)
  {
    if q != [] {
      HeadKeyIsNew(q);
      DistinctTail(q);
      NotDueByStep(q, now, id);
      NotDueByHas(q[1..], now, id);
      hide Distinct, Has, Get, NotDueBy;
    }
  }

  lemma NothingDistinct(q: Queue)
    requires q == []
    ensures Distinct(q)
  {
  }

  lemma {:induction false} NotDueByDistinct(q: Queue, now: int)
    requires Distinct(q)
    ensures Distinct(NotDueBy(q, now))
  {
    hide Distinct, Has;
    if q == [] {
      NothingDistinct(NotDueBy(q, now));
    } else {
      DistinctTail(q);
      HeadKeyIsNew(q);
      NotDueByDistinct(q[1..], now);
      NotDueByHas(q[1..], now, q[0].0);
      DistinctCons(q[0].0, q[0].1, NotDueBy(q[1..], now));
      assert (q[0].0, q[0].1) == q[0];
      NotDueByStep(q, now, q[0].0);
    }
  }

  lemma {:induction false} NotDueByFiled(q: Queue, now: int)
    requires Filed(q)
    ensures Filed(NotDueBy(q, now))
  {
    if q != [] {
      FiledTail(q);
      NotDueByFiled(q[1..], now);
      FiledCons(q[0], NotDueBy(q[1..], now));
    }
  }

  lemma FiledTail(q: Queue)
    requires Filed(q) && q != []
    ensures Filed(q[1..])
  {
  }

  lemma FiledCons(e: (JobId, Queued), q: Queue)
    requires Filed(q) && e.1.id == e.0
    ensures Filed([e] + q)
  {
  }

  lemma {:induction false} PutFiled(q: Queue, job: Queued)
    requires Filed(q)
    ensures Filed(Put(q, job.id, job))
  {
    if q != [] && q[0].0 != job.id {
      FiledTail(q);
      PutFiled(q[1..], job);
      FiledCons(q[0], Put(q[1..], job.id, job));
    } else if q != [] {
      FiledTail(q);
      FiledCons((job.id, job), q[1..]);
    }
  }

  lemma {:induction false} DeleteFiled(q: Queue, id: JobId)
    requires Filed(q)
    ensures Filed(Delete(q, id))
  {
    if q != [] {
      FiledTail(q);
      if q[0].0 != id {
        DeleteFiled(q[1..], id);
        FiledCons(q[0], Delete(q[1..], id));
      }
    }
  }

  lemma EarlierIsPreorder()
    ensures TotalPreorder(Earlier)
  {
  }

  /**
   * `dequeueDue` takes out exactly the jobs due by now, sorted by due time, ties in the order they
   * were queued; everything else stays, in place.
   */
  lemma DequeueDueTakesTheDue(q: Queue, now: int, job: Queued, id: JobId)
    requires Distinct(q) && Filed(q)
    ensures var (due, rest) := Dequeued(q, now);
      && Sorted(Earlier, due)
      && Peers(Earlier, job, due) == Peers(Earlier, job, DueBy(q, now))
      && (job in due <==> job.dueMs <= now && Has(q, job.id) && Get(q, job.id) == job)
      && (Has(rest, id) <==> Has(q, id) && Get(q, id).dueMs > now)
      && |due| + |rest| == |q|
  {
    EarlierIsPreorder();
    SortSorts(Earlier, DueBy(q, now));
    SortPermutes(Earlier, DueBy(q, now));
    SortIsStable(Earlier, job, DueBy(q, now));
    SameElements(Sort(Earlier, DueBy(q, now)), DueBy(q, now), job);
    DueByHolds(q, now, job);
    NotDueByHas(q, now, id);
    InQueue(q, job);
  }

  lemma SameElements(a: seq<Queued>, b: seq<Queued>, job: Queued)
    requires multiset(a) == multiset(b)
    ensures job in a <==> job in b
    ensures |a| == |b|
  {
    assert job in a <==> job in multiset(a);
    assert |multiset(a)| == |multiset(b)|;
  }

  lemma InQueue(q: Queue, job: Queued)
    requires Distinct(q) && Filed(q)
    ensures (exists i :: 0 <= i < |q| && q[i].1 == job) <==> Has(q, job.id) && Get(q, job.id) == job
  {
    if i :| 0 <= i < |q| && q[i].1 == job {
      GetIndex(q, i);
    }
    if Has(q, job.id) && Get(q, job.id) == job {
      HasIndex(q, job.id);
      var i :| 0 <= i < |q| && q[i].0 == job.id;
      GetIndex(q, i);
      assert q[i].1 == job;
    }
  }

  /** The ids of the due jobs are pairwise different. */
  ghost predicate DifferentIds(jobs: seq<Queued>) {
    forall i, j | 0 <= i < j < |jobs| :: jobs[i].id != jobs[j].id
  }

  /** The queue as the object the executor holds. */
  class InMemoryJobQueue {
    var jobs: Queue
    var liveIds: set<JobId>

    ghost predicate Valid()
      reads this
    {
      Distinct(jobs) && Filed(jobs)
    }

    constructor ()
      ensures Valid() && jobs == [] && liveIds == {}
    {
      jobs, liveIds := [], {};
    }

    method Add(job: Queued)
      requires Valid()
      modifies this
      ensures Valid() && jobs == Added(old(jobs), job) && liveIds == old(liveIds) + {job.id}
    {
      PutDistinct(jobs, job.id, job);
      PutFiled(jobs, job);
      jobs := Put(jobs, job.id, job);
      liveIds := liveIds + {job.id};
    }

    method Cancel(id: JobId) returns (present: bool)
      requires Valid()
      modifies this
      ensures Valid() && jobs == Delete(old(jobs), id) && liveIds == old(liveIds) - {id}
      ensures present == Has(old(jobs), id)
    {
      DeleteDistinct(jobs, id);
      DeleteFiled(jobs, id);
      present := Has(jobs, id);
      liveIds := liveIds - {id};
      jobs := Delete(jobs, id);
    }

    method NextDueMs() returns (earliest: Option<int>)
      requires Valid()
      ensures earliest == NextDue(jobs)
    {
      earliest := None;
      NextDueIsEarliest(jobs);
      for i := 0 to |jobs|
        invariant earliest.None? <==> i == 0
        invariant earliest.Some? ==> (exists k :: 0 <= k < i && jobs[k].1.dueMs == earliest.value)
        invariant earliest.Some? ==> forall k | 0 <= k < i :: earliest.value <= jobs[k].1.dueMs
      {
        if earliest.None? || jobs[i].1.dueMs < earliest.value {
          earliest := Some(jobs[i].1.dueMs);
          assert jobs[i].1.dueMs == earliest.value;
        }
      }
    }

    method DequeueDue(now: int) returns (due: seq<Queued>)
      requires Valid()
      modifies this`jobs
      ensures Valid() && (due, jobs) == Dequeued(old(jobs), now)
    {
      hide Distinct, Filed, Sort;
      var all: seq<Queued> := [];
      for i := 0 to |jobs|
        invariant all + DueBy(jobs[i..], now) == DueBy(jobs, now)
      {
        assert jobs[i..][1..] == jobs[i + 1..];
        if jobs[i].1.dueMs <= now {
          all := all + [jobs[i].1];
        }
      }
      assert jobs[|jobs|..] == [] && all + [] == all;
      due := Sort(Earlier, all);
      var left: Queue := [];
      for i := 0 to |jobs|
        invariant left + NotDueBy(jobs[i..], now) == NotDueBy(jobs, now)
      {
        assert jobs[i..][1..] == jobs[i + 1..];
        if jobs[i].1.dueMs > now {
          left := left + [jobs[i]];
        }
      }
      assert left + [] == left;
      NotDueByDistinct(jobs, now);
      NotDueByFiled(jobs, now);
      jobs := left;
    }

    method RetryLater(job: Queued, delay: int, now: int)
      requires Valid()
      modifies this`jobs
      ensures Valid() && jobs == Retried(old(jobs), liveIds, job, delay, now)
    {
      if job.id !in liveIds {
        return;
      }
      PutDistinct(jobs, job.id, job.(dueMs := now + delay));
      PutFiled(jobs, job.(dueMs := now + delay));
      jobs := Put(jobs, job.id, job.(dueMs := now + delay));
    }
  }
}
