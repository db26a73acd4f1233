/** The store of durable jobs: per shard, who owns it and the jobs persisted under it. */
module JobShardStore {
  import opened Wrappers
  import opened OrderedMap

  type Silo = nat
  type ShardKey = int
  type JobId = nat
  type RunId = nat

  datatype Job = Job(id: JobId, shard: ShardKey, dueMs: int)

  /** A persisted job: its current due time, the attempts made, and the last run recorded for it. */
  datatype Entry = Entry(job: Job, dequeueCount: nat, dueMs: int, runId: Option<RunId>, completed: bool)

  datatype Record = Record(owner: Option<Silo>, adoptedCount: nat, poisoned: bool)

  datatype ShardState = ShardState(record: Record, jobs: Entries<JobId, Entry>)

  const BLANK := ShardState(Record(None, 0, false), [])

  // ----- Jobs -----

  function AddJob(jobs: Entries<JobId, Entry>, job: Job): Entries<JobId, Entry> {
    Put(jobs, job.id, Entry(job, 0, job.dueMs, None, false))
  }

  function RetryJob(jobs: Entries<JobId, Entry>, id: JobId, dueMs: int, count: nat): Entries<JobId, Entry> {
    if Has(jobs, id) then Put(jobs, id, Get(jobs, id).(dueMs := dueMs, dequeueCount := count)) else jobs
  }

  function StartRun(jobs: Entries<JobId, Entry>, id: JobId, run: RunId): Entries<JobId, Entry> {
    if Has(jobs, id) then Put(jobs, id, Get(jobs, id).(runId := Some(run), completed := false)) else jobs
  }

  /** Marks the run completed, unless another run has been recorded since. */
  function CompleteRun(jobs: Entries<JobId, Entry>, id: JobId, run: RunId): Entries<JobId, Entry> {
    if Has(jobs, id) && Get(jobs, id).runId == Some(run) then Put(jobs, id, Get(jobs, id).(completed := true)) else jobs
  }

  // ----- Ownership -----

  /** A claim's effect on the record, and whether it won. */
  function Claim(r: Record, owner: Silo, adoptFromDead: set<Silo>, maxAdoptedCount: nat): (Record, bool) {
    if r.poisoned then (r, false)
    else if r.owner == Some(owner) then (r, true)
    else if r.owner.None? then (r.(owner := Some(owner)), true)
    else if r.owner.value !in adoptFromDead then (r, false)
    else if r.adoptedCount + 1 > maxAdoptedCount then (Record(None, r.adoptedCount + 1, true), false)
    else (Record(Some(owner), r.adoptedCount + 1, false), true)
  }

  function Release(r: Record, owner: Silo): Record {
    if r.owner == Some(owner) then r.(owner := None) else r
  }

  /**
   * Who a claim leaves the shard to: the claimer when it wins, and it wins exactly when the shard is
   * free, its own, or a dead silo's that has not been adopted too often; otherwise the shard keeps
   * its owner, except that one adoption too many poisons it for good.
   */
  lemma ClaimOutcome(r: Record, owner: Silo, dead: set<Silo>, max: nat)
    ensures var (r', won) := Claim(r, owner, dead, max);
      var adopting := r.owner.Some? && r.owner.value != owner && r.owner.value in dead;
      && (won <==> !r.poisoned && (r.owner.None? || r.owner.value == owner || (adopting && r.adoptedCount < max)))
      && (won ==> r'.owner == Some(owner) && !r'.poisoned)
      && (!won ==> r' == r || (adopting && r'.poisoned && r'.owner.None?))
      && (r'.poisoned <==> r.poisoned || (adopting && r.adoptedCount >= max))
      && (r'.adoptedCount > r.adoptedCount ==> adopting && !r.poisoned)
  {
  }

  /** The shards that have jobs, in the store's insertion order. */
  function Listing(order: seq<ShardKey>, shards: map<ShardKey, ShardState>): seq<(ShardKey, Record)> {
    if order == [] then []
    else
      var key := order[|order| - 1];
      Listing(order[..|order| - 1], shards)
        + if key in shards && shards[key].jobs != [] then [(key, shards[key].record)] else []
  }

  lemma {:induction false} ListingIsCurrent(order: seq<ShardKey>, shards: map<ShardKey, ShardState>, i: nat)
    requires i < |Listing(order, shards)|
    ensures var (key, r) := Listing(order, shards)[i];
      key in order && key in shards && r == shards[key].record && shards[key].jobs != []
    decreases |order|
  {
    var init := Listing(order[..|order| - 1], shards);
    if i < |init| {
      ListingIsCurrent(order[..|order| - 1], shards, i);
    }
  }

  /** The in-memory store. `order` is the insertion order of its map. */
  class MemoryJobShardStore {
    var shards: map<ShardKey, ShardState>
    var order: seq<ShardKey>

    ghost predicate Valid()
      reads this
    {
      && (forall key | key in shards :: key in order)
      && (forall i | 0 <= i < |order| :: order[i] in shards)
      && (forall i, j | 0 <= i < j < |order| :: order[i] != order[j])
    }

    function StateOf(key: ShardKey): ShardState
      reads this
    {
      if key in shards then shards[key] else BLANK
    }

    constructor ()
      ensures Valid() && shards == map[]
    {
      shards, order := map[], [];
    }

    /** The shard's state, created on first use. */
    method Shard(key: ShardKey) returns (state: ShardState)
      requires Valid()
      modifies this
      ensures Valid() && state == old(StateOf(key))
      ensures shards == old(shards)[key := state]
    {
      if key !in shards {
        shards := shards[key := BLANK];
        order := order + [key];
      }
      assert shards[key := shards[key]] == shards;
      return shards[key];
    }

    method PersistAdd(job: Job)
      requires Valid()
      modifies this
      ensures Valid()
      ensures var s := old(StateOf(job.shard)); shards == old(shards)[job.shard := s.(jobs := AddJob(s.jobs, job))]
    {
      var s := Shard(job.shard);
      shards := shards[job.shard := s.(jobs := AddJob(s.jobs, job))];
    }

    method PersistRemove(key: ShardKey, id: JobId)
      requires Valid()
      modifies this
      ensures Valid()
      ensures shards == if key !in old(shards) then old(shards)
        else old(shards)[key := old(shards)[key].(jobs := Delete(old(shards)[key].jobs, id))]
    {
      if key in shards {
        shards := shards[key := shards[key].(jobs := Delete(shards[key].jobs, id))];
      }
    }

    method PersistRetry(key: ShardKey, id: JobId, dueMs: int, count: nat)
      requires Valid()
      modifies this
      ensures Valid()
      ensures shards == if key !in old(shards) then old(shards)
        else old(shards)[key := old(shards)[key].(jobs := RetryJob(old(shards)[key].jobs, id, dueMs, count))]
    {
      if key in shards && Has(shards[key].jobs, id) {
        var e := Get(shards[key].jobs, id);
        shards := shards[key := shards[key].(jobs := Put(shards[key].jobs, id, e.(dueMs := dueMs, dequeueCount := count)))];
      }
      assert key in old(shards) ==> old(shards)[key := old(shards)[key]] == old(shards);
    }

    method PersistRunStart(key: ShardKey, id: JobId, run: RunId)
      requires Valid()
      modifies this
      ensures Valid()
      ensures shards == if key !in old(shards) then old(shards)
        else old(shards)[key := old(shards)[key].(jobs := StartRun(old(shards)[key].jobs, id, run))]
    {
      if key in shards && Has(shards[key].jobs, id) {
        var e := Get(shards[key].jobs, id);
        shards := shards[key := shards[key].(jobs := Put(shards[key].jobs, id, e.(runId := Some(run), completed := false)))];
      }
      assert key in old(shards) ==> old(shards)[key := old(shards)[key]] == old(shards);
    }

    method PersistRunComplete(key: ShardKey, id: JobId, run: RunId)
      requires Valid()
      modifies this
      ensures Valid()
      ensures shards == if key !in old(shards) then old(shards)
        else old(shards)[key := old(shards)[key].(jobs := CompleteRun(old(shards)[key].jobs, id, run))]
    {
      if key in shards && Has(shards[key].jobs, id) {
        var e := Get(shards[key].jobs, id);
        if e.runId == Some(run) {
          shards := shards[key := shards[key].(jobs := Put(shards[key].jobs, id, e.(completed := true)))];
        }
      }
      assert key in old(shards) ==> old(shards)[key := old(shards)[key]] == old(shards);
    }

    method ReadJobs(key: ShardKey) returns (jobs: seq<Entry>)
      ensures |jobs| == |StateOf(key).jobs| && forall i | 0 <= i < |jobs| :: jobs[i] == StateOf(key).jobs[i].1
    {
      if key !in shards {
        return [];
      }
      var list := shards[key].jobs;
      return seq(|list|, i requires 0 <= i < |list| => list[i].1);
    }

    method ListShards() returns (listing: seq<(ShardKey, Record)>)
      requires Valid()
      ensures listing == Listing(order, shards)
    {
      listing := [];
      for i := 0 to |order|
        invariant listing == Listing(order[..i], shards)
      {
        assert order[..i + 1][..i] == order[..i];
        assert order[i] in order;
        assert order[i] in shards;
        var state := shards[order[i]];
        if |state.jobs| > 0 {
          listing := listing + [(order[i], state.record)];
        }
      }
      assert order[..|order|] == order;
    }

    method ClaimShard(key: ShardKey, owner: Silo, adoptFromDead: set<Silo>, maxAdoptedCount: nat) returns (claimed: Option<Record>)
      requires Valid()
      modifies this
      ensures Valid()
      ensures var s := old(StateOf(key)); var (r, won) := Claim(s.record, owner, adoptFromDead, maxAdoptedCount);
        shards == old(shards)[key := s.(record := r)] && claimed == if won then Some(r) else None
    {
      var s := Shard(key);
      var record := s.record;
      if record.poisoned {
        return None;
      }
      if record.owner == Some(owner) {
        return Some(record);
      }
      var unowned := record.owner.None?;
      var ownerDead := record.owner.Some? && record.owner.value in adoptFromDead;
      if !unowned && !ownerDead {
        return None;
      }
      if ownerDead {
        record := record.(adoptedCount := record.adoptedCount + 1);
        if record.adoptedCount > maxAdoptedCount {
          record := record.(poisoned := true, owner := None);
          shards := shards[key := s.(record := record)];
          return None;
        }
      }
      record := record.(owner := Some(owner));
      shards := shards[key := s.(record := record)];
      return Some(record);
    }

    method ReleaseShard(key: ShardKey, owner: Silo)
      requires Valid()
      modifies this
      ensures Valid()
      ensures shards == if key !in old(shards) then old(shards)
        else old(shards)[key := old(shards)[key].(record := Release(old(shards)[key].record, owner))]
    {
      if key in shards && shards[key].record.owner == Some(owner) {
        shards := shards[key := shards[key].(record := shards[key].record.(owner := None))];
      }
      assert key in old(shards) ==> old(shards)[key := old(shards)[key]] == old(shards);
    }
  }
}
