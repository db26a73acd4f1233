/** One silo's manager as the object that claims, starts, drops and releases shards. */
module LocalDurableJobManager {
  import opened Wrappers
  import opened JobShardStore
  import opened ShardOwnership
  import ShardSafety
  import opened ClaimLaws

  class LocalDurableJobManager {
    const me: Silo
    const options: Options
    const store: MemoryJobShardStore
    var executors: seq<ShardKey>
    var stopped: bool
    var claimedSinceJoin: nat
    ghost var claims: seq<Claimed>
    ghost var reconciling: Reconciling
    ghost var stopping: Stopping

    ghost function State(): Node
      reads this
    {
      Node(executors, claims, reconciling, stopped, stopping, claimedSinceJoin)
    }

    ghost predicate Valid()
      reads this, store
    {
      store.Valid() && ShardSafety.Distinct(executors)
    }

    /** The store and this silo, as if it were alone. */
    ghost function Now(): World
      reads this, store
    {
      World(store.shards, map[me := State()])
    }

    constructor (me: Silo, options: Options, store: MemoryJobShardStore)
      requires store.Valid()
      ensures Valid() && this.me == me && this.options == options && this.store == store && State() == FRESH
    {
      this.me, this.options, this.store := me, options, store;
      executors, stopped, claimedSinceJoin := [], false, 0;
      claims, reconciling, stopping := [], NotReconciling, NotStopping;
    }

    /** Runs the shard, unless it runs already or the silo is going away. */
    method StartExecutor(key: ShardKey)
      requires Valid()
      modifies this`executors
      ensures Valid() && State() == ShardOwnership.StartExecutor(old(State()), key)
    {
      if key in executors || stopped {
        return;
      }
      executors := executors + [key];
    }

    /** What follows a claim's answer. */
    method Claimed(key: ShardKey, won: bool) returns (started: bool)
      requires Valid()
      modifies this`executors, store
      ensures Valid() && started == (won && !stopped)
      ensures Effect(store.shards, State()) == ClaimReturned(old(store.shards), old(State()), me, ShardOwnership.Claimed(key, won))
    {
      if !won {
        return false;
      }
      if stopped {
        store.ReleaseShard(key, me);
        return false;
      }
      StartExecutor(key);
      return true;
    }

    /** Gets the shard to run here, claiming it if it is free. */
    method EnsureOwned(key: ShardKey) returns (owned: bool)
      requires Valid()
      modifies this`executors, store
      ensures Valid()
      ensures var (r, won) := Claim(RecordOf(old(store.shards), key), me, {}, options.maxAdoptedCount);
        var asked := key !in old(executors) && !stopped;
        && (owned <==> key in old(executors) || (asked && won))
        && executors == (if asked && won then old(executors) + [key] else old(executors))
        && store.shards == (if asked then WithRecord(old(store.shards), key, r) else old(store.shards))
      ensures owned && key !in old(executors) ==> store.StateOf(key).record.owner == Some(me)
    {
      if key in executors {
        return true;
      }
      if stopped {
        return false;
      }
      var claimed := store.ClaimShard(key, me, {}, options.maxAdoptedCount);
      owned := Claimed(key, claimed.Some?);
    }

    /** Starts an executor for every listed shard the store records as this silo's. */
    method ResumeOwn(listed: seq<(ShardKey, Record)>, active: set<Silo>, elapsedMs: int, ghost w0: World, ghost steps: seq<Action>)
      returns (ghost done: seq<Action>)
      requires Valid() && Now() == Run(options, w0, steps) && reconciling == Resuming(listed, 0, active) && !stopped
      modifies this`executors, this`reconciling
      ensures Valid() && Now() == Run(options, w0, done) && reconciling == Resuming(listed, |listed|, active)
      ensures forall key :: key in executors <==> key in old(executors) || OwnIn(listed, |listed|, me, key)
    {
      hide Run, ReconcileStep;
      done := steps;
      for i := 0 to |listed|
        invariant Valid() && Now() == Run(options, w0, done) && reconciling == Resuming(listed, i, active)
        invariant forall key :: key in executors <==> key in old(executors) || OwnIn(listed, i, me, key)
      {
        ReconcileOnStep(options, w0, done, store.shards, State(), me, elapsedMs, []);
        ResumeCase(options, store.shards, State(), me, elapsedMs, []);
        done := done + [ReconcileOn(me, elapsedMs, [])];
        reconciling := Resuming(listed, i + 1, active);
        OwnInOneMore(listed, i, me);
        if listed[i].1.owner == Some(me) {
          StartExecutor(listed[i].0);
        }
      }
    }

    /** One claim of a reconciliation, and what follows its answer. */
    method ClaimAndStart(key: ShardKey, deadOwner: set<Silo>) returns (started: bool)
      requires Valid() && reconciling.Claiming? && reconciling.waiting.None? && reconciling.at < |reconciling.claimable|
      requires reconciling.claimable[reconciling.at].0 == key && !stopped
      requires deadOwner == DeadOwner(reconciling.active, reconciling.claimable[reconciling.at].1)
      modifies this`executors, this`reconciling, store
      ensures Valid() && reconciling == Claiming(old(reconciling.claimable), old(reconciling.at) + 1, old(reconciling.active), None)
      ensures var (r, won) := Claim(RecordOf(old(store.shards), key), me, deadOwner, options.maxAdoptedCount);
        && started == won && store.shards == WithRecord(old(store.shards), key, r)
        && executors == if won && key !in old(executors) then old(executors) + [key] else old(executors)
      ensures forall elapsedMs, order ::
        var e := ReconcileStep(options, old(store.shards), old(State()), me, elapsedMs, order);
        Effect(store.shards, State().(claimedSinceJoin := claimedSinceJoin + if started then 1 else 0))
          == ReconcileStep(options, e.shards, e.n, me, elapsedMs, order)
    {
      hide ReconcileStep;
      ghost var shards0, n0 := store.shards, State();
      var claimed := store.ClaimShard(key, me, deadOwner, options.maxAdoptedCount);
      ghost var n1 := n0.(reconciling := n0.reconciling.(at := n0.reconciling.at + 1, waiting := Some(ShardOwnership.Claimed(key, claimed.Some?))));
      ghost var shards1 := store.shards;
      reconciling := n1.reconciling;
      ClaimCase(options, shards0, n0, me, shards1, n1);
      started := Claimed(key, claimed.Some?);
      reconciling := reconciling.(waiting := None);
      ReturnCase(options, shards1, n1, me, Effect(store.shards, State().(claimedSinceJoin := claimedSinceJoin + if started then 1 else 0)));
    }

    /** Claims the given shards, adopting those whose owner is not active. */
    method ClaimAll(claimable: seq<(ShardKey, Record)>, active: set<Silo>, elapsedMs: int, ghost w0: World, ghost steps: seq<Action>)
      returns (ghost done: seq<Action>)
      requires Valid() && Now() == Run(options, w0, steps) && reconciling == Claiming(claimable, 0, active, None) && !stopped
      requires KeysApart(claimable) && forall i | 0 <= i < |claimable| :: StillTakeable(store.shards, claimable[i], me, active)
      modifies this`executors, this`reconciling, this`claimedSinceJoin, store
      ensures Valid() && Now() == Run(options, w0, done) && reconciling == Claiming(claimable, |claimable|, active, None)
      ensures AllTaken(options, old(store.shards), store.shards, old(executors), executors, claimable, |claimable|, me)
    {
      hide Run, ReconcileStep, AllTaken, StillTakeable, KeysApart, WithRecord, Claim;
      done := steps;
      NoneTaken(options, store.shards, executors, claimable, me);
      for i := 0 to |claimable|
        invariant Valid() && Now() == Run(options, w0, done) && reconciling == Claiming(claimable, i, active, None)
        invariant AllTaken(options, old(store.shards), store.shards, old(executors), executors, claimable, i, me)
      {
        assert StillTakeable(old(store.shards), claimable[i], me, active);
        var (key, record) := claimable[i];
        var deadOwner := if record.owner.Some? && record.owner.value !in active then {record.owner.value} else {};
        ghost var shards, n := store.shards, State();
        var started := ClaimAndStart(key, deadOwner);
        if started {
          claimedSinceJoin := claimedSinceJoin + 1;
        }
        OneMoreTaken(options, old(store.shards), shards, store.shards, old(executors), n.executors, executors, claimable, i, me, active);
        TwoSteps(options, w0, done, shards, n, me, elapsedMs, []);
        done := done + [ReconcileOn(me, elapsedMs, []), ReconcileOn(me, elapsedMs, [])];
      }
    }

    method StopExecutor(key: ShardKey)
      requires key in executors
      modifies this`executors
      ensures State() == old(State()).(executors := Without(old(executors), key))
    {
      var kept: seq<ShardKey> := [];
      for i := 0 to |executors|
        invariant kept + Without(executors[i..], key) == Without(executors, key)
      {
        assert executors[i..][1..] == executors[i + 1..];
        if executors[i] != key {
          kept := kept + [executors[i]];
        }
      }
      executors := kept;
    }

    /** Drops the executors of shards the store no longer lists as this silo's. */
    method DropOthers(owned: seq<ShardKey>, elapsedMs: int, ghost w0: World, ghost steps: seq<Action>)
      returns (ghost done: seq<Action>)
      requires Valid() && Now() == Run(options, w0, steps) && reconciling == Relisted(owned)
      modifies this`executors, this`reconciling
      ensures Valid() && Now() == Run(options, w0, done) && reconciling == NotReconciling
      ensures forall key :: key in executors <==> key in owned && key in old(executors)
    {
      hide Run, ReconcileStep;
      ghost var order: seq<ShardKey> := [];
      ReconcileOnStep(options, w0, steps, store.shards, State(), me, elapsedMs, order);
      DropCases(options, store.shards, State(), me, elapsedMs, order);
      done := steps + [ReconcileOn(me, elapsedMs, order)];
      var keys := executors;
      reconciling := Dropping(owned, keys, None);
      for i := 0 to |keys|
        invariant Valid() && Now() == Run(options, w0, done) && reconciling == Dropping(owned, keys[i..], None)
        invariant forall key | key in executors :: key in keys
        invariant forall k | 0 <= k < i :: keys[k] in owned || keys[k] !in executors
        invariant forall key | key in keys && key in owned :: key in executors
      {
        assert keys[i..][1..] == keys[i + 1..] && keys[i..][0] == keys[i];
        ReconcileOnStep(options, w0, done, store.shards, State(), me, elapsedMs, order);
        DropCases(options, store.shards, State(), me, elapsedMs, order);
        done := done + [ReconcileOn(me, elapsedMs, order)];
        if keys[i] !in owned && keys[i] in executors {
          ShardSafety.WithoutDistinct(executors, keys[i]);
          WithoutElements(executors, keys[i]);
          StopExecutor(keys[i]);
          reconciling := Dropping(owned, keys[i + 1..], Some(keys[i]));
          ReconcileOnStep(options, w0, done, store.shards, State(), me, elapsedMs, order);
          DropCases(options, store.shards, State(), me, elapsedMs, order);
          done := done + [ReconcileOn(me, elapsedMs, order)];
        }
        reconciling := Dropping(owned, keys[i + 1..], None);
      }
      ReconcileOnStep(options, w0, done, store.shards, State(), me, elapsedMs, order);
      DropCases(options, store.shards, State(), me, elapsedMs, order);
      done := done + [ReconcileOn(me, elapsedMs, order)];
      reconciling := NotReconciling;
    }

    /**
     * A whole reconciliation with nothing interleaved is a run of the silo's steps. Every listed shard
     * that was recorded as this silo's runs here, and so do the first of those there to be taken, as
     * many as the budget allows, but for those that one adoption more poisons. Whatever else runs
     * here ran before, and every shard that runs here is recorded as this silo's.
     */
    method ReconcileOwnership(active: set<Silo>, elapsedMs: int) returns (ghost steps: seq<Action>)
      requires Valid() && reconciling == NotReconciling && !stopped
      modifies this, store
      ensures Valid() && reconciling == NotReconciling
      ensures Now() == Run(options, old(Now()), steps)
      ensures forall key | key in executors :: key in store.shards && store.shards[key].record.owner == Some(me)
      ensures var listed := Listing(old(store.order), old(store.shards));
        var limit := ClaimBudgetForThisStep(options, elapsedMs, old(claimedSinceJoin), Rank(me, active, listed, |listed|));
        Placed(options, me, active, listed, store.shards, old(executors), executors, limit)
    {
      hide Run, ReconcileStep, Listing, OwnedKeys, ClaimableOf, ClaimBudgetForThisStep, Placed, AllTaken, StillTakeable, OwnIn, Rank, KeysApart;
      ghost var w0 := Now();
      ghost var shards0, order0 := store.shards, store.order;
      var listed := store.ListShards();
      steps := [Reconcile(me, active, store.order)];
      FirstStep(options, w0, steps[0]);
      reconciling := Resuming(listed, 0, active);
      assert Now().nodes == w0.nodes[me := State()];
      steps := ResumeOwn(listed, active, elapsedMs, w0, steps);
      var claimable := ClaimableOf(me, active, listed);
      var limit := ClaimBudgetForThisStep(options, elapsedMs, claimedSinceJoin, |claimable|);
      ReconcileOnStep(options, w0, steps, store.shards, State(), me, elapsedMs, []);
      BeginCase(options, store.shards, State(), me, elapsedMs, []);
      steps := steps + [ReconcileOn(me, elapsedMs, [])];
      reconciling := Claiming(claimable[..limit], 0, active, None);
      ListingApart(store.order, store.shards);
      FirstClaimable(me, active, store.order, store.shards, limit);
      ghost var resumed := executors;
      steps := ClaimAll(claimable[..limit], active, elapsedMs, w0, steps);
      ghost var claimed := executors;
      var relisted := store.ListShards();
      ReconcileOnStep(options, w0, steps, store.shards, State(), me, elapsedMs, store.order);
      RelistCase(options, store.shards, State(), me, elapsedMs, store.order);
      steps := steps + [ReconcileOn(me, elapsedMs, store.order)];
      var owned := OwnedKeys(me, relisted);
      OwnedKeysAreOwned(me, store.order, store.shards);
      reconciling := Relisted(owned);
      ghost var shards1, order1 := store.shards, store.order;
      steps := DropOthers(owned, elapsedMs, w0, steps);
      ClaimableCount(me, active, listed);
      EveryoneIsPlaced(options, me, active, listed, order0, shards0, order1, shards1, w0.nodes[me].executors, resumed, claimed, executors, limit);
    }

    /** Drains every executor, and releases its shard only then; it touches no other shard. */
    method Stop() returns (ghost steps: seq<Action>)
      requires Valid() && reconciling == NotReconciling && stopping == NotStopping
      modifies this, store
      ensures Valid() && stopped && stopping == HasStopped && executors == []
      ensures Now() == Run(options, old(Now()), steps)
      ensures forall key | key in old(executors) :: RecordOf(store.shards, key).owner != Some(me)
      ensures forall key | key !in old(executors) :: SameShard(old(store.shards), store.shards, key)
    {
      hide Run, HandedBack, Without;
      ghost var w0 := Now();
      steps := [Action.Stop(me)];
      FirstStep(options, w0, steps[0]);
      stopped, stopping := true, AwaitReconciling;
      assert Now().nodes == w0.nodes[me := State()];
      StopOnStep(options, w0, steps, store.shards, State(), me);
      steps := steps + [StopOn(me)];
      stopping := Releasing(executors, None);
      NoneHandedBack(store.shards, executors, me);
      while |executors| > 0
        invariant Valid() && stopped && Now() == Run(options, w0, steps) && reconciling == NotReconciling
        invariant stopping == Releasing(executors, None)
        invariant HandedBack(old(store.shards), store.shards, old(executors), executors, me)
        decreases |executors|
      {
        var key := executors[0];
        ShardSafety.HeadIsGone(executors);
        StopOnStep(options, w0, steps, store.shards, State(), me);
        steps := steps + [StopOn(me)];
        OneMoreHandedBack(old(store.shards), store.shards, old(executors), executors, me);
        StopExecutor(key);
        stopping := Releasing(executors, Some(key));
        StopOnStep(options, w0, steps, store.shards, State(), me);
        steps := steps + [StopOn(me)];
        store.ReleaseShard(key, me);
        stopping := Releasing(executors, None);
      }
      AllHandedBack(old(store.shards), store.shards, old(executors), me);
      StopOnStep(options, w0, steps, store.shards, State(), me);
      steps := steps + [StopOn(me)];
      stopping := HasStopped;
    }
  }

  // ----- Handing shards back -----

  /** Of the shards that ran here, those that run no more are no longer this silo's; nothing else has changed. */
  ghost predicate HandedBack(shards: Shards, shards': Shards, before: seq<ShardKey>, left: seq<ShardKey>, me: Silo) {
    && (forall key | key in left :: key in before)
    && (forall key | key in before :: key in left || RecordOf(shards', key).owner != Some(me))
    && (forall key | key !in before :: SameShard(shards, shards', key))
  }

  lemma NoneHandedBack(shards: Shards, before: seq<ShardKey>, me: Silo)
    ensures HandedBack(shards, shards, before, before, me)
  {
  }

  lemma AllHandedBack(shards: Shards, shards': Shards, before: seq<ShardKey>, me: Silo)
    requires HandedBack(shards, shards', before, [], me)
    ensures forall key | key in before :: RecordOf(shards', key).owner != Some(me)
    ensures forall key | key !in before :: SameShard(shards, shards', key)
  {
  }

  lemma OneMoreHandedBack(shards: Shards, shards': Shards, before: seq<ShardKey>, left: seq<ShardKey>, me: Silo)
    requires HandedBack(shards, shards', before, left, me) && left != []
    ensures HandedBack(shards, ReleaseAt(shards', left[0], me), before, Without(left, left[0]), me)
  {
    WithoutElements(left, left[0]);
    hide Without;
    forall key | key !in before ensures SameShard(shards, ReleaseAt(shards', left[0], me), key) {
      assert SameShard(shards, shards', key);
    }
  }

  // ----- Which shards a reconciliation leaves here -----

  /** One of the first `n` listed shards is this one, recorded as the silo's. */
  ghost predicate OwnIn(listed: Listed, n: nat, me: Silo, key: ShardKey)
    requires n <= |listed|
  {
    exists i :: 0 <= i < n && listed[i].0 == key && listed[i].1.owner == Some(me)
  }

  lemma OwnInOneMore(listed: Listed, n: nat, me: Silo)
    requires n < |listed|
    ensures forall key :: OwnIn(listed, n + 1, me, key) <==> OwnIn(listed, n, me, key) || (listed[n].0 == key && listed[n].1.owner == Some(me))
  {
    forall key ensures OwnIn(listed, n + 1, me, key) <==> OwnIn(listed, n, me, key) || (listed[n].0 == key && listed[n].1.owner == Some(me)) {
      if listed[n].0 == key && listed[n].1.owner == Some(me) { assert OwnIn(listed, n + 1, me, key); }
    }
  }

  /** The shard is among the first of those there to be taken. */
  ghost predicate TakenIn(listed: Listed, me: Silo, active: set<Silo>, limit: nat, key: ShardKey) {
    exists i :: 0 <= i < |listed| && listed[i].0 == key && Takeable(me, active, listed[i].1) && Rank(me, active, listed, i) < limit
  }

  /** What was listed still stands. */
  ghost predicate StillTakeable(shards: Shards, l: (ShardKey, Record), me: Silo, active: set<Silo>) {
    l.0 in shards && shards[l.0].record == l.1 && Takeable(me, active, l.1) && shards[l.0].jobs != []
  }

  ghost predicate Outcome(o: Options, shards: Shards, executors: seq<ShardKey>, l: (ShardKey, Record), me: Silo) {
    && l.0 in shards
    && if TooOften(o, l.1) then shards[l.0].record.poisoned && shards[l.0].record.owner.None?
       else l.0 in executors && shards[l.0].record.owner == Some(me)
  }

  ghost predicate InFirst(claimable: Listed, n: nat, key: ShardKey)
    requires n <= |claimable|
  {
    exists k :: 0 <= k < n && claimable[k].0 == key
  }

  ghost predicate SameShard(shards: Shards, shards': Shards, key: ShardKey) {
    (key in shards <==> key in shards') && (key in shards ==> shards'[key] == shards[key])
  }

  /** The first `n` claims have come out as they do, and touched nothing else. */
  ghost predicate AllTaken(o: Options, shards: Shards, shards': Shards, before: seq<ShardKey>, after: seq<ShardKey>, claimable: Listed, n: nat, me: Silo) {
    && n <= |claimable|
    && (forall k | 0 <= k < n :: Outcome(o, shards', after, claimable[k], me))
    && (forall key | !InFirst(claimable, n, key) :: SameShard(shards, shards', key))
    && (forall key | key in shards && key in shards' :: shards'[key].jobs == shards[key].jobs)
    && (forall key | key in shards :: key in shards')
    && (forall key | key in before :: key in after)
    && (forall key | key in after :: key in before || InFirst(claimable, n, key))
  }

  lemma NoneTaken(o: Options, shards: Shards, executors: seq<ShardKey>, claimable: Listed, me: Silo)
    ensures AllTaken(o, shards, shards, executors, executors, claimable, 0, me)
  {
  }

  lemma OneMoreTaken(o: Options, shards0: Shards, shards: Shards, shards': Shards, before: seq<ShardKey>, executors: seq<ShardKey>, after: seq<ShardKey>,
    claimable: Listed, n: nat, me: Silo, active: set<Silo>)
    requires n < |claimable| && KeysApart(claimable) && StillTakeable(shards0, claimable[n], me, active)
    requires AllTaken(o, shards0, shards, before, executors, claimable, n, me)
    requires var (r, won) := Claim(RecordOf(shards, claimable[n].0), me, DeadOwner(active, claimable[n].1), o.maxAdoptedCount);
      && shards' == WithRecord(shards, claimable[n].0, r)
      && after == if won && claimable[n].0 !in executors then executors + [claimable[n].0] else executors
    ensures AllTaken(o, shards0, shards', before, after, claimable, n + 1, me)
  {
    var (key, record) := claimable[n];
    assert !InFirst(claimable, n, key);
    assert SameShard(shards0, shards, key);
    TakeableIsTaken(o, me, active, record);
    forall k | 0 <= k < n + 1 ensures Outcome(o, shards', after, claimable[k], me) {
      if k < n {
        assert Outcome(o, shards, executors, claimable[k], me) && claimable[k].0 != claimable[n].0;
      }
    }
    assert InFirst(claimable, n + 1, key);
    forall x | !InFirst(claimable, n + 1, x) ensures SameShard(shards0, shards', x) {
      assert SameShard(shards0, shards, x);
    }
    forall x | x in after ensures x in before || InFirst(claimable, n + 1, x) {
      if x in executors && x !in before {
        var k :| 0 <= k < n && claimable[k].0 == x;
        assert InFirst(claimable, n + 1, x);
      }
    }
  }

  /** What a listing offers is there to be taken, each shard once. */
  lemma FirstClaimable(me: Silo, active: set<Silo>, order: seq<ShardKey>, shards: Shards, limit: nat)
    requires KeysApart(Listing(order, shards)) && limit <= |ClaimableOf(me, active, Listing(order, shards))|
    ensures var claimable := ClaimableOf(me, active, Listing(order, shards));
      KeysApart(claimable[..limit]) && forall k | 0 <= k < limit :: StillTakeable(shards, claimable[k], me, active)
  {
    var listed := Listing(order, shards);
    var claimable := ClaimableOf(me, active, listed);
    forall k | 0 <= k < limit ensures StillTakeable(shards, claimable[k], me, active) {
      var i := ClaimableFrom(me, active, listed, k);
      ListingIsCurrent(order, shards, i);
    }
    forall j, k | 0 <= j < k < limit ensures claimable[j].0 != claimable[k].0 {
      var i := ClaimableFrom(me, active, listed, j);
      var l := ClaimableFrom(me, active, listed, k);
      assert i != l;
      if i < l { assert listed[i].0 != listed[l].0; } else { assert listed[l].0 != listed[i].0; }
    }
  }

  lemma {:induction false} ClaimableCount(me: Silo, active: set<Silo>, listed: Listed)
    ensures |ClaimableOf(me, active, listed)| == Rank(me, active, listed, |listed|)
  {
    if listed != [] {
      RankTail(me, active, listed, |listed|);
      ClaimableCount(me, active, listed[1..]);
    }
  }

  /** A shard with jobs that is recorded as this silo's is listed as its own. */
  lemma OwnedIfRecorded(me: Silo, order: seq<ShardKey>, shards: Shards, key: ShardKey)
    requires key in order && key in shards && shards[key].jobs != [] && shards[key].record.owner == Some(me)
    ensures key in OwnedKeys(me, Listing(order, shards))
  {
    var i := ListingIsComplete(order, shards, key);
    OwnedKeysHas(me, Listing(order, shards), i);
  }

  /** The state of things once a reconciliation has claimed, in terms of the listing it started from. */
  ghost predicate Reconciled(o: Options, me: Silo, active: set<Silo>, listed: Listed, order: seq<ShardKey>, shards: Shards,
    order': seq<ShardKey>, shards': Shards, resumed: seq<ShardKey>, claimed: seq<ShardKey>, after: seq<ShardKey>, limit: nat)
  {
    && listed == Listing(order, shards) && KeysApart(listed)
    && limit <= |ClaimableOf(me, active, listed)|
    && AllTaken(o, shards, shards', resumed, claimed, ClaimableOf(me, active, listed)[..limit], limit, me)
    && (forall key | key in shards' :: key in order')
    && (forall key :: key in after <==> key in OwnedKeys(me, Listing(order', shards')) && key in claimed)
    && (forall i | 0 <= i < |listed| && listed[i].1.owner == Some(me) :: listed[i].0 in resumed)
  }

  lemma OwnStays(o: Options, me: Silo, active: set<Silo>, listed: Listed, order: seq<ShardKey>, shards: Shards,
    order': seq<ShardKey>, shards': Shards, resumed: seq<ShardKey>, claimed: seq<ShardKey>, after: seq<ShardKey>, limit: nat, i: nat)
    requires Reconciled(o, me, active, listed, order, shards, order', shards', resumed, claimed, after, limit)
    requires i < |listed| && listed[i].1.owner == Some(me)
    ensures listed[i].0 in after
  {
    var key := listed[i].0;
    var first := ClaimableOf(me, active, listed)[..limit];
    ListingIsCurrent(order, shards, i);
    if InFirst(first, limit, key) {
      var k: nat :| k < limit && first[k].0 == key;
      var j := ClaimableFrom(me, active, listed, k);
    }
    hide Reconciled, ClaimableOf, Listing, OwnedKeys;
    assert SameShard(shards, shards', key);
    OwnedIfRecorded(me, order', shards', key);
  }

  lemma TakenIsPlaced(o: Options, me: Silo, active: set<Silo>, listed: Listed, order: seq<ShardKey>, shards: Shards,
    order': seq<ShardKey>, shards': Shards, resumed: seq<ShardKey>, claimed: seq<ShardKey>, after: seq<ShardKey>, limit: nat, i: nat)
    requires Reconciled(o, me, active, listed, order, shards, order', shards', resumed, claimed, after, limit)
    requires i < |listed| && Takeable(me, active, listed[i].1) && Rank(me, active, listed, i) < limit
    ensures listed[i].0 in shards'
    ensures if TooOften(o, listed[i].1) then shards'[listed[i].0].record.poisoned else listed[i].0 in after
  {
    hide Listing, OwnedKeys, ClaimableOf;
    ListingIsCurrent(order, shards, i);
    ClaimableAt(me, active, listed, i);
    var k := Rank(me, active, listed, i);
    assert ClaimableOf(me, active, listed)[..limit][k] == listed[i];
    assert Outcome(o, shards', claimed, listed[i], me);
    if !TooOften(o, listed[i].1) {
      OwnedIfRecorded(me, order', shards', listed[i].0);
    }
  }

  lemma OthersRanBefore(o: Options, me: Silo, active: set<Silo>, listed: Listed, order: seq<ShardKey>, shards: Shards,
    order': seq<ShardKey>, shards': Shards, resumed: seq<ShardKey>, claimed: seq<ShardKey>, after: seq<ShardKey>, limit: nat, key: ShardKey)
    requires Reconciled(o, me, active, listed, order, shards, order', shards', resumed, claimed, after, limit) && key in after
    ensures key in resumed || TakenIn(listed, me, active, limit, key)
  {
    var first := ClaimableOf(me, active, listed)[..limit];
    if key !in resumed {
      var k: nat :| k < limit && first[k].0 == key;
      var j := ClaimableFrom(me, active, listed, k);
    }
  }

  /**
   * Every listed shard that was recorded as the silo's runs here, and so do the first `limit` of those
   * there to be taken, but for those that one adoption more poisons; whatever else runs here ran before.
   */
  ghost predicate Placed(o: Options, me: Silo, active: set<Silo>, listed: Listed, shards: Shards, before: seq<ShardKey>, after: seq<ShardKey>, limit: nat) {
    && (forall i | 0 <= i < |listed| && listed[i].1.owner == Some(me) :: listed[i].0 in after)
    && (forall i | 0 <= i < |listed| && Takeable(me, active, listed[i].1) && Rank(me, active, listed, i) < limit ::
          listed[i].0 in shards && if TooOften(o, listed[i].1) then shards[listed[i].0].record.poisoned else listed[i].0 in after)
    && (forall key | key in after :: key in before || OwnIn(listed, |listed|, me, key) || TakenIn(listed, me, active, limit, key))
  }

  lemma EveryoneIsPlaced(o: Options, me: Silo, active: set<Silo>, listed: Listed, order: seq<ShardKey>, shards: Shards,
    order': seq<ShardKey>, shards': Shards, before: seq<ShardKey>, resumed: seq<ShardKey>, claimed: seq<ShardKey>, after: seq<ShardKey>, limit: nat)
    requires listed == Listing(order, shards) && KeysApart(listed)
    requires limit <= |ClaimableOf(me, active, listed)|
    requires AllTaken(o, shards, shards', resumed, claimed, ClaimableOf(me, active, listed)[..limit], limit, me)
    requires forall key | key in shards' :: key in order'
    requires forall key :: key in after <==> key in OwnedKeys(me, Listing(order', shards')) && key in claimed
    requires forall key :: key in resumed <==> key in before || OwnIn(listed, |listed|, me, key)
    ensures Placed(o, me, active, listed, shards', before, after, limit)
  {
    hide Reconciled, TakenIn, Rank, Takeable, AllTaken, Listing, ClaimableOf, OwnedKeys, KeysApart;
    forall i | 0 <= i < |listed| && listed[i].1.owner == Some(me) ensures listed[i].0 in resumed {
      assert OwnIn(listed, |listed|, me, listed[i].0);
    }
    IsReconciled(o, me, active, listed, order, shards, order', shards', resumed, claimed, after, limit);
    forall i | 0 <= i < |listed| && listed[i].1.owner == Some(me) ensures listed[i].0 in after {
      OwnStays(o, me, active, listed, order, shards, order', shards', resumed, claimed, after, limit, i);
    }
    forall i | 0 <= i < |listed| && Takeable(me, active, listed[i].1) && Rank(me, active, listed, i) < limit
      ensures listed[i].0 in shards' && if TooOften(o, listed[i].1) then shards'[listed[i].0].record.poisoned else listed[i].0 in after
    {
      TakenIsPlaced(o, me, active, listed, order, shards, order', shards', resumed, claimed, after, limit, i);
    }
    forall key | key in after ensures key in before || OwnIn(listed, |listed|, me, key) || TakenIn(listed, me, active, limit, key) {
      OthersRanBefore(o, me, active, listed, order, shards, order', shards', resumed, claimed, after, limit, key);
    }
  }

  lemma IsReconciled(o: Options, me: Silo, active: set<Silo>, listed: Listed, order: seq<ShardKey>, shards: Shards,
    order': seq<ShardKey>, shards': Shards, resumed: seq<ShardKey>, claimed: seq<ShardKey>, after: seq<ShardKey>, limit: nat)
    requires listed == Listing(order, shards) && KeysApart(listed)
    requires limit <= |ClaimableOf(me, active, listed)|
    requires AllTaken(o, shards, shards', resumed, claimed, ClaimableOf(me, active, listed)[..limit], limit, me)
    requires forall key | key in shards' :: key in order'
    requires forall key :: key in after <==> key in OwnedKeys(me, Listing(order', shards')) && key in claimed
    requires forall i | 0 <= i < |listed| && listed[i].1.owner == Some(me) :: listed[i].0 in resumed
    ensures Reconciled(o, me, active, listed, order, shards, order', shards', resumed, claimed, after, limit)
  {
    hide AllTaken, Listing, ClaimableOf, OwnedKeys, KeysApart;
  }

  // ----- What a stretch of a reconciliation does, case by case -----

  lemma ResumeCase(o: Options, shards: Shards, n: Node, me: Silo, elapsedMs: int, order: seq<ShardKey>)
    requires n.reconciling.Resuming? && n.reconciling.at < |n.reconciling.listed| && !n.stopped
    ensures var Resuming(listed, at, active) := n.reconciling;
      var next := n.(reconciling := Resuming(listed, at + 1, active));
      ReconcileStep(o, shards, n, me, elapsedMs, order) ==
        Effect(shards, if listed[at].1.owner == Some(me) then ShardOwnership.StartExecutor(next, listed[at].0) else next)
  {
  }

  lemma BeginCase(o: Options, shards: Shards, n: Node, me: Silo, elapsedMs: int, order: seq<ShardKey>)
    requires n.reconciling.Resuming? && n.reconciling.at == |n.reconciling.listed|
    ensures var Resuming(listed, at, active) := n.reconciling; var claimable := ClaimableOf(me, active, listed);
      ReconcileStep(o, shards, n, me, elapsedMs, order) ==
        Effect(shards, n.(reconciling :=
          Claiming(claimable[..ClaimBudgetForThisStep(o, elapsedMs, n.claimedSinceJoin, |claimable|)], 0, active, None)))
  {
  }

  lemma ClaimCase(o: Options, shards: Shards, n: Node, me: Silo, shards': Shards, n': Node)
    requires n.reconciling.Claiming? && n.reconciling.waiting.None? && n.reconciling.at < |n.reconciling.claimable| && !n.stopped
    requires var Claiming(claimable, at, active, _) := n.reconciling; var (key, r) := claimable[at];
      var (r', won) := Claim(RecordOf(shards, key), me, DeadOwner(active, r), o.maxAdoptedCount);
      shards' == WithRecord(shards, key, r')
        && n' == n.(reconciling := Claiming(claimable, at + 1, active, Some(ShardOwnership.Claimed(key, won))))
    ensures forall elapsedMs, order :: ReconcileStep(o, shards, n, me, elapsedMs, order) == Effect(shards', n')
  {
  }

  lemma ReturnCase(o: Options, shards: Shards, n: Node, me: Silo, e: Effect)
    requires n.reconciling.Claiming? && n.reconciling.waiting.Some?
    requires var c := n.reconciling.waiting.value; var r := ClaimReturned(shards, n, me, c);
      e == r.(n := r.n.(reconciling := n.reconciling.(waiting := None),
                        claimedSinceJoin := n.claimedSinceJoin + if c.won && !n.stopped then 1 else 0))
    ensures forall elapsedMs, order :: ReconcileStep(o, shards, n, me, elapsedMs, order) == e
  {
  }

  lemma RelistCase(o: Options, shards: Shards, n: Node, me: Silo, elapsedMs: int, order: seq<ShardKey>)
    requires n.reconciling.Claiming? && n.reconciling.waiting.None? && n.reconciling.at == |n.reconciling.claimable|
    ensures ReconcileStep(o, shards, n, me, elapsedMs, order) ==
      Effect(shards, n.(reconciling := Relisted(OwnedKeys(me, Listing(order, shards)))))
  {
  }

  lemma DropCases(o: Options, shards: Shards, n: Node, me: Silo, elapsedMs: int, order: seq<ShardKey>)
    requires n.reconciling.Relisted? || n.reconciling.Dropping?
    ensures ReconcileStep(o, shards, n, me, elapsedMs, order).shards == shards
    ensures ReconcileStep(o, shards, n, me, elapsedMs, order).n ==
      match n.reconciling
      case Relisted(owned) => n.(reconciling := Dropping(owned, n.executors, None))
      case Dropping(owned, todo, draining) =>
        if draining.Some? then n.(reconciling := Dropping(owned, todo, None))
        else if todo == [] then n.(reconciling := NotReconciling)
        else if todo[0] in owned || todo[0] !in n.executors then n.(reconciling := Dropping(owned, todo[1..], None))
        else n.(executors := Without(n.executors, todo[0]), reconciling := Dropping(owned, todo[1..], Some(todo[0])))
      case _ => n
  {
  }

  lemma TwoSteps(o: Options, w0: World, steps: seq<Action>, shards: Shards, n: Node, me: Silo, elapsedMs: int, order: seq<ShardKey>)
    requires World(shards, map[me := n]) == Run(o, w0, steps)
    ensures var e := ReconcileStep(o, shards, n, me, elapsedMs, order);
      var f := ReconcileStep(o, e.shards, e.n, me, elapsedMs, order);
      World(f.shards, map[me := f.n]) == Run(o, w0, steps + [ReconcileOn(me, elapsedMs, order), ReconcileOn(me, elapsedMs, order)])
  {
    hide Run, ReconcileStep;
    var e := ReconcileStep(o, shards, n, me, elapsedMs, order);
    var one := [ReconcileOn(me, elapsedMs, order)];
    ReconcileOnStep(o, w0, steps, shards, n, me, elapsedMs, order);
    ReconcileOnStep(o, w0, steps + one, e.shards, e.n, me, elapsedMs, order);
    assert steps + one + one == steps + [ReconcileOn(me, elapsedMs, order), ReconcileOn(me, elapsedMs, order)];
  }

  lemma FirstStep(o: Options, w: World, action: Action)
    ensures Run(o, w, [action]) == Next(o, w, action)
  {
    assert [action][..0] == [];
  }

  lemma RunStep(o: Options, w: World, actions: seq<Action>, action: Action)
    ensures Run(o, w, actions + [action]) == Next(o, Run(o, w, actions), action)
  {
    assert (actions + [action])[..|actions|] == actions;
  }

  lemma ReconcileOnStep(o: Options, w0: World, steps: seq<Action>, shards: Shards, n: Node, me: Silo, elapsedMs: int, order: seq<ShardKey>)
    requires World(shards, map[me := n]) == Run(o, w0, steps)
    ensures var e := ReconcileStep(o, shards, n, me, elapsedMs, order);
      World(e.shards, map[me := e.n]) == Run(o, w0, steps + [ReconcileOn(me, elapsedMs, order)])
  {
    RunStep(o, w0, steps, ReconcileOn(me, elapsedMs, order));
    hide Run, ReconcileStep;
    var e := ReconcileStep(o, shards, n, me, elapsedMs, order);
    assert map[me := n][me := e.n] == map[me := e.n];
  }

  lemma StopOnStep(o: Options, w0: World, steps: seq<Action>, shards: Shards, n: Node, me: Silo)
    requires World(shards, map[me := n]) == Run(o, w0, steps)
    ensures var e := StopStep(shards, n, me); World(e.shards, map[me := e.n]) == Run(o, w0, steps + [StopOn(me)])
  {
    RunStep(o, w0, steps, StopOn(me));
    var e := StopStep(shards, n, me);
    assert map[me := n][me := e.n] == map[me := e.n];
  }

  lemma WithoutElements(keys: seq<ShardKey>, key: ShardKey)
    ensures forall k :: k in Without(keys, key) <==> k in keys && k != key
  {
    forall k ensures k in Without(keys, key) <==> k in keys && k != key {
      ShardSafety.WithoutHas(keys, key, k);
    }
  }

  lemma {:induction false} OwnedInListing(me: Silo, listed: seq<(ShardKey, Record)>, key: ShardKey) returns (i: nat)
    requires key in OwnedKeys(me, listed)
    ensures i < |listed| && listed[i].0 == key && listed[i].1.owner == Some(me)
  {
    if listed[0].1.owner == Some(me) && listed[0].0 == key {
      i := 0;
    } else {
      i := OwnedInListing(me, listed[1..], key);
      i := i + 1;
    }
  }

  lemma OwnedKeysAreOwned(me: Silo, order: seq<ShardKey>, shards: Shards)
    ensures forall key | key in OwnedKeys(me, Listing(order, shards)) :: key in shards && shards[key].record.owner == Some(me)
  {
    forall key | key in OwnedKeys(me, Listing(order, shards)) ensures key in shards && shards[key].record.owner == Some(me) {
      var i := OwnedInListing(me, Listing(order, shards), key);
      ListingIsCurrent(order, shards, i);
    }
  }
}
