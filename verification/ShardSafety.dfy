/** No shard is executed on two silos, and a poisoned shard is never owned again. */
module ShardSafety {
  import opened Wrappers
  import opened JobShardStore
  import opened OrderedMap
  import opened ShardOwnership

  ghost predicate Mine(shards: Shards, key: ShardKey, me: Silo) {
    RecordOf(shards, key).owner == Some(me)
  }

  // ----- What one silo relies on -----

  ghost predicate ClaimGood(shards: Shards, me: Silo, stopped: bool, c: Claimed) {
    c.won && !stopped ==> Mine(shards, c.key, me)
  }

  ghost predicate ListedGood(shards: Shards, me: Silo, stopped: bool, l: (ShardKey, Record)) {
    l.1.owner == Some(me) && !stopped ==> Mine(shards, l.0, me)
  }

  ghost predicate ReconcilingGood(shards: Shards, me: Silo, n: Node) {
    match n.reconciling
    case Resuming(listed, _, _) => forall i | 0 <= i < |listed| :: ListedGood(shards, me, n.stopped, listed[i])
    case Claiming(_, _, _, Some(c)) => ClaimGood(shards, me, n.stopped, c)
    case _ => true
  }

  ghost predicate Distinct(keys: seq<ShardKey>) {
    forall i, j | 0 <= i < j < |keys| :: keys[i] != keys[j]
  }

  ghost predicate StoppingGood(n: Node) {
    && (n.stopping.NotStopping? <==> !n.stopped)
    && (n.stopping.Releasing? ==> n.reconciling.NotReconciling? && n.executors == n.stopping.left)
    && (n.stopping.Releasing? && n.stopping.draining.Some? ==> n.stopping.draining.value !in n.executors)
    && (n.stopping.HasStopped? ==> n.reconciling.NotReconciling? && n.executors == [])
  }

  ghost predicate ExecutesOwn(shards: Shards, me: Silo, n: Node) {
    forall key | Executes(n, key) :: Mine(shards, key, me)
  }

  ghost predicate NodeInv(shards: Shards, me: Silo, n: Node) {
    && ExecutesOwn(shards, me, n)
    && (forall i | 0 <= i < |n.claims| :: ClaimGood(shards, me, n.stopped, n.claims[i]))
    && ReconcilingGood(shards, me, n)
    && Distinct(n.executors)
    && StoppingGood(n)
  }

  /** Every shard a live silo executes is recorded as that silo's. */
  ghost predicate Inv(w: World) {
    forall me | me in w.nodes :: NodeInv(w.shards, me, w.nodes[me])
  }

  /** A shard is poisoned exactly when it has been adopted too often, and then has no owner. */
  ghost predicate RecordGood(o: Options, r: Record) {
    && (r.poisoned ==> r.owner.None?)
    && (r.poisoned <==> r.adoptedCount > o.maxAdoptedCount)
  }

  ghost predicate PoisonInv(o: Options, w: World) {
    forall key :: RecordGood(o, RecordOf(w.shards, key))
  }

  // ----- The effect of a step on the records -----

  ghost predicate KeptFor(shards: Shards, shards': Shards, key: ShardKey, who: Silo) {
    Mine(shards, key, who) ==> Mine(shards', key, who)
  }

  ghost predicate KeepsAllFor(shards: Shards, shards': Shards, who: Silo) {
    forall key :: KeptFor(shards, shards', key, who)
  }

  /** A silo whose records all stay its own stays good. */
  lemma KeepsNode(shards: Shards, shards': Shards, me: Silo, n: Node)
    requires NodeInv(shards, me, n) && KeepsAllFor(shards, shards', me)
    ensures NodeInv(shards', me, n)
  {
    forall key | Executes(n, key) ensures Mine(shards', key, me) {
      assert KeptFor(shards, shards', key, me);
    }
    forall i | 0 <= i < |n.claims| ensures ClaimGood(shards', me, n.stopped, n.claims[i]) {
      assert ClaimGood(shards, me, n.stopped, n.claims[i]) && KeptFor(shards, shards', n.claims[i].key, me);
    }
    match n.reconciling
    case Resuming(listed, _, _) =>
      forall i | 0 <= i < |listed| ensures ListedGood(shards', me, n.stopped, listed[i]) {
        assert ListedGood(shards, me, n.stopped, listed[i]) && KeptFor(shards, shards', listed[i].0, me);
      }
    case Claiming(_, _, _, Some(c)) => assert KeptFor(shards, shards', c.key, me);
    case _ =>
  }

  lemma ClaimKeeps(o: Options, shards: Shards, me: Silo, key: ShardKey, dead: set<Silo>, who: Silo)
    requires who !in dead
    ensures var (r, won) := Claim(RecordOf(shards, key), me, dead, o.maxAdoptedCount);
      KeepsAllFor(shards, WithRecord(shards, key, r), who) && (won ==> Mine(WithRecord(shards, key, r), key, me))
  {
    var (r, won) := Claim(RecordOf(shards, key), me, dead, o.maxAdoptedCount);
    forall other ensures KeptFor(shards, WithRecord(shards, key, r), other, who) {
      if other == key {
        ClaimOutcome(RecordOf(shards, key), me, dead, o.maxAdoptedCount);
      }
    }
  }

  lemma ReleaseKeepsOthers(shards: Shards, key: ShardKey, me: Silo, who: Silo)
    requires who != me
    ensures KeepsAllFor(shards, ReleaseAt(shards, key, me), who)
  {
    forall other ensures KeptFor(shards, ReleaseAt(shards, key, me), other, who) {
    }
  }

  // ----- The acting silo -----

  lemma {:induction false} WithoutHas(keys: seq<ShardKey>, key: ShardKey, x: ShardKey)
    ensures x in Without(keys, key) <==> x in keys && x != key
  {
    if keys != [] {
      WithoutHas(keys[1..], key, x);
      assert keys == [keys[0]] + keys[1..];
    }
  }

  lemma {:induction false} WithoutDistinct(keys: seq<ShardKey>, key: ShardKey)
    requires Distinct(keys)
    ensures Distinct(Without(keys, key))
    ensures key !in keys ==> Without(keys, key) == keys
  {
    if keys != [] {
      WithoutDistinct(keys[1..], key);
      WithoutHas(keys[1..], key, keys[0]);
      assert keys == [keys[0]] + keys[1..];
    }
  }

  lemma HeadIsGone(keys: seq<ShardKey>)
    requires Distinct(keys) && keys != []
    ensures Without(keys, keys[0]) == keys[1..] && keys[0] !in keys[1..]
  {
    WithoutDistinct(keys[1..], keys[0]);
  }

  lemma StartGood(shards: Shards, me: Silo, n: Node, key: ShardKey)
    requires NodeInv(shards, me, n) && (!n.stopped ==> Mine(shards, key, me))
    ensures NodeInv(shards, me, StartExecutor(n, key))
  {
    var n' := StartExecutor(n, key);
    forall k | Executes(n', k) ensures Mine(shards, k, me) {
      assert k == key || Executes(n, k);
    }
  }

  /** Releasing a shard that is not being executed harms nobody once the silo is stopping. */
  lemma ReleaseKeepsStopped(shards: Shards, me: Silo, n: Node, key: ShardKey)
    requires NodeInv(shards, me, n) && n.stopped && !Executes(n, key)
    ensures NodeInv(ReleaseAt(shards, key, me), me, n)
  {
    var shards' := ReleaseAt(shards, key, me);
    forall k | Executes(n, k) ensures Mine(shards', k, me) {
      assert Mine(shards, k, me) && k != key;
    }
    forall i | 0 <= i < |n.claims| ensures ClaimGood(shards', me, n.stopped, n.claims[i]) {
    }
    match n.reconciling
    case Resuming(listed, _, _) =>
      forall i | 0 <= i < |listed| ensures ListedGood(shards', me, n.stopped, listed[i]) {
      }
    case _ =>
  }

  lemma ClaimReturnedGood(shards: Shards, me: Silo, n: Node, c: Claimed)
    requires NodeInv(shards, me, n) && ClaimGood(shards, me, n.stopped, c)
    requires !(c.won && n.stopped && Executes(n, c.key))
    ensures var e := ClaimReturned(shards, n, me, c); NodeInv(e.shards, me, e.n)
  {
    if c.won {
      if n.stopped {
        ReleaseKeepsStopped(shards, me, n, c.key);
      } else {
        StartGood(shards, me, n, c.key);
      }
    }
  }

  lemma EnsureGood(o: Options, shards: Shards, me: Silo, n: Node, key: ShardKey)
    requires NodeInv(shards, me, n)
    ensures var e := EnsureOwned(o, shards, n, me, key); NodeInv(e.shards, me, e.n)
  {
    if key !in n.executors && !n.stopped {
      var (r, won) := Claim(RecordOf(shards, key), me, {}, o.maxAdoptedCount);
      var shards' := WithRecord(shards, key, r);
      ClaimKeeps(o, shards, me, key, {}, me);
      KeepsNode(shards, shards', me, n);
      var n' := n.(claims := n.claims + [Claimed(key, won)]);
      forall k | Executes(n', k) ensures Mine(shards', k, me) { assert Executes(n, k); }
      forall i | 0 <= i < |n'.claims| ensures ClaimGood(shards', me, n'.stopped, n'.claims[i]) {
        assert i < |n.claims| ==> ClaimGood(shards', me, n.stopped, n.claims[i]);
      }
    }
  }

  /** A change of the reconciliation's place alone, its own facts holding, keeps the silo good. */
  lemma MoveOn(shards: Shards, me: Silo, n: Node, n': Node)
    requires NodeInv(shards, me, n)
    requires n' == n.(reconciling := n'.reconciling, claimedSinceJoin := n'.claimedSinceJoin)
    requires ReconcilingGood(shards, me, n')
    requires n'.reconciling.Dropping? && n'.reconciling.draining.Some? ==> Mine(shards, n'.reconciling.draining.value, me)
    requires n.reconciling.NotReconciling? ==> n'.reconciling.NotReconciling? || !n.stopped
    ensures NodeInv(shards, me, n')
  {
    forall key | Executes(n', key) ensures Mine(shards, key, me) {
      assert Executes(n, key) || (n'.reconciling.Dropping? && n'.reconciling.draining == Some(key));
    }
  }

  lemma ResumeGood(shards: Shards, me: Silo, n: Node)
    requires NodeInv(shards, me, n) && n.reconciling.Resuming? && n.reconciling.at < |n.reconciling.listed| && !n.stopped
    ensures var Resuming(listed, at, active) := n.reconciling;
      var next := n.(reconciling := Resuming(listed, at + 1, active));
      NodeInv(shards, me, if listed[at].1.owner == Some(me) then StartExecutor(next, listed[at].0) else next)
  {
    var Resuming(listed, at, active) := n.reconciling;
    var next := n.(reconciling := Resuming(listed, at + 1, active));
    assert ListedGood(shards, me, n.stopped, listed[at]);
    MoveOn(shards, me, n, next);
    if listed[at].1.owner == Some(me) {
      StartGood(shards, me, next, listed[at].0);
    }
  }

  lemma DropGood(shards: Shards, me: Silo, n: Node)
    requires NodeInv(shards, me, n) && n.reconciling.Dropping? && n.reconciling.todo != [] && n.reconciling.draining.None?
    requires n.reconciling.todo[0] in n.executors
    ensures var Dropping(owned, todo, _) := n.reconciling;
      NodeInv(shards, me, n.(executors := Without(n.executors, todo[0]), reconciling := Dropping(owned, todo[1..], Some(todo[0]))))
  {
    var Dropping(owned, todo, _) := n.reconciling;
    var n' := n.(executors := Without(n.executors, todo[0]), reconciling := Dropping(owned, todo[1..], Some(todo[0])));
    WithoutDistinct(n.executors, todo[0]);
    assert Executes(n, todo[0]);
    forall key | Executes(n', key) ensures Mine(shards, key, me) {
      WithoutHas(n.executors, todo[0], key);
      assert key == todo[0] || Executes(n, key);
    }
  }

  lemma ReclaimGood(o: Options, shards: Shards, me: Silo, n: Node)
    requires NodeInv(shards, me, n) && n.reconciling.Claiming? && n.reconciling.waiting.None?
    requires n.reconciling.at < |n.reconciling.claimable| && me !in DeadOwner(n.reconciling.active, n.reconciling.claimable[n.reconciling.at].1)
    ensures var Claiming(claimable, at, active, _) := n.reconciling; var (key, r) := claimable[at];
      var (r', won) := Claim(RecordOf(shards, key), me, DeadOwner(active, r), o.maxAdoptedCount);
      NodeInv(WithRecord(shards, key, r'), me, n.(reconciling := Claiming(claimable, at + 1, active, Some(Claimed(key, won)))))
  {
    var Claiming(claimable, at, active, _) := n.reconciling;
    var (key, r) := claimable[at];
    var (r', won) := Claim(RecordOf(shards, key), me, DeadOwner(active, r), o.maxAdoptedCount);
    ClaimKeeps(o, shards, me, key, DeadOwner(active, r), me);
    KeepsNode(shards, WithRecord(shards, key, r'), me, n);
    MoveOn(WithRecord(shards, key, r'), me, n, n.(reconciling := Claiming(claimable, at + 1, active, Some(Claimed(key, won)))));
  }

  lemma WaitedClaimGood(shards: Shards, me: Silo, n: Node, c: Claimed)
    requires NodeInv(shards, me, n) && n.reconciling.Claiming? && n.reconciling.waiting == Some(c)
    requires !(c.won && n.stopped && Executes(n, c.key))
    ensures var e := ClaimReturned(shards, n, me, c); var Claiming(claimable, at, active, _) := n.reconciling;
      forall claimed: nat ::
        NodeInv(e.shards, me, e.n.(reconciling := Claiming(claimable, at, active, None), claimedSinceJoin := claimed))
  {
    ClaimReturnedGood(shards, me, n, c);
    var e := ClaimReturned(shards, n, me, c);
    var Claiming(claimable, at, active, _) := n.reconciling;
    forall claimed: nat
      ensures NodeInv(e.shards, me, e.n.(reconciling := Claiming(claimable, at, active, None), claimedSinceJoin := claimed))
    {
      MoveOn(e.shards, me, e.n, e.n.(reconciling := Claiming(claimable, at, active, None), claimedSinceJoin := claimed));
    }
  }

  lemma ReconcileStepGood(o: Options, shards: Shards, me: Silo, n: Node, elapsedMs: int, order: seq<ShardKey>)
    requires NodeInv(shards, me, n)
    requires n.reconciling.Claiming? && n.reconciling.waiting.Some? ==>
      var c := n.reconciling.waiting.value; !(c.won && n.stopped && Executes(n, c.key))
    requires n.reconciling.Claiming? && n.reconciling.waiting.None? && n.reconciling.at < |n.reconciling.claimable| ==>
      me !in DeadOwner(n.reconciling.active, n.reconciling.claimable[n.reconciling.at].1)
    ensures var e := ReconcileStep(o, shards, n, me, elapsedMs, order); NodeInv(e.shards, me, e.n)
  {
    var e := ReconcileStep(o, shards, n, me, elapsedMs, order);
    match n.reconciling
    case NotReconciling =>
    case Resuming(listed, at, active) =>
      if at < |listed| && !n.stopped { ResumeGood(shards, me, n); } else { MoveOn(shards, me, n, e.n); }
    case Claiming(claimable, at, active, Some(c)) => WaitedClaimGood(shards, me, n, c);
    case Claiming(claimable, at, active, None) =>
      if at < |claimable| && !n.stopped { ReclaimGood(o, shards, me, n); } else { MoveOn(shards, me, n, e.n); }
    case Relisted(owned) => MoveOn(shards, me, n, e.n);
    case Dropping(owned, todo, draining) =>
      if draining.None? && todo != [] && todo[0] !in owned && todo[0] in n.executors {
        DropGood(shards, me, n);
      } else {
        MoveOn(shards, me, n, e.n);
      }
  }

  lemma StopStepGood(shards: Shards, me: Silo, n: Node)
    requires NodeInv(shards, me, n)
    ensures var e := StopStep(shards, n, me); NodeInv(e.shards, me, e.n)
  {
    var e := StopStep(shards, n, me);
    match n.stopping
    case AwaitReconciling =>
      forall key | Executes(e.n, key) ensures Mine(shards, key, me) { assert Executes(n, key); }
    case Releasing(left, Some(key)) =>
      var n' := n.(stopping := Releasing(left, None));
      forall k | Executes(n', k) ensures Mine(shards, k, me) && k != key { assert Executes(n, k); }
      ReleaseKeepsStopped(shards, me, n', key);
    case Releasing(left, None) =>
      if left != [] {
        HeadIsGone(left);
        assert Executes(n, left[0]);
      }
      forall key | Executes(e.n, key) ensures Mine(shards, key, me) { assert Executes(n, key); }
    case _ =>
  }

  // ----- All silos -----

  lemma TakeKeepsInv(w: World, me: Silo, e: Effect)
    requires Inv(w) && me in w.nodes && NodeInv(e.shards, me, e.n)
    requires forall who | who in w.nodes && who != me :: KeepsAllFor(w.shards, e.shards, who)
    ensures Inv(Take(w, me, e))
  {
    var w' := Take(w, me, e);
    forall who | who in w'.nodes ensures NodeInv(w'.shards, who, w'.nodes[who]) {
      if who != me {
        assert KeepsAllFor(w.shards, e.shards, who);
        KeepsNode(w.shards, e.shards, who, w.nodes[who]);
      }
    }
  }

  lemma SameShardsKeepsInv(w: World, me: Silo, n: Node)
    requires Inv(w) && me in w.nodes && NodeInv(w.shards, me, n)
    ensures Inv(Take(w, me, Effect(w.shards, n)))
  {
    forall who | who in w.nodes ensures KeepsAllFor(w.shards, w.shards, who) {
      assert forall key :: KeptFor(w.shards, w.shards, key, who);
    }
    TakeKeepsInv(w, me, Effect(w.shards, n));
  }

  lemma ClaimReturnKeepsInv(w: World, me: Silo, k: nat)
    requires Inv(w) && me in w.nodes && k < |w.nodes[me].claims|
    requires var n := w.nodes[me]; var c := n.claims[k]; !(c.won && n.stopped && Executes(n, c.key))
    ensures var n := w.nodes[me];
      Inv(Take(w, me, ClaimReturned(w.shards, n.(claims := n.claims[..k] + n.claims[k + 1..]), me, n.claims[k])))
  {
    var n := w.nodes[me];
    var c := n.claims[k];
    var n' := n.(claims := n.claims[..k] + n.claims[k + 1..]);
    assert NodeInv(w.shards, me, n') by {
      forall key | Executes(n', key) ensures Mine(w.shards, key, me) { assert Executes(n, key); }
      forall i | 0 <= i < |n'.claims| ensures ClaimGood(w.shards, me, n'.stopped, n'.claims[i]) {
        assert ClaimGood(w.shards, me, n.stopped, n.claims[if i < k then i else i + 1]);
      }
    }
    ClaimReturnedGood(w.shards, me, n', c);
    forall who | who in w.nodes && who != me ensures KeepsAllFor(w.shards, ClaimReturned(w.shards, n', me, c).shards, who) {
      ReleaseKeepsOthers(w.shards, c.key, me, who);
      assert forall key :: KeptFor(w.shards, w.shards, key, who);
    }
    TakeKeepsInv(w, me, ClaimReturned(w.shards, n', me, c));
  }

  lemma EnsureKeepsInv(o: Options, w: World, me: Silo, key: ShardKey)
    requires Inv(w) && me in w.nodes
    ensures Inv(Take(w, me, EnsureOwned(o, w.shards, w.nodes[me], me, key)))
  {
    EnsureGood(o, w.shards, me, w.nodes[me], key);
    var e := EnsureOwned(o, w.shards, w.nodes[me], me, key);
    forall who | who in w.nodes && who != me ensures KeepsAllFor(w.shards, e.shards, who) {
      ClaimKeeps(o, w.shards, me, key, {}, who);
      assert forall k :: KeptFor(w.shards, w.shards, k, who);
    }
    TakeKeepsInv(w, me, e);
  }

  lemma ReconcileOnKeepsInv(o: Options, w: World, me: Silo, elapsedMs: int, order: seq<ShardKey>)
    requires Inv(w) && me in w.nodes
    requires Legal(w, ReconcileOn(me, elapsedMs, order)) && !EarlyRelease(w, ReconcileOn(me, elapsedMs, order))
    ensures Inv(Take(w, me, ReconcileStep(o, w.shards, w.nodes[me], me, elapsedMs, order)))
  {
    var n := w.nodes[me];
    var e := ReconcileStep(o, w.shards, n, me, elapsedMs, order);
    ReconcileStepGood(o, w.shards, me, n, elapsedMs, order);
    forall who | who in w.nodes && who != me ensures KeepsAllFor(w.shards, e.shards, who) {
      assert forall k :: KeptFor(w.shards, w.shards, k, who);
      match n.reconciling
      case Claiming(claimable, at, active, Some(c)) => ReleaseKeepsOthers(w.shards, c.key, me, who);
      case Claiming(claimable, at, active, None) =>
        if at < |claimable| { ClaimKeeps(o, w.shards, me, claimable[at].0, DeadOwner(active, claimable[at].1), who); }
      case _ =>
    }
    TakeKeepsInv(w, me, e);
  }

  lemma StopOnKeepsInv(w: World, me: Silo)
    requires Inv(w) && me in w.nodes
    ensures Inv(Take(w, me, StopStep(w.shards, w.nodes[me], me)))
  {
    var e := StopStep(w.shards, w.nodes[me], me);
    StopStepGood(w.shards, me, w.nodes[me]);
    forall who | who in w.nodes && who != me ensures KeepsAllFor(w.shards, e.shards, who) {
      assert forall k :: KeptFor(w.shards, w.shards, k, who);
      if w.nodes[me].stopping.Releasing? && w.nodes[me].stopping.draining.Some? {
        ReleaseKeepsOthers(w.shards, w.nodes[me].stopping.draining.value, me, who);
      }
    }
    TakeKeepsInv(w, me, e);
  }

  lemma BeginReconcileKeepsInv(w: World, me: Silo, active: set<Silo>, order: seq<ShardKey>)
    requires Inv(w) && me in w.nodes && w.nodes[me].reconciling.NotReconciling? && !w.nodes[me].stopped
    ensures Inv(Take(w, me, Effect(w.shards, w.nodes[me].(reconciling := Resuming(Listing(order, w.shards), 0, active)))))
  {
    var n := w.nodes[me];
    var n' := n.(reconciling := Resuming(Listing(order, w.shards), 0, active));
    forall i | 0 <= i < |Listing(order, w.shards)| ensures ListedGood(w.shards, me, n.stopped, Listing(order, w.shards)[i]) {
      ListingIsCurrent(order, w.shards, i);
    }
    MoveOn(w.shards, me, n, n');
    SameShardsKeepsInv(w, me, n');
  }

  lemma StopKeepsInv(w: World, me: Silo)
    requires Inv(w) && me in w.nodes && w.nodes[me].stopping.NotStopping?
    ensures Inv(Take(w, me, Effect(w.shards, w.nodes[me].(stopped := true, stopping := AwaitReconciling))))
  {
    var n := w.nodes[me];
    var n' := n.(stopped := true, stopping := AwaitReconciling);
    forall key | Executes(n', key) ensures Mine(w.shards, key, me) { assert Executes(n, key); }
    SameShardsKeepsInv(w, me, n');
  }

  lemma NextKeepsInv(o: Options, w: World, action: Action)
    requires Inv(w) && Legal(w, action) && !EarlyRelease(w, action)
    ensures Inv(Next(o, w, action))
  {
    hide NodeInv;
    match action
    case Join(me) => FreshGood(w.shards, me);
    case Jobs(key, jobs) =>
      forall who | who in w.nodes ensures NodeInv(Next(o, w, action).shards, who, w.nodes[who]) {
        forall k ensures KeptFor(w.shards, Next(o, w, action).shards, k, who) {
        }
        KeepsNode(w.shards, Next(o, w, action).shards, who, w.nodes[who]);
      }
    case Ensure(me, key) => if me in w.nodes { EnsureKeepsInv(o, w, me, key); }
    case ClaimReturn(me, k) => if me in w.nodes && k < |w.nodes[me].claims| { ClaimReturnKeepsInv(w, me, k); }
    case Reconcile(me, active, order) =>
      if me in w.nodes && w.nodes[me].reconciling.NotReconciling? && !w.nodes[me].stopped {
        BeginReconcileKeepsInv(w, me, active, order);
      }
    case ReconcileOn(me, elapsedMs, order) => if me in w.nodes { ReconcileOnKeepsInv(o, w, me, elapsedMs, order); }
    case Stop(me) => if me in w.nodes && w.nodes[me].stopping.NotStopping? { StopKeepsInv(w, me); }
    case StopOn(me) => if me in w.nodes { StopOnKeepsInv(w, me); }
    case _ =>
  }

  lemma FreshGood(shards: Shards, me: Silo)
    ensures NodeInv(shards, me, FRESH)
  {
  }

  /** Every step of the run is legal, and none is an early release. */
  ghost predicate Proper(o: Options, actions: seq<Action>) {
    forall i | 0 <= i < |actions| :: ProperAt(o, actions, i)
  }

  ghost predicate ProperAt(o: Options, actions: seq<Action>, i: nat)
    requires i < |actions|
  {
    Legal(Run(o, EMPTY, actions[..i]), actions[i]) && !EarlyRelease(Run(o, EMPTY, actions[..i]), actions[i])
  }

  lemma {:induction false} RunKeepsInv(o: Options, actions: seq<Action>)
    requires Proper(o, actions)
    ensures Inv(Run(o, EMPTY, actions))
    decreases |actions|
  {
    if actions != [] {
      var init := actions[..|actions| - 1];
      forall i | 0 <= i < |init| ensures ProperAt(o, init, i) {
        assert ProperAt(o, actions, i) && init[..i] == actions[..i];
      }
      RunKeepsInv(o, init);
      assert ProperAt(o, actions, |actions| - 1);
      NextKeepsInv(o, Run(o, EMPTY, init), actions[|actions| - 1]);
    }
  }

  /**
   * No shard is executed on two silos: over any run in which adoption takes only from silos that are
   * down and no step is an early release, a shard with an executor or a run still draining on a live
   * silo is recorded as owned by that silo, so by no other.
   */
  lemma NoShardOnTwoSilos(o: Options, actions: seq<Action>, i: Silo, j: Silo, key: ShardKey)
    requires Proper(o, actions)
    requires var w := Run(o, EMPTY, actions);
      i in w.nodes && j in w.nodes && Executes(w.nodes[i], key) && Executes(w.nodes[j], key)
    ensures i == j && RecordOf(Run(o, EMPTY, actions).shards, key).owner == Some(i)
  {
    RunKeepsInv(o, actions);
    var w := Run(o, EMPTY, actions);
    assert NodeInv(w.shards, i, w.nodes[i]) && NodeInv(w.shards, j, w.nodes[j]);
    assert Mine(w.shards, key, i) && Mine(w.shards, key, j);
  }

  // ----- Poisoned shards -----

  lemma ClaimKeepsRecord(o: Options, r: Record, me: Silo, dead: set<Silo>)
    requires RecordGood(o, r)
    ensures var (r', _) := Claim(r, me, dead, o.maxAdoptedCount); RecordGood(o, r') && (r.poisoned ==> r' == r)
  {
  }

  ghost predicate PoisonStays(shards: Shards, shards': Shards, key: ShardKey) {
    RecordOf(shards, key).poisoned ==> RecordOf(shards', key).poisoned && RecordOf(shards', key).owner.None?
  }

  /** Whatever the silos do, lawful or not, a poisoned shard stays poisoned and without an owner. */
  lemma NextKeepsPoison(o: Options, w: World, action: Action, key: ShardKey)
    requires PoisonInv(o, w)
    ensures PoisonInv(o, Next(o, w, action)) && PoisonStays(w.shards, Next(o, w, action).shards, key)
  {
    var w' := Next(o, w, action);
    forall k ensures RecordGood(o, RecordOf(w'.shards, k)) && PoisonStays(w.shards, w'.shards, k) {
      assert RecordGood(o, RecordOf(w.shards, k));
      match action
      case Ensure(me, key) => ClaimKeepsRecord(o, RecordOf(w.shards, key), me, {});
      case ReconcileOn(me, _, _) =>
        if me in w.nodes && w.nodes[me].reconciling.Claiming? && w.nodes[me].reconciling.waiting.None?
          && w.nodes[me].reconciling.at < |w.nodes[me].reconciling.claimable| {
          var Claiming(claimable, at, active, _) := w.nodes[me].reconciling;
          ClaimKeepsRecord(o, RecordOf(w.shards, claimable[at].0), me, DeadOwner(active, claimable[at].1));
        }
      case _ =>
    }
  }

  lemma {:induction false} RunKeepsPoison(o: Options, actions: seq<Action>)
    ensures PoisonInv(o, Run(o, EMPTY, actions))
    decreases |actions|
  {
    if actions != [] {
      RunKeepsPoison(o, actions[..|actions| - 1]);
      NextKeepsPoison(o, Run(o, EMPTY, actions[..|actions| - 1]), actions[|actions| - 1], 0);
    }
  }

  /**
   * Once a shard is poisoned, which is when it has been adopted more than `maxAdoptedCount` times, no
   * later run ever gives it an owner again; and over a proper run no live silo executes it.
   */
  lemma {:induction false} PoisonedIsNeverOwnedAgain(o: Options, actions: seq<Action>, later: seq<Action>, key: ShardKey)
    requires RecordOf(Run(o, EMPTY, actions).shards, key).poisoned
    ensures var w := Run(o, EMPTY, actions + later);
      && RecordOf(w.shards, key).poisoned && RecordOf(w.shards, key).owner.None?
      && RecordOf(w.shards, key).adoptedCount > o.maxAdoptedCount
      && (Proper(o, actions + later) ==> forall me | me in w.nodes :: !Executes(w.nodes[me], key))
    decreases |later|
  {
    RunKeepsPoison(o, actions + later);
    var w := Run(o, EMPTY, actions + later);
    assert RecordGood(o, RecordOf(w.shards, key));
    if later == [] {
      assert actions + later == actions;
    } else {
      var init := later[..|later| - 1];
      assert (actions + later)[..|actions + later| - 1] == actions + init;
      PoisonedIsNeverOwnedAgain(o, actions, init, key);
      RunKeepsPoison(o, actions + init);
      NextKeepsPoison(o, Run(o, EMPTY, actions + init), later[|later| - 1], key);
    }
    if Proper(o, actions + later) {
      RunKeepsInv(o, actions + later);
      forall me | me in w.nodes ensures !Executes(w.nodes[me], key) {
        assert NodeInv(w.shards, me, w.nodes[me]);
        assert Executes(w.nodes[me], key) ==> Mine(w.shards, key, me);
      }
    }
  }

  // ----- The early release -----

  lemma EarlyReleaseBreaks(o: Options, w: World, action: Action)
    requires Inv(w) && EarlyRelease(w, action)
    ensures !Inv(Next(o, w, action))
  {
    var n, c := w.nodes[action.me], Returning(w, action).value;
    var w' := Next(o, w, action);
    assert NodeInv(w.shards, action.me, n);
    assert Mine(w.shards, c.key, action.me);
    assert Executes(w'.nodes[action.me], c.key);
    assert !Mine(w'.shards, c.key, action.me);
  }

  /** Exactly when a legal step keeps every executed shard with its owner: when it is no early release. */
  lemma SafeIffNoEarlyRelease(o: Options, w: World, action: Action)
    requires Inv(w) && Legal(w, action)
    ensures Inv(Next(o, w, action)) <==> !EarlyRelease(w, action)
  {
    if EarlyRelease(w, action) {
      EarlyReleaseBreaks(o, w, action);
    } else {
      NextKeepsInv(o, w, action);
    }
  }

  /**
   * Two calls schedule into one shard at once, both claim it, and the first starts it; the silo begins
   * to stop before the second returns; another silo is then asked for the shard.
   */
  function EarlyReleaseRun(key: ShardKey): seq<Action> {
    [Join(0), Join(1), Ensure(0, key), Ensure(0, key), ClaimReturn(0, 0), Stop(0), ClaimReturn(0, 0), Ensure(1, key), ClaimReturn(1, 0)]
  }

  lemma RunStep(o: Options, actions: seq<Action>, i: nat)
    requires i < |actions|
    ensures Run(o, EMPTY, actions[..i + 1]) == Next(o, Run(o, EMPTY, actions[..i]), actions[i])
  {
    assert actions[..i + 1][..i] == actions[..i];
  }

  /** Two silos on one store, and who owns the shard, which was never adopted. */
  ghost predicate Two(w: World, key: ShardKey, n0: Node, n1: Node, owner: Option<Silo>) {
    w.nodes == map[0 := n0, 1 := n1] && RecordOf(w.shards, key) == Record(owner, 0, false)
  }

  lemma EnsureStep(o: Options, w: World, key: ShardKey, me: Silo)
    requires me in w.nodes && key !in w.nodes[me].executors && !w.nodes[me].stopped
    requires RecordOf(w.shards, key) == Record(None, 0, false) || RecordOf(w.shards, key) == Record(Some(me), 0, false)
    ensures var n := w.nodes[me]; var w' := Next(o, w, Ensure(me, key));
      w'.nodes == w.nodes[me := n.(claims := n.claims + [Claimed(key, true)])] && RecordOf(w'.shards, key) == Record(Some(me), 0, false)
  {
  }

  lemma StartStep(o: Options, w: World, key: ShardKey, me: Silo)
    requires me in w.nodes && w.nodes[me].claims != [] && w.nodes[me].claims[0] == Claimed(key, true)
    requires w.nodes[me].executors == [] && !w.nodes[me].stopped
    ensures var n := w.nodes[me]; var w' := Next(o, w, ClaimReturn(me, 0));
      w'.nodes == w.nodes[me := n.(executors := [key], claims := n.claims[1..])] && w'.shards == w.shards
  {
    var claims := w.nodes[me].claims;
    assert claims[..0] + claims[1..] == claims[1..];
    assert w.nodes[me].executors + [key] == [key];
  }

  lemma ReleaseStep(o: Options, w: World, key: ShardKey, me: Silo)
    requires me in w.nodes && w.nodes[me].claims == [Claimed(key, true)] && w.nodes[me].stopped
    requires RecordOf(w.shards, key) == Record(Some(me), 0, false)
    ensures var n := w.nodes[me]; var w' := Next(o, w, ClaimReturn(me, 0));
      w'.nodes == w.nodes[me := n.(claims := [])] && RecordOf(w'.shards, key) == Record(None, 0, false)
  {
    var claims := w.nodes[me].claims;
    assert claims[..0] + claims[1..] == [];
  }

  lemma StartStates(o: Options, key: ShardKey)
    ensures Two(Next(o, Next(o, EMPTY, Join(0)), Join(1)), key, FRESH, FRESH, None)
  {
    assert Next(o, Next(o, EMPTY, Join(0)), Join(1)).nodes == map[0 := FRESH, 1 := FRESH];
  }

  lemma StopState(o: Options, w: World, key: ShardKey, n0: Node)
    requires Two(w, key, n0, FRESH, Some(0)) && n0.stopping.NotStopping?
    ensures Two(Next(o, w, Stop(0)), key, n0.(stopped := true, stopping := AwaitReconciling), FRESH, Some(0))
  {
  }

  lemma RunPrefix(o: Options, key: ShardKey)
    ensures var all := EarlyReleaseRun(key);
      Run(o, EMPTY, all[..6]) ==
        Next(o, Next(o, Next(o, Next(o, Next(o, Next(o, EMPTY, all[0]), all[1]), all[2]), all[3]), all[4]), all[5])
    ensures var all := EarlyReleaseRun(key);
      Run(o, EMPTY, all) == Next(o, Next(o, Next(o, Run(o, EMPTY, all[..6]), all[6]), all[7]), all[8])
  {
    hide Next;
    var all := EarlyReleaseRun(key);
    assert all[..0] == [] && all[..9] == all;
    assert Run(o, EMPTY, []) == EMPTY;
    forall i: nat | i < 9 ensures Run(o, EMPTY, all[..i + 1]) == Next(o, Run(o, EMPTY, all[..i]), all[i]) {
      RunStep(o, all, i);
    }
    hide Run;
    assert Run(o, EMPTY, all[..0 + 1]) == Next(o, EMPTY, all[0]);
    assert Run(o, EMPTY, all[..1 + 1]) == Next(o, Run(o, EMPTY, all[..1]), all[1]);
    assert Run(o, EMPTY, all[..2 + 1]) == Next(o, Run(o, EMPTY, all[..2]), all[2]);
    assert Run(o, EMPTY, all[..3 + 1]) == Next(o, Run(o, EMPTY, all[..3]), all[3]);
    assert Run(o, EMPTY, all[..4 + 1]) == Next(o, Run(o, EMPTY, all[..4]), all[4]);
    assert Run(o, EMPTY, all[..5 + 1]) == Next(o, Run(o, EMPTY, all[..5]), all[5]);
    assert Run(o, EMPTY, all[..6 + 1]) == Next(o, Run(o, EMPTY, all[..6]), all[6]);
    assert Run(o, EMPTY, all[..7 + 1]) == Next(o, Run(o, EMPTY, all[..7]), all[7]);
    assert Run(o, EMPTY, all[..8 + 1]) == Next(o, Run(o, EMPTY, all[..8]), all[8]);
  }

  /** The shard runs on silo 0, which is stopping; one claim of it is still to return. */
  lemma UntilStop(o: Options, key: ShardKey)
    ensures var n := FRESH.(executors := [key], claims := [Claimed(key, true)], stopped := true, stopping := AwaitReconciling);
      Two(Run(o, EMPTY, EarlyReleaseRun(key)[..6]), key, n, FRESH, Some(0))
  {
    hide Run, Next;
    RunPrefix(o, key);
    StartStates(o, key);
    var w2 := Next(o, Next(o, EMPTY, Join(0)), Join(1));
    EnsureStep(o, w2, key, 0);
    var w3 := Next(o, w2, Ensure(0, key));
    EnsureStep(o, w3, key, 0);
    var w4 := Next(o, w3, Ensure(0, key));
    StartStep(o, w4, key, 0);
    var w5 := Next(o, w4, ClaimReturn(0, 0));
    assert w4.nodes[0].claims[1..] == [Claimed(key, true)];
    StopState(o, w5, key, FRESH.(executors := [key], claims := [Claimed(key, true)]));
  }

  lemma NothingAdopted(w: World, action: Action)
    requires !action.ReconcileOn?
    ensures Legal(w, action)
  {
  }

  /** A legal run with an early release, after which two live silos execute one shard. */
  lemma TwoSilosAfterEarlyRelease(o: Options, key: ShardKey)
    ensures var actions := EarlyReleaseRun(key); var w := Run(o, EMPTY, actions);
      && (forall i | 0 <= i < |actions| :: Legal(Run(o, EMPTY, actions[..i]), actions[i]))
      && EarlyRelease(Run(o, EMPTY, actions[..6]), actions[6])
      && 0 in w.nodes && 1 in w.nodes
      && Executes(w.nodes[0], key) && Executes(w.nodes[1], key)
      && RecordOf(w.shards, key).owner == Some(1)
  {
    hide Run, Next, Legal;
    var all := EarlyReleaseRun(key);
    forall i | 0 <= i < |all| ensures Legal(Run(o, EMPTY, all[..i]), all[i]) {
      NothingAdopted(Run(o, EMPTY, all[..i]), all[i]);
    }
    RunPrefix(o, key);
    UntilStop(o, key);
    var w6 := Run(o, EMPTY, all[..6]);
    assert key in w6.nodes[0].executors && w6.nodes[0].claims[0] == Claimed(key, true);
    ReleaseStep(o, w6, key, 0);
    var w7 := Next(o, w6, all[6]);
    EnsureStep(o, w7, key, 1);
    var w8 := Next(o, w7, all[7]);
    StartStep(o, w8, key, 1);
    var w9 := Next(o, w8, all[8]);
    assert key in w9.nodes[0].executors && key in w9.nodes[1].executors;
  }

  // ----- The ramp-up of a silo that has joined -----

  lemma DivBounds(a: int, n: int)
    requires 0 <= a && n > 0
    ensures 0 <= a / n && n * (a / n) <= a < n * (a / n) + n
  {
    assert a == n * (a / n) + a % n;
  }

  lemma TruncDivMonotone(a: int, b: int, n: int)
    requires 0 <= a <= b && n > 0
    ensures 0 <= TruncDiv(a, n) <= TruncDiv(b, n)
  {
    DivBounds(a, n);
    DivBounds(b, n);
    if a / n > b / n {
      ScaleMonotone(1, a / n - b / n, n);
    }
  }

  lemma ScaleMonotone(a: int, b: int, f: int)
    requires 0 <= a <= b && 0 <= f
    ensures 0 <= a * f <= b * f
  {
  }

  lemma NoSmallMultiple(n: int, d: int)
    requires 0 <= n * d < n
    ensures d == 0
  {
    if d >= 1 {
      ScaleMonotone(1, d, n);
    } else if d <= -1 {
      ScaleMonotone(1, -d, n);
    }
  }

  lemma ScaledBelow(a: int, n: int, f: int)
    requires 0 <= a < n && 0 <= f
    ensures TruncDiv(a * f, n) <= f
  {
    ScaleMonotone(a, n, f);
    var q := (n * f) / n;
    assert n * f == n * q + (n * f) % n;
    assert n * (f - q) == n * f - n * q;
    NoSmallMultiple(n, f - q);
    TruncDivMonotone(a * f, n * f, n);
  }

  /** While the ramp-up lasts, the budget grows with time, from the initial one to at most the maximum. */
  lemma RampIsMonotone(o: Options, e: int, later: int)
    requires 0 <= e <= later < o.rampUpMs && o.initialBudget <= o.maxBudget
    ensures RampBudget(o, e).Some? && RampBudget(o, later).Some?
    ensures o.initialBudget <= RampBudget(o, e).value <= RampBudget(o, later).value <= o.maxBudget
  {
    var gain := o.maxBudget - o.initialBudget;
    ScaleMonotone(e, later, gain);
    ScaleMonotone(0, e, gain);
    TruncDivMonotone(e * gain, later * gain, o.rampUpMs);
    ScaledBelow(later, o.rampUpMs, gain);
  }

  /** What the reconciliation under way may still claim. */
  function Remaining(n: Node): nat {
    match n.reconciling
    case Claiming(claimable, at, _, waiting) =>
      (if at <= |claimable| then |claimable| - at else 0) + if waiting.Some? then 1 else 0
    case _ => 0
  }

  ghost predicate WithinBudget(n: Node, cap: int) {
    n.claimedSinceJoin + Remaining(n) <= cap
  }

  lemma ReconcileStepWithinBudget(o: Options, shards: Shards, n: Node, me: Silo, elapsedMs: int, order: seq<ShardKey>, until: int)
    requires 0 <= elapsedMs <= until < o.rampUpMs && 0 <= o.initialBudget <= o.maxBudget
    requires WithinBudget(n, RampBudget(o, until).value)
    ensures WithinBudget(ReconcileStep(o, shards, n, me, elapsedMs, order).n, RampBudget(o, until).value)
  {
    RampIsMonotone(o, elapsedMs, until);
  }

  /** While its ramp-up lasts, a silo has claimed by reconciliation at most what the ramp allows by then. */
  lemma {:induction false} ClaimsStayWithinRamp(o: Options, actions: seq<Action>, me: Silo, until: int)
    requires 0 <= until < o.rampUpMs && 0 <= o.initialBudget <= o.maxBudget
    requires forall i | 0 <= i < |actions| && actions[i].ReconcileOn? && actions[i].me == me :: 0 <= actions[i].elapsedMs <= until
    requires me in Run(o, EMPTY, actions).nodes
    ensures WithinBudget(Run(o, EMPTY, actions).nodes[me], RampBudget(o, until).value)
    ensures Run(o, EMPTY, actions).nodes[me].claimedSinceJoin <= RampBudget(o, until).value <= o.maxBudget
    decreases |actions|
  {
    RampIsMonotone(o, until, until);
    if actions != [] {
      var init, last := actions[..|actions| - 1], actions[|actions| - 1];
      var w := Run(o, EMPTY, init);
      if me in w.nodes {
        ClaimsStayWithinRamp(o, init, me, until);
        if last.ReconcileOn? && last.me == me {
          ReconcileStepWithinBudget(o, w.shards, w.nodes[me], me, last.elapsedMs, last.order, until);
        }
      }
    }
  }
}
