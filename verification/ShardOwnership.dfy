/**
 * Which silo runs which shard: the managers of any number of silos on one store, step by step
 * between their awaits, through claims, adoption, poisoning, reconciliation, draining, release,
 * crashes and restarts.
 */
module ShardOwnership {
  import opened Wrappers
  import opened JobShardStore
  import opened OrderedMap

  type Shards = map<ShardKey, ShardState>
  type Listed = seq<(ShardKey, Record)>

  datatype Options = Options(
    maxAdoptedCount: nat, claimRampUpBudget: int,
    rampUpMs: int, initialBudget: int, maxBudget: int)

  // ----- The claim budget -----

  function TruncDiv(a: int, b: int): int
    requires b > 0
  {
    if a >= 0 then a / b else -(-a / b)
  }

  /** The budget before what has been claimed is taken off, `None` for no limit. */
  function RampBudget(o: Options, elapsedMs: int): Option<int> {
    if o.rampUpMs <= 0 || elapsedMs >= o.rampUpMs then None
    else Some(o.initialBudget + TruncDiv(elapsedMs * (o.maxBudget - o.initialBudget), o.rampUpMs))
  }

  function ComputeClaimBudget(o: Options, elapsedMs: int, claimed: nat): Option<nat> {
    match RampBudget(o, elapsedMs)
    case None => None
    case Some(budget) => Some(if budget - claimed > 0 then budget - claimed else 0)
  }

  function ClaimBudget(pending: nat, budget: int): nat {
    if budget <= 0 then 0 else if pending <= budget then pending else budget
  }

  function ClaimBudgetForThisStep(o: Options, elapsedMs: int, claimed: nat, claimable: nat): (limit: nat)
    ensures limit <= claimable
  {
    if o.rampUpMs <= 0 then ClaimBudget(claimable, o.claimRampUpBudget)
    else
      match ComputeClaimBudget(o, elapsedMs, claimed)
      case None => claimable
      case Some(budget) => if claimable <= budget then claimable else budget
  }

  // ----- One silo -----

  /** A claim the store has answered and the manager has not looked at yet. */
  datatype Claimed = Claimed(key: ShardKey, won: bool)

  /** The awaits of a reconciliation. */
  datatype Reconciling =
    | NotReconciling
    | Resuming(listed: Listed, at: nat, active: set<Silo>)
    | Claiming(claimable: Listed, at: nat, active: set<Silo>, waiting: Option<Claimed>)
    | Relisted(owned: seq<ShardKey>)
    | Dropping(owned: seq<ShardKey>, todo: seq<ShardKey>, draining: Option<ShardKey>)

  /** The awaits of `stop()`. */
  datatype Stopping =
    | NotStopping
    | AwaitReconciling
    | Releasing(left: seq<ShardKey>, draining: Option<ShardKey>)
    | HasStopped

  /**
   * A silo's manager. `executors` are the shards it runs; an executor that has been taken out but is
   * still draining its runs is the `draining` of the loop that waits for it.
   */
  datatype Node = Node(
    executors: seq<ShardKey>, claims: seq<Claimed>, reconciling: Reconciling,
    stopped: bool, stopping: Stopping, claimedSinceJoin: nat)

  const FRESH := Node([], [], NotReconciling, false, NotStopping, 0)

  datatype World = World(shards: Shards, nodes: map<Silo, Node>)

  function RecordOf(shards: Shards, key: ShardKey): Record {
    if key in shards then shards[key].record else BLANK.record
  }

  function WithRecord(shards: Shards, key: ShardKey, r: Record): Shards {
    shards[key := (if key in shards then shards[key] else BLANK).(record := r)]
  }

  function Without(keys: seq<ShardKey>, key: ShardKey): seq<ShardKey> {
    if keys == [] then [] else (if keys[0] == key then [] else [keys[0]]) + Without(keys[1..], key)
  }

  /** A step's effect on the store and on the silo that takes it. */
  datatype Effect = Effect(shards: Shards, n: Node)

  function ReleaseAt(shards: Shards, key: ShardKey, me: Silo): Shards {
    if key in shards then WithRecord(shards, key, Release(shards[key].record, me)) else shards
  }

  function StartExecutor(n: Node, key: ShardKey): Node {
    if key in n.executors || n.stopped then n else n.(executors := n.executors + [key])
  }

  /** The rest of `claimAndStart`: a manager that has begun to stop hands the shard straight back. */
  function ClaimReturned(shards: Shards, n: Node, me: Silo, c: Claimed): Effect {
    if !c.won then Effect(shards, n)
    else if n.stopped then Effect(ReleaseAt(shards, c.key, me), n)
    else Effect(shards, StartExecutor(n, c.key))
  }

  /** `ensureOwned`, up to the claim's await. */
  function EnsureOwned(o: Options, shards: Shards, n: Node, me: Silo, key: ShardKey): Effect {
    if key in n.executors || n.stopped then Effect(shards, n)
    else
      var (r, won) := Claim(RecordOf(shards, key), me, {}, o.maxAdoptedCount);
      Effect(WithRecord(shards, key, r), n.(claims := n.claims + [Claimed(key, won)]))
  }

  predicate Claimable(me: Silo, active: set<Silo>, l: (ShardKey, Record)) {
    !l.1.poisoned && l.1.owner != Some(me) && (l.1.owner.None? || l.1.owner.value !in active)
  }

  function ClaimableOf(me: Silo, active: set<Silo>, listed: Listed): (r: Listed)
    ensures |r| <= |listed|
  {
    if listed == [] then []
    else (if Claimable(me, active, listed[0]) then [listed[0]] else []) + ClaimableOf(me, active, listed[1..])
  }

  function DeadOwner(active: set<Silo>, r: Record): set<Silo> {
    if r.owner.Some? && r.owner.value !in active then {r.owner.value} else {}
  }

  function OwnedKeys(me: Silo, listed: Listed): seq<ShardKey> {
    if listed == [] then []
    else (if listed[0].1.owner == Some(me) then [listed[0].0] else []) + OwnedKeys(me, listed[1..])
  }

  /** Once nothing is left to resume: which shards to claim, up to the budget. */
  function BeginClaiming(o: Options, n: Node, me: Silo, elapsedMs: int): Node
    requires n.reconciling.Resuming?
  {
    var Resuming(listed, _, active) := n.reconciling;
    var claimable := ClaimableOf(me, active, listed);
    var limit := ClaimBudgetForThisStep(o, elapsedMs, n.claimedSinceJoin, |claimable|);
    n.(reconciling := Claiming(claimable[..limit], 0, active, None))
  }

  /** One stretch of a reconciliation, `elapsedMs` after the silo joined; `order` is the order of a listing. */
  function ReconcileStep(o: Options, shards: Shards, n: Node, me: Silo, elapsedMs: int, order: seq<ShardKey>): Effect {
    match n.reconciling
    case NotReconciling => Effect(shards, n)
    case Resuming(listed, at, active) =>
      if at >= |listed| then Effect(shards, BeginClaiming(o, n, me, elapsedMs))
      else if n.stopped then Effect(shards, n.(reconciling := NotReconciling))
      else
        var next := n.(reconciling := Resuming(listed, at + 1, active));
        Effect(shards, if listed[at].1.owner == Some(me) then StartExecutor(next, listed[at].0) else next)
    case Claiming(claimable, at, active, Some(c)) =>
      var e := ClaimReturned(shards, n, me, c);
      var started := c.won && !n.stopped;
      e.(n := e.n.(reconciling := Claiming(claimable, at, active, None),
                   claimedSinceJoin := n.claimedSinceJoin + if started then 1 else 0))
    case Claiming(claimable, at, active, None) =>
      if at >= |claimable| then Effect(shards, n.(reconciling := Relisted(OwnedKeys(me, Listing(order, shards)))))
      else if n.stopped then Effect(shards, n.(reconciling := NotReconciling))
      else
        var (key, r) := claimable[at];
        var (r', won) := Claim(RecordOf(shards, key), me, DeadOwner(active, r), o.maxAdoptedCount);
        Effect(WithRecord(shards, key, r'), n.(reconciling := Claiming(claimable, at + 1, active, Some(Claimed(key, won)))))
    case Relisted(owned) => Effect(shards, n.(reconciling := Dropping(owned, n.executors, None)))
    case Dropping(owned, todo, Some(_)) => Effect(shards, n.(reconciling := Dropping(owned, todo, None)))
    case Dropping(owned, todo, None) =>
      if todo == [] then Effect(shards, n.(reconciling := NotReconciling))
      else if todo[0] in owned || todo[0] !in n.executors then Effect(shards, n.(reconciling := Dropping(owned, todo[1..], None)))
      else
        Effect(shards, n.(executors := Without(n.executors, todo[0]), reconciling := Dropping(owned, todo[1..], Some(todo[0]))))
  }

  /** One stretch of `stop()`: drain an executor to the end, release its shard, and so on. */
  function StopStep(shards: Shards, n: Node, me: Silo): Effect {
    match n.stopping
    case AwaitReconciling =>
      Effect(shards, if n.reconciling.NotReconciling? then n.(stopping := Releasing(n.executors, None)) else n)
    case Releasing(left, Some(key)) =>
      Effect(ReleaseAt(shards, key, me), n.(stopping := Releasing(left, None)))
    case Releasing(left, None) =>
      Effect(shards,
        if left == [] then n.(stopping := HasStopped)
        else n.(executors := Without(n.executors, left[0]), stopping := Releasing(left[1..], Some(left[0]))))
    case _ => Effect(shards, n)
  }

  // ----- All of them -----

  datatype Action =
    | Join(me: Silo)
    | Gone(me: Silo)
    | Jobs(key: ShardKey, jobs: Entries<JobId, Entry>)
    | Ensure(me: Silo, key: ShardKey)
    | ClaimReturn(me: Silo, k: nat)
    | Reconcile(me: Silo, active: set<Silo>, order: seq<ShardKey>)
    | ReconcileOn(me: Silo, elapsedMs: int, order: seq<ShardKey>)
    | Stop(me: Silo)
    | StopOn(me: Silo)

  function Take(w: World, me: Silo, e: Effect): World {
    World(e.shards, w.nodes[me := e.n])
  }

  /** A silo that joins has nothing in memory, whoever used its ring key before. */
  function Next(o: Options, w: World, action: Action): World {
    match action
    case Join(me) => if me in w.nodes then w else w.(nodes := w.nodes[me := FRESH])
    case Gone(me) => w.(nodes := w.nodes - {me})
    case Jobs(key, jobs) => w.(shards := w.shards[key := (if key in w.shards then w.shards[key] else BLANK).(jobs := jobs)])
    case Ensure(me, key) => if me in w.nodes then Take(w, me, EnsureOwned(o, w.shards, w.nodes[me], me, key)) else w
    case ClaimReturn(me, k) =>
      if me in w.nodes && k < |w.nodes[me].claims| then
        var n := w.nodes[me];
        Take(w, me, ClaimReturned(w.shards, n.(claims := n.claims[..k] + n.claims[k + 1..]), me, n.claims[k]))
      else w
    case Reconcile(me, active, order) =>
      if me in w.nodes && w.nodes[me].reconciling.NotReconciling? && !w.nodes[me].stopped then
        Take(w, me, Effect(w.shards, w.nodes[me].(reconciling := Resuming(Listing(order, w.shards), 0, active))))
      else w
    case ReconcileOn(me, elapsedMs, order) =>
      if me in w.nodes then Take(w, me, ReconcileStep(o, w.shards, w.nodes[me], me, elapsedMs, order)) else w
    case Stop(me) =>
      if me in w.nodes && w.nodes[me].stopping.NotStopping? then
        Take(w, me, Effect(w.shards, w.nodes[me].(stopped := true, stopping := AwaitReconciling)))
      else w
    case StopOn(me) => if me in w.nodes then Take(w, me, StopStep(w.shards, w.nodes[me], me)) else w
  }

  /** A claim that adopts takes the shard from a silo that is down when the store decides. */
  ghost predicate Legal(w: World, action: Action) {
    action.ReconcileOn? && action.me in w.nodes ==>
      match w.nodes[action.me].reconciling
      case Claiming(claimable, at, active, None) =>
        at < |claimable| ==>
          forall dead | dead in DeadOwner(active, claimable[at].1) :: dead !in w.nodes
      case _ => true
  }

  /** The shards a silo is executing: those with an executor, and those still draining. */
  ghost predicate Executes(n: Node, key: ShardKey) {
    || key in n.executors
    || (n.reconciling.Dropping? && n.reconciling.draining == Some(key))
    || (n.stopping.Releasing? && n.stopping.draining == Some(key))
  }

  /** The claim whose answer this step looks at. */
  ghost function Returning(w: World, action: Action): Option<Claimed> {
    if action.ClaimReturn? && action.me in w.nodes && action.k < |w.nodes[action.me].claims| then
      Some(w.nodes[action.me].claims[action.k])
    else if action.ReconcileOn? && action.me in w.nodes && w.nodes[action.me].reconciling.Claiming? then
      w.nodes[action.me].reconciling.waiting
    else None
  }

  /**
   * A claim that was in flight when `stop()` began returns while its shard, which this very silo has
   * meanwhile started through another claim, is still being executed.
   */
  ghost predicate EarlyRelease(w: World, action: Action) {
    && Returning(w, action).Some?
    && var n := w.nodes[action.me]; var c := Returning(w, action).value;
    c.won && n.stopped && Executes(n, c.key)
  }

  function Run(o: Options, w: World, actions: seq<Action>): World {
    if actions == [] then w
    else Next(o, Run(o, w, actions[..|actions| - 1]), actions[|actions| - 1])
  }

  const EMPTY := World(map[], map[])
}
