/**
 * Argument graphs of grain calls: a heap of containers, the finite trees its acyclic parts unfold to,
 * and the substitution of cancellation values on trees.
 */
module ValueGraph {

  type NodeId = nat

  /** Values that are not walked: primitives, objects of classes, cancellation values. */
  datatype Atom = Primitive(p: nat) | NaN | Opaque(o: nat) | Token(t: nat)

  datatype Val = Atom(a: Atom) | Ref(id: NodeId)

  const PROTO := "__proto__"

  /** What kind of container, and the keys its members are under. */
  datatype Shape = ArrayShape | MapShape(mapKeys: seq<Val>) | SetShape | ObjectShape(keys: seq<string>)

  datatype Node = Node(shape: Shape, kids: seq<Val>)

  type Heap = map<NodeId, Node>

  /** JavaScript's `===`. */
  predicate Same(a: Val, b: Val) {
    a == b && a != Atom(NaN)
  }

  ghost predicate DistinctVals(vs: seq<Val>) {
    forall i, j | 0 <= i < j < |vs| :: vs[i] != vs[j]
  }

  /** Every member has its key, and a set holds no member twice. */
  ghost predicate WellFormed(n: Node) {
    match n.shape
    case ArrayShape => true
    case MapShape(keys) => |keys| == |n.kids|
    case SetShape => DistinctVals(n.kids)
    case ObjectShape(keys) => |keys| == |n.kids|
  }

  ghost predicate Inside(h: Heap, v: Val) {
    v.Ref? ==> v.id in h
  }

  ghost predicate NodeClosed(h: Heap, n: Node) {
    WellFormed(n) && forall i | 0 <= i < |n.kids| :: Inside(h, n.kids[i])
  }

  ghost predicate Closed(h: Heap) {
    forall id | id in h :: NodeClosed(h, h[id])
  }

  ghost predicate Extends(h: Heap, h': Heap) {
    forall id | id in h :: id in h' && h'[id] == h[id]
  }

  // ----- Trees -----

  datatype Tree = Leaf(a: Atom) | Branch(shape: Shape, kids: seq<Tree>)

  /** The graph under `v` is the finite tree `t`; a graph with a cycle below `v` is no such tree. */
  ghost predicate Unfolds(h: Heap, v: Val, t: Tree)
    decreases t
  {
    match t
    case Leaf(a) => v == Atom(a)
    case Branch(shape, ts) =>
      && v.Ref? && v.id in h && h[v.id].shape == shape && |h[v.id].kids| == |ts|
      && forall i | 0 <= i < |ts| :: Unfolds(h, h[v.id].kids[i], ts[i])
  }

  ghost predicate UnfoldsAll(h: Heap, vs: seq<Val>, ts: seq<Tree>) {
    |vs| == |ts| && forall i | 0 <= i < |ts| :: Unfolds(h, vs[i], ts[i])
  }

  function Size(t: Tree): nat {
    match t
    case Leaf(_) => 0
    case Branch(_, ts) => 1 + Sizes(ts)
  }

  function Sizes(ts: seq<Tree>): nat {
    if ts == [] then 0 else Size(ts[0]) + Sizes(ts[1..])
  }

  lemma {:induction false} KidIsSmaller(ts: seq<Tree>, i: nat)
    requires i < |ts|
    ensures Size(ts[i]) <= Sizes(ts)
  {
    if i > 0 {
      KidIsSmaller(ts[1..], i - 1);
    }
  }

  lemma {:induction false} UnfoldsUnique(h: Heap, v: Val, t: Tree, u: Tree)
    requires Unfolds(h, v, t) && Unfolds(h, v, u)
    ensures t == u
    decreases t
  {
    if t.Branch? {
      forall i | 0 <= i < |t.kids| ensures t.kids[i] == u.kids[i] {
        UnfoldsUnique(h, h[v.id].kids[i], t.kids[i], u.kids[i]);
      }
      assert t.kids == u.kids;
    }
  }

  lemma {:induction false} UnfoldsInLarger(h: Heap, h': Heap, v: Val, t: Tree)
    requires Unfolds(h, v, t) && Extends(h, h')
    ensures Unfolds(h', v, t)
    decreases t
  {
    if t.Branch? {
      forall i | 0 <= i < |t.kids| ensures Unfolds(h', h'[v.id].kids[i], t.kids[i]) {
        UnfoldsInLarger(h, h', h[v.id].kids[i], t.kids[i]);
      }
    }
  }

  // ----- Cycles -----

  ghost predicate Steps(h: Heap, p: seq<NodeId>, i: nat)
    requires i + 1 < |p|
  {
    p[i] in h && Ref(p[i + 1]) in h[p[i]].kids
  }

  /** Each container has the next for a member. */
  ghost predicate IsPath(h: Heap, p: seq<NodeId>) {
    && (forall i | 0 <= i < |p| :: p[i] in h)
    && forall i | 0 <= i < |p| - 1 :: Steps(h, p, i)
  }

  ghost predicate Repeats(p: seq<NodeId>) {
    exists i, j :: 0 <= i < j < |p| && p[i] == p[j]
  }

  ghost predicate CycleAlong(h: Heap, p: seq<NodeId>, v: Val) {
    IsPath(h, p) && p != [] && v == Ref(p[0]) && Repeats(p)
  }

  /** Some container reachable from `v` can reach itself. */
  ghost predicate HasCycle(h: Heap, v: Val) {
    exists p :: CycleAlong(h, p, v)
  }

  ghost predicate HasTree(h: Heap, v: Val) {
    exists t :: Unfolds(h, v, t)
  }

  ghost predicate HasSmallerTree(h: Heap, v: Val, n: nat) {
    exists t :: Unfolds(h, v, t) && Size(t) < n
  }

  /** Along a path, trees get smaller. */
  lemma {:induction false} SmallerAlong(h: Heap, p: seq<NodeId>, i: nat, j: nat, t: Tree)
    requires IsPath(h, p) && i < j < |p| && Unfolds(h, Ref(p[i]), t)
    ensures HasSmallerTree(h, Ref(p[j]), Size(t))
    decreases j - i
  {
    assert Steps(h, p, i);
    var k :| 0 <= k < |h[p[i]].kids| && h[p[i]].kids[k] == Ref(p[i + 1]);
    KidIsSmaller(t.kids, k);
    assert Unfolds(h, Ref(p[i + 1]), t.kids[k]);
    if i + 1 < j {
      SmallerAlong(h, p, i + 1, j, t.kids[k]);
    }
  }

  lemma NoCycleInTree(h: Heap, v: Val, t: Tree)
    requires Unfolds(h, v, t)
    ensures !HasCycle(h, v)
  {
    if p :| CycleAlong(h, p, v) {
      var i, j :| 0 <= i < j < |p| && p[i] == p[j];
      if i > 0 {
        SmallerAlong(h, p, 0, i, t);
      }
      var u :| Unfolds(h, Ref(p[i]), u);
      SmallerAlong(h, p, i, j, u);
      var w :| Unfolds(h, Ref(p[j]), w) && Size(w) < Size(u);
      UnfoldsUnique(h, Ref(p[i]), u, w);
    }
  }

  /** A path without repetition is no longer than the heap. */
  lemma {:induction false} PathFits(keys: set<NodeId>, p: seq<NodeId>)
    requires !Repeats(p) && forall i | 0 <= i < |p| :: p[i] in keys
    ensures |p| <= |keys|
    decreases |p|
  {
    if p != [] {
      var n := |p| - 1;
      forall i | 0 <= i < n ensures p[..n][i] in keys - {p[n]} {
        assert p[i] in keys && p[i] != p[n];
      }
      forall i, j | 0 <= i < j < n ensures p[..n][i] != p[..n][j] {
        assert p[i] != p[j];
      }
      PathFits(keys - {p[n]}, p[..n]);
      assert |keys - {p[n]}| < |keys|;
    }
  }

  ghost function TreeOf(h: Heap, v: Val): (t: Tree)
    requires HasTree(h, v)
    ensures Unfolds(h, v, t)
  {
    var t :| Unfolds(h, v, t); t
  }

  /** `path` leads from `root` to a container with the member `v`. */
  ghost predicate OnWay(h: Heap, root: Val, path: seq<NodeId>, v: Val) {
    && Inside(h, v)
    && (if path == [] then v == root else root == Ref(path[0]))
    && IsPath(h, path)
    && (v.Ref? ==> IsPath(h, path + [v.id]))
  }

  lemma KidOnWay(h: Heap, root: Val, path: seq<NodeId>, n: NodeId, i: nat)
    requires Closed(h) && OnWay(h, root, path, Ref(n)) && i < |h[n].kids|
    ensures OnWay(h, root, path + [n], h[n].kids[i])
  {
    var v, q := h[n].kids[i], path + [n];
    assert NodeClosed(h, h[n]);
    if v.Ref? {
      var p := q + [v.id];
      forall k | 0 <= k < |p| ensures p[k] in h {
        assert k < |q| ==> p[k] == q[k];
      }
      forall k | 0 <= k < |p| - 1 ensures Steps(h, p, k) {
        if k < |path| {
          assert Steps(h, q, k);
        }
      }
    }
  }

  lemma {:induction false} TreeBelow(h: Heap, root: Val, path: seq<NodeId>, v: Val)
    requires Closed(h) && !HasCycle(h, root) && OnWay(h, root, path, v)
    ensures HasTree(h, v)
    decreases |h.Keys| - |path|
  {
    match v
    case Atom(a) => assert Unfolds(h, v, Leaf(a));
    case Ref(n) =>
      var kids := h[n].kids;
      assert !CycleAlong(h, path + [n], root);
      PathFits(h.Keys, path + [n]);
      forall i | 0 <= i < |kids| ensures HasTree(h, kids[i]) {
        KidOnWay(h, root, path, n, i);
        TreeBelow(h, root, path + [n], kids[i]);
      }
      var ts := seq(|kids|, i requires 0 <= i < |kids| => TreeOf(h, kids[i]));
      assert Unfolds(h, v, Branch(h[n].shape, ts));
  }

  /** The graphs that unfold to a tree are exactly the acyclic ones. */
  lemma UnfoldsIffAcyclic(h: Heap, v: Val)
    requires Closed(h) && Inside(h, v)
    ensures HasTree(h, v) <==> !HasCycle(h, v)
  {
    if HasTree(h, v) {
      NoCycleInTree(h, v, TreeOf(h, v));
    } else if !HasCycle(h, v) {
      TreeBelow(h, v, [], v);
    }
  }

  // ----- Substitution -----

  type Replace = nat -> Atom

  function ReplaceAtom(replace: Replace, a: Atom): Atom {
    if a.Token? then replace(a.t) else a
  }

  function DedupLeaves(ts: seq<Tree>): (r: seq<Tree>)
    ensures |r| <= |ts|
  {
    if ts == [] then []
    else
      var init, last := ts[..|ts| - 1], ts[|ts| - 1];
      if last.Leaf? && last in init then DedupLeaves(init) else DedupLeaves(init) + [last]
  }

  /** Every cancellation value replaced, and nothing else changed; a set keeps one of equal members. */
  function Substitute(replace: Replace, t: Tree): Tree
    decreases t
  {
    match t
    case Leaf(a) => Leaf(ReplaceAtom(replace, a))
    case Branch(shape, ts) =>
      var kids := seq(|ts|, i requires 0 <= i < |ts| => Substitute(replace, ts[i]));
      Branch(shape, if shape.SetShape? then DedupLeaves(kids) else kids)
  }

  /** The walk does not get this member back as it was. */
  predicate Touches(replace: Replace, t: Tree)
    decreases t
  {
    match t
    case Leaf(a) => !Same(Atom(ReplaceAtom(replace, a)), Atom(a))
    case Branch(_, ts) => exists i | 0 <= i < |ts| :: Touches(replace, ts[i])
  }

  /** A cancellation value below is replaced by another value. */
  predicate Altered(replace: Replace, t: Tree)
    decreases t
  {
    match t
    case Leaf(a) => ReplaceAtom(replace, a) != a
    case Branch(_, ts) => exists i | 0 <= i < |ts| :: Altered(replace, ts[i])
  }

  predicate HoldsNaN(t: Tree)
    decreases t
  {
    match t
    case Leaf(a) => a == NaN
    case Branch(_, ts) => exists i | 0 <= i < |ts| :: HoldsNaN(ts[i])
  }

  function KeptKeys(keys: seq<string>): seq<string> {
    if keys == [] then []
    else KeptKeys(keys[..|keys| - 1]) + if keys[|keys| - 1] == PROTO then [] else [keys[|keys| - 1]]
  }

  /** The members under the kept keys. */
  function KeptMembers<T>(keys: seq<string>, vs: seq<T>): seq<T>
    requires |keys| == |vs|
    decreases |keys|
  {
    if keys == [] then []
    else KeptMembers(keys[..|keys| - 1], vs[..|vs| - 1]) + if keys[|keys| - 1] == PROTO then [] else [vs[|vs| - 1]]
  }

  /** What a container rebuilt by assignment holds: an own `__proto__` sets the prototype instead. */
  function RebuiltTree(shape: Shape, kids: seq<Tree>): Tree {
    match shape
    case SetShape => Branch(shape, DedupLeaves(kids))
    case ObjectShape(keys) =>
      if |keys| == |kids| then Branch(ObjectShape(KeptKeys(keys)), KeptMembers(keys, kids)) else Branch(shape, kids)
    case _ => Branch(shape, kids)
  }

  /** What the walk makes of a tree: containers with nothing touched below stay as they are. */
  function Rewritten(replace: Replace, t: Tree): Tree
    decreases t
  {
    match t
    case Leaf(a) => Leaf(ReplaceAtom(replace, a))
    case Branch(shape, ts) =>
      if !Touches(replace, t) then t
      else RebuiltTree(shape, seq(|ts|, i requires 0 <= i < |ts| => Rewritten(replace, ts[i])))
  }

  ghost predicate HasLeaf(t: Tree, a: Atom)
    decreases t
  {
    match t
    case Leaf(b) => a == b
    case Branch(_, ts) => exists i | 0 <= i < |ts| :: HasLeaf(ts[i], a)
  }

  /** The leaf `b` becomes `a`: a cancellation value its replacement, any other value itself. */
  ghost predicate Becomes(replace: Replace, b: Atom, a: Atom) {
    match b
    case Token(t) => a == replace(t)
    case _ => a == b
  }

  ghost predicate HasSource(replace: Replace, t: Tree, a: Atom) {
    exists b :: HasLeaf(t, b) && Becomes(replace, b, a)
  }

  lemma {:induction false} DedupHasLeaf(ts: seq<Tree>, a: Atom)
    ensures (exists i | 0 <= i < |DedupLeaves(ts)| :: HasLeaf(DedupLeaves(ts)[i], a)) <==> exists i | 0 <= i < |ts| :: HasLeaf(ts[i], a)
    decreases |ts|
  {
    if ts != [] {
      var n := |ts| - 1;
      var init := DedupLeaves(ts[..n]);
      DedupHasLeaf(ts[..n], a);
      if i :| 0 <= i < |ts| && HasLeaf(ts[i], a) {
        if ts[n].Leaf? && ts[n] in ts[..n] && i == n {
          var k :| 0 <= k < n && ts[..n][k] == ts[n];
          assert HasLeaf(ts[..n][k], a);
        }
        if i < n { assert HasLeaf(ts[..n][i], a); }
        if k :| 0 <= k < |init| && HasLeaf(init[k], a) { assert HasLeaf(DedupLeaves(ts)[k], a); }
        if i == n && !(ts[n].Leaf? && ts[n] in ts[..n]) { assert DedupLeaves(ts)[|init|] == ts[n]; }
      }
      if k :| 0 <= k < |DedupLeaves(ts)| && HasLeaf(DedupLeaves(ts)[k], a) {
        if k < |init| {
          assert HasLeaf(init[k], a);
          var i :| 0 <= i < n && HasLeaf(ts[..n][i], a);
          assert HasLeaf(ts[i], a);
        } else {
          assert DedupLeaves(ts)[k] == ts[n];
        }
      }
    }
  }

  /** The leaves of the substituted tree are exactly what the leaves of the tree become. */
  lemma {:induction false} SubstitutedLeaves(replace: Replace, t: Tree, a: Atom)
    ensures HasLeaf(Substitute(replace, t), a) <==> HasSource(replace, t, a)
    decreases t
  {
    match t
    case Leaf(b) =>
      if Becomes(replace, b, a) { assert HasLeaf(t, b); }
    case Branch(shape, ts) =>
      var kids := seq(|ts|, i requires 0 <= i < |ts| => Substitute(replace, ts[i]));
      forall i | 0 <= i < |ts| ensures HasLeaf(kids[i], a) <==> HasSource(replace, ts[i], a) {
        SubstitutedLeaves(replace, ts[i], a);
      }
      DedupHasLeaf(kids, a);
      if i :| 0 <= i < |ts| && HasLeaf(kids[i], a) {
        var b :| HasLeaf(ts[i], b) && Becomes(replace, b, a);
        assert HasLeaf(t, b);
      }
      if b :| HasLeaf(t, b) && Becomes(replace, b, a) {
        var i :| 0 <= i < |ts| && HasLeaf(ts[i], b);
        assert HasLeaf(kids[i], a);
      }
  }

  /** A container is rebuilt exactly when something below is replaced, or is `NaN`. */
  lemma {:induction false} TouchedIff(replace: Replace, t: Tree)
    ensures Touches(replace, t) <==> Altered(replace, t) || HoldsNaN(t)
    decreases t
  {
    if t.Branch? {
      forall i | 0 <= i < |t.kids|
        ensures Touches(replace, t.kids[i]) <==> Altered(replace, t.kids[i]) || HoldsNaN(t.kids[i])
      {
        TouchedIff(replace, t.kids[i]);
      }
    }
  }

  ghost predicate DifferentLeaves(ts: seq<Tree>) {
    forall i, j | 0 <= i < j < |ts| :: ts[i].Leaf? ==> ts[i] != ts[j]
  }

  /** The sets of the tree hold each leaf once, and every member has its key. */
  ghost predicate Sound(t: Tree)
    decreases t
  {
    t.Branch? ==>
      && (t.shape.SetShape? ==> DifferentLeaves(t.kids))
      && (t.shape.MapShape? ==> |t.shape.mapKeys| == |t.kids|)
      && (t.shape.ObjectShape? ==> |t.shape.keys| == |t.kids|)
      && forall i | 0 <= i < |t.kids| :: Sound(t.kids[i])
  }

  lemma {:induction false} DedupDifferent(ts: seq<Tree>)
    requires DifferentLeaves(ts)
    ensures DedupLeaves(ts) == ts
    decreases |ts|
  {
    if ts != [] {
      DedupDifferent(ts[..|ts| - 1]);
      assert ts == ts[..|ts| - 1] + [ts[|ts| - 1]];
    }
  }

  lemma {:induction false} UntouchedSubstitutes(replace: Replace, t: Tree)
    requires Sound(t) && !Altered(replace, t)
    ensures Substitute(replace, t) == t
    decreases t
  {
    if t.Branch? {
      var kids := seq(|t.kids|, i requires 0 <= i < |t.kids| => Substitute(replace, t.kids[i]));
      forall i | 0 <= i < |t.kids| ensures kids[i] == t.kids[i] {
        UntouchedSubstitutes(replace, t.kids[i]);
      }
      assert kids == t.kids;
      if t.shape.SetShape? {
        DedupDifferent(t.kids);
      }
    }
  }

  /** No object that is rebuilt has an own `__proto__`. */
  ghost predicate ProtoSafe(replace: Replace, t: Tree)
    decreases t
  {
    t.Branch? && Touches(replace, t) ==>
      && (t.shape.ObjectShape? ==> PROTO !in t.shape.keys)
      && forall i | 0 <= i < |t.kids| :: ProtoSafe(replace, t.kids[i])
  }

  lemma InPrefix(keys: seq<string>)
    requires keys != []
    ensures PROTO in keys <==> PROTO in keys[..|keys| - 1] || keys[|keys| - 1] == PROTO
  {
    assert keys == keys[..|keys| - 1] + [keys[|keys| - 1]];
  }

  lemma {:induction false} KeptLength<T>(keys: seq<string>, vs: seq<T>)
    requires |keys| == |vs|
    ensures |KeptKeys(keys)| == |KeptMembers(keys, vs)| <= |keys|
    ensures PROTO in keys ==> |KeptKeys(keys)| < |keys|
    decreases |keys|
  {
    if keys != [] {
      InPrefix(keys);
      KeptLength(keys[..|keys| - 1], vs[..|vs| - 1]);
    }
  }

  lemma {:induction false} KeptEverything<T>(keys: seq<string>, vs: seq<T>)
    requires |keys| == |vs| && PROTO !in keys
    ensures KeptKeys(keys) == keys && KeptMembers(keys, vs) == vs
    decreases |keys|
  {
    if keys != [] {
      var n := |keys| - 1;
      InPrefix(keys);
      KeptEverything(keys[..n], vs[..n]);
      assert keys == keys[..n] + [keys[n]];
      assert vs == vs[..n] + [vs[n]];
    }
  }

  lemma AllKept<T>(keys: seq<string>, vs: seq<T>)
    requires |keys| == |vs|
    ensures |KeptKeys(keys)| == |KeptMembers(keys, vs)| <= |keys|
    ensures PROTO !in keys ==> KeptKeys(keys) == keys && KeptMembers(keys, vs) == vs
    ensures PROTO in keys ==> |KeptKeys(keys)| < |keys|
  {
    hide KeptKeys, KeptMembers;
    KeptLength(keys, vs);
    if PROTO !in keys { KeptEverything(keys, vs); }
  }

  /** Same leaves in the same places. */
  ghost predicate SameLeaves(a: seq<Tree>, b: seq<Tree>) {
    |a| == |b| && forall i | 0 <= i < |a| :: a[i].Leaf? || b[i].Leaf? ==> a[i] == b[i]
  }

  lemma DedupTail(ts: seq<Tree>)
    requires ts != []
    ensures var n := |ts| - 1;
      if ts[n].Leaf? && ts[n] in ts[..n] then DedupLeaves(ts) == DedupLeaves(ts[..n])
      else DedupLeaves(ts) == DedupLeaves(ts[..n]) + [ts[n]]
  {
  }

  lemma SnocSame(a: seq<Tree>, x: Tree, b: seq<Tree>, y: Tree)
    requires a + [x] == b + [y]
    ensures a == b && x == y
  {
    assert |a + [x]| == |b + [y]|;
    assert (a + [x])[|a|] == x && (b + [y])[|b|] == y;
    assert (a + [x])[..|a|] == a && (b + [y])[..|b|] == b;
  }

  lemma {:induction false} DedupSame(a: seq<Tree>, b: seq<Tree>)
    requires SameLeaves(a, b) && DedupLeaves(a) == DedupLeaves(b)
    ensures a == b
    decreases |a|
  {
    hide DedupLeaves;
    if a != [] {
      var n := |a| - 1;
      LastKept(a, b);
      DedupTail(a);
      DedupTail(b);
      if !(a[n].Leaf? && a[n] in a[..n]) {
        SnocSame(DedupLeaves(a[..n]), a[n], DedupLeaves(b[..n]), b[n]);
      }
      DedupSame(a[..n], b[..n]);
      assert a == a[..n] + [a[n]] && b == b[..n] + [b[n]];
    }
  }

  lemma LastKept(a: seq<Tree>, b: seq<Tree>)
    requires SameLeaves(a, b) && a != []
    ensures var n := |a| - 1; (a[n].Leaf? && a[n] in a[..n]) <==> (b[n].Leaf? && b[n] in b[..n])
  {
    var n := |a| - 1;
    if a[n].Leaf? && a[n] in a[..n] {
      var i :| 0 <= i < n && a[..n][i] == a[n];
      assert b[..n][i] == b[n];
    }
    if b[n].Leaf? && b[n] in b[..n] {
      var i :| 0 <= i < n && b[..n][i] == b[n];
      assert a[..n][i] == a[n];
    }
  }

  lemma RewrittenLeaf(replace: Replace, t: Tree)
    ensures Rewritten(replace, t).Leaf? == Substitute(replace, t).Leaf? == t.Leaf?
    ensures t.Leaf? ==> Rewritten(replace, t) == Substitute(replace, t)
  {
  }

  /**
   * Exactly when the walk does what naive substitution does: when no object it rebuilds has an own
   * `__proto__` member, which a rebuilt object loses.
   */
  lemma {:induction false} RewritesAsSubstitution(replace: Replace, t: Tree)
    requires Sound(t)
    ensures Rewritten(replace, t) == Substitute(replace, t) <==> ProtoSafe(replace, t)
    decreases t
  {
    if t.Branch? {
      TouchedIff(replace, t);
      if !Touches(replace, t) {
        UntouchedSubstitutes(replace, t);
      } else {
        RebuiltAsSubstitution(replace, t);
      }
    }
  }

  lemma {:induction false} RebuiltAsSubstitution(replace: Replace, t: Tree)
    requires Sound(t) && t.Branch? && Touches(replace, t)
    ensures Rewritten(replace, t) == Substitute(replace, t) <==> ProtoSafe(replace, t)
    decreases t, 0
  {
    var ts := t.kids;
    var ws := seq(|ts|, i requires 0 <= i < |ts| => Rewritten(replace, ts[i]));
    var ns := seq(|ts|, i requires 0 <= i < |ts| => Substitute(replace, ts[i]));
    forall i | 0 <= i < |ts|
      ensures ws[i] == ns[i] <==> ProtoSafe(replace, ts[i])
      ensures ws[i].Leaf? || ns[i].Leaf? ==> ws[i] == ns[i]
    {
      RewritesAsSubstitution(replace, ts[i]);
      RewrittenLeaf(replace, ts[i]);
    }
    assert ws == ns <==> forall i | 0 <= i < |ts| :: ProtoSafe(replace, ts[i]) by {
      if ws != ns {
        var i :| 0 <= i < |ts| && ws[i] != ns[i];
        assert !ProtoSafe(replace, ts[i]);
      }
    }
    match t.shape
    case SetShape => if DedupLeaves(ws) == DedupLeaves(ns) { DedupSame(ws, ns); }
    case ObjectShape(keys) => AllKept(keys, ws);
    case _ =>
  }
}
