/** The walk that replaces cancellation values in an argument graph, with its path set and its memo. */
module CancellationWalk {
  import opened Wrappers
  import opened ValueGraph

  // ----- Facts about heaps and results -----

  /** What the walk answers for a member: its replacement, or what its container came to. */
  ghost predicate Answers(replace: Replace, active: set<NodeId>, memo: map<NodeId, Val>, v: Val, r: Val) {
    match v
    case Atom(a) => r == Atom(ReplaceAtom(replace, a))
    case Ref(id) => if id in active then r == v else id in memo && r == memo[id]
  }

  /** On an acyclic path every node unfolds to a larger tree than what is visited below it. */
  ghost predicate Below(h: Heap, a: NodeId, v: Val) {
    forall ta | Unfolds(h, Ref(a), ta) :: HasSmaller(h, v, Size(ta))
  }

  ghost predicate HasSmaller(h: Heap, v: Val, n: nat) {
    exists t :: Unfolds(h, v, t) && Size(t) < n
  }

  ghost predicate AllBelow(h: Heap, active: set<NodeId>, v: Val) {
    forall a | a in active :: Below(h, a, v)
  }

  lemma NotOnPath(h: Heap, active: set<NodeId>, v: Val, t: Tree)
    requires AllBelow(h, active, v) && Unfolds(h, v, t)
    ensures v.Ref? ==> v.id !in active
  {
    if v.Ref? && v.id in active {
      assert Below(h, v.id, v) && HasSmaller(h, v, Size(t));
      var u :| Unfolds(h, v, u) && Size(u) < Size(t);
      UnfoldsUnique(h, v, t, u);
    }
  }

  lemma KidsBelow(h: Heap, active: set<NodeId>, n: NodeId, i: nat)
    requires n in h && i < |h[n].kids| && AllBelow(h, active, Ref(n))
    ensures AllBelow(h, active + {n}, h[n].kids[i])
  {
    var c := h[n].kids[i];
    forall a | a in active + {n} ensures Below(h, a, c) {
      forall ta | Unfolds(h, Ref(a), ta) ensures HasSmaller(h, c, Size(ta)) {
        if a in active {
          assert Below(h, a, Ref(n)) && HasSmaller(h, Ref(n), Size(ta));
          var t :| Unfolds(h, Ref(n), t) && Size(t) < Size(ta);
          KidIsSmaller(t.kids, i);
          assert Unfolds(h, c, t.kids[i]);
        } else {
          KidIsSmaller(ta.kids, i);
          assert Unfolds(h, c, ta.kids[i]);
        }
      }
    }
  }

  /** What a finished container came to: itself when nothing below was touched, else a new node that unfolds to the rewritten tree. */
  ghost predicate ResultGood(replace: Replace, h0: Heap, heap: Heap, n: NodeId, r: Val) {
    && r.Ref?
    && (r == Ref(n) || (r.id in heap && r.id !in h0))
    && forall t | Unfolds(h0, Ref(n), t) :: TreeGood(replace, heap, n, r, t)
  }

  ghost predicate TreeGood(replace: Replace, heap: Heap, n: NodeId, r: Val, t: Tree) {
    && Unfolds(heap, r, Rewritten(replace, t))
    && (r == Ref(n) <==> !Touches(replace, t))
  }

  ghost predicate Apart(memo: map<NodeId, Val>, m: NodeId, n: NodeId)
    requires m in memo && n in memo
  {
    m != n ==> memo[m] != memo[n]
  }

  ghost predicate MemoGood(replace: Replace, h0: Heap, heap: Heap, memo: map<NodeId, Val>) {
    && (forall n | n in memo :: n in h0 && ResultGood(replace, h0, heap, n, memo[n]))
    && (forall m, n | m in memo && n in memo :: Apart(memo, m, n))
  }

  lemma MemoInLarger(replace: Replace, h0: Heap, heap: Heap, heap': Heap, memo: map<NodeId, Val>)
    requires MemoGood(replace, h0, heap, memo) && Extends(heap, heap')
    ensures MemoGood(replace, h0, heap', memo)
  {
    forall n | n in memo ensures ResultGood(replace, h0, heap', n, memo[n]) {
      assert ResultGood(replace, h0, heap, n, memo[n]);
      forall t | Unfolds(h0, Ref(n), t) ensures TreeGood(replace, heap', n, memo[n], t) {
        assert TreeGood(replace, heap, n, memo[n], t);
        UnfoldsInLarger(heap, heap', memo[n], Rewritten(replace, t));
      }
    }
  }

  /** A member's answer unfolds to the member's rewritten tree, and differs from it exactly when it is touched. */
  lemma AnswerGood(replace: Replace, h0: Heap, heap: Heap, active: set<NodeId>, memo: map<NodeId, Val>, v: Val, r: Val, t: Tree)
    requires MemoGood(replace, h0, heap, memo) && AllBelow(h0, active, v) && Answers(replace, active, memo, v, r)
    requires Unfolds(h0, v, t)
    ensures Unfolds(heap, r, Rewritten(replace, t)) && (Same(r, v) <==> !Touches(replace, t))
  {
    NotOnPath(h0, active, v, t);
    if v.Ref? {
      assert ResultGood(replace, h0, heap, v.id, r);
      assert TreeGood(replace, heap, v.id, r, t);
    }
  }

  // ----- Rebuilding a container -----

  /** What the memo makes of a member. */
  function Image(replace: Replace, memo: map<NodeId, Val>, v: Val): Val {
    match v
    case Atom(a) => Atom(ReplaceAtom(replace, a))
    case Ref(id) => if id in memo then memo[id] else v
  }

  function Images(replace: Replace, memo: map<NodeId, Val>, vs: seq<Val>): (r: seq<Val>)
    ensures |r| == |vs|
  {
    seq(|vs|, i requires 0 <= i < |vs| => Image(replace, memo, vs[i]))
  }

  ghost predicate Remembered(memo: map<NodeId, Val>, v: Val) {
    v.Ref? ==> v.id in memo
  }

  /** A rebuilt container refers to the images of its members, so what was shared stays shared. */
  ghost predicate Shares(replace: Replace, h0: Heap, heap: Heap, memo: map<NodeId, Val>, n: NodeId, r: Val)
    requires n in h0
  {
    (exists t :: Unfolds(h0, Ref(n), t)) ==>
      && (forall i | 0 <= i < |h0[n].kids| :: Remembered(memo, h0[n].kids[i]))
      && (r == Ref(n) || (r.Ref? && r.id in heap && heap[r.id] == Rebuilt(h0[n].shape, Images(replace, memo, h0[n].kids))))
  }

  lemma SharesInLarger(replace: Replace, h0: Heap, heap: Heap, heap': Heap, memo: map<NodeId, Val>, memo': map<NodeId, Val>, n: NodeId, r: Val)
    requires n in h0 && Shares(replace, h0, heap, memo, n, r) && Extends(heap, heap')
    requires forall m | m in memo :: m in memo' && memo'[m] == memo[m]
    ensures Shares(replace, h0, heap', memo', n, r)
  {
    if t :| Unfolds(h0, Ref(n), t) {
      var kids := h0[n].kids;
      forall i | 0 <= i < |kids| ensures Remembered(memo', kids[i]) && Image(replace, memo', kids[i]) == Image(replace, memo, kids[i]) {
        assert Remembered(memo, kids[i]);
      }
      assert Images(replace, memo', kids) == Images(replace, memo, kids);
    }
  }

  ghost predicate AllShare(replace: Replace, h0: Heap, heap: Heap, memo: map<NodeId, Val>) {
    forall n | n in memo :: n in h0 && Shares(replace, h0, heap, memo, n, memo[n])
  }

  lemma AllShareInLarger(replace: Replace, h0: Heap, heap: Heap, heap': Heap, memo: map<NodeId, Val>)
    requires AllShare(replace, h0, heap, memo) && Extends(heap, heap')
    ensures AllShare(replace, h0, heap', memo)
  {
    forall n | n in memo ensures n in h0 && Shares(replace, h0, heap', memo, n, memo[n]) {
      SharesInLarger(replace, h0, heap, heap', memo, memo, n, memo[n]);
    }
  }

  function Dedup(vs: seq<Val>): seq<Val> {
    if vs == [] then []
    else
      var init, last := vs[..|vs| - 1], vs[|vs| - 1];
      if last in init then Dedup(init) else Dedup(init) + [last]
  }

  function Rebuilt(shape: Shape, vs: seq<Val>): Node {
    match shape
    case SetShape => Node(SetShape, Dedup(vs))
    case ObjectShape(keys) => if |keys| == |vs| then Node(ObjectShape(KeptKeys(keys)), KeptMembers(keys, vs)) else Node(shape, vs)
    case _ => Node(shape, vs)
  }

  /** Members that are containers are pairwise different. */
  ghost predicate DifferentRefs(vs: seq<Val>) {
    forall i, j | 0 <= i < j < |vs| :: vs[i].Ref? ==> vs[i] != vs[j]
  }

  lemma UnfoldsSnoc(h: Heap, vs: seq<Val>, ts: seq<Tree>, v: Val, t: Tree)
    requires UnfoldsAll(h, vs, ts) && Unfolds(h, v, t)
    ensures UnfoldsAll(h, vs + [v], ts + [t])
  {
  }

  lemma LeafAgain(h: Heap, vs: seq<Val>, ts: seq<Tree>, n: nat)
    requires UnfoldsAll(h, vs, ts) && DifferentRefs(vs) && n < |vs|
    ensures vs[n] in vs[..n] <==> ts[n].Leaf? && ts[n] in ts[..n]
  {
    if vs[n] in vs[..n] {
      var i :| 0 <= i < n && vs[..n][i] == vs[n];
      assert Unfolds(h, vs[i], ts[i]) && Unfolds(h, vs[n], ts[n]);
      assert !vs[i].Ref?;
      assert ts[..n][i] == ts[n];
    }
    if ts[n].Leaf? && ts[n] in ts[..n] {
      var i :| 0 <= i < n && ts[..n][i] == ts[n];
      assert Unfolds(h, vs[i], ts[i]) && Unfolds(h, vs[n], ts[n]);
      assert vs[..n][i] == vs[n];
    }
  }

  lemma {:induction false} DedupUnfolds(h: Heap, vs: seq<Val>, ts: seq<Tree>)
    requires UnfoldsAll(h, vs, ts) && DifferentRefs(vs)
    ensures UnfoldsAll(h, Dedup(vs), DedupLeaves(ts))
    decreases |vs|
  {
    if vs != [] {
      var n := |vs| - 1;
      LeafAgain(h, vs, ts, n);
      DedupUnfolds(h, vs[..n], ts[..n]);
      assert Unfolds(h, vs[n], ts[n]);
      hide Unfolds;
      if vs[n] !in vs[..n] {
        UnfoldsSnoc(h, Dedup(vs[..n]), DedupLeaves(ts[..n]), vs[n], ts[n]);
      }
    }
  }

  lemma {:induction false} KeptUnfolds(h: Heap, keys: seq<string>, vs: seq<Val>, ts: seq<Tree>)
    requires UnfoldsAll(h, vs, ts) && |keys| == |vs|
    ensures UnfoldsAll(h, KeptMembers(keys, vs), KeptMembers(keys, ts))
    decreases |keys|
  {
    if keys != [] {
      var n := |keys| - 1;
      KeptUnfolds(h, keys[..n], vs[..n], ts[..n]);
      assert Unfolds(h, vs[n], ts[n]);
      hide Unfolds;
      if keys[n] != PROTO {
        UnfoldsSnoc(h, KeptMembers(keys[..n], vs[..n]), KeptMembers(keys[..n], ts[..n]), vs[n], ts[n]);
      }
    }
  }

  lemma RebuiltUnfolds(h: Heap, r: Val, shape: Shape, vs: seq<Val>, ts: seq<Tree>)
    requires r.Ref? && r.id in h && h[r.id] == Rebuilt(shape, vs)
    requires UnfoldsAll(h, vs, ts) && (shape.SetShape? ==> DifferentRefs(vs))
    ensures Unfolds(h, r, RebuiltTree(shape, ts))
  {
    match shape
    case SetShape => DedupUnfolds(h, vs, ts);
    case ObjectShape(keys) => if |keys| == |vs| { KeptUnfolds(h, keys, vs, ts); }
    case _ =>
  }

  /** The answers for all members of a container. */
  ghost predicate AllAnswer(replace: Replace, active: set<NodeId>, memo: map<NodeId, Val>, kids: seq<Val>, afters: seq<Val>) {
    |afters| <= |kids| && forall i | 0 <= i < |afters| :: Answers(replace, active, memo, kids[i], afters[i])
  }

  ghost predicate AllSame(afters: seq<Val>, kids: seq<Val>) {
    |afters| <= |kids| && forall i | 0 <= i < |afters| :: Same(afters[i], kids[i])
  }

  lemma AnswersDiffer(replace: Replace, h0: Heap, heap: Heap, active: set<NodeId>, memo: map<NodeId, Val>, kids: seq<Val>, afters: seq<Val>)
    requires MemoGood(replace, h0, heap, memo) && AllAnswer(replace, active, memo, kids, afters)
    requires DistinctVals(kids) && forall i | 0 <= i < |kids| :: kids[i].Ref? ==> kids[i].id !in active
    ensures DifferentRefs(afters)
  {
    forall i, j | 0 <= i < j < |afters| ensures afters[i].Ref? ==> afters[i] != afters[j] {
      assert Answers(replace, active, memo, kids[i], afters[i]) && Answers(replace, active, memo, kids[j], afters[j]);
      if afters[i].Ref? && afters[j].Ref? {
        assert kids[i].Ref? && kids[j].Ref? && kids[i] != kids[j];
        assert Apart(memo, kids[i].id, kids[j].id);
      }
    }
  }

  /** What the answers of a container's members make of the container. */
  lemma ContainerGood(replace: Replace, h0: Heap, heap: Heap, active: set<NodeId>, memo: map<NodeId, Val>, n: NodeId, afters: seq<Val>, r: Val)
    requires Extends(h0, heap) && MemoGood(replace, h0, heap, memo) && n in h0 && n in active && WellFormed(h0[n])
    requires AllAnswer(replace, active, memo, h0[n].kids, afters) && |afters| == |h0[n].kids|
    requires forall i | 0 <= i < |h0[n].kids| :: AllBelow(h0, active, h0[n].kids[i])
    requires if AllSame(afters, h0[n].kids) then r == Ref(n)
      else r.Ref? && r.id in heap && r.id !in h0 && heap[r.id] == Rebuilt(h0[n].shape, afters)
    ensures ResultGood(replace, h0, heap, n, r)
  {
    forall t | Unfolds(h0, Ref(n), t) ensures TreeGood(replace, heap, n, r, t) {
      ContainerTreeGood(replace, h0, heap, active, memo, n, afters, r, t);
    }
  }

  lemma ContainerTreeGood(replace: Replace, h0: Heap, heap: Heap, active: set<NodeId>, memo: map<NodeId, Val>, n: NodeId, afters: seq<Val>, r: Val, t: Tree)
    requires Extends(h0, heap) && MemoGood(replace, h0, heap, memo) && n in h0 && WellFormed(h0[n])
    requires AllAnswer(replace, active, memo, h0[n].kids, afters) && |afters| == |h0[n].kids|
    requires forall i | 0 <= i < |h0[n].kids| :: AllBelow(h0, active, h0[n].kids[i])
    requires if AllSame(afters, h0[n].kids) then r == Ref(n)
      else r.Ref? && r.id in heap && r.id !in h0 && heap[r.id] == Rebuilt(h0[n].shape, afters)
    requires Unfolds(h0, Ref(n), t)
    ensures TreeGood(replace, heap, n, r, t)
  {
    var kids, ts := h0[n].kids, t.kids;
    var ws := seq(|ts|, i requires 0 <= i < |ts| => Rewritten(replace, ts[i]));
    forall i | 0 <= i < |ts|
      ensures Unfolds(heap, afters[i], ws[i]) && (Same(afters[i], kids[i]) <==> !Touches(replace, ts[i]))
      ensures kids[i].Ref? ==> kids[i].id !in active
    {
      assert Answers(replace, active, memo, kids[i], afters[i]) && AllBelow(h0, active, kids[i]) && Unfolds(h0, kids[i], ts[i]);
      AnswerGood(replace, h0, heap, active, memo, kids[i], afters[i], ts[i]);
      NotOnPath(h0, active, kids[i], ts[i]);
    }
    assert AllSame(afters, kids) <==> !Touches(replace, t);
    if AllSame(afters, kids) {
      UnfoldsInLarger(h0, heap, Ref(n), t);
    } else {
      assert UnfoldsAll(heap, afters, ws);
      if h0[n].shape.SetShape? { AnswersDiffer(replace, h0, heap, active, memo, kids, afters); }
      hide Unfolds, MemoGood;
      RebuiltUnfolds(heap, r, h0[n].shape, afters, ws);
    }
  }

  // ----- The walk -----

  ghost predicate NoRepeats(ns: seq<NodeId>) {
    forall i, j | 0 <= i < j < |ns| :: ns[i] != ns[j]
  }

  /** Everything the walk holds at a moment. */
  datatype Snapshot = Snapshot(heap: Heap, next: NodeId, active: set<NodeId>, memo: map<NodeId, Val>)

  ghost predicate Good(replace: Replace, given: Heap, s: Snapshot, entered: seq<NodeId>) {
    && Closed(given) && Extends(given, s.heap)
    && (forall id | id in s.heap :: id < s.next)
    && s.active <= given.Keys && s.active !! s.memo.Keys
    && MemoGood(replace, given, s.heap, s.memo)
    && AllShare(replace, given, s.heap, s.memo)
    && NoRepeats(entered)
    && (forall id :: id in entered <==> id in s.active || id in s.memo)
  }

  /** Nothing the walk has made or remembered is lost, and the path is the same. */
  ghost predicate Grew(s: Snapshot, t: Snapshot) {
    && t.active == s.active
    && Extends(s.heap, t.heap) && s.next <= t.next
    && (forall id | id in s.memo :: id in t.memo && t.memo[id] == s.memo[id])
  }

  lemma GrewOn(s: Snapshot, t: Snapshot, u: Snapshot)
    requires Grew(s, t) && Grew(t, u)
    ensures Grew(s, u)
  {
  }

  lemma NoGrowth(s: Snapshot)
    ensures Grew(s, s)
  {
  }

  lemma OnPath(replace: Replace, given: Heap, s: Snapshot, entered: seq<NodeId>, n: NodeId)
    requires Good(replace, given, s, entered) && n in s.active
    ensures n in given && NodeClosed(given, given[n]) && n in s.heap && s.heap[n] == given[n] && n !in s.memo
  {
  }

  /** One top-level walk: the heap, the current path, and the containers finished. */
  class Walker {
    const replace: Replace
    var heap: Heap
    var active: set<NodeId>
    var memo: map<NodeId, Val>
    var next: NodeId
    ghost const given: Heap
    /** The containers the walk has gone into, in order. */
    ghost var entered: seq<NodeId>

    ghost function Now(): Snapshot
      reads this
    {
      Snapshot(heap, next, active, memo)
    }

    ghost predicate Valid()
      reads this
    {
      Good(replace, given, Now(), entered)
    }

    constructor (heap: Heap, next: NodeId, replace: Replace)
      requires Closed(heap) && forall id | id in heap :: id < next
      ensures Valid() && this.replace == replace && given == heap && this.heap == heap
      ensures active == {} && memo == map[] && entered == []
    {
      this.replace, this.heap, this.next, given := replace, heap, next, heap;
      active, memo, entered := {}, map[], [];
    }

    method Walk(v: Val) returns (r: Val)
      requires Valid() && Inside(given, v) && AllBelow(given, active, v)
      modifies this
      ensures Valid() && Grew(old(Now()), Now()) && Answers(replace, active, memo, v, r)
      decreases |given.Keys - active|, 1
    {
      hide Good, AllBelow;
      NoGrowth(Now());
      if v.Atom? {
        return Atom(ReplaceAtom(replace, v.a));
      }
      var n := v.id;
      if n in memo {
        NotBoth(replace, given, Now(), entered, n);
        return memo[n];
      }
      if n in active {
        return v;
      }
      r := Enter(n);
    }

    /** Walks a container not met before, on the path while that lasts, and remembers what it came to. */
    method Enter(n: NodeId) returns (r: Val)
      requires Valid() && n in given && n !in memo && n !in active && AllBelow(given, active, Ref(n))
      modifies this
      ensures Valid() && Grew(old(Now()), Now()) && n in memo && r == memo[n]
      decreases |given.Keys - active|, 0
    {
      hide Good, AllBelow, Grew, ResultGood, Shares;
      ghost var before, path := Now(), active;
      KidsAreBelow(given, path, n);
      PathGrows(given.Keys, path, n);
      PathExtended(replace, given, Now(), entered, n);
      active := active + {n};
      entered := entered + [n];
      ghost var on := Now();
      r := WalkContainer(n);
      Finished(replace, given, before, on, Now(), entered, n, r);
      active := active - {n};
      memo := memo[n := r];
    }

    /** The container's own walk, by its kind; the container is on the path. */
    method WalkContainer(n: NodeId) returns (r: Val)
      requires Valid() && n in active && n in given
      requires forall i | 0 <= i < |given[n].kids| :: AllBelow(given, active, given[n].kids[i])
      modifies this
      ensures Valid() && active == old(active) && Grew(old(Now()), Now())
      ensures ResultGood(replace, given, heap, n, r) && Shares(replace, given, heap, memo, n, r)
      ensures forall m | m in memo :: memo[m] != r
      decreases |given.Keys - active|, 4
    {
      hide Grew, AllBelow, AllAnswer, AllSame, ResultGood, Shares;
      OnPath(replace, given, Now(), entered, n);
      ghost var afters;
      match heap[n].shape {
        case ArrayShape => r, afters := WalkArray(n);
        case MapShape(_) => r, afters := WalkMap(n);
        case SetShape => r, afters := WalkSet(n);
        case ObjectShape(_) => r, afters := WalkObject(n);
      }
      OnPath(replace, given, Now(), entered, n);
      ContainerGood(replace, given, heap, active, memo, n, afters, r);
      ContainerShares(replace, given, heap, active, memo, n, afters, r);
      NotRemembered(replace, given, heap, active, memo, n, afters, r);
    }

    /** Walks one more member of the container. */
    method WalkMember(n: NodeId, i: nat, ghost afters: seq<Val>, ghost start: Snapshot) returns (after: Val)
      requires Valid() && n in active && n in given && i < |given[n].kids| && |afters| == i
      requires AllBelow(given, active, given[n].kids[i]) && Grew(start, Now())
      requires AllAnswer(replace, active, memo, given[n].kids, afters)
      modifies this
      ensures Valid() && active == old(active) && Grew(start, Now()) && AllAnswer(replace, active, memo, given[n].kids, afters + [after])
      decreases |given.Keys - active|, 2
    {
      hide Good, AllBelow, Extends, Answers;
      ghost var s := Now();
      OnPath(replace, given, s, entered, n);
      after := Walk(heap[n].kids[i]);
      GrewOn(start, s, Now());
      AnswersStay(replace, active, s.memo, memo, given[n].kids, afters);
    }

    method WalkArray(n: NodeId) returns (r: Val, ghost afters: seq<Val>)
      requires Valid() && n in active && n in given && given[n].shape.ArrayShape?
      requires forall i | 0 <= i < |given[n].kids| :: AllBelow(given, active, given[n].kids[i])
      modifies this
      ensures Valid() && active == old(active) && Grew(old(Now()), Now()) && WalkedTo(replace, given, heap, active, memo, n, afters, r)
      decreases |given.Keys - active|, 3
    {
      hide Good, Grew, AllBelow, AllAnswer, AllSame, Same;
      ghost var start := Now();
      NoGrowth(start);
      OnPath(replace, given, start, entered, n);
      var kids := heap[n].kids;
      var out: Option<seq<Val>> := None;
      afters := [];
      NothingYet(replace, active, memo, kids);
      for i := 0 to |kids|
        invariant Valid() && active == old(active) && Grew(start, Now())
        invariant |afters| == i && AllAnswer(replace, active, memo, given[n].kids, afters)
        invariant out.None? <==> AllSame(afters, kids)
        invariant out.Some? ==> out.value == afters
      {
        var after := WalkMember(n, i, afters, start);
        if !Same(after, kids[i]) && out.None? {
          AllSameIsPrefix(afters, kids);
          out := Some(kids[..i]);
        }
        if out.Some? {
          out := Some(out.value + [after]);
        }
        SameSnoc(afters, after, kids);
        afters := afters + [after];
      }
      if out.None? {
        return Ref(n), afters;
      }
      r := Allocate(Node(ArrayShape, out.value), start);
    }

    method WalkMap(n: NodeId) returns (r: Val, ghost afters: seq<Val>)
      requires Valid() && n in active && n in given && given[n].shape.MapShape?
      requires forall i | 0 <= i < |given[n].kids| :: AllBelow(given, active, given[n].kids[i])
      modifies this
      ensures Valid() && active == old(active) && Grew(old(Now()), Now()) && WalkedTo(replace, given, heap, active, memo, n, afters, r)
      decreases |given.Keys - active|, 3
    {
      hide Good, Grew, AllBelow, AllAnswer, AllSame, Same;
      ghost var start := Now();
      NoGrowth(start);
      OnPath(replace, given, start, entered, n);
      var kids, keys := heap[n].kids, heap[n].shape.mapKeys;
      var out: Option<(seq<Val>, seq<Val>)> := None;
      afters := [];
      NothingYet(replace, active, memo, kids);
      for i := 0 to |kids|
        invariant Valid() && active == old(active) && Grew(start, Now())
        invariant |afters| == i && AllAnswer(replace, active, memo, given[n].kids, afters)
        invariant out.None? <==> AllSame(afters, kids)
        invariant out.Some? ==> out.value == (keys[..i], afters)
      {
        var after := WalkMember(n, i, afters, start);
        if !Same(after, kids[i]) && out.None? {
          AllSameIsPrefix(afters, kids);
          out := Some((keys[..i], kids[..i]));
        }
        if out.Some? {
          assert keys[..i + 1] == keys[..i] + [keys[i]];
          out := Some((out.value.0 + [keys[i]], out.value.1 + [after]));
        }
        SameSnoc(afters, after, kids);
        afters := afters + [after];
      }
      if out.None? {
        return Ref(n), afters;
      }
      assert keys[..|keys|] == keys;
      r := Allocate(Node(MapShape(out.value.0), out.value.1), start);
    }

    method WalkSet(n: NodeId) returns (r: Val, ghost afters: seq<Val>)
      requires Valid() && n in active && n in given && given[n].shape.SetShape?
      requires forall i | 0 <= i < |given[n].kids| :: AllBelow(given, active, given[n].kids[i])
      modifies this
      ensures Valid() && active == old(active) && Grew(old(Now()), Now()) && WalkedTo(replace, given, heap, active, memo, n, afters, r)
      decreases |given.Keys - active|, 3
    {
      hide Good, Grew, AllBelow, AllAnswer, AllSame, Same, Dedup, DistinctVals;
      ghost var start := Now();
      NoGrowth(start);
      OnPath(replace, given, start, entered, n);
      var kids := heap[n].kids;
      var out: Option<seq<Val>> := None;
      afters := [];
      NothingYet(replace, active, memo, kids);
      for i := 0 to |kids|
        invariant Valid() && active == old(active) && Grew(start, Now())
        invariant |afters| == i && AllAnswer(replace, active, memo, given[n].kids, afters)
        invariant out.None? <==> AllSame(afters, kids)
        invariant out.Some? ==> out.value == Dedup(afters)
      {
        var after := WalkMember(n, i, afters, start);
        if !Same(after, kids[i]) && out.None? {
          AllSameIsPrefix(afters, kids);
          DedupPrefix(kids, i);
          out := Some(kids[..i]);
        }
        DedupSnoc(afters, after);
        if out.Some? && after !in out.value {
          out := Some(out.value + [after]);
        }
        SameSnoc(afters, after, kids);
        afters := afters + [after];
      }
      if out.None? {
        return Ref(n), afters;
      }
      r := Allocate(Node(SetShape, out.value), start);
    }

    /** An assignment under `__proto__` adds no member. */
    method WalkObject(n: NodeId) returns (r: Val, ghost afters: seq<Val>)
      requires Valid() && n in active && n in given && given[n].shape.ObjectShape?
      requires forall i | 0 <= i < |given[n].kids| :: AllBelow(given, active, given[n].kids[i])
      modifies this
      ensures Valid() && active == old(active) && Grew(old(Now()), Now()) && WalkedTo(replace, given, heap, active, memo, n, afters, r)
      decreases |given.Keys - active|, 3
    {
      hide Good, Grew, AllBelow, AllAnswer, AllSame, Same, KeptKeys, KeptMembers;
      ghost var start := Now();
      NoGrowth(start);
      OnPath(replace, given, start, entered, n);
      var kids, keys := heap[n].kids, heap[n].shape.keys;
      var out: Option<(seq<string>, seq<Val>)> := None;
      afters := [];
      NothingYet(replace, active, memo, kids);
      for i := 0 to |kids|
        invariant Valid() && active == old(active) && Grew(start, Now())
        invariant |afters| == i && AllAnswer(replace, active, memo, given[n].kids, afters)
        invariant out.None? <==> AllSame(afters, kids)
        invariant out.Some? ==> out.value == (KeptKeys(keys[..i]), KeptMembers(keys[..i], afters))
      {
        var after := WalkMember(n, i, afters, start);
        if !Same(after, kids[i]) && out.None? {
          AllSameIsPrefix(afters, kids);
          var copied := CopyFirst(keys, kids, i);
          out := Some(copied);
        }
        KeptSnoc(keys, i, afters, after);
        if out.Some? && keys[i] != PROTO {
          out := Some((out.value.0 + [keys[i]], out.value.1 + [after]));
        }
        SameSnoc(afters, after, kids);
        afters := afters + [after];
      }
      if out.None? {
        return Ref(n), afters;
      }
      assert keys[..|keys|] == keys;
      r := Allocate(Node(ObjectShape(out.value.0), out.value.1), start);
    }

    /** Assigns the first members to a new object. */
    method CopyFirst(keys: seq<string>, kids: seq<Val>, count: nat) returns (copied: (seq<string>, seq<Val>))
      requires |keys| == |kids| && count <= |keys|
      ensures copied == (KeptKeys(keys[..count]), KeptMembers(keys[..count], kids[..count]))
    {
      copied := ([], []);
      for j := 0 to count
        invariant copied == (KeptKeys(keys[..j]), KeptMembers(keys[..j], kids[..j]))
      {
        KeptSnoc(keys, j, kids[..j], kids[j]);
        assert kids[..j + 1] == kids[..j] + [kids[j]];
        if keys[j] != PROTO {
          copied := (copied.0 + [keys[j]], copied.1 + [kids[j]]);
        }
      }
    }

    /** A new node, given back to nobody before. */
    method Allocate(node: Node, ghost start: Snapshot) returns (r: Val)
      requires Valid() && Grew(start, Now())
      modifies this`heap, this`next
      ensures Valid() && Grew(start, Now()) && r.Ref? && r.id in heap && r.id !in given && heap[r.id] == node
      ensures forall m | m in memo :: memo[m] != r
    {
      ghost var before := Now();
      r := Ref(next);
      heap := heap[next := node];
      next := next + 1;
      Allocated(replace, given, before, Now(), entered);
      GrewOn(start, before, Now());
    }
  }

  lemma Allocated(replace: Replace, given: Heap, s: Snapshot, t: Snapshot, entered: seq<NodeId>)
    requires Good(replace, given, s, entered) && s.next in t.heap
    requires t == s.(heap := s.heap[s.next := t.heap[s.next]], next := s.next + 1)
    ensures Good(replace, given, t, entered) && Grew(s, t) && s.next !in given
    ensures forall m | m in s.memo :: s.memo[m] != Ref(s.next)
  {
    assert s.next !in s.heap;
    MemoInLarger(replace, given, s.heap, t.heap, s.memo);
    AllShareInLarger(replace, given, s.heap, t.heap, s.memo);
    forall m | m in s.memo ensures s.memo[m] != Ref(s.next) {
      assert ResultGood(replace, given, s.heap, m, s.memo[m]);
    }
  }

  lemma NotBoth(replace: Replace, given: Heap, s: Snapshot, entered: seq<NodeId>, n: NodeId)
    requires Good(replace, given, s, entered) && n in s.memo
    ensures n !in s.active
  {
  }

  lemma PathExtended(replace: Replace, given: Heap, s: Snapshot, entered: seq<NodeId>, n: NodeId)
    requires Good(replace, given, s, entered) && n in given && n !in s.active && n !in s.memo
    ensures Good(replace, given, s.(active := s.active + {n}), entered + [n])
  {
    EnteredOnce(entered, n);
    hide MemoGood, AllShare, Closed, NoRepeats;
    forall id ensures id in entered + [n] <==> id in s.active + {n} || id in s.memo {
    }
  }

  lemma Finished(replace: Replace, given: Heap, before: Snapshot, on: Snapshot, s: Snapshot, entered: seq<NodeId>, n: NodeId, r: Val)
    requires Good(replace, given, s, entered) && n in given && n in s.active && n !in before.active
    requires on == before.(active := before.active + {n}) && Grew(on, s)
    requires ResultGood(replace, given, s.heap, n, r) && Shares(replace, given, s.heap, s.memo, n, r)
    requires forall m | m in s.memo :: s.memo[m] != r
    ensures var t := s.(active := s.active - {n}, memo := s.memo[n := r]);
      Good(replace, given, t, entered) && Grew(before, t)
  {
    assert n !in s.memo;
    Remember(replace, given, s.heap, s.memo, n, r);
    assert s.active - {n} == before.active;
    hide MemoGood, AllShare, ResultGood, Shares, Closed, NoRepeats;
    var t := s.(active := s.active - {n}, memo := s.memo[n := r]);
    assert t.memo.Keys == s.memo.Keys + {n};
    forall id ensures id in entered <==> id in t.active || id in t.memo {
      assert id in entered <==> id in s.active || id in s.memo;
    }
  }

  lemma NothingYet(replace: Replace, active: set<NodeId>, memo: map<NodeId, Val>, kids: seq<Val>)
    ensures AllAnswer(replace, active, memo, kids, []) && AllSame([], kids)
  {
  }

  lemma DedupPrefix(vs: seq<Val>, i: nat)
    requires DistinctVals(vs) && i <= |vs|
    ensures Dedup(vs[..i]) == vs[..i]
  {
    DedupDistinct(vs[..i]);
  }

  lemma DedupSnoc(vs: seq<Val>, v: Val)
    ensures v in Dedup(vs) <==> v in vs
    ensures Dedup(vs + [v]) == if v in vs then Dedup(vs) else Dedup(vs) + [v]
  {
    DedupHas(vs, v);
    assert (vs + [v])[..|vs|] == vs;
  }

  lemma KeptSnoc(keys: seq<string>, i: nat, vs: seq<Val>, v: Val)
    requires i < |keys| && |vs| == i
    ensures KeptKeys(keys[..i + 1]) == if keys[i] == PROTO then KeptKeys(keys[..i]) else KeptKeys(keys[..i]) + [keys[i]]
    ensures KeptMembers(keys[..i + 1], vs + [v]) ==
      if keys[i] == PROTO then KeptMembers(keys[..i], vs) else KeptMembers(keys[..i], vs) + [v]
  {
    assert keys[..i + 1][..i] == keys[..i] && (vs + [v])[..i] == vs;
  }

  lemma EnteredOnce(entered: seq<NodeId>, n: NodeId)
    requires NoRepeats(entered) && n !in entered
    ensures NoRepeats(entered + [n])
  {
  }

  lemma KidsAreBelow(h: Heap, path: set<NodeId>, n: NodeId)
    requires n in h && AllBelow(h, path, Ref(n))
    ensures forall i | 0 <= i < |h[n].kids| :: AllBelow(h, path + {n}, h[n].kids[i])
  {
    forall i | 0 <= i < |h[n].kids| ensures AllBelow(h, path + {n}, h[n].kids[i]) {
      KidsBelow(h, path, n, i);
    }
  }

  lemma PathGrows(keys: set<NodeId>, path: set<NodeId>, n: NodeId)
    requires n in keys && n !in path
    ensures |keys - (path + {n})| < |keys - path|
  {
    assert keys - path == (keys - (path + {n})) + {n};
  }

  lemma Remember(replace: Replace, h0: Heap, heap: Heap, memo: map<NodeId, Val>, n: NodeId, r: Val)
    requires MemoGood(replace, h0, heap, memo) && n in h0 && n !in memo && ResultGood(replace, h0, heap, n, r)
    requires AllShare(replace, h0, heap, memo) && Shares(replace, h0, heap, memo, n, r)
    requires forall m | m in memo :: memo[m] != r
    ensures MemoGood(replace, h0, heap, memo[n := r]) && AllShare(replace, h0, heap, memo[n := r])
  {
    var memo' := memo[n := r];
    assert Extends(heap, heap);
    forall m | m in memo' ensures m in h0 && Shares(replace, h0, heap, memo', m, memo'[m]) {
      SharesInLarger(replace, h0, heap, heap, memo, memo', m, memo'[m]);
    }
    forall a, b | a in memo' && b in memo' ensures Apart(memo', a, b) {
      assert a in memo && b in memo ==> Apart(memo, a, b);
    }
  }

  /** How a container's walk ends: the container itself, or a new node rebuilt from the answers. */
  ghost predicate WalkedTo(replace: Replace, h0: Heap, heap: Heap, active: set<NodeId>, memo: map<NodeId, Val>, n: NodeId, afters: seq<Val>, r: Val) {
    && n in h0
    && AllAnswer(replace, active, memo, h0[n].kids, afters) && |afters| == |h0[n].kids|
    && (if AllSame(afters, h0[n].kids) then r == Ref(n)
        else r.Ref? && r.id in heap && r.id !in h0 && heap[r.id] == Rebuilt(h0[n].shape, afters) && forall m | m in memo :: memo[m] != r)
  }

  lemma ContainerShares(replace: Replace, h0: Heap, heap: Heap, active: set<NodeId>, memo: map<NodeId, Val>, n: NodeId, afters: seq<Val>, r: Val)
    requires WalkedTo(replace, h0, heap, active, memo, n, afters, r)
    requires forall i | 0 <= i < |h0[n].kids| :: AllBelow(h0, active, h0[n].kids[i])
    ensures Shares(replace, h0, heap, memo, n, r)
  {
    if t :| Unfolds(h0, Ref(n), t) {
      var kids := h0[n].kids;
      forall i | 0 <= i < |kids| ensures Remembered(memo, kids[i]) && Image(replace, memo, kids[i]) == afters[i] {
        assert Unfolds(h0, kids[i], t.kids[i]) && AllBelow(h0, active, kids[i]);
        NotOnPath(h0, active, kids[i], t.kids[i]);
        assert Answers(replace, active, memo, kids[i], afters[i]);
      }
      assert Images(replace, memo, kids) == afters;
    }
  }

  lemma NotRemembered(replace: Replace, h0: Heap, heap: Heap, active: set<NodeId>, memo: map<NodeId, Val>, n: NodeId, afters: seq<Val>, r: Val)
    requires MemoGood(replace, h0, heap, memo) && WalkedTo(replace, h0, heap, active, memo, n, afters, r) && n !in memo
    ensures forall m | m in memo :: memo[m] != r
  {
    forall m | m in memo ensures memo[m] != r {
      assert ResultGood(replace, h0, heap, m, memo[m]);
    }
  }

  lemma AnswersStay(replace: Replace, active: set<NodeId>, memo: map<NodeId, Val>, memo': map<NodeId, Val>, kids: seq<Val>, afters: seq<Val>)
    requires AllAnswer(replace, active, memo, kids, afters)
    requires forall n | n in memo :: n in memo' && memo'[n] == memo[n]
    ensures AllAnswer(replace, active, memo', kids, afters)
  {
    forall i | 0 <= i < |afters| ensures Answers(replace, active, memo', kids[i], afters[i]) {
      assert Answers(replace, active, memo, kids[i], afters[i]);
    }
  }

  lemma AllSameIsPrefix(afters: seq<Val>, kids: seq<Val>)
    requires AllSame(afters, kids)
    ensures kids[..|afters|] == afters
  {
    forall i | 0 <= i < |afters| ensures kids[i] == afters[i] { assert Same(afters[i], kids[i]); }
  }

  lemma SameSnoc(afters: seq<Val>, after: Val, kids: seq<Val>)
    requires |afters| < |kids|
    ensures AllSame(afters + [after], kids) <==> AllSame(afters, kids) && Same(after, kids[|afters|])
  {
    if AllSame(afters + [after], kids) {
      forall i | 0 <= i < |afters| ensures Same(afters[i], kids[i]) { assert Same((afters + [after])[i], kids[i]); }
      assert Same((afters + [after])[|afters|], kids[|afters|]);
    }
  }

  lemma {:induction false} DedupHas(vs: seq<Val>, v: Val)
    ensures v in Dedup(vs) <==> v in vs
    decreases |vs|
  {
    if vs != [] {
      DedupHas(vs[..|vs| - 1], v);
      DedupHas(vs[..|vs| - 1], vs[|vs| - 1]);
      assert vs == vs[..|vs| - 1] + [vs[|vs| - 1]];
    }
  }

  lemma {:induction false} DedupDistinct(vs: seq<Val>)
    requires DistinctVals(vs)
    ensures Dedup(vs) == vs
    decreases |vs|
  {
    if vs != [] {
      DedupDistinct(vs[..|vs| - 1]);
      assert vs == vs[..|vs| - 1] + [vs[|vs| - 1]];
    }
  }

  lemma {:induction false} TreeIsSound(h: Heap, v: Val, t: Tree)
    requires Closed(h) && Unfolds(h, v, t)
    ensures Sound(t)
    decreases t
  {
    if t.Branch? {
      var n := h[v.id];
      assert NodeClosed(h, n);
      forall i | 0 <= i < |t.kids| ensures Sound(t.kids[i]) {
        TreeIsSound(h, n.kids[i], t.kids[i]);
      }
      forall i, j | 0 <= i < j < |t.kids| && t.shape.SetShape? ensures t.kids[i].Leaf? ==> t.kids[i] != t.kids[j] {
        assert Unfolds(h, n.kids[i], t.kids[i]) && Unfolds(h, n.kids[j], t.kids[j]);
      }
    }
  }

  /**
   * The whole of it: for a graph that unfolds to a tree, the result unfolds to the rewritten tree,
   * the graph that was given is untouched, and a container comes back by identity exactly when
   * nothing below it is replaced and no `NaN` is in it, and a rebuilt container refers to the images of
   * its members, shared as they were. On any graph the walk ends, goes into each
   * container at most once, and answers every reference to a container alike.
   */
  method MapCancellationValues(heap: Heap, next: NodeId, v: Val, replace: Replace) returns (after: Heap, r: Val, ghost memo: map<NodeId, Val>, ghost entered: seq<NodeId>)
    requires Closed(heap) && Inside(heap, v) && forall id | id in heap :: id < next
    ensures Extends(heap, after)
    ensures forall t | Unfolds(heap, v, t) :: Unfolds(after, r, Rewritten(replace, t))
    ensures forall t | Unfolds(heap, v, t) && ProtoSafe(replace, t) :: Unfolds(after, r, Substitute(replace, t))
    ensures forall t | Unfolds(heap, v, t) && v.Ref? :: r == v <==> !Altered(replace, t) && !HoldsNaN(t)
    ensures v.Ref? ==> v.id in memo && r == memo[v.id]
    ensures NoRepeats(entered) && forall n :: n in entered <==> n in memo
    ensures MemoGood(replace, heap, after, memo) && AllShare(replace, heap, after, memo)
  {
    var walker := new Walker(heap, next, replace);
    r := walker.Walk(v);
    after, memo, entered := walker.heap, walker.memo, walker.entered;
    forall t | Unfolds(heap, v, t)
      ensures Unfolds(after, r, Rewritten(replace, t)) && (v.Ref? ==> (r == v <==> !Altered(replace, t) && !HoldsNaN(t)))
      ensures ProtoSafe(replace, t) ==> Unfolds(after, r, Substitute(replace, t))
    {
      TreeIsSound(heap, v, t);
      RewritesAsSubstitution(replace, t);
      AnswerGood(replace, heap, after, {}, memo, v, r, t);
      TouchedIff(replace, t);
    }
  }
}
