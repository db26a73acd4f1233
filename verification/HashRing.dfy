/**
 * The consistent-hash ring that assigns grains to silos: a sorted array of virtual nodes, a
 * lower-bound search for the owner of a hash, and the arcs a silo fires reminders for.
 */
module HashRing {
  import opened Text
  import opened Sorting
  import Decimal

  datatype SiloAddress = SiloAddress(podName: Text, podUid: Text, endpoint: Text)

  function Compare(a: SiloAddress, b: SiloAddress): int {
    if a.podName != b.podName then (if Less(a.podName, b.podName) then -1 else 1)
    else if a.podUid != b.podUid then (if Less(a.podUid, b.podUid) then -1 else 1)
    else if a.endpoint != b.endpoint then (if Less(a.endpoint, b.endpoint) then -1 else 1)
    else 0
  }

  /** `SiloAddress.compare` is a total order whose zero is equality of the three components. */
  lemma CompareIsTotalOrder(a: SiloAddress, b: SiloAddress, c: SiloAddress)
    ensures Compare(a, b) == 0 <==> a == b
    ensures Compare(a, b) == -Compare(b, a)
    ensures Compare(a, b) <= 0 && Compare(b, c) <= 0 ==> Compare(a, c) <= 0
  {
    TextTriple(a.podName, b.podName, c.podName);
    TextTriple(a.podUid, b.podUid, c.podUid);
    TextTriple(a.endpoint, b.endpoint, c.endpoint);
  }

  /** The order is by pod name; pods of one name go by their uid, and those by their endpoint. */
  lemma CompareIsLexicographic(a: SiloAddress, b: SiloAddress)
    ensures Compare(a, b) < 0 <==>
      || Less(a.podName, b.podName)
      || (a.podName == b.podName && Less(a.podUid, b.podUid))
      || (a.podName == b.podName && a.podUid == b.podUid && Less(a.endpoint, b.endpoint))
  {
    LessIrreflexive(a.podName);
    LessIrreflexive(a.podUid);
    LessIrreflexive(a.endpoint);
  }

  lemma TextTriple(a: Text, b: Text, c: Text)
    ensures !(Less(a, b) && Less(b, a)) && !(Less(b, c) && Less(c, b)) && !(Less(a, c) && Less(c, a))
    ensures a == b || Less(a, b) || Less(b, a)
    ensures b == c || Less(b, c) || Less(c, b)
    ensures a == c || Less(a, c) || Less(c, a)
    ensures Less(a, b) && Less(b, c) ==> Less(a, c)
  {
    LessTotal(a, b);
    LessTotal(b, c);
    LessTotal(a, c);
    LessIrreflexive(a);
    LessIrreflexive(b);
    if Less(a, b) && Less(b, a) { LessTransitive(a, b, a); }
    if Less(b, c) && Less(c, b) { LessTransitive(b, c, b); }
    if Less(a, c) && Less(c, a) { LessTransitive(a, c, a); }
    if Less(a, b) && Less(b, c) { LessTransitive(a, b, c); }
  }

  const HASH_SPACE := 0x1_0000_0000

  type Hash = x: int | 0 <= x < HASH_SPACE

  datatype RingNode = RingNode(hash: Hash, silo: SiloAddress)

  /** The sort's comparator: by hash, ties by the full silo address. */
  predicate NodeLe(x: RingNode, y: RingNode) {
    x.hash < y.hash || (x.hash == y.hash && Compare(x.silo, y.silo) <= 0)
  }

  lemma NodeLeIsTotalOrder()
    ensures TotalPreorder(NodeLe) && Antisymmetric(NodeLe)
  {
    forall x: RingNode, y: RingNode
      ensures NodeLe(x, y) || NodeLe(y, x)
      ensures NodeLe(x, y) && NodeLe(y, x) ==> x == y
    {
      CompareIsTotalOrder(x.silo, y.silo, x.silo);
    }
    forall x, y, z | NodeLe(x, y) && NodeLe(y, z) ensures NodeLe(x, z) {
      CompareIsTotalOrder(x.silo, y.silo, z.silo);
    }
  }

  // ----- Building the ring -----

  const HASH_SIGN: CodeUnit := 0x23

  function VnodeName(silo: SiloAddress, v: nat): Text {
    silo.podName + [HASH_SIGN] + Decimal.PrintNat(v)
  }

  function VnodesOf(silo: SiloAddress, vnodes: nat, hashOf: Text -> Hash): seq<RingNode> {
    seq(vnodes, v requires 0 <= v < vnodes => RingNode(hashOf(VnodeName(silo, v)), silo))
  }

  function AllVnodes(silos: seq<SiloAddress>, vnodes: nat, hashOf: Text -> Hash): seq<RingNode> {
    if silos == [] then []
    else AllVnodes(silos[..|silos| - 1], vnodes, hashOf) + VnodesOf(silos[|silos| - 1], vnodes, hashOf)
  }

  function Ring(silos: seq<SiloAddress>, vnodes: nat, hashOf: Text -> Hash): seq<RingNode> {
    Sort(NodeLe, AllVnodes(silos, vnodes, hashOf))
  }

  lemma {:induction false} AllVnodesConcat(a: seq<SiloAddress>, b: seq<SiloAddress>, vnodes: nat, hashOf: Text -> Hash)
    ensures AllVnodes(a + b, vnodes, hashOf) == AllVnodes(a, vnodes, hashOf) + AllVnodes(b, vnodes, hashOf)
    decreases |b|
  {
    if b == [] {
      assert a + b == a;
    } else {
      var b' := b[..|b| - 1];
      assert (a + b)[..|a + b| - 1] == a + b';
      AllVnodesConcat(a, b', vnodes, hashOf);
    }
  }

  lemma VnodesInMiddle(before: seq<SiloAddress>, s: SiloAddress, after: seq<SiloAddress>, vnodes: nat, hashOf: Text -> Hash)
    ensures multiset(AllVnodes(before + [s] + after, vnodes, hashOf))
         == multiset(AllVnodes(before + after, vnodes, hashOf)) + multiset(VnodesOf(s, vnodes, hashOf))
  {
    AllVnodesConcat(before, after, vnodes, hashOf);
    AllVnodesConcat(before + [s], after, vnodes, hashOf);
    assert (before + [s])[..|before|] == before;
  }

  lemma VnodesAtEnd(a: seq<SiloAddress>, vnodes: nat, hashOf: Text -> Hash)
    requires a != []
    ensures multiset(AllVnodes(a, vnodes, hashOf))
         == multiset(AllVnodes(a[..|a| - 1], vnodes, hashOf)) + multiset(VnodesOf(a[|a| - 1], vnodes, hashOf))
  {
  }

  lemma SameSize(a: seq<SiloAddress>, b: seq<SiloAddress>)
    requires multiset(a) == multiset(b)
    ensures |a| == |b|
  {
    assert |multiset(a)| == |multiset(b)|;
  }

  lemma {:induction false} AllVnodesPermute(a: seq<SiloAddress>, b: seq<SiloAddress>, vnodes: nat, hashOf: Text -> Hash)
    requires multiset(a) == multiset(b)
    ensures multiset(AllVnodes(a, vnodes, hashOf)) == multiset(AllVnodes(b, vnodes, hashOf))
    decreases |a|
  {
    hide VnodesOf, AllVnodes;
    SameSize(a, b);
    if a == [] {
      assert a == b;
    } else {
      var i := FindLast(a, b);
      var before, after := b[..i], b[i + 1..];
      AllVnodesPermute(a[..|a| - 1], before + after, vnodes, hashOf);
      assert b == before + [a[|a| - 1]] + after;
      VnodesAtEnd(a, vnodes, hashOf);
      VnodesInMiddle(before, a[|a| - 1], after, vnodes, hashOf);
    }
  }

  lemma FindLast(a: seq<SiloAddress>, b: seq<SiloAddress>) returns (i: nat)
    requires multiset(a) == multiset(b) && a != []
    ensures i < |b| && b[i] == a[|a| - 1]
    ensures multiset(a[..|a| - 1]) == multiset(b[..i] + b[i + 1..])
  {
    var s := a[|a| - 1];
    assert a == a[..|a| - 1] + [s];
    assert s in multiset(b);
    i :| 0 <= i < |b| && b[i] == s;
    assert b == b[..i] + [s] + b[i + 1..];
    assert multiset(a[..|a| - 1]) == multiset(a) - multiset{s};
    assert multiset(b[..i] + b[i + 1..]) == multiset(b) - multiset{s};
  }

  /** Every silo computes the same ring, in whatever order its membership view lists the silos. */
  lemma RingIgnoresMemberOrder(a: seq<SiloAddress>, b: seq<SiloAddress>, vnodes: nat, hashOf: Text -> Hash)
    requires multiset(a) == multiset(b)
    ensures Ring(a, vnodes, hashOf) == Ring(b, vnodes, hashOf)
  {
    AllVnodesPermute(a, b, vnodes, hashOf);
    NodeLeIsTotalOrder();
    SortIgnoresOrder(NodeLe, AllVnodes(a, vnodes, hashOf), AllVnodes(b, vnodes, hashOf));
  }

  lemma RingIsSorted(silos: seq<SiloAddress>, vnodes: nat, hashOf: Text -> Hash)
    ensures Sorted(NodeLe, Ring(silos, vnodes, hashOf))
    ensures multiset(Ring(silos, vnodes, hashOf)) == multiset(AllVnodes(silos, vnodes, hashOf))
  {
    NodeLeIsTotalOrder();
    SortSorts(NodeLe, AllVnodes(silos, vnodes, hashOf));
    SortPermutes(NodeLe, AllVnodes(silos, vnodes, hashOf));
  }

  /** `x` is the `v`-th virtual node of the silo: where the text `podName#v` hashes to. */
  ghost predicate IsVnode(x: RingNode, silo: SiloAddress, v: nat, hashOf: Text -> Hash) {
    x.silo == silo && x.hash == hashOf(silo.podName + [0x23 as CodeUnit] + Decimal.PrintNat(v))
  }

  lemma VnodeNameIs(silo: SiloAddress, v: nat)
    ensures VnodeName(silo, v) == silo.podName + [0x23 as CodeUnit] + Decimal.PrintNat(v)
  {
  }

  ghost predicate HasVnode(x: RingNode, vnodes: nat, hashOf: Text -> Hash) {
    exists v: nat :: v < vnodes && IsVnode(x, x.silo, v, hashOf)
  }

  lemma VnodesHas(silo: SiloAddress, vnodes: nat, hashOf: Text -> Hash, x: RingNode)
    ensures x in VnodesOf(silo, vnodes, hashOf) <==> x.silo == silo && HasVnode(x, vnodes, hashOf)
    ensures |VnodesOf(silo, vnodes, hashOf)| == vnodes
  {
    hide VnodeName;
    var all := VnodesOf(silo, vnodes, hashOf);
    if x in all {
      var v :| 0 <= v < |all| && all[v] == x;
      VnodeNameIs(silo, v);
      assert IsVnode(x, x.silo, v, hashOf);
    }
    if x.silo == silo && HasVnode(x, vnodes, hashOf) {
      var v: nat :| v < vnodes && IsVnode(x, x.silo, v, hashOf);
      VnodeNameIs(silo, v);
      assert all[v] == x;
    }
  }

  lemma {:induction false} AllVnodesHas(silos: seq<SiloAddress>, vnodes: nat, hashOf: Text -> Hash, x: RingNode)
    ensures x in AllVnodes(silos, vnodes, hashOf) <==> x.silo in silos && HasVnode(x, vnodes, hashOf)
    ensures |AllVnodes(silos, vnodes, hashOf)| == |silos| * vnodes
    decreases |silos|
  {
    hide VnodesOf, HasVnode;
    if silos != [] {
      var n := |silos| - 1;
      AllVnodesHas(silos[..n], vnodes, hashOf, x);
      VnodesHas(silos[n], vnodes, hashOf, x);
      assert silos == silos[..n] + [silos[n]];
      assert n * vnodes + vnodes == |silos| * vnodes;
    }
  }

  /** The ring holds exactly the virtual nodes of its silos, as many of each as are asked for. */
  lemma RingHoldsVnodes(silos: seq<SiloAddress>, vnodes: nat, hashOf: Text -> Hash, x: RingNode)
    ensures x in Ring(silos, vnodes, hashOf) <==> x.silo in silos && HasVnode(x, vnodes, hashOf)
    ensures |Ring(silos, vnodes, hashOf)| == |silos| * vnodes
  {
    AllVnodesHas(silos, vnodes, hashOf, x);
    RingIsSorted(silos, vnodes, hashOf);
    var ring, all := Ring(silos, vnodes, hashOf), AllVnodes(silos, vnodes, hashOf);
    assert |multiset(ring)| == |multiset(all)|;
    assert x in ring <==> x in multiset(ring);
    assert x in all <==> x in multiset(all);
  }

  // ----- Ownership -----

  /** How far clockwise from `h` a node sits. */
  function Distance(h: Hash, n: RingNode): nat {
    (n.hash - h) % HASH_SPACE
  }

  /** `x` is met no later than `y` going clockwise from `h`; co-located nodes rank by silo address. */
  predicate MetFirst(h: Hash, x: RingNode, y: RingNode) {
    Distance(h, x) < Distance(h, y)
    || (Distance(h, x) == Distance(h, y) && Compare(x.silo, y.silo) <= 0)
  }

  /** The first node met clockwise from `h`: what consistent hashing means by the owner of `h`. */
  ghost predicate Successor(nodes: seq<RingNode>, h: Hash, x: RingNode) {
    x in nodes && forall y | y in nodes :: MetFirst(h, x, y)
  }

  lemma SuccessorUnique(nodes: seq<RingNode>, h: Hash, x: RingNode, y: RingNode)
    requires Successor(nodes, h, x) && Successor(nodes, h, y)
    ensures x == y
  {
    CompareIsTotalOrder(x.silo, y.silo, x.silo);
  }

  ghost predicate IsLowerBound(nodes: seq<RingNode>, h: Hash, i: int) {
    && 0 <= i <= |nodes|
    && (forall j | 0 <= j < i :: nodes[j].hash < h)
    && (forall j | i <= j < |nodes| :: nodes[j].hash >= h)
  }

  lemma LowerBoundIsSuccessor(nodes: seq<RingNode>, h: Hash, i: int)
    requires Sorted(NodeLe, nodes) && nodes != [] && IsLowerBound(nodes, h, i)
    ensures Successor(nodes, h, nodes[i % |nodes|])
  {
    var k := i % |nodes|;
    assert k == if i == |nodes| then 0 else i;
    forall y | y in nodes ensures MetFirst(h, nodes[k], y) {
      var j :| 0 <= j < |nodes| && nodes[j] == y;
      CompareIsTotalOrder(y.silo, y.silo, y.silo);
      assert k < j ==> NodeLe(nodes[k], nodes[j]);
    }
  }

  datatype OwnerResult = EmptyRing | Owner(silo: SiloAddress)

  /** A node joins the ring: only nodes of the joining silo can become somebody's successor. */
  lemma SuccessorAfterJoin(before: seq<RingNode>, after: seq<RingNode>, joined: SiloAddress, h: Hash, x: RingNode, x': RingNode)
    requires forall n :: n in before ==> n in after
    requires forall n :: n in after ==> n in before || n.silo == joined
    requires Successor(before, h, x) && Successor(after, h, x')
    ensures x' == x || x'.silo == joined
  {
    if x'.silo != joined {
      SuccessorUnique(before, h, x, x');
    }
  }

  // ----- The ring object -----

  class ConsistentHashRing {
    const nodes: seq<RingNode>
    const members: seq<SiloAddress>

    ghost predicate Valid() {
      Sorted(NodeLe, nodes)
    }

    constructor (silos: seq<SiloAddress>, vnodes: nat, hashOf: Text -> Hash)
      ensures Valid()
      ensures members == silos
      ensures nodes == Ring(silos, vnodes, hashOf)
    {
      var built: seq<RingNode> := [];
      for s := 0 to |silos|
        invariant built == AllVnodes(silos[..s], vnodes, hashOf)
      {
        ghost var base := built;
        for v := 0 to vnodes
          invariant built == base + VnodesOf(silos[s], vnodes, hashOf)[..v]
        {
          built := built + [RingNode(hashOf(VnodeName(silos[s], v)), silos[s])];
        }
        assert silos[..s + 1][..s] == silos[..s];
      }
      assert silos[..|silos|] == silos;
      RingIsSorted(silos, vnodes, hashOf);
      members := silos;
      nodes := Sort(NodeLe, built);
    }

    method FirstAtOrAfter(h: Hash) returns (lo: nat)
      requires Valid()
      ensures IsLowerBound(nodes, h, lo)
    {
      lo := 0;
      var hi := |nodes|;
      while lo < hi
        invariant 0 <= lo <= hi <= |nodes|
        invariant forall j | 0 <= j < lo :: nodes[j].hash < h
        invariant forall j | hi <= j < |nodes| :: nodes[j].hash >= h
      {
        var mid := (lo + hi) / 2;
        assert forall j | 0 <= j < mid :: NodeLe(nodes[j], nodes[mid]);
        assert forall j | mid < j < |nodes| :: NodeLe(nodes[mid], nodes[j]);
        if nodes[mid].hash < h {
          lo := mid + 1;
        } else {
          hi := mid;
        }
      }
    }

    method OwnerOf(h: Hash) returns (r: OwnerResult)
      requires Valid()
      ensures r.EmptyRing? <==> nodes == []
      ensures nodes != [] ==> exists x :: Successor(nodes, h, x) && r == Owner(x.silo)
    {
      if |nodes| == 0 {
        return EmptyRing;
      }
      var i := FirstAtOrAfter(h);
      LowerBoundIsSuccessor(nodes, h, i);
      return Owner(nodes[i % |nodes|].silo);
    }

    method RangesFor(silo: SiloAddress) returns (ranges: seq<(Hash, Hash)>)
      ensures ranges == Arcs(nodes, silo, |nodes|)
    {
      ranges := [];
      for i := 0 to |nodes|
        invariant ranges == Arcs(nodes, silo, i)
      {
        if nodes[i].silo != silo {
          continue;
        }
        var begin := nodes[i].hash;
        var end := nodes[(i + 1) % |nodes|].hash;
        ranges := ranges + [(begin, end)];
      }
    }
  }

  /** Adding a silo moves a hash only to that silo; read backwards, removing one moves only its own hashes. */
  lemma MembershipChangeMovesOnlyOneSilo(
    silos: seq<SiloAddress>, joined: SiloAddress, after: seq<SiloAddress>, vnodes: nat, hashOf: Text -> Hash,
    h: Hash, x: RingNode, x': RingNode)
    requires multiset(after) == multiset(silos + [joined])
    requires Successor(Ring(silos, vnodes, hashOf), h, x)
    requires Successor(Ring(after, vnodes, hashOf), h, x')
    ensures x'.silo != joined ==> x'.silo == x.silo
    ensures x'.silo != x.silo ==> x'.silo == joined
  {
    var old', new' := Ring(silos, vnodes, hashOf), Ring(after, vnodes, hashOf);
    RingIgnoresMemberOrder(after, silos + [joined], vnodes, hashOf);
    RingIsSorted(silos, vnodes, hashOf);
    RingIsSorted(silos + [joined], vnodes, hashOf);
    assert (silos + [joined])[..|silos|] == silos;
    var was, added := AllVnodes(silos, vnodes, hashOf), VnodesOf(joined, vnodes, hashOf);
    assert multiset(new') == multiset(was) + multiset(added);
    forall n ensures n in old' ==> n in new' {
      assert n in old' ==> n in multiset(was);
      assert n in multiset(new') ==> n in new';
    }
    forall n | n in new' ensures n in old' || n.silo == joined {
      assert n in multiset(new');
      assert n in multiset(was) || n in added;
      assert n in multiset(was) ==> n in multiset(old');
    }
    SuccessorAfterJoin(old', new', joined, h, x, x');
  }

  // ----- Arcs -----

  function IsHashInRange(h: Hash, begin: Hash, end: Hash): bool {
    if begin <= end then h >= begin && h < end else h >= begin || h < end
  }

  predicate IsHashInRanges(h: Hash, ranges: seq<(Hash, Hash)>) {
    exists i :: 0 <= i < |ranges| && IsHashInRange(h, ranges[i].0, ranges[i].1)
  }

  function Next(i: nat, n: nat): (j: nat)
    requires i < n
    ensures j == if i == n - 1 then 0 else i + 1
  {
    (i + 1) % n
  }

  function Arc(nodes: seq<RingNode>, i: nat): (Hash, Hash)
    requires i < |nodes|
  {
    (nodes[i].hash, nodes[Next(i, |nodes|)].hash)
  }

  ghost predicate InArc(nodes: seq<RingNode>, i: nat, h: Hash)
    requires i < |nodes|
  {
    IsHashInRange(h, Arc(nodes, i).0, Arc(nodes, i).1)
  }

  /** The arcs a silo owns among the first `n` nodes. */
  function Arcs(nodes: seq<RingNode>, silo: SiloAddress, n: nat): seq<(Hash, Hash)>
    requires n <= |nodes|
  {
    if n == 0 then []
    else Arcs(nodes, silo, n - 1) + if nodes[n - 1].silo == silo then [Arc(nodes, n - 1)] else []
  }

  ghost predicate Covers(nodes: seq<RingNode>, silo: SiloAddress, h: Hash) {
    IsHashInRanges(h, Arcs(nodes, silo, |nodes|))
  }

  lemma {:induction false} InArcs(nodes: seq<RingNode>, silo: SiloAddress, n: nat, h: Hash)
    requires n <= |nodes|
    ensures IsHashInRanges(h, Arcs(nodes, silo, n))
       <==> exists i :: 0 <= i < n && nodes[i].silo == silo && IsHashInRange(h, Arc(nodes, i).0, Arc(nodes, i).1)
  {
    if n > 0 {
      InArcs(nodes, silo, n - 1, h);
      var shorter, longer := Arcs(nodes, silo, n - 1), Arcs(nodes, silo, n);
      if IsHashInRanges(h, longer) {
        var k :| 0 <= k < |longer| && IsHashInRange(h, longer[k].0, longer[k].1);
        if k < |shorter| {
          assert longer[k] == shorter[k];
          assert IsHashInRanges(h, shorter);
        } else {
          assert longer[k] == Arc(nodes, n - 1);
        }
      }
      if i :| 0 <= i < n && nodes[i].silo == silo && IsHashInRange(h, Arc(nodes, i).0, Arc(nodes, i).1) {
        if i == n - 1 {
          assert longer[|shorter|] == Arc(nodes, i);
        } else {
          var k :| 0 <= k < |shorter| && IsHashInRange(h, shorter[k].0, shorter[k].1);
          assert longer[k] == shorter[k];
        }
      }
    }
  }

  ghost predicate TwoHashes(nodes: seq<RingNode>) {
    exists i, j :: 0 <= i < |nodes| && 0 <= j < |nodes| && nodes[i].hash != nodes[j].hash
  }

  /** Exactly one silo's arcs contain `h`. */
  ghost predicate CoveredOnce(nodes: seq<RingNode>, h: Hash) {
    exists s :: Covers(nodes, s, h) && forall t | Covers(nodes, t, h) :: t == s
  }

  /** The position of the last node at or before `h`, going round to the last node when there is none. */
  function LastAtOrBefore(nodes: seq<RingNode>, h: Hash, n: nat): nat
    requires n <= |nodes| && nodes != []
    ensures LastAtOrBefore(nodes, h, n) < |nodes|
  {
    if n == 0 then |nodes| - 1
    else if nodes[n - 1].hash <= h then n - 1
    else LastAtOrBefore(nodes, h, n - 1)
  }

  lemma {:induction false} LastAtOrBeforeIsLast(nodes: seq<RingNode>, h: Hash, n: nat)
    requires Sorted(NodeLe, nodes) && n <= |nodes| && nodes != []
    requires forall j | n <= j < |nodes| :: nodes[j].hash > h
    ensures var p := LastAtOrBefore(nodes, h, n);
      if nodes[0].hash <= h then
        (forall j | 0 <= j <= p :: nodes[j].hash <= h) && (forall j | p < j < |nodes| :: nodes[j].hash > h)
      else p == |nodes| - 1 && forall j | 0 <= j < |nodes| :: nodes[j].hash > h
  {
    if n > 0 {
      if nodes[n - 1].hash <= h {
        assert forall j | 0 <= j < n - 1 :: NodeLe(nodes[j], nodes[n - 1]);
      } else {
        LastAtOrBeforeIsLast(nodes, h, n - 1);
      }
    }
  }

  lemma EndsDiffer(nodes: seq<RingNode>)
    requires Sorted(NodeLe, nodes) && TwoHashes(nodes)
    ensures nodes != [] && nodes[0].hash < nodes[|nodes| - 1].hash
  {
    var a, b :| 0 <= a < |nodes| && 0 <= b < |nodes| && nodes[a].hash != nodes[b].hash;
    var last := |nodes| - 1;
    assert (a > 0 ==> NodeLe(nodes[0], nodes[a])) && (b > 0 ==> NodeLe(nodes[0], nodes[b]));
    assert (a < last ==> NodeLe(nodes[a], nodes[last])) && (b < last ==> NodeLe(nodes[b], nodes[last]));
  }

  /** With two distinct hashes on the ring, the arc holding `h` is the one its predecessor starts. */
  lemma ArcOfPredecessor(nodes: seq<RingNode>, h: Hash, i: nat)
    requires Sorted(NodeLe, nodes) && TwoHashes(nodes) && i < |nodes|
    ensures InArc(nodes, i, h) <==> i == LastAtOrBefore(nodes, h, |nodes|)
  {
    LastAtOrBeforeIsLast(nodes, h, |nodes|);
    EndsDiffer(nodes);
    var j := Next(i, |nodes|);
    if i < |nodes| - 1 {
      assert NodeLe(nodes[i], nodes[j]);
    }
  }

  lemma CoversByArc(nodes: seq<RingNode>, silo: SiloAddress, h: Hash)
    ensures Covers(nodes, silo, h) <==> exists i :: 0 <= i < |nodes| && nodes[i].silo == silo && InArc(nodes, i, h)
  {
    InArcs(nodes, silo, |nodes|, h);
  }

  /** With two distinct hashes, the silo whose arcs hold `h` is the owner of the node before `h`, and no other. */
  lemma CoveredByPredecessorOnly(nodes: seq<RingNode>, h: Hash, silo: SiloAddress)
    requires Sorted(NodeLe, nodes) && TwoHashes(nodes)
    ensures Covers(nodes, silo, h) <==> silo == nodes[LastAtOrBefore(nodes, h, |nodes|)].silo
  {
    CoversByArc(nodes, silo, h);
    var p := LastAtOrBefore(nodes, h, |nodes|);
    ArcOfPredecessor(nodes, h, p);
    if Covers(nodes, silo, h) {
      var i :| 0 <= i < |nodes| && nodes[i].silo == silo && InArc(nodes, i, h);
      ArcOfPredecessor(nodes, h, i);
    }
  }

  lemma OneHashCoversNothing(nodes: seq<RingNode>, silo: SiloAddress, h: Hash)
    requires !TwoHashes(nodes)
    ensures !Covers(nodes, silo, h)
  {
    CoversByArc(nodes, silo, h);
    forall i | 0 <= i < |nodes| ensures !InArc(nodes, i, h) {
      assert nodes[i].hash == nodes[Next(i, |nodes|)].hash;
    }
  }

  /**
   * The documented tiling of the hash space holds exactly when the ring has two distinct hashes;
   * with one vnode, or with every vnode on one hash, all arcs are empty.
   */
  lemma ArcsTileIffTwoHashes(nodes: seq<RingNode>)
    requires Sorted(NodeLe, nodes)
    ensures (forall h: Hash :: CoveredOnce(nodes, h)) <==> TwoHashes(nodes)
  {
    if TwoHashes(nodes) {
      forall h: Hash ensures CoveredOnce(nodes, h) {
        var owner := nodes[LastAtOrBefore(nodes, h, |nodes|)].silo;
        CoveredByPredecessorOnly(nodes, h, owner);
        forall t | Covers(nodes, t, h) ensures t == owner {
          CoveredByPredecessorOnly(nodes, h, t);
        }
      }
    } else {
      var h: Hash := 0;
      forall s ensures !Covers(nodes, s, h) {
        OneHashCoversNothing(nodes, s, h);
      }
      assert !CoveredOnce(nodes, h);
    }
  }
}
