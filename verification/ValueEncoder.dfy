/**
 * The encoder on object graphs: it keeps the set of containers on the current path, and refuses a
 * graph exactly when some container that encoding would visit can reach itself.
 */
module ValueEncoder {
  import opened Wrappers
  import opened ValueCodec

  type NodeId = nat

  datatype Val = Leaf(a: Atom) | Ref(id: NodeId)

  datatype Node =
    | ArrayNode(items: seq<Val>)
    | MapNode(entries: seq<(Val, Val)>)
    | SetNode(members: seq<Val>)
    | ObjectNode(fields: seq<(string, Val)>)

  type Heap = map<NodeId, Node>

  /** The members encoding visits: all but an object's members under dangerous keys. */
  predicate Visits(n: Node, v: Val) {
    match n
    case ArrayNode(items) => v in items
    case MapNode(entries) => exists i | 0 <= i < |entries| :: entries[i].0 == v || entries[i].1 == v
    case SetNode(members) => v in members
    case ObjectNode(fields) => exists i | 0 <= i < |SafeFields(fields)| :: SafeFields(fields)[i].1 == v
  }

  ghost predicate Closed(h: Heap) {
    forall n, m | n in h && Visits(h[n], Ref(m)) :: m in h
  }

  /** The part of the graph that encoding visits below `v` is the finite tree `t`. */
  ghost predicate Unfolds(h: Heap, v: Val, t: Tree)
    decreases t
  {
    match t
    case Leaf(a) => v == Val.Leaf(a)
    case Array(ts) =>
      && v.Ref? && v.id in h && h[v.id].ArrayNode? && |h[v.id].items| == |ts|
      && forall i | 0 <= i < |ts| :: Unfolds(h, h[v.id].items[i], ts[i])
    case Map(es) =>
      && v.Ref? && v.id in h && h[v.id].MapNode? && |h[v.id].entries| == |es|
      && forall i | 0 <= i < |es| :: Unfolds(h, h[v.id].entries[i].0, es[i].0) && Unfolds(h, h[v.id].entries[i].1, es[i].1)
    case Set(ts) =>
      && v.Ref? && v.id in h && h[v.id].SetNode? && |h[v.id].members| == |ts|
      && forall i | 0 <= i < |ts| :: Unfolds(h, h[v.id].members[i], ts[i])
    case Object(fs) =>
      && v.Ref? && v.id in h && h[v.id].ObjectNode? && |SafeFields(h[v.id].fields)| == |fs|
      && forall i | 0 <= i < |fs| ::
           SafeFields(h[v.id].fields)[i].0 == fs[i].0 && Unfolds(h, SafeFields(h[v.id].fields)[i].1, fs[i].1)
  }

  lemma {:induction false} UnfoldsUnique(h: Heap, v: Val, t: Tree, u: Tree)
    requires Unfolds(h, v, t) && Unfolds(h, v, u)
    ensures t == u
    decreases t
  {
    match t
    case Leaf(_) =>
    case Array(ts) =>
      forall i | 0 <= i < |ts| ensures ts[i] == u.items[i] { UnfoldsUnique(h, h[v.id].items[i], ts[i], u.items[i]); }
      assert ts == u.items;
    case Map(es) =>
      forall i | 0 <= i < |es| ensures es[i] == u.entries[i] {
        UnfoldsUnique(h, h[v.id].entries[i].0, es[i].0, u.entries[i].0);
        UnfoldsUnique(h, h[v.id].entries[i].1, es[i].1, u.entries[i].1);
      }
      assert es == u.entries;
    case Set(ts) =>
      forall i | 0 <= i < |ts| ensures ts[i] == u.members[i] { UnfoldsUnique(h, h[v.id].members[i], ts[i], u.members[i]); }
      assert ts == u.members;
    case Object(fs) =>
      forall i | 0 <= i < |fs| ensures fs[i] == u.fields[i] {
        UnfoldsUnique(h, SafeFields(h[v.id].fields)[i].1, fs[i].1, u.fields[i].1);
      }
      assert fs == u.fields;
  }

  // ----- Cycles -----

  /** Each container visits the next. */
  ghost predicate IsPath(h: Heap, p: seq<NodeId>) {
    && (forall i | 0 <= i < |p| :: p[i] in h)
    && forall i | 0 <= i < |p| - 1 :: Steps(h, p, i)
  }

  ghost predicate Steps(h: Heap, p: seq<NodeId>, i: nat)
    requires i + 1 < |p|
  {
    p[i] in h && Visits(h[p[i]], Ref(p[i + 1]))
  }

  ghost predicate Repeats(p: seq<NodeId>) {
    exists i, j :: 0 <= i < j < |p| && p[i] == p[j]
  }

  ghost predicate CycleAlong(h: Heap, p: seq<NodeId>, v: Val) {
    IsPath(h, p) && p != [] && v == Ref(p[0]) && Repeats(p)
  }

  /** Some container visited below `v`, or `v` itself, can reach itself. */
  ghost predicate HasCycle(h: Heap, v: Val) {
    exists p :: CycleAlong(h, p, v)
  }

  ghost predicate HasSmallerTree(h: Heap, v: Val, t: Tree) {
    exists u :: Unfolds(h, v, u) && u < t
  }

  lemma VisitedIsSmaller(h: Heap, n: NodeId, v: Val, t: Tree)
    requires n in h && Unfolds(h, Ref(n), t) && Visits(h[n], v)
    ensures HasSmallerTree(h, v, t)
  {
    match t
    case Array(ts) =>
      var i :| 0 <= i < |h[n].items| && h[n].items[i] == v;
      assert Unfolds(h, v, ts[i]) && ts[i] < t;
    case Map(es) =>
      var i :| 0 <= i < |es| && (h[n].entries[i].0 == v || h[n].entries[i].1 == v);
      if h[n].entries[i].0 == v {
        assert Unfolds(h, v, es[i].0) && es[i].0 < t;
      } else {
        assert Unfolds(h, v, es[i].1) && es[i].1 < t;
      }
    case Set(ts) =>
      var i :| 0 <= i < |h[n].members| && h[n].members[i] == v;
      assert Unfolds(h, v, ts[i]) && ts[i] < t;
    case Object(fs) =>
      var i :| 0 <= i < |fs| && SafeFields(h[n].fields)[i].1 == v;
      assert Unfolds(h, v, fs[i].1) && fs[i].1 < t;
  }

  /** Along a path, trees get smaller. */
  lemma {:induction false} SmallerAlong(h: Heap, p: seq<NodeId>, i: nat, j: nat, t: Tree)
    requires IsPath(h, p) && i < j < |p| && Unfolds(h, Ref(p[i]), t)
    ensures HasSmallerTree(h, Ref(p[j]), t)
    decreases j - i
  {
    assert Steps(h, p, i);
    VisitedIsSmaller(h, p[i], Ref(p[i + 1]), t);
    if i + 1 < j {
      var u :| Unfolds(h, Ref(p[i + 1]), u) && u < t;
      SmallerAlong(h, p, i + 1, j, u);
      var w :| Unfolds(h, Ref(p[j]), w) && w < u;
      assert w < t;
    }
  }

  /** What unfolds to a finite tree reaches no cycle. */
  lemma NoCycleInTree(h: Heap, v: Val, t: Tree)
    requires Unfolds(h, v, t)
    ensures !HasCycle(h, v)
  {
    if p :| CycleAlong(h, p, v) {
      var i, j :| 0 <= i < j < |p| && p[i] == p[j];
      if i > 0 {
        SmallerAlong(h, p, 0, i, t);
      }
      var u :| Unfolds(h, Ref(p[i]), u);
      SmallerAlong(h, p, i, j, u);
      var w :| Unfolds(h, Ref(p[j]), w) && w < u;
      UnfoldsUnique(h, Ref(p[i]), u, w);
    }
  }

  // ----- The encoder -----

  datatype Encoded = Done(w: Wire) | Circular

  datatype EncodedAll = AllDone(ws: seq<Wire>) | SomeCircular

  /** The cycle found lies ahead of the path so far. */
  ghost predicate CycleAhead(h: Heap, path: seq<NodeId>, v: Val, q: seq<NodeId>) {
    q != [] && v == Ref(q[0]) && IsPath(h, path + q) && Repeats(path + q)
  }

  ghost predicate Finds(h: Heap, path: seq<NodeId>, v: Val) {
    exists q :: CycleAhead(h, path, v, q)
  }

  lemma FindsUp(h: Heap, path: seq<NodeId>, n: NodeId, v: Val)
    requires Finds(h, path + [n], v)
    ensures Finds(h, path, Ref(n))
  {
    var q :| CycleAhead(h, path + [n], v, q);
    assert path + [n] + q == path + ([n] + q);
    assert CycleAhead(h, path, Ref(n), [n] + q);
  }

  lemma FoundHere(h: Heap, path: seq<NodeId>, n: NodeId)
    requires IsPath(h, path + [n]) && n in path
    ensures Finds(h, path, Ref(n))
  {
    var i :| 0 <= i < |path| && path[i] == n;
    var p := path + [n];
    assert p[i] == p[|path|];
    assert CycleAhead(h, path, Ref(n), [n]);
  }

  /** What the path may be extended with. */
  ghost predicate Next(h: Heap, path: seq<NodeId>, v: Val) {
    v.Ref? ==> IsPath(h, path + [v.id])
  }

  lemma NextVisited(h: Heap, path: seq<NodeId>, n: NodeId, v: Val)
    requires Closed(h) && IsPath(h, path + [n]) && n in h && Visits(h[n], v)
    ensures Next(h, path + [n], v)
  {
    if v.Ref? {
      var p := path + [n] + [v.id];
      assert v.id in h;
      forall i | 0 <= i < |p| ensures p[i] in h {
        assert i <= |path| ==> p[i] == (path + [n])[i];
      }
      forall i | 0 <= i < |p| - 1 ensures Steps(h, p, i) {
        if i < |path| {
          assert Steps(h, path + [n], i);
        }
      }
    }
  }

  ghost predicate UnfoldsAll(h: Heap, vs: seq<Val>, ts: seq<Tree>) {
    |vs| == |ts| && forall i | 0 <= i < |vs| :: Unfolds(h, vs[i], ts[i])
  }

  ghost predicate EncodesAll(ts: seq<Tree>, ws: seq<Wire>, positional: bool, base64: bool) {
    |ts| == |ws| && forall i | 0 <= i < |ts| :: ws[i] == Encode(ts[i], positional, base64)
  }

  class Encoder {
    const h: Heap
    const base64: bool
    /** The containers on the current path. */
    var seen: set<NodeId>

    constructor (h: Heap, base64: bool)
      ensures this.h == h && this.base64 == base64 && seen == {}
    {
      this.h, this.base64, seen := h, base64, {};
    }

    ghost predicate OnPath(path: seq<NodeId>)
      reads this
    {
      && Closed(h) && IsPath(h, path) && seen <= h.Keys
      && forall n :: n in path <==> n in seen
    }

    method EncodeInner(v: Val, positional: bool, ghost path: seq<NodeId>) returns (r: Encoded, ghost t: Tree)
      requires OnPath(path) && Next(h, path, v)
      modifies this
      ensures seen == old(seen)
      ensures r.Done? ==> Unfolds(h, v, t) && r.w == Encode(t, positional, base64)
      ensures r.Circular? ==> Finds(h, path, v)
      decreases |h.Keys - seen|, 0
    {
      if v.Leaf? {
        return Done(EncodeAtom(v.a, positional, base64)), Tree.Leaf(v.a);
      }
      var n := v.id;
      assert n == (path + [n])[|path|];
      if n in seen {
        FoundHere(h, path, n);
        return Circular, Tree.Leaf(Null);
      }
      ghost var before := seen;
      SeenGrows(h.Keys, seen, n);
      seen := seen + {n};
      assert forall m :: m in path + [n] <==> m in seen;
      match h[n] {
        case ArrayNode(_) => r, t := EncodeArray(n, positional, path);
        case MapNode(_) => r, t := EncodeMap(n, positional, path);
        case SetNode(_) => r, t := EncodeSet(n, positional, path);
        case ObjectNode(_) => r, t := EncodeObject(n, positional, path);
      }
      seen := seen - {n};
      assert seen == before;
    }

    /** Encodes the members of container `n` that are in positional slots. */
    method EncodeElements(vs: seq<Val>, n: NodeId, ghost path: seq<NodeId>) returns (r: EncodedAll, ghost ts: seq<Tree>)
      requires OnPath(path + [n]) && n in h && forall i | 0 <= i < |vs| :: Visits(h[n], vs[i])
      modifies this
      ensures seen == old(seen)
      ensures r.AllDone? ==> UnfoldsAll(h, vs, ts) && EncodesAll(ts, r.ws, true, base64)
      ensures r.SomeCircular? ==> Finds(h, path, Ref(n))
      decreases |h.Keys - seen|, 1
    {
      hide Unfolds, Encode, Finds, IsPath, Closed;
      var ws: seq<Wire> := [];
      ts := [];
      for i := 0 to |vs|
        invariant seen == old(seen) && OnPath(path + [n])
        invariant UnfoldsAll(h, vs[..i], ts) && EncodesAll(ts, ws, true, base64)
      {
        NextVisited(h, path, n, vs[i]);
        ghost var t;
        var e;
        e, t := EncodeInner(vs[i], true, path + [n]);
        if e.Circular? {
          FindsUp(h, path, n, vs[i]);
          return SomeCircular, ts;
        }
        ws := ws + [e.w];
        ts := ts + [t];
      }
      assert vs[..|vs|] == vs;
      return AllDone(ws), ts;
    }

    method EncodeArray(n: NodeId, positional: bool, ghost path: seq<NodeId>) returns (r: Encoded, ghost t: Tree)
      requires OnPath(path + [n]) && n in h && h[n].ArrayNode?
      modifies this
      ensures seen == old(seen)
      ensures r.Done? ==> Unfolds(h, Ref(n), t) && r.w == Encode(t, positional, base64)
      ensures r.Circular? ==> Finds(h, path, Ref(n))
      decreases |h.Keys - seen|, 2
    {
      ghost var ts;
      var all;
      all, ts := EncodeElements(h[n].items, n, path);
      if all.SomeCircular? {
        return Circular, Tree.Leaf(Null);
      }
      ArrayEncodes(ts, all.ws, positional, base64);
      return Done(WArray(all.ws)), Array(ts);
    }

    method EncodeSet(n: NodeId, positional: bool, ghost path: seq<NodeId>) returns (r: Encoded, ghost t: Tree)
      requires OnPath(path + [n]) && n in h && h[n].SetNode?
      modifies this
      ensures seen == old(seen)
      ensures r.Done? ==> Unfolds(h, Ref(n), t) && r.w == Encode(t, positional, base64)
      ensures r.Circular? ==> Finds(h, path, Ref(n))
      decreases |h.Keys - seen|, 2
    {
      ghost var ts;
      var all;
      all, ts := EncodeElements(h[n].members, n, path);
      if all.SomeCircular? {
        return Circular, Tree.Leaf(Null);
      }
      SetEncodes(ts, all.ws, positional, base64);
      return Done(Tagged("set", [("values", WArray(all.ws))])), Set(ts);
    }

    method EncodeMap(n: NodeId, positional: bool, ghost path: seq<NodeId>) returns (r: Encoded, ghost t: Tree)
      requires OnPath(path + [n]) && n in h && h[n].MapNode?
      modifies this
      ensures seen == old(seen)
      ensures r.Done? ==> Unfolds(h, Ref(n), t) && r.w == Encode(t, positional, base64)
      ensures r.Circular? ==> Finds(h, path, Ref(n))
      decreases |h.Keys - seen|, 2
    {
      hide Unfolds, Encode, Finds, IsPath, Closed, Tagged;
      var entries := h[n].entries;
      var pairs: seq<Wire> := [];
      ghost var es: seq<(Tree, Tree)> := [];
      for i := 0 to |entries|
        invariant seen == old(seen) && OnPath(path + [n])
        invariant |es| == |pairs| == i
        invariant forall k | 0 <= k < i :: EntryEncoded(h, entries[k], es[k], pairs[k], base64)
      {
        ghost var ts;
        var both;
        PairVisited(h, n, i);
        both, ts := EncodeElements([entries[i].0, entries[i].1], n, path);
        if both.SomeCircular? {
          return Circular, Tree.Leaf(Null);
        }
        PairEncoded(h, entries[i], ts, both.ws, base64);
        pairs := pairs + [WArray(both.ws)];
        es := es + [(ts[0], ts[1])];
      }
      MapEncodes(h, n, es, pairs, positional, base64);
      return Done(Tagged("map", [("entries", WArray(pairs))])), Map(es);
    }

    method EncodeObject(n: NodeId, positional: bool, ghost path: seq<NodeId>) returns (r: Encoded, ghost t: Tree)
      requires OnPath(path + [n]) && n in h && h[n].ObjectNode?
      modifies this
      ensures seen == old(seen)
      ensures r.Done? ==> Unfolds(h, Ref(n), t) && r.w == Encode(t, positional, base64)
      ensures r.Circular? ==> Finds(h, path, Ref(n))
      decreases |h.Keys - seen|, 2
    {
      var fields := h[n].fields;
      var out: seq<(string, Wire)> := [];
      ghost var fs: seq<(string, Tree)> := [];
      for i := 0 to |fields|
        invariant seen == old(seen) && OnPath(path + [n])
        invariant FieldsEncoded(h, SafeFields(fields[..i]), fs, out, base64)
      {
        SafeSnoc(fields, i);
        if Dangerous(fields[i].0) {
          continue;
        }
        SafeIn(fields, i);
        NextVisited(h, path, n, fields[i].1);
        ghost var u;
        var e;
        e, u := EncodeInner(fields[i].1, false, path + [n]);
        if e.Circular? {
          FindsUp(h, path, n, fields[i].1);
          return Circular, Tree.Leaf(Null);
        }
        out := out + [(fields[i].0, e.w)];
        fs := fs + [(fields[i].0, u)];
      }
      assert fields[..|fields|] == fields;
      ObjectEncodes(h, n, fs, out, positional, base64);
      return Done(WObject(out)), Object(fs);
    }
  }

  lemma SeenGrows(keys: set<NodeId>, seen: set<NodeId>, n: NodeId)
    requires n in keys && n !in seen
    ensures |keys - (seen + {n})| < |keys - seen|
  {
    assert keys - seen == (keys - (seen + {n})) + {n};
  }

  lemma ArrayEncodes(ts: seq<Tree>, ws: seq<Wire>, positional: bool, base64: bool)
    requires EncodesAll(ts, ws, true, base64)
    ensures Encode(Array(ts), positional, base64) == WArray(ws)
  {
    assert ws == seq(|ts|, i requires 0 <= i < |ts| => Encode(ts[i], true, base64));
  }

  lemma SetEncodes(ts: seq<Tree>, ws: seq<Wire>, positional: bool, base64: bool)
    requires EncodesAll(ts, ws, true, base64)
    ensures Encode(Set(ts), positional, base64) == Tagged("set", [("values", WArray(ws))])
  {
    hide Tagged;
    assert ws == seq(|ts|, i requires 0 <= i < |ts| => Encode(ts[i], true, base64));
  }

  ghost predicate EntryEncoded(h: Heap, e: (Val, Val), t: (Tree, Tree), w: Wire, base64: bool) {
    && Unfolds(h, e.0, t.0) && Unfolds(h, e.1, t.1)
    && w == WArray([Encode(t.0, true, base64), Encode(t.1, true, base64)])
  }

  lemma PairVisited(h: Heap, n: NodeId, i: nat)
    requires n in h && h[n].MapNode? && i < |h[n].entries|
    ensures var e := h[n].entries[i]; forall k | 0 <= k < |[e.0, e.1]| :: Visits(h[n], [e.0, e.1][k])
  {
  }

  lemma PairEncoded(h: Heap, e: (Val, Val), ts: seq<Tree>, ws: seq<Wire>, base64: bool)
    requires UnfoldsAll(h, [e.0, e.1], ts) && EncodesAll(ts, ws, true, base64)
    ensures |ts| == 2 && EntryEncoded(h, e, (ts[0], ts[1]), WArray(ws), base64)
  {
    hide Unfolds, Encode;
    assert Unfolds(h, [e.0, e.1][0], ts[0]) && Unfolds(h, [e.0, e.1][1], ts[1]);
    assert ws == [ws[0], ws[1]];
  }

  lemma MapEncodes(h: Heap, n: NodeId, es: seq<(Tree, Tree)>, pairs: seq<Wire>, positional: bool, base64: bool)
    requires n in h && h[n].MapNode? && |h[n].entries| == |es| == |pairs|
    requires forall k | 0 <= k < |es| :: EntryEncoded(h, h[n].entries[k], es[k], pairs[k], base64)
    ensures Unfolds(h, Ref(n), Map(es)) && Encode(Map(es), positional, base64) == Tagged("map", [("entries", WArray(pairs))])
  {
    hide Tagged;
    forall k | 0 <= k < |es| ensures Unfolds(h, h[n].entries[k].0, es[k].0) && Unfolds(h, h[n].entries[k].1, es[k].1) {
      assert EntryEncoded(h, h[n].entries[k], es[k], pairs[k], base64);
    }
    var ws := seq(|es|, i requires 0 <= i < |es| => WArray([Encode(es[i].0, true, base64), Encode(es[i].1, true, base64)]));
    forall k | 0 <= k < |es| ensures ws[k] == pairs[k] {
      assert EntryEncoded(h, h[n].entries[k], es[k], pairs[k], base64);
    }
    assert ws == pairs;
  }

  lemma {:induction false} SafeConcat<T>(a: seq<(string, T)>, b: seq<(string, T)>)
    ensures SafeFields(a + b) == SafeFields(a) + SafeFields(b)
  {
    hide Dangerous;
    if a == [] {
      assert a + b == b;
    } else {
      assert (a + b)[0] == a[0] && (a + b)[1..] == a[1..] + b;
      SafeConcat(a[1..], b);
    }
  }

  lemma SafeSnoc<T>(fields: seq<(string, T)>, i: nat)
    requires i < |fields|
    ensures SafeFields(fields[..i + 1]) ==
      if Dangerous(fields[i].0) then SafeFields(fields[..i]) else SafeFields(fields[..i]) + [fields[i]]
  {
    SafeConcat(fields[..i], [fields[i]]);
    assert fields[..i + 1] == fields[..i] + [fields[i]];
    assert [fields[i]][1..] == [];
  }

  lemma SafeIn(fields: seq<(string, Val)>, i: nat)
    requires i < |fields| && !Dangerous(fields[i].0)
    ensures Visits(ObjectNode(fields), fields[i].1)
  {
    SafeSnoc(fields, i);
    SafeConcat(fields[..i + 1], fields[i + 1..]);
    assert fields == fields[..i + 1] + fields[i + 1..];
    assert SafeFields(fields)[|SafeFields(fields[..i])|] == fields[i];
  }

  ghost predicate FieldsEncoded(h: Heap, fields: seq<(string, Val)>, fs: seq<(string, Tree)>, out: seq<(string, Wire)>, base64: bool) {
    && |fields| == |fs| == |out|
    && forall k | 0 <= k < |fs| :: FieldEncoded(h, fields[k], fs[k], out[k], base64)
  }

  ghost predicate FieldEncoded(h: Heap, field: (string, Val), f: (string, Tree), w: (string, Wire), base64: bool) {
    && f.0 == field.0 && w.0 == field.0 && !Dangerous(field.0)
    && Unfolds(h, field.1, f.1) && w.1 == Encode(f.1, false, base64)
  }

  lemma {:induction false} AllSafe<T>(fields: seq<(string, T)>)
    requires forall i | 0 <= i < |fields| :: !Dangerous(fields[i].0)
    ensures SafeFields(fields) == fields
  {
    if fields != [] {
      assert forall i | 0 <= i < |fields[1..]| :: fields[1..][i] == fields[i + 1];
      AllSafe(fields[1..]);
    }
  }

  lemma ObjectEncodes(h: Heap, n: NodeId, fs: seq<(string, Tree)>, out: seq<(string, Wire)>, positional: bool, base64: bool)
    requires n in h && h[n].ObjectNode? && FieldsEncoded(h, SafeFields(h[n].fields), fs, out, base64)
    ensures Unfolds(h, Ref(n), Object(fs)) && Encode(Object(fs), positional, base64) == WObject(out)
  {
    var fields := SafeFields(h[n].fields);
    var ws := seq(|fs|, i requires 0 <= i < |fs| => (fs[i].0, Encode(fs[i].1, false, base64)));
    forall k | 0 <= k < |fs|
      ensures fields[k].0 == fs[k].0 && Unfolds(h, fields[k].1, fs[k].1) && ws[k] == out[k] && !Dangerous(ws[k].0)
    {
      assert FieldEncoded(h, fields[k], fs[k], out[k], base64);
    }
    assert ws == out;
    AllSafe(ws);
  }

  /**
   * `encodeValue` ends on every finite graph. It refuses it exactly when a container that encoding
   * visits can reach itself; any other graph, however shared, it encodes as the tree it unfolds to.
   */
  method EncodeValue(h: Heap, v: Val, base64: bool) returns (r: Encoded, ghost t: Tree)
    requires Closed(h) && (v.Ref? ==> v.id in h)
    ensures r.Circular? <==> HasCycle(h, v)
    ensures r.Done? ==> Unfolds(h, v, t) && r.w == ValueCodec.EncodeValue(t, base64)
    ensures forall u | Unfolds(h, v, u) :: r == Done(ValueCodec.EncodeValue(u, base64))
  {
    var encoder := new Encoder(h, base64);
    r, t := encoder.EncodeInner(v, true, []);
    if r.Circular? {
      ghost var q :| CycleAhead(h, [], v, q);
      assert [] + q == q;
      assert CycleAlong(h, q, v);
    } else {
      NoCycleInTree(h, v, t);
    }
    forall u | Unfolds(h, v, u) ensures r == Done(ValueCodec.EncodeValue(u, base64)) {
      NoCycleInTree(h, v, u);
      UnfoldsUnique(h, v, t, u);
    }
  }
}
