/**
 * The structural key by which a durable set tells its elements apart: scalars are keyed by type and
 * printed form, objects and arrays by their JSON text with object keys sorted at every level.
 */
module StructuralKeys {
  import opened Text
  import opened Sorting
  import OrderedMap

  /**
   * A JSON value. A number is given by its printed form, which is the same for 0 and -0; an object
   * by its own properties in enumeration order.
   */
  datatype Json =
    | Null
    | Bool(b: bool)
    | Num(numeral: Text)
    | Str(s: Text)
    | Arr(items: seq<Json>)
    | Obj(fields: seq<(Text, Json)>)

  function Ascii(s: string): (t: Text)
    requires forall i | 0 <= i < |s| :: s[i] < '\U{80}'
    ensures |t| == |s|
  {
    seq(|s|, i requires 0 <= i < |s| => s[i] as int)
  }

  predicate IsNumeralUnit(c: CodeUnit) {
    0x30 <= c <= 0x39 || c == 0x2D || c == 0x2B || c == 0x2E || c == 0x65
  }

  predicate IsNumeral(t: Text) {
    t != [] && (0x30 <= t[0] <= 0x39 || t[0] == 0x2D) && forall i | 0 <= i < |t| :: IsNumeralUnit(t[i])
  }

  ghost predicate WellFormed(j: Json) {
    match j
    case Num(t) => IsNumeral(t)
    case Arr(items) => forall i | 0 <= i < |items| :: WellFormed(items[i])
    case Obj(fields) => OrderedMap.Distinct(fields) && forall i | 0 <= i < |fields| :: WellFormed(fields[i].1)
    case _ => true
  }

  // ----- canonicalize -----

  const PROTO: Text := Ascii("__proto__")

  predicate TextLe(a: Text, b: Text) {
    AtMost(a, b)
  }

  /** A canonical array index, which an object enumerates before its other keys, in numeric order. */
  predicate IsIndexKey(k: Text) {
    && k != []
    && (forall i | 0 <= i < |k| :: 0x30 <= k[i] <= 0x39)
    && (|k| > 1 ==> k[0] != 0x30)
    && (|k| < 10 || (|k| == 10 && Less(k, Ascii("4294967295"))))
  }

  predicate IndexLe(a: Text, b: Text) {
    |a| < |b| || (|a| == |b| && AtMost(a, b))
  }

  function Keep(ks: seq<Text>, index: bool): seq<Text> {
    if ks == [] then []
    else (if IsIndexKey(ks[0]) == index then [ks[0]] else []) + Keep(ks[1..], index)
  }

  /** The order in which an object that was assigned the keys `ks` lists them. */
  function Enumerated(ks: seq<Text>): seq<Text> {
    Sort(IndexLe, Keep(ks, true)) + Keep(ks, false)
  }

  function CanonicalOrder(ks: seq<Text>): seq<Text> {
    Enumerated(Sort(TextLe, ks))
  }

  function Canonicalize(j: Json): Json {
    match j
    case Arr(items) => Arr(CanonicalItems(items))
    case Obj(fields) =>
      var canonical := CanonicalFields(fields);
      Obj(Listed(canonical, CanonicalOrder(OrderedMap.Keys(canonical))))
    case _ => j
  }

  function CanonicalItems(items: seq<Json>): (r: seq<Json>)
    ensures |r| == |items|
  {
    if items == [] then [] else [Canonicalize(items[0])] + CanonicalItems(items[1..])
  }

  /** The members the rebuilt object ends up owning: assigning `__proto__` sets its prototype instead. */
  function CanonicalFields(fields: seq<(Text, Json)>): seq<(Text, Json)> {
    if fields == [] then []
    else
      var f := fields[0];
      assert f.1 < f && (fields decreases to f);
      (if f.0 == PROTO then [] else [(f.0, Canonicalize(f.1))]) + CanonicalFields(fields[1..])
  }

  function Listed(m: seq<(Text, Json)>, ks: seq<Text>): (r: seq<(Text, Json)>)
    ensures |r| == |ks|
    ensures forall i | 0 <= i < |r| :: r[i].0 == ks[i] && (OrderedMap.Has(m, ks[i]) ==> r[i].1 == OrderedMap.Get(m, ks[i]))
  {
    seq(|ks|, i requires 0 <= i < |ks| => (ks[i], if OrderedMap.Has(m, ks[i]) then OrderedMap.Get(m, ks[i]) else Null))
  }

  // ----- JSON.stringify -----

  const QUOTE: CodeUnit := 0x22
  const BACKSLASH: CodeUnit := 0x5C
  const COMMA: CodeUnit := 0x2C
  const COLON: CodeUnit := 0x3A

  predicate IsLead(c: CodeUnit) {
    0xD800 <= c < 0xDC00
  }

  predicate IsTrail(c: CodeUnit) {
    0xDC00 <= c < 0xE000
  }

  function Hex(n: nat): (c: CodeUnit)
    requires n < 16
    ensures 0x30 <= c <= 0x39 || 0x61 <= c <= 0x66
  {
    if n < 10 then 0x30 + n else 0x61 + n - 10
  }

  function Escaped(c: CodeUnit): (t: Text)
    ensures t != [] && t[0] != QUOTE && (IsLead(t[0]) ==> false)
  {
    if c == QUOTE || c == BACKSLASH then [BACKSLASH, c]
    else if c == 0x08 then [BACKSLASH, 0x62]
    else if c == 0x09 then [BACKSLASH, 0x74]
    else if c == 0x0A then [BACKSLASH, 0x6E]
    else if c == 0x0C then [BACKSLASH, 0x66]
    else if c == 0x0D then [BACKSLASH, 0x72]
    else if c < 0x20 || IsLead(c) || IsTrail(c) then
      [BACKSLASH, 0x75, Hex(c / 16 / 16 / 16), Hex(c / 16 / 16 % 16), Hex(c / 16 % 16), Hex(c % 16)]
    else [c]
  }

  /** The characters of a JSON string literal after the opening quote; only lone surrogates are escaped. */
  function StringBody(s: Text): (t: Text)
    ensures t != []
  {
    if s == [] then [QUOTE]
    else if |s| > 1 && IsLead(s[0]) && IsTrail(s[1]) then [s[0], s[1]] + StringBody(s[2..])
    else Escaped(s[0]) + StringBody(s[1..])
  }

  function Print(j: Json): Text {
    match j
    case Null => Ascii("null")
    case Bool(b) => if b then Ascii("true") else Ascii("false")
    case Num(t) => t
    case Str(s) => [QUOTE] + StringBody(s)
    case Arr(items) => [0x5B] + PrintItems(items, true)
    case Obj(fields) => [0x7B] + PrintFields(fields, true)
  }

  /** The rest of an array literal; `first` says that no element has been printed yet. */
  function PrintItems(items: seq<Json>, first: bool): Text {
    if items == [] then [0x5D]
    else (if first then [] else [COMMA]) + Print(items[0]) + PrintItems(items[1..], false)
  }

  function PrintFields(fields: seq<(Text, Json)>, first: bool): Text {
    if fields == [] then [0x7D]
    else
      var f := fields[0];
      assert f.1 < f && (fields decreases to f);
      (if first then [] else [COMMA]) + [QUOTE] + StringBody(f.0) + [COLON] + Print(f.1) + PrintFields(fields[1..], false)
  }

  function StructuralKey(j: Json): Text {
    match j
    case Null => Ascii("null:null")
    case Bool(b) => Ascii("boolean:") + Print(j)
    case Num(t) => Ascii("number:") + t
    case Str(s) => Ascii("string:") + s
    case _ => Ascii("object:") + Print(Canonicalize(j))
  }

  // ----- Equality up to property order -----

  /** Equal up to the order of object properties, not counting properties named in `ignored`. */
  ghost predicate SameBut(a: Json, b: Json, ignored: set<Text>)
    decreases a
  {
    match (a, b)
    case (Arr(xs), Arr(ys)) => |xs| == |ys| && forall i | 0 <= i < |xs| :: SameBut(xs[i], ys[i], ignored)
    case (Obj(fs), Obj(gs)) =>
      && (forall k | k !in ignored :: OrderedMap.Has(fs, k) <==> OrderedMap.Has(gs, k))
      && (forall i, j | 0 <= i < |fs| && 0 <= j < |gs| && fs[i].0 == gs[j].0 && fs[i].0 !in ignored ::
            SameBut(fs[i].1, gs[j].1, ignored))
    case (_, _) => a == b
  }

  /** Value equality: same members and elements, whatever the order of object properties. */
  ghost predicate ValueEqual(a: Json, b: Json) {
    SameBut(a, b, {})
  }

  /** What the structural key can see: value equality that looks past own `__proto__` properties. */
  ghost predicate KeyEqual(a: Json, b: Json) {
    SameBut(a, b, {PROTO})
  }

  // ----- Canonical forms are equal exactly for key-equal values -----

  lemma TextLeIsTotalOrder()
    ensures TotalPreorder(TextLe) && Antisymmetric(TextLe)
  {
    forall a: Text, b: Text
      ensures TextLe(a, b) || TextLe(b, a)
      ensures TextLe(a, b) && TextLe(b, a) ==> a == b
    {
      LessTotal(a, b);
      LessIrreflexive(a);
      if Less(a, b) && Less(b, a) { LessTransitive(a, b, a); }
    }
    forall a: Text, b: Text, c: Text | TextLe(a, b) && TextLe(b, c) ensures TextLe(a, c) {
      if Less(a, b) && Less(b, c) { LessTransitive(a, b, c); }
    }
  }

  lemma {:induction false} KeepSplits(ks: seq<Text>)
    ensures multiset(Keep(ks, true)) + multiset(Keep(ks, false)) == multiset(ks)
  {
    if ks != [] {
      KeepSplits(ks[1..]);
      assert ks == [ks[0]] + ks[1..];
    }
  }

  lemma CanonicalOrderPermutes(ks: seq<Text>)
    ensures multiset(CanonicalOrder(ks)) == multiset(ks)
  {
    var sorted := Sort(TextLe, ks);
    SortPermutes(TextLe, ks);
    KeepSplits(sorted);
    SortPermutes(IndexLe, Keep(sorted, true));
  }

  /** The canonical key order depends on the set of keys only. */
  lemma CanonicalOrderIgnoresOrder(ks: seq<Text>, ls: seq<Text>)
    requires multiset(ks) == multiset(ls)
    ensures CanonicalOrder(ks) == CanonicalOrder(ls)
  {
    TextLeIsTotalOrder();
    SortIgnoresOrder(TextLe, ks, ls);
  }

  lemma {:induction false} CanonicalItemsAt(items: seq<Json>, i: nat)
    requires i < |items|
    ensures CanonicalItems(items)[i] == Canonicalize(items[i])
  {
    if i > 0 {
      CanonicalItemsAt(items[1..], i - 1);
    }
  }

  lemma {:induction false} CanonicalFieldsHas(fields: seq<(Text, Json)>, k: Text)
    ensures OrderedMap.Has(CanonicalFields(fields), k) <==> k != PROTO && OrderedMap.Has(fields, k)
    ensures k != PROTO && OrderedMap.Has(fields, k) ==>
      OrderedMap.Get(CanonicalFields(fields), k) == Canonicalize(OrderedMap.Get(fields, k))
  {
    if fields != [] {
      CanonicalFieldsHas(fields[1..], k);
      var (key, value) := fields[0];
      if key == PROTO {
        assert CanonicalFields(fields) == CanonicalFields(fields[1..]);
      } else {
        assert CanonicalFields(fields)[1..] == CanonicalFields(fields[1..]);
      }
    }
  }

  lemma {:induction false} CanonicalFieldsDistinct(fields: seq<(Text, Json)>)
    requires OrderedMap.Distinct(fields)
    ensures OrderedMap.Distinct(CanonicalFields(fields))
  {
    if fields != [] {
      OrderedMap.DistinctTail(fields);
      OrderedMap.HeadKeyIsNew(fields);
      CanonicalFieldsDistinct(fields[1..]);
      CanonicalFieldsHas(fields[1..], fields[0].0);
      OrderedMap.DistinctCons(fields[0].0, Canonicalize(fields[0].1), CanonicalFields(fields[1..]));
      assert [] + CanonicalFields(fields[1..]) == CanonicalFields(fields[1..]);
    }
  }

  lemma KeysBag<V>(m: seq<(Text, V)>, k: Text)
    requires OrderedMap.Distinct(m)
    ensures multiset(OrderedMap.Keys(m))[k] == if OrderedMap.Has(m, k) then 1 else 0
  {
    var ks := OrderedMap.Keys(m);
    OrderedMap.HasIndex(m, k);
    if OrderedMap.Has(m, k) {
      var i :| 0 <= i < |m| && m[i].0 == k;
      assert ks == ks[..i] + [k] + ks[i + 1..];
      forall j | 0 <= j < |m| && j != i ensures ks[j] != k {
        OrderedMap.KeysAt(m, i, j);
      }
      assert k !in ks[..i] && k !in ks[i + 1..];
    } else {
      assert k !in ks;
    }
  }

  lemma SameKeysSameOrder(m: seq<(Text, Json)>, n: seq<(Text, Json)>)
    requires OrderedMap.Distinct(m) && OrderedMap.Distinct(n)
    requires forall k :: OrderedMap.Has(m, k) <==> OrderedMap.Has(n, k)
    ensures CanonicalOrder(OrderedMap.Keys(m)) == CanonicalOrder(OrderedMap.Keys(n))
  {
    var ks, ls := OrderedMap.Keys(m), OrderedMap.Keys(n);
    forall k ensures multiset(ks)[k] == multiset(ls)[k] {
      KeysBag(m, k);
      KeysBag(n, k);
    }
    assert multiset(ks) == multiset(ls);
    CanonicalOrderIgnoresOrder(ks, ls);
  }

  lemma ListedKeys(m: seq<(Text, Json)>, k: Text)
    requires OrderedMap.Distinct(m)
    ensures k in CanonicalOrder(OrderedMap.Keys(m)) <==> OrderedMap.Has(m, k)
  {
    var order := CanonicalOrder(OrderedMap.Keys(m));
    CanonicalOrderPermutes(OrderedMap.Keys(m));
    KeysBag(m, k);
    assert k in order <==> k in multiset(order);
  }

  ghost predicate SameMap(m: seq<(Text, Json)>, n: seq<(Text, Json)>) {
    forall k ::
      && (OrderedMap.Has(m, k) <==> OrderedMap.Has(n, k))
      && (OrderedMap.Has(m, k) ==> OrderedMap.Get(m, k) == OrderedMap.Get(n, k))
  }

  function ListedCanonically(m: seq<(Text, Json)>): seq<(Text, Json)> {
    Listed(m, CanonicalOrder(OrderedMap.Keys(m)))
  }

  lemma ListedHas(m: seq<(Text, Json)>, k: Text)
    requires OrderedMap.Distinct(m)
    ensures OrderedMap.Has(m, k) <==> exists i :: 0 <= i < |ListedCanonically(m)| && ListedCanonically(m)[i].0 == k
    ensures forall i | 0 <= i < |ListedCanonically(m)| && ListedCanonically(m)[i].0 == k ::
      OrderedMap.Has(m, k) && ListedCanonically(m)[i].1 == OrderedMap.Get(m, k)
  {
    ListedKeys(m, k);
    var order := CanonicalOrder(OrderedMap.Keys(m));
    if OrderedMap.Has(m, k) {
      var i :| 0 <= i < |order| && order[i] == k;
      assert ListedCanonically(m)[i].0 == k;
    }
  }

  lemma SameListedSameMap(m: seq<(Text, Json)>, n: seq<(Text, Json)>)
    requires OrderedMap.Distinct(m) && OrderedMap.Distinct(n)
    requires ListedCanonically(m) == ListedCanonically(n)
    ensures SameMap(m, n)
  {
    forall k
      ensures OrderedMap.Has(m, k) <==> OrderedMap.Has(n, k)
      ensures OrderedMap.Has(m, k) ==> OrderedMap.Get(m, k) == OrderedMap.Get(n, k)
    {
      ListedHas(m, k);
      ListedHas(n, k);
    }
  }

  lemma SameMapSameListed(m: seq<(Text, Json)>, n: seq<(Text, Json)>)
    requires OrderedMap.Distinct(m) && OrderedMap.Distinct(n)
    requires SameMap(m, n)
    ensures ListedCanonically(m) == ListedCanonically(n)
  {
    SameKeysSameOrder(m, n);
    var order := CanonicalOrder(OrderedMap.Keys(m));
    forall i | 0 <= i < |order| ensures ListedCanonically(m)[i] == ListedCanonically(n)[i] {
      ListedKeys(m, order[i]);
    }
  }

  /** Value equality of members that carry the same visible name, for the members of two objects. */
  ghost predicate MembersKeyEqual(fs: seq<(Text, Json)>, gs: seq<(Text, Json)>) {
    forall i, j | 0 <= i < |fs| && 0 <= j < |gs| && fs[i].0 == gs[j].0 && fs[i].0 != PROTO :: KeyEqual(fs[i].1, gs[j].1)
  }

  ghost predicate MembersCanonicalIffKeyEqual(fs: seq<(Text, Json)>, gs: seq<(Text, Json)>) {
    forall i, j | 0 <= i < |fs| && 0 <= j < |gs| ::
      Canonicalize(fs[i].1) == Canonicalize(gs[j].1) <==> KeyEqual(fs[i].1, gs[j].1)
  }

  lemma SameMapMembers(fs: seq<(Text, Json)>, gs: seq<(Text, Json)>)
    requires OrderedMap.Distinct(fs) && OrderedMap.Distinct(gs) && MembersCanonicalIffKeyEqual(fs, gs)
    requires SameMap(CanonicalFields(fs), CanonicalFields(gs))
    ensures MembersKeyEqual(fs, gs)
  {
    forall i, j | 0 <= i < |fs| && 0 <= j < |gs| && fs[i].0 == gs[j].0 && fs[i].0 != PROTO
      ensures KeyEqual(fs[i].1, gs[j].1)
    {
      var k := fs[i].0;
      OrderedMap.GetIndex(fs, i);
      OrderedMap.GetIndex(gs, j);
      CanonicalFieldsHas(fs, k);
      CanonicalFieldsHas(gs, k);
      assert OrderedMap.Has(CanonicalFields(fs), k);
    }
  }

  lemma MembersSameMap(fs: seq<(Text, Json)>, gs: seq<(Text, Json)>, k: Text)
    requires OrderedMap.Distinct(fs) && OrderedMap.Distinct(gs) && MembersCanonicalIffKeyEqual(fs, gs)
    requires MembersKeyEqual(fs, gs)
    requires k != PROTO && OrderedMap.Has(fs, k) && OrderedMap.Has(gs, k)
    ensures OrderedMap.Has(CanonicalFields(fs), k) && OrderedMap.Has(CanonicalFields(gs), k)
    ensures OrderedMap.Get(CanonicalFields(fs), k) == OrderedMap.Get(CanonicalFields(gs), k)
  {
    OrderedMap.HasIndex(fs, k);
    OrderedMap.HasIndex(gs, k);
    var i :| 0 <= i < |fs| && fs[i].0 == k;
    var j :| 0 <= j < |gs| && gs[j].0 == k;
    OrderedMap.GetIndex(fs, i);
    OrderedMap.GetIndex(gs, j);
    CanonicalFieldsHas(fs, k);
    CanonicalFieldsHas(gs, k);
    assert KeyEqual(fs[i].1, gs[j].1);
  }

  ghost predicate SameVisibleKeys(fs: seq<(Text, Json)>, gs: seq<(Text, Json)>) {
    forall k | k != PROTO :: OrderedMap.Has(fs, k) <==> OrderedMap.Has(gs, k)
  }

  lemma KeyEqualObjects(fs: seq<(Text, Json)>, gs: seq<(Text, Json)>)
    ensures KeyEqual(Obj(fs), Obj(gs)) <==> SameVisibleKeys(fs, gs) && MembersKeyEqual(fs, gs)
  {
  }

  /** The object case, given the claim for the members. */
  lemma CanonicalObjects(fs: seq<(Text, Json)>, gs: seq<(Text, Json)>)
    requires OrderedMap.Distinct(fs) && OrderedMap.Distinct(gs) && MembersCanonicalIffKeyEqual(fs, gs)
    ensures Canonicalize(Obj(fs)) == Canonicalize(Obj(gs)) <==> KeyEqual(Obj(fs), Obj(gs))
  {
    var m, n := CanonicalFields(fs), CanonicalFields(gs);
    CanonicalFieldsDistinct(fs);
    CanonicalFieldsDistinct(gs);
    KeyEqualObjects(fs, gs);
    if ListedCanonically(m) == ListedCanonically(n) {
      SameListedSameMap(m, n);
      SameMapMembers(fs, gs);
      forall k | k != PROTO ensures OrderedMap.Has(fs, k) <==> OrderedMap.Has(gs, k) {
        CanonicalFieldsHas(fs, k);
        CanonicalFieldsHas(gs, k);
      }
    }
    if SameVisibleKeys(fs, gs) && MembersKeyEqual(fs, gs) {
      forall k
        ensures OrderedMap.Has(m, k) <==> OrderedMap.Has(n, k)
        ensures OrderedMap.Has(m, k) ==> OrderedMap.Get(m, k) == OrderedMap.Get(n, k)
      {
        CanonicalFieldsHas(fs, k);
        CanonicalFieldsHas(gs, k);
        if k != PROTO && OrderedMap.Has(fs, k) {
          MembersSameMap(fs, gs, k);
        }
      }
      SameMapSameListed(m, n);
    }
  }

  lemma {:induction false} CanonicalIffKeyEqual(a: Json, b: Json)
    requires WellFormed(a) && WellFormed(b)
    ensures Canonicalize(a) == Canonicalize(b) <==> KeyEqual(a, b)
    decreases a
  {
    match (a, b)
    case (Arr(xs), Arr(ys)) =>
      if |xs| == |ys| {
        forall i | 0 <= i < |xs|
          ensures CanonicalItems(xs)[i] == CanonicalItems(ys)[i] <==> KeyEqual(xs[i], ys[i])
        {
          CanonicalItemsAt(xs, i);
          CanonicalItemsAt(ys, i);
          CanonicalIffKeyEqual(xs[i], ys[i]);
        }
      }
    case (Obj(fs), Obj(gs)) =>
      forall i, j | 0 <= i < |fs| && 0 <= j < |gs|
        ensures Canonicalize(fs[i].1) == Canonicalize(gs[j].1) <==> KeyEqual(fs[i].1, gs[j].1)
      {
        CanonicalIffKeyEqual(fs[i].1, gs[j].1);
      }
      CanonicalObjects(fs, gs);
    case (_, _) =>
  }

  // ----- The printing is injective -----

  /** How many characters an escape takes, as its first two characters tell. */
  function EscapeLength(t: Text): nat {
    if |t| < 2 || t[0] != BACKSLASH then 1 else if t[1] == 0x75 then 6 else 2
  }

  lemma EscapedLength(c: CodeUnit, r: Text)
    ensures EscapeLength(Escaped(c) + r) == |Escaped(c)|
  {
  }

  lemma HexInjective(m: nat, n: nat)
    requires m < 16 && n < 16 && Hex(m) == Hex(n)
    ensures m == n
  {
  }

  lemma NibblesDetermine(c: CodeUnit, d: CodeUnit)
    requires Hex(c / 16 / 16 / 16) == Hex(d / 16 / 16 / 16) && Hex(c / 16 / 16 % 16) == Hex(d / 16 / 16 % 16)
    requires Hex(c / 16 % 16) == Hex(d / 16 % 16) && Hex(c % 16) == Hex(d % 16)
    ensures c == d
  {
    HexInjective(c / 16 / 16 / 16, d / 16 / 16 / 16);
    HexInjective(c / 16 / 16 % 16, d / 16 / 16 % 16);
    HexInjective(c / 16 % 16, d / 16 % 16);
    HexInjective(c % 16, d % 16);
    assert c / 16 / 16 == d / 16 / 16;
    assert c / 16 == d / 16;
  }

  lemma EscapedInjective(c: CodeUnit, d: CodeUnit)
    requires Escaped(c) == Escaped(d)
    ensures c == d
  {
    var e, f := Escaped(c), Escaped(d);
    if |e| == 6 {
      assert e[2] == f[2] && e[3] == f[3] && e[4] == f[4] && e[5] == f[5];
      NibblesDetermine(c, d);
    } else if |e| == 2 {
      assert e[1] == f[1];
    } else {
      assert e[0] == f[0];
    }
  }

  lemma EscapedIsPrefixCode(c: CodeUnit, d: CodeUnit, r: Text, q: Text)
    requires Escaped(c) + r == Escaped(d) + q
    ensures c == d && r == q
  {
    EscapedLength(c, r);
    EscapedLength(d, q);
    var n := |Escaped(c)|;
    assert Escaped(c) == (Escaped(c) + r)[..n] == (Escaped(d) + q)[..n] == Escaped(d);
    DropPrefix(Escaped(c), r, q);
    EscapedInjective(c, d);
  }

  predicate StartsWithPair(s: Text) {
    |s| > 1 && IsLead(s[0]) && IsTrail(s[1])
  }

  lemma StringBodyStart(s: Text, r: Text)
    ensures s == [] <==> (StringBody(s) + r)[0] == QUOTE
    ensures StartsWithPair(s) <==> IsLead((StringBody(s) + r)[0])
  {
    if s != [] && !StartsWithPair(s) {
      assert (StringBody(s) + r)[0] == Escaped(s[0])[0];
    }
  }

  lemma DropTwo(a: CodeUnit, b: CodeUnit, x: Text, r: Text, c: CodeUnit, d: CodeUnit, y: Text, q: Text)
    requires ([a, b] + x) + r == ([c, d] + y) + q
    ensures a == c && b == d && x + r == y + q
  {
    var text := ([a, b] + x) + r;
    assert text == ([c, d] + y) + q;
    assert a == text[0] == c && b == text[1] == d;
    assert text[2..] == x + r;
    assert (([c, d] + y) + q)[2..] == y + q;
  }

  lemma Associate(x: Text, y: Text, r: Text)
    ensures (x + y) + r == x + (y + r)
  {
  }

  lemma StringBodySteps(s: Text, r: Text)
    ensures s == [] ==> StringBody(s) + r == [QUOTE] + r
    ensures StartsWithPair(s) ==> StringBody(s) + r == ([s[0], s[1]] + StringBody(s[2..])) + r
    ensures s != [] && !StartsWithPair(s) ==> StringBody(s) + r == Escaped(s[0]) + (StringBody(s[1..]) + r)
  {
    hide Escaped, IsLead, IsTrail;
    if s != [] && !StartsWithPair(s) {
      Associate(Escaped(s[0]), StringBody(s[1..]), r);
    }
  }

  lemma FromPieces(s: Text)
    ensures |s| > 0 ==> s == [s[0]] + s[1..]
    ensures |s| > 1 ==> s == [s[0], s[1]] + s[2..]
  {
  }

  lemma {:induction false} StringBodyIsPrefixCode(s: Text, t: Text, r: Text, q: Text)
    requires StringBody(s) + r == StringBody(t) + q
    ensures s == t && r == q
    decreases |s|
  {
    hide StringBody, Escaped, IsLead, IsTrail;
    FromPieces(s);
    FromPieces(t);
    StringBodyStart(s, r);
    StringBodyStart(t, q);
    StringBodySteps(s, r);
    StringBodySteps(t, q);
    if s == [] {
      DropPrefix([QUOTE], r, q);
    } else if StartsWithPair(s) {
      DropTwo(s[0], s[1], StringBody(s[2..]), r, t[0], t[1], StringBody(t[2..]), q);
      StringBodyIsPrefixCode(s[2..], t[2..], r, q);
    } else {
      EscapedIsPrefixCode(s[0], t[0], StringBody(s[1..]) + r, StringBody(t[1..]) + q);
      StringBodyIsPrefixCode(s[1..], t[1..], r, q);
    }
  }

  /** What may follow a printed value: nothing, or a comma or closing bracket. */
  predicate Delimited(r: Text) {
    r == [] || r[0] == COMMA || r[0] == 0x5D || r[0] == 0x7D
  }

  lemma NumeralIsPrefixCode(s: Text, t: Text, r: Text, q: Text)
    requires IsNumeral(s) && IsNumeral(t) && Delimited(r) && Delimited(q)
    requires s + r == t + q
    ensures s == t && r == q
  {
    var text := s + r;
    assert forall i | 0 <= i < |text| && i <= |s| :: IsNumeralUnit(text[i]) <==> i < |s|;
    assert text == t + q;
    assert forall i | 0 <= i < |text| && i <= |t| :: IsNumeralUnit(text[i]) <==> i < |t|;
    var i := if |s| < |t| then |s| else |t|;
    assert i < |text| ==> (IsNumeralUnit(text[i]) <==> i < |s|) && (IsNumeralUnit(text[i]) <==> i < |t|);
    assert |s| == |t|;
    assert s == text[..|s|] && t == text[..|t|];
    assert r == text[|s|..] && q == text[|t|..];
  }

  ghost predicate Printable(j: Json) {
    match j
    case Num(t) => IsNumeral(t)
    case Arr(items) => forall i | 0 <= i < |items| :: Printable(items[i])
    case Obj(fields) => forall i | 0 <= i < |fields| :: Printable(fields[i].1)
    case _ => true
  }

  /** The first character of a printed value tells its kind, and closes nothing. */
  lemma PrintStart(j: Json)
    requires Printable(j)
    ensures Print(j) != []
    ensures match j
      case Null => Print(j)[0] == 0x6E
      case Bool(b) => Print(j)[0] == if b then 0x74 else 0x66
      case Num(_) => 0x30 <= Print(j)[0] <= 0x39 || Print(j)[0] == 0x2D
      case Str(_) => Print(j)[0] == QUOTE
      case Arr(_) => Print(j)[0] == 0x5B
      case Obj(_) => Print(j)[0] == 0x7B
  {
  }

  lemma DropHead(c: CodeUnit, x: Text, r: Text, d: CodeUnit, y: Text, q: Text)
    requires ([c] + x) + r == ([d] + y) + q
    ensures c == d && x + r == y + q
  {
    var text := ([c] + x) + r;
    assert c == text[0] == (([d] + y) + q)[0] == d;
    assert text[1..] == x + r;
    assert (([d] + y) + q)[1..] == y + q;
  }

  lemma DropPrefix(p: Text, x: Text, y: Text)
    requires p + x == p + y
    ensures x == y
  {
    assert (p + x)[|p|..] == x && (p + y)[|p|..] == y;
  }

  lemma Reassociate(p: Text, x: Text, t: Text, r: Text)
    ensures (p + x + t) + r == p + (x + (t + r))
  {
  }

  lemma SameStart(a: Json, b: Json, r: Text, q: Text)
    requires Printable(a) && Printable(b)
    requires Print(a) + r == Print(b) + q
    ensures Print(a) != [] && Print(b) != [] && Print(a)[0] == Print(b)[0]
  {
    PrintStart(a);
    PrintStart(b);
    assert Print(a)[0] == (Print(a) + r)[0] == (Print(b) + q)[0] == Print(b)[0];
  }

  lemma SameKind(a: Json, b: Json)
    requires Printable(a) && Printable(b)
    requires Print(a) != [] && Print(b) != [] && Print(a)[0] == Print(b)[0]
    ensures a.Null? <==> b.Null?
    ensures a.Bool? <==> b.Bool?
    ensures a.Bool? ==> a == b
    ensures a.Num? <==> b.Num?
    ensures a.Str? <==> b.Str?
    ensures a.Arr? <==> b.Arr?
    ensures a.Obj? <==> b.Obj?
  {
    PrintStart(a);
    PrintStart(b);
  }

  lemma {:induction false} PrintIsPrefixCode(a: Json, b: Json, r: Text, q: Text)
    requires Printable(a) && Printable(b) && Delimited(r) && Delimited(q)
    requires Print(a) + r == Print(b) + q
    ensures a == b && r == q
    decreases a
  {
    SameStart(a, b, r, q);
    SameKind(a, b);
    match a
    case Null => DropPrefix(Print(a), r, q);
    case Bool(_) => DropPrefix(Print(a), r, q);
    case Num(s) => NumeralIsPrefixCode(s, b.numeral, r, q);
    case Str(s) =>
      DropHead(QUOTE, StringBody(s), r, QUOTE, StringBody(b.s), q);
      StringBodyIsPrefixCode(s, b.s, r, q);
    case Arr(xs) =>
      DropHead(0x5B, PrintItems(xs, true), r, 0x5B, PrintItems(b.items, true), q);
      ItemsArePrefixCode(xs, b.items, true, r, q);
    case Obj(fs) =>
      DropHead(0x7B, PrintFields(fs, true), r, 0x7B, PrintFields(b.fields, true), q);
      FieldsArePrefixCode(fs, b.fields, true, r, q);
  }

  lemma ItemsStart(xs: seq<Json>, first: bool, r: Text)
    requires forall i | 0 <= i < |xs| :: Printable(xs[i])
    ensures PrintItems(xs, first) != []
    ensures xs == [] <==> PrintItems(xs, first)[0] == 0x5D
    ensures Delimited(PrintItems(xs, false) + r)
  {
    if xs != [] {
      PrintStart(xs[0]);
    }
  }

  lemma BothEmptyOrNot(xs: seq<Json>, ys: seq<Json>, first: bool, r: Text, q: Text)
    requires forall i | 0 <= i < |xs| :: Printable(xs[i])
    requires forall i | 0 <= i < |ys| :: Printable(ys[i])
    requires PrintItems(xs, first) + r == PrintItems(ys, first) + q
    ensures xs == [] <==> ys == []
  {
    var px, py := PrintItems(xs, first), PrintItems(ys, first);
    ItemsStart(xs, first, r);
    ItemsStart(ys, first, q);
    assert px[0] == (px + r)[0] == (py + q)[0] == py[0];
  }

  lemma {:induction false} ItemsArePrefixCode(xs: seq<Json>, ys: seq<Json>, first: bool, r: Text, q: Text)
    requires forall i | 0 <= i < |xs| :: Printable(xs[i])
    requires forall i | 0 <= i < |ys| :: Printable(ys[i])
    requires PrintItems(xs, first) + r == PrintItems(ys, first) + q
    ensures xs == ys && r == q
    decreases xs
  {
    BothEmptyOrNot(xs, ys, first, r, q);
    if xs == [] {
      DropPrefix([0x5D], r, q);
    } else {
      var comma := if first then [] else [COMMA];
      var rx, ry := PrintItems(xs[1..], false) + r, PrintItems(ys[1..], false) + q;
      Reassociate(comma, Print(xs[0]), PrintItems(xs[1..], false), r);
      Reassociate(comma, Print(ys[0]), PrintItems(ys[1..], false), q);
      DropPrefix(comma, Print(xs[0]) + rx, Print(ys[0]) + ry);
      ItemsStart(xs[1..], false, r);
      ItemsStart(ys[1..], false, q);
      PrintIsPrefixCode(xs[0], ys[0], rx, ry);
      ItemsArePrefixCode(xs[1..], ys[1..], false, r, q);
      assert xs == [xs[0]] + xs[1..] && ys == [ys[0]] + ys[1..];
    }
  }

  lemma FieldsStart(fs: seq<(Text, Json)>, first: bool, r: Text)
    ensures PrintFields(fs, first) != []
    ensures fs == [] <==> PrintFields(fs, first)[0] == 0x7D
    ensures Delimited(PrintFields(fs, false) + r)
  {
  }

  lemma BothEmptyOrNotFields(fs: seq<(Text, Json)>, gs: seq<(Text, Json)>, first: bool, r: Text, q: Text)
    requires PrintFields(fs, first) + r == PrintFields(gs, first) + q
    ensures fs == [] <==> gs == []
  {
    var pf, pg := PrintFields(fs, first), PrintFields(gs, first);
    FieldsStart(fs, first, r);
    FieldsStart(gs, first, q);
    assert pf[0] == (pf + r)[0] == (pg + q)[0] == pg[0];
  }

  /** The text of a non-empty member list followed by `r`, cut after the first name. */
  lemma FieldsText(fs: seq<(Text, Json)>, first: bool, r: Text)
    requires fs != []
    ensures PrintFields(fs, first) + r
         == (if first then [QUOTE] else [COMMA, QUOTE])
            + (StringBody(fs[0].0) + ([COLON] + Print(fs[0].1) + (PrintFields(fs[1..], false) + r)))
  {
    var comma := if first then [] else [COMMA];
    assert comma + [QUOTE] == if first then [QUOTE] else [COMMA, QUOTE];
    var name, value, rest := StringBody(fs[0].0), Print(fs[0].1), PrintFields(fs[1..], false);
    assert PrintFields(fs, first) == comma + [QUOTE] + name + [COLON] + value + rest;
    Regroup(comma + [QUOTE], name, [COLON], value, rest, r);
  }

  lemma Regroup(a: Text, b: Text, c: Text, d: Text, e: Text, f: Text)
    ensures (a + b + c + d + e) + f == a + (b + (c + d + (e + f)))
  {
    assert (a + b + c + d + e) + f == (a + b) + (c + d + (e + f));
  }

  lemma {:induction false} FieldsArePrefixCode(fs: seq<(Text, Json)>, gs: seq<(Text, Json)>, first: bool, r: Text, q: Text)
    requires forall i | 0 <= i < |fs| :: Printable(fs[i].1)
    requires forall i | 0 <= i < |gs| :: Printable(gs[i].1)
    requires PrintFields(fs, first) + r == PrintFields(gs, first) + q
    ensures fs == gs && r == q
    decreases fs
  {
    BothEmptyOrNotFields(fs, gs, first, r, q);
    if fs == [] {
      DropPrefix([0x7D], r, q);
    } else {
      var f, g := fs[0], gs[0];
      assert f.1 < f && (fs decreases to f);
      var rf, rg := PrintFields(fs[1..], false) + r, PrintFields(gs[1..], false) + q;
      var nf, ng := [COLON] + Print(f.1) + rf, [COLON] + Print(g.1) + rg;
      FieldsText(fs, first, r);
      FieldsText(gs, first, q);
      DropPrefix(if first then [QUOTE] else [COMMA, QUOTE], StringBody(f.0) + nf, StringBody(g.0) + ng);
      StringBodyIsPrefixCode(f.0, g.0, nf, ng);
      DropHead(COLON, Print(f.1), rf, COLON, Print(g.1), rg);
      FieldsStart(fs[1..], false, r);
      FieldsStart(gs[1..], false, q);
      PrintIsPrefixCode(f.1, g.1, rf, rg);
      FieldsArePrefixCode(fs[1..], gs[1..], false, r, q);
      assert fs == [f] + fs[1..] && gs == [g] + gs[1..];
    }
  }

  /** The canonical printing is injective. */
  lemma PrintInjective(a: Json, b: Json)
    requires Printable(a) && Printable(b)
    ensures Print(a) == Print(b) ==> a == b
  {
    if Print(a) == Print(b) {
      assert Print(a) + [] == Print(a) && Print(b) + [] == Print(b);
      PrintIsPrefixCode(a, b, [], []);
    }
  }

  // ----- The structural key -----

  lemma {:induction false} CanonicalIsPrintable(j: Json)
    requires WellFormed(j)
    ensures Printable(Canonicalize(j))
    decreases j
  {
    match j
    case Arr(items) =>
      forall i | 0 <= i < |items| ensures Printable(CanonicalItems(items)[i]) {
        CanonicalItemsAt(items, i);
        CanonicalIsPrintable(items[i]);
      }
    case Obj(fields) =>
      forall i | 0 <= i < |fields| ensures Printable(Canonicalize(fields[i].1)) {
        CanonicalIsPrintable(fields[i].1);
      }
      var listed := ListedCanonically(CanonicalFields(fields));
      CanonicalFieldsDistinct(fields);
      forall k | 0 <= k < |listed| ensures Printable(listed[k].1) {
        ListedHas(CanonicalFields(fields), listed[k].0);
        CanonicalFieldsHas(fields, listed[k].0);
        OrderedMap.HasIndex(fields, listed[k].0);
        var i :| 0 <= i < |fields| && fields[i].0 == listed[k].0;
        OrderedMap.GetIndex(fields, i);
      }
    case _ =>
  }

  /** The type tag of a key. */
  function Tag(j: Json): Text {
    match j
    case Null => Ascii("null:")
    case Bool(_) => Ascii("boolean:")
    case Num(_) => Ascii("number:")
    case Str(_) => Ascii("string:")
    case _ => Ascii("object:")
  }

  lemma KeyStartsWithTag(j: Json)
    ensures |StructuralKey(j)| >= |Tag(j)| && StructuralKey(j)[..|Tag(j)|] == Tag(j)
    ensures j.Num? ==> StructuralKey(j)[|Tag(j)|..] == j.numeral
    ensures j.Str? ==> StructuralKey(j)[|Tag(j)|..] == j.s
    ensures j.Bool? ==> StructuralKey(j)[|Tag(j)|..] == Print(j)
    ensures j.Arr? || j.Obj? ==> StructuralKey(j)[|Tag(j)|..] == Print(Canonicalize(j))
  {
  }

  lemma SameKeySameTag(a: Json, b: Json)
    requires StructuralKey(a) == StructuralKey(b)
    ensures Tag(a) == Tag(b)
    ensures a.Null? <==> b.Null?
    ensures a.Bool? <==> b.Bool?
    ensures a.Num? <==> b.Num?
    ensures a.Str? <==> b.Str?
  {
    var k := StructuralKey(a);
    KeyStartsWithTag(a);
    KeyStartsWithTag(b);
    assert Tag(a)[0] == k[0] == Tag(b)[0];
    assert Tag(a)[2] == k[2] == Tag(b)[2];
  }

  /**
   * The structural key decides equality up to property order of everything except own `__proto__`
   * properties: two well-formed values share a key exactly when they are equal in that sense.
   */
  lemma KeyDecidesKeyEquality(a: Json, b: Json)
    requires WellFormed(a) && WellFormed(b)
    ensures StructuralKey(a) == StructuralKey(b) <==> KeyEqual(a, b)
  {
    CanonicalIffKeyEqual(a, b);
    KeyStartsWithTag(a);
    KeyStartsWithTag(b);
    if StructuralKey(a) == StructuralKey(b) {
      SameKeySameTag(a, b);
      if a.Arr? || a.Obj? {
        CanonicalIsPrintable(a);
        CanonicalIsPrintable(b);
        PrintInjective(Canonicalize(a), Canonicalize(b));
      } else if a.Bool? {
        PrintInjective(a, b);
      }
    }
  }

  /** No object anywhere in the value has an own property named `__proto__`. */
  ghost predicate NoProtoKey(j: Json) {
    match j
    case Arr(items) => forall i | 0 <= i < |items| :: NoProtoKey(items[i])
    case Obj(fields) => forall i | 0 <= i < |fields| :: fields[i].0 != PROTO && NoProtoKey(fields[i].1)
    case _ => true
  }

  lemma {:induction false} KeyEqualIsValueEqual(a: Json, b: Json)
    requires NoProtoKey(a) && NoProtoKey(b)
    ensures KeyEqual(a, b) <==> ValueEqual(a, b)
    decreases a
  {
    match (a, b)
    case (Arr(xs), Arr(ys)) =>
      if |xs| == |ys| {
        forall i | 0 <= i < |xs| ensures KeyEqual(xs[i], ys[i]) <==> ValueEqual(xs[i], ys[i]) {
          KeyEqualIsValueEqual(xs[i], ys[i]);
        }
      }
    case (Obj(fs), Obj(gs)) =>
      OrderedMap.HasIndex(fs, PROTO);
      OrderedMap.HasIndex(gs, PROTO);
      forall i, j | 0 <= i < |fs| && 0 <= j < |gs|
        ensures KeyEqual(fs[i].1, gs[j].1) <==> ValueEqual(fs[i].1, gs[j].1)
      {
        KeyEqualIsValueEqual(fs[i].1, gs[j].1);
      }
    case (_, _) =>
  }

  /** For values without own `__proto__` properties the key decides value equality. */
  lemma KeyDecidesValueEquality(a: Json, b: Json)
    requires WellFormed(a) && WellFormed(b)
    requires NoProtoKey(a) && NoProtoKey(b)
    ensures StructuralKey(a) == StructuralKey(b) <==> ValueEqual(a, b)
  {
    KeyDecidesKeyEquality(a, b);
    KeyEqualIsValueEqual(a, b);
  }

  // ----- Values that do have an own __proto__ property -----

  function WithoutProto(j: Json): Json {
    match j
    case Arr(items) => Arr(ItemsWithoutProto(items))
    case Obj(fields) => Obj(FieldsWithoutProto(fields))
    case _ => j
  }

  function ItemsWithoutProto(items: seq<Json>): (r: seq<Json>)
    ensures |r| == |items|
  {
    if items == [] then [] else [WithoutProto(items[0])] + ItemsWithoutProto(items[1..])
  }

  function FieldsWithoutProto(fields: seq<(Text, Json)>): seq<(Text, Json)> {
    if fields == [] then []
    else
      var f := fields[0];
      assert f.1 < f && (fields decreases to f);
      (if f.0 == PROTO then [] else [(f.0, WithoutProto(f.1))]) + FieldsWithoutProto(fields[1..])
  }

  lemma {:induction false} ItemsWithoutProtoAt(items: seq<Json>, i: nat)
    requires i < |items|
    ensures ItemsWithoutProto(items)[i] == WithoutProto(items[i])
  {
    if i > 0 {
      ItemsWithoutProtoAt(items[1..], i - 1);
    }
  }

  /** Where a member of the result comes from. */
  ghost predicate SurvivesFrom(fields: seq<(Text, Json)>, f: (Text, Json)) {
    f.0 != PROTO && exists j :: 0 <= j < |fields| && f == (fields[j].0, WithoutProto(fields[j].1))
  }

  /** Every member that survives comes from a member of the same name, and every other member survives. */
  lemma {:induction false} FieldsWithoutProtoFrom(fields: seq<(Text, Json)>)
    ensures var r := FieldsWithoutProto(fields);
      && (forall i | 0 <= i < |r| :: SurvivesFrom(fields, r[i]))
      && (forall j | 0 <= j < |fields| && fields[j].0 != PROTO :: (fields[j].0, WithoutProto(fields[j].1)) in r)
  {
    if fields != [] {
      FieldsWithoutProtoFrom(fields[1..]);
      var rest, r := FieldsWithoutProto(fields[1..]), FieldsWithoutProto(fields);
      var head := |r| - |rest|;
      forall i | 0 <= i < |r| ensures SurvivesFrom(fields, r[i]) {
        if i < head {
          assert r[i] == (fields[0].0, WithoutProto(fields[0].1));
        } else {
          assert r[i] == rest[i - head] && SurvivesFrom(fields[1..], rest[i - head]);
          var j :| 0 <= j < |fields[1..]| && r[i] == (fields[1..][j].0, WithoutProto(fields[1..][j].1));
          assert fields[1..][j] == fields[j + 1];
        }
      }
      forall j | 0 <= j < |fields| && fields[j].0 != PROTO ensures (fields[j].0, WithoutProto(fields[j].1)) in r {
        if j > 0 {
          assert fields[1..][j - 1] == fields[j];
        }
      }
    }
  }

  lemma {:induction false} FieldsWithoutProtoDistinct(fields: seq<(Text, Json)>)
    requires OrderedMap.Distinct(fields)
    ensures OrderedMap.Distinct(FieldsWithoutProto(fields))
  {
    if fields != [] {
      OrderedMap.DistinctTail(fields);
      OrderedMap.HeadKeyIsNew(fields);
      FieldsWithoutProtoDistinct(fields[1..]);
      SurvivingKeys(fields[1..], fields[0].0);
      OrderedMap.DistinctCons(fields[0].0, WithoutProto(fields[0].1), FieldsWithoutProto(fields[1..]));
      assert [] + FieldsWithoutProto(fields[1..]) == FieldsWithoutProto(fields[1..]);
    }
  }

  lemma SurvivingKeys(fields: seq<(Text, Json)>, k: Text)
    ensures OrderedMap.Has(FieldsWithoutProto(fields), k) <==> k != PROTO && OrderedMap.Has(fields, k)
  {
    var r := FieldsWithoutProto(fields);
    FieldsWithoutProtoFrom(fields);
    OrderedMap.HasIndex(r, k);
    OrderedMap.HasIndex(fields, k);
    if i :| 0 <= i < |r| && r[i].0 == k {
      assert SurvivesFrom(fields, r[i]);
    }
    if j :| 0 <= j < |fields| && fields[j].0 == k && k != PROTO {
      var i :| 0 <= i < |r| && r[i] == (fields[j].0, WithoutProto(fields[j].1));
    }
  }

  /** Dropping the own `__proto__` properties gives a well-formed value that the key cannot tell from the original. */
  lemma {:induction false} WithoutProtoKeyEqual(j: Json)
    requires WellFormed(j)
    ensures WellFormed(WithoutProto(j)) && NoProtoKey(WithoutProto(j))
    ensures KeyEqual(j, WithoutProto(j))
    decreases j
  {
    match j
    case Arr(items) =>
      forall i | 0 <= i < |items|
        ensures var w := ItemsWithoutProto(items)[i]; WellFormed(w) && NoProtoKey(w) && KeyEqual(items[i], w)
      {
        ItemsWithoutProtoAt(items, i);
        WithoutProtoKeyEqual(items[i]);
      }
    case Obj(fields) =>
      var r := FieldsWithoutProto(fields);
      FieldsWithoutProtoFrom(fields);
      FieldsWithoutProtoDistinct(fields);
      forall i | 0 <= i < |fields|
        ensures var w := WithoutProto(fields[i].1); WellFormed(w) && NoProtoKey(w) && KeyEqual(fields[i].1, w)
      {
        WithoutProtoKeyEqual(fields[i].1);
      }
      forall k | k != PROTO ensures OrderedMap.Has(fields, k) <==> OrderedMap.Has(r, k) {
        SurvivingKeys(fields, k);
      }
      forall a, b | 0 <= a < |fields| && 0 <= b < |r| && fields[a].0 == r[b].0
        ensures r[b].1 == WithoutProto(fields[a].1)
      {
        assert SurvivesFrom(fields, r[b]);
        var c :| 0 <= c < |fields| && r[b] == (fields[c].0, WithoutProto(fields[c].1));
        OrderedMap.KeysAt(fields, a, c);
      }
      KeyEqualObjects(fields, r);
    case _ =>
  }

  lemma {:induction false} ValueEqualKeepsNoProtoKey(a: Json, b: Json)
    requires WellFormed(a) && WellFormed(b) && ValueEqual(a, b) && NoProtoKey(b)
    ensures NoProtoKey(a)
    decreases a
  {
    match (a, b)
    case (Arr(xs), Arr(ys)) =>
      forall i | 0 <= i < |xs| ensures NoProtoKey(xs[i]) {
        ValueEqualKeepsNoProtoKey(xs[i], ys[i]);
      }
    case (Obj(fs), Obj(gs)) =>
      forall i | 0 <= i < |fs| ensures fs[i].0 != PROTO && NoProtoKey(fs[i].1) {
        OrderedMap.GetIndex(fs, i);
        OrderedMap.HasIndex(gs, fs[i].0);
        var j :| 0 <= j < |gs| && gs[j].0 == fs[i].0;
        ValueEqualKeepsNoProtoKey(fs[i].1, gs[j].1);
      }
    case (_, _) =>
  }

  /**
   * Exactly the values with an own `__proto__` property somewhere collide with a different value
   * that has none.
   */
  lemma CollidesIffProtoKey(j: Json)
    requires WellFormed(j)
    ensures !NoProtoKey(j) <==>
      exists other :: WellFormed(other) && NoProtoKey(other) && StructuralKey(other) == StructuralKey(j) && !ValueEqual(j, other)
  {
    if NoProtoKey(j) {
      forall other | WellFormed(other) && NoProtoKey(other) && StructuralKey(other) == StructuralKey(j)
        ensures ValueEqual(j, other)
      {
        KeyDecidesValueEquality(j, other);
      }
    } else {
      var other := WithoutProto(j);
      WithoutProtoKeyEqual(j);
      KeyDecidesKeyEquality(j, other);
      if ValueEqual(j, other) {
        ValueEqualKeepsNoProtoKey(j, other);
      }
    }
  }

  /** The smallest collision: `JSON.parse('{"__proto__":null}')` and `{}`. */
  lemma ProtoKeyCollision()
    ensures var a, b := Obj([(PROTO, Null)]), Obj([]);
      StructuralKey(a) == StructuralKey(b) && !ValueEqual(a, b)
  {
    var a, b := Obj([(PROTO, Null)]), Obj([]);
    assert OrderedMap.Has(a.fields, PROTO) && !OrderedMap.Has(b.fields, PROTO);
    assert CanonicalFields(a.fields) == [] by {
      assert a.fields[1..] == [];
    }
    assert Canonicalize(a) == Canonicalize(b);
  }
}
