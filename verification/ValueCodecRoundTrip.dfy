/** Exactly which values the codec brings back as they were. */
module ValueCodecRoundTrip {
  import opened ValueCodec

  /** What every runtime value is: a map's keys and a set's members differ, and are no negative zeros. */
  ghost predicate Sound(t: Tree)
    decreases t
  {
    match t
    case Leaf(a) => SoundAtom(a)
    case Array(items) => forall i | 0 <= i < |items| :: Sound(items[i])
    case Map(entries) =>
      && DistinctKeys(entries)
      && forall i | 0 <= i < |entries| :: Sound(entries[i].0) && Sound(entries[i].1)
    case Set(members) =>
      && DistinctMembers(members)
      && forall i | 0 <= i < |members| :: Sound(members[i])
    case Object(fields) => forall i | 0 <= i < |fields| :: Sound(fields[i].1)
  }

  ghost predicate DistinctKeys(entries: seq<(Tree, Tree)>) {
    && (forall i | 0 <= i < |entries| :: entries[i].0 != Leaf(NegZero))
    && forall i, j | 0 <= i < j < |entries| :: !SameKey(entries[i].0, entries[j].0)
  }

  ghost predicate DistinctMembers(members: seq<Tree>) {
    && (forall i | 0 <= i < |members| :: members[i] != Leaf(NegZero))
    && forall i, j | 0 <= i < j < |members| :: !SameKey(members[i], members[j])
  }

  /** An own string member `$thresh` that names a tag this build decodes. */
  predicate Misread(fields: seq<(string, Tree)>) {
    var i := FieldIndex(fields, TAG);
    i < |fields| && fields[i].1.Leaf? && fields[i].1.a.Str? && TagOf(fields[i].1.a.s) != UnknownTag
  }

  /** No object below has a dangerous key, or poses as an envelope. */
  ghost predicate Clean(t: Tree)
    decreases t
  {
    match t
    case Leaf(a) => true
    case Array(items) => forall i | 0 <= i < |items| :: Clean(items[i])
    case Map(entries) => forall i | 0 <= i < |entries| :: Clean(entries[i].0) && Clean(entries[i].1)
    case Set(members) => forall i | 0 <= i < |members| :: Clean(members[i])
    case Object(fields) =>
      && !Misread(fields)
      && forall i | 0 <= i < |fields| :: !Dangerous(fields[i].0) && Clean(fields[i].1)
  }

  ghost predicate ComesBack(t: Tree, positional: bool, base64: bool) {
    Decode(Encode(t, positional, base64)) == Value(t)
  }

  // ----- Arrays -----

  lemma ArrayComesBack(items: seq<Tree>, positional: bool, base64: bool)
    ensures ComesBack(Array(items), positional, base64) <==> forall i | 0 <= i < |items| :: ComesBack(items[i], true, base64)
  {
    var ws := seq(|items|, i requires 0 <= i < |items| => Encode(items[i], true, base64));
    assert Encode(Array(items), positional, base64) == WArray(ws);
    hide Encode;
    if forall i | 0 <= i < |items| :: ComesBack(items[i], true, base64) {
      forall i | 0 <= i < |ws| ensures Decode(ws[i]) == Value(items[i]) { assert ComesBack(items[i], true, base64); }
      assert seq(|ws|, i requires 0 <= i < |ws| => Decode(ws[i]).t) == items;
    }
    if ComesBack(Array(items), positional, base64) {
      var back := seq(|ws|, i requires 0 <= i < |ws| => Decode(ws[i]).t);
      forall i | 0 <= i < |items| ensures ComesBack(items[i], true, base64) { assert back[i] == items[i]; }
    }
  }

  // ----- Sets -----

  lemma NotMember(members: seq<Tree>)
    requires members != [] && DistinctMembers(members)
    ensures var n := |members| - 1;
      !HasMember(members[..n], members[n]) && DistinctMembers(members[..n]) && Normal(members[n]) == members[n]
  {
    var n := |members| - 1;
    forall i | 0 <= i < n ensures !SameKey(members[..n][i], members[n]) { assert !SameKey(members[i], members[n]); }
  }

  lemma {:induction false} NewSetOfDistinct(members: seq<Tree>)
    requires DistinctMembers(members)
    ensures NewSet(members) == members
    decreases |members|
  {
    hide DistinctMembers, HasMember, Normal;
    if members != [] {
      var n := |members| - 1;
      NotMember(members);
      NewSetOfDistinct(members[..n]);
      assert members == members[..n] + [members[n]];
    }
  }

  lemma {:induction false} NewSetShrinks(members: seq<Tree>)
    ensures |NewSet(members)| <= |members|
    ensures |NewSet(members)| == |members| ==> forall i | 0 <= i < |members| :: NewSet(members)[i] == Normal(members[i])
    decreases |members|
  {
    if members != [] {
      var n := |members| - 1;
      NewSetShrinks(members[..n]);
    }
  }

  /** Decoding a set's envelope. */
  lemma DecodeSet(ws: seq<Wire>)
    ensures Decode(Tagged("set", [("values", WArray(ws))])) ==
      if forall i | 0 <= i < |ws| :: Decode(ws[i]).Value? then
        Value(Set(NewSet(seq(|ws|, i requires 0 <= i < |ws| => Decode(ws[i]).t))))
      else Outside
  {
    hide TagOf, TagIn, VersionOf, FieldIndex, NewSet;
    TagNames();
    NamesDiffer();
    Envelope("set", [("values", WArray(ws))], 0);
  }

  lemma KeyStays(t: Tree, d: Tree, base64: bool)
    requires Sound(t) && t != Leaf(NegZero) && Decode(Encode(t, true, base64)) == Value(d) && Normal(d) == t
    ensures d == t
  {
    if t.Leaf? {
      LeafRoundTrip(t.a, true, base64);
    }
  }

  function Members(members: seq<Tree>, base64: bool): (ws: seq<Wire>)
    ensures |ws| == |members|
  {
    seq(|members|, i requires 0 <= i < |members| => Encode(members[i], true, base64))
  }

  function MembersBack(ws: seq<Wire>): (ts: seq<Tree>)
    requires forall i | 0 <= i < |ws| :: Decode(ws[i]).Value?
    ensures |ts| == |ws|
  {
    seq(|ws|, i requires 0 <= i < |ws| => Decode(ws[i]).t)
  }

  lemma SetDecodes(members: seq<Tree>, positional: bool, base64: bool)
    ensures var ws := Members(members, base64);
      Decode(Encode(Set(members), positional, base64)) ==
        if forall i | 0 <= i < |ws| :: Decode(ws[i]).Value? then Value(Set(NewSet(MembersBack(ws)))) else Outside
  {
    var ws := Members(members, base64);
    DecodeSet(ws);
    hide Decode, Tagged, NewSet;
  }

  lemma SetComesBack(members: seq<Tree>, positional: bool, base64: bool)
    requires Sound(Set(members))
    ensures ComesBack(Set(members), positional, base64) <==> forall i | 0 <= i < |members| :: ComesBack(members[i], true, base64)
  {
    hide Encode, Decode, Tagged, NewSet, SoundAtom;
    var ws := Members(members, base64);
    SetDecodes(members, positional, base64);
    if forall i | 0 <= i < |members| :: ComesBack(members[i], true, base64) {
      forall i | 0 <= i < |ws| ensures Decode(ws[i]) == Value(members[i]) { assert ComesBack(members[i], true, base64); }
      assert MembersBack(ws) == members;
      NewSetOfDistinct(members);
    }
    if ComesBack(Set(members), positional, base64) {
      var back := MembersBack(ws);
      NewSetShrinks(back);
      forall i | 0 <= i < |members| ensures ComesBack(members[i], true, base64) {
        assert Sound(members[i]) && Normal(back[i]) == members[i] && members[i] != Leaf(NegZero);
        KeyStays(members[i], back[i], base64);
      }
    }
  }

  // ----- Maps -----

  lemma {:induction false} NoSuchKey(entries: seq<(Tree, Tree)>, key: Tree)
    requires forall i | 0 <= i < |entries| :: !SameKey(entries[i].0, key)
    ensures IndexOfKey(entries, key) == |entries|
  {
    if entries != [] {
      assert forall i | 0 <= i < |entries[1..]| :: entries[1..][i] == entries[i + 1];
      NoSuchKey(entries[1..], key);
    }
  }

  lemma {:induction false} NewMapOfDistinct(entries: seq<(Tree, Tree)>)
    requires DistinctKeys(entries)
    ensures NewMap(entries) == entries
    decreases |entries|
  {
    if entries != [] {
      var n := |entries| - 1;
      NewMapOfDistinct(entries[..n]);
      assert entries == entries[..n] + [entries[n]];
      forall i | 0 <= i < n ensures !SameKey(entries[..n][i].0, entries[n].0) { assert !SameKey(entries[i].0, entries[n].0); }
      NoSuchKey(entries[..n], entries[n].0);
    }
  }

  lemma {:induction false} NewMapShrinks(entries: seq<(Tree, Tree)>)
    ensures |NewMap(entries)| <= |entries|
    ensures |NewMap(entries)| == |entries| ==>
      forall i | 0 <= i < |entries| :: NewMap(entries)[i] == (Normal(entries[i].0), entries[i].1)
    decreases |entries|
  {
    if entries != [] {
      NewMapShrinks(entries[..|entries| - 1]);
    }
  }

  predicate PairDecodes(w: Wire) {
    IsPair(w) && Decode(w.items[0]).Value? && Decode(w.items[1]).Value?
  }

  /** Decoding a map's envelope. */
  lemma DecodeMap(es: seq<Wire>)
    requires forall i | 0 <= i < |es| :: IsPair(es[i])
    ensures Decode(Tagged("map", [("entries", WArray(es))])) ==
      if forall i | 0 <= i < |es| :: PairDecodes(es[i]) then
        Value(Map(NewMap(seq(|es|, i requires 0 <= i < |es| => (Decode(es[i].items[0]).t, Decode(es[i].items[1]).t)))))
      else Outside
  {
    hide TagOf, TagIn, VersionOf, FieldIndex, NewMap;
    TagNames();
    NamesDiffer();
    Envelope("map", [("entries", WArray(es))], 0);
    assert (forall i | 0 <= i < |es| :: PairDecodes(es[i])) <==>
      forall i | 0 <= i < |es| :: IsPair(es[i]) && Decode(es[i].items[0]).Value? && Decode(es[i].items[1]).Value?;
  }

  function PairOf(e: (Tree, Tree), base64: bool): Wire {
    WArray([Encode(e.0, true, base64), Encode(e.1, true, base64)])
  }

  function Pairs(entries: seq<(Tree, Tree)>, base64: bool): (es: seq<Wire>)
    ensures |es| == |entries|
    ensures forall i | 0 <= i < |es| :: IsPair(es[i])
  {
    seq(|entries|, i requires 0 <= i < |entries| => PairOf(entries[i], base64))
  }

  /** What an encoded pair decodes to. */
  function PairBack(w: Wire): (Tree, Tree)
    requires PairDecodes(w)
  {
    (Decode(w.items[0]).t, Decode(w.items[1]).t)
  }

  ghost predicate EntryComesBack(e: (Tree, Tree), base64: bool) {
    ComesBack(e.0, true, base64) && ComesBack(e.1, true, base64)
  }

  lemma PairComesBack(e: (Tree, Tree), base64: bool)
    ensures EntryComesBack(e, base64) <==> PairDecodes(PairOf(e, base64)) && PairBack(PairOf(e, base64)) == e
  {
    hide Encode, Decode;
  }

  lemma PairsBack(es: seq<Wire>)
    requires forall i | 0 <= i < |es| :: PairDecodes(es[i])
    ensures Decode(Tagged("map", [("entries", WArray(es))])) == Value(Map(NewMap(seq(|es|, i requires 0 <= i < |es| => PairBack(es[i])))))
  {
    hide Tagged, NewMap;
    DecodeMap(es);
    assert seq(|es|, i requires 0 <= i < |es| => PairBack(es[i])) ==
      seq(|es|, i requires 0 <= i < |es| => (Decode(es[i].items[0]).t, Decode(es[i].items[1]).t));
  }

  lemma MapKeyStays(e: (Tree, Tree), base64: bool)
    requires Sound(e.0) && e.0 != Leaf(NegZero) && PairDecodes(PairOf(e, base64))
    requires Normal(PairBack(PairOf(e, base64)).0) == e.0 && PairBack(PairOf(e, base64)).1 == e.1
    ensures EntryComesBack(e, base64)
  {
    hide Encode, Decode;
    KeyStays(e.0, PairBack(PairOf(e, base64)).0, base64);
  }

  lemma MapComesBack(entries: seq<(Tree, Tree)>, positional: bool, base64: bool)
    requires Sound(Map(entries))
    ensures ComesBack(Map(entries), positional, base64) <==>
      forall i | 0 <= i < |entries| :: ComesBack(entries[i].0, true, base64) && ComesBack(entries[i].1, true, base64)
  {
    hide Encode, Decode, Tagged, NewMap, PairBack, PairDecodes, PairOf, SoundAtom;
    var es := Pairs(entries, base64);
    MapEncoding(entries, positional, base64);
    DecodeMap(es);
    if forall i | 0 <= i < |entries| :: ComesBack(entries[i].0, true, base64) && ComesBack(entries[i].1, true, base64) {
      forall i | 0 <= i < |es| ensures PairDecodes(es[i]) && PairBack(es[i]) == entries[i] {
        assert EntryComesBack(entries[i], base64);
        PairComesBack(entries[i], base64);
      }
      PairsBack(es);
      assert seq(|es|, i requires 0 <= i < |es| => PairBack(es[i])) == entries;
      NewMapOfDistinct(entries);
    }
    if ComesBack(Map(entries), positional, base64) {
      PairsBack(es);
      var back := seq(|es|, i requires 0 <= i < |es| => PairBack(es[i]));
      NewMapShrinks(back);
      forall i | 0 <= i < |entries| ensures ComesBack(entries[i].0, true, base64) && ComesBack(entries[i].1, true, base64) {
        assert PairDecodes(es[i]) && Sound(entries[i].0) && entries[i].0 != Leaf(NegZero);
        assert (Normal(back[i].0), back[i].1) == entries[i];
        MapKeyStays(entries[i], base64);
        assert EntryComesBack(entries[i], base64);
      }
    }
  }

  lemma MapEncoding(entries: seq<(Tree, Tree)>, positional: bool, base64: bool)
    ensures Encode(Map(entries), positional, base64) == Tagged("map", [("entries", WArray(Pairs(entries, base64)))])
  {
    hide Tagged;
    var fs := seq(|entries|, i requires 0 <= i < |entries| =>
      WArray([Encode(entries[i].0, true, base64), Encode(entries[i].1, true, base64)]));
    assert Pairs(entries, base64) == fs;
  }

  // ----- Objects -----

  lemma {:induction false} SafeIsAll<T>(fields: seq<(string, T)>)
    ensures (forall i | 0 <= i < |fields| :: !Dangerous(fields[i].0)) <==> |SafeFields(fields)| == |fields|
    ensures (forall i | 0 <= i < |fields| :: !Dangerous(fields[i].0)) ==> SafeFields(fields) == fields
  {
    if fields != [] {
      SafeIsAll(fields[1..]);
      assert forall i | 0 <= i < |fields[1..]| :: fields[1..][i] == fields[i + 1];
    }
  }

  lemma {:induction false} SameIndex<T, U>(a: seq<(string, T)>, b: seq<(string, U)>, name: string)
    requires |a| == |b| && forall i | 0 <= i < |a| :: a[i].0 == b[i].0
    ensures FieldIndex(a, name) == FieldIndex(b, name)
  {
    if a != [] {
      assert forall i | 0 <= i < |a[1..]| :: a[1..][i] == a[i + 1] && b[1..][i] == b[i + 1];
      SameIndex(a[1..], b[1..], name);
    }
  }

  /** A member is sent as a bare string exactly when it is one. */
  lemma BareString(t: Tree, base64: bool)
    ensures Encode(t, false, base64).WString? <==> t.Leaf? && t.a.Str?
    ensures t.Leaf? && t.a.Str? ==> Encode(t, false, base64) == WString(t.a.s)
  {
  }

  function EncodedFields(fields: seq<(string, Tree)>, base64: bool): (r: seq<(string, Wire)>)
    ensures |r| == |fields|
  {
    seq(|fields|, i requires 0 <= i < |fields| => (fields[i].0, Encode(fields[i].1, false, base64)))
  }

  /** A result of decoding that is an object comes from no envelope. */
  lemma ObjectHasNoTag(fields: seq<(string, Wire)>)
    requires Decode(WObject(fields)).Value? && Decode(WObject(fields)).t.Object?
    ensures TagIn(fields) == UnknownTag
  {
    hide TagIn, VersionOf, NewMap, NewSet, FieldIndex;
  }

  lemma PlainObject(fields: seq<(string, Wire)>)
    requires TagIn(fields) == UnknownTag && forall i | 0 <= i < |fields| :: !Dangerous(fields[i].0)
    ensures Decode(WObject(fields)) ==
      if forall i | 0 <= i < |fields| :: Decode(fields[i].1).Value? then
        Value(Object(seq(|fields|, i requires 0 <= i < |fields| => (fields[i].0, Decode(fields[i].1).t))))
      else Outside
  {
    hide TagIn, VersionOf, NewMap, NewSet, FieldIndex;
    if forall i | 0 <= i < |fields| :: Decode(fields[i].1).Value? {
      var all := seq(|fields|, i requires 0 <= i < |fields| =>
        (fields[i].0, if Dangerous(fields[i].0) then Leaf(Undefined) else Decode(fields[i].1).t));
      SafeIsAll(all);
      assert all == seq(|fields|, i requires 0 <= i < |fields| => (fields[i].0, Decode(fields[i].1).t));
    }
  }

  lemma MisreadTag(fields: seq<(string, Tree)>, base64: bool)
    ensures TagIn(EncodedFields(fields, base64)) == UnknownTag <==> !Misread(fields)
  {
    var ws := EncodedFields(fields, base64);
    SameIndex(ws, fields, TAG);
    var i := FieldIndex(fields, TAG);
    if i < |fields| {
      BareString(fields[i].1, base64);
    }
    hide Encode, TagOf;
  }

  lemma SafeObjectComesBack(fields: seq<(string, Tree)>, base64: bool)
    requires forall i | 0 <= i < |fields| :: !Dangerous(fields[i].0)
    ensures Decode(WObject(EncodedFields(fields, base64))) == Value(Object(fields)) <==>
      !Misread(fields) && forall i | 0 <= i < |fields| :: ComesBack(fields[i].1, false, base64)
  {
    hide Encode, Decode, TagIn, Misread;
    var ws := EncodedFields(fields, base64);
    MisreadTag(fields, base64);
    if Decode(WObject(ws)) == Value(Object(fields)) {
      ObjectHasNoTag(ws);
    }
    if TagIn(ws) == UnknownTag {
      PlainObject(ws);
      if forall i | 0 <= i < |fields| :: ComesBack(fields[i].1, false, base64) {
        forall i | 0 <= i < |ws| ensures Decode(ws[i].1) == Value(fields[i].1) { assert ComesBack(fields[i].1, false, base64); }
        assert seq(|ws|, i requires 0 <= i < |ws| => (ws[i].0, Decode(ws[i].1).t)) == fields;
      }
      if Decode(WObject(ws)) == Value(Object(fields)) {
        var back := seq(|ws|, i requires 0 <= i < |ws| => (ws[i].0, Decode(ws[i].1).t));
        forall i | 0 <= i < |fields| ensures ComesBack(fields[i].1, false, base64) { assert back[i] == fields[i]; }
      }
    }
  }

  lemma ObjectEncoding(fields: seq<(string, Tree)>, positional: bool, base64: bool)
    ensures Encode(Object(fields), positional, base64) == WObject(SafeFields(EncodedFields(fields, base64)))
  {
    assert EncodedFields(fields, base64) ==
      seq(|fields|, i requires 0 <= i < |fields| => (fields[i].0, Encode(fields[i].1, false, base64)));
  }

  lemma {:induction false} SafeAreSafe<T>(fields: seq<(string, T)>)
    ensures forall i | 0 <= i < |SafeFields(fields)| :: !Dangerous(SafeFields(fields)[i].0)
  {
    if fields != [] {
      SafeAreSafe(fields[1..]);
    }
  }

  /** An object that loses a member does not come back. */
  lemma FewerMembers(sent: seq<(string, Wire)>, fields: seq<(string, Tree)>)
    requires |sent| < |fields| && forall i | 0 <= i < |sent| :: !Dangerous(sent[i].0)
    ensures Decode(WObject(sent)) != Value(Object(fields))
  {
    hide Decode, TagIn;
    if Decode(WObject(sent)).Value? && Decode(WObject(sent)).t.Object? {
      ObjectHasNoTag(sent);
      PlainObject(sent);
    }
  }

  lemma ObjectComesBack(fields: seq<(string, Tree)>, positional: bool, base64: bool)
    ensures ComesBack(Object(fields), positional, base64) <==>
      && !Misread(fields)
      && (forall i | 0 <= i < |fields| :: !Dangerous(fields[i].0))
      && (forall i | 0 <= i < |fields| :: ComesBack(fields[i].1, false, base64))
  {
    hide Encode, Decode, TagIn, Misread, SafeFields;
    var ws := EncodedFields(fields, base64);
    ObjectEncoding(fields, positional, base64);
    SafeIsAll(ws);
    assert (forall i | 0 <= i < |ws| :: !Dangerous(ws[i].0)) <==> forall i | 0 <= i < |fields| :: !Dangerous(fields[i].0) by {
      assert forall i | 0 <= i < |fields| :: ws[i].0 == fields[i].0;
    }
    if forall i | 0 <= i < |fields| :: !Dangerous(fields[i].0) {
      SafeObjectComesBack(fields, base64);
    } else {
      SafeAreSafe(ws);
      FewerMembers(SafeFields(ws), fields);
    }
  }

  // ----- All values -----

  /**
   * Exactly which values come back as they were, in both binary modes: those in which no object has a
   * dangerous key, or an own string member `$thresh` that names a tag this build decodes.
   */
  lemma {:induction false} RoundTrip(t: Tree, positional: bool, base64: bool)
    requires Sound(t)
    ensures Decode(Encode(t, positional, base64)) == Value(t) <==> Clean(t)
    decreases t
  {
    hide Encode, Decode, Misread;
    match t
    case Leaf(a) =>
      LeafRoundTrip(a, positional, base64);
      LeafEncoding(a, positional, base64);
    case Array(items) =>
      ArrayComesBack(items, positional, base64);
      forall i | 0 <= i < |items| ensures ComesBack(items[i], true, base64) <==> Clean(items[i]) { RoundTrip(items[i], true, base64); }
    case Map(entries) =>
      MapComesBack(entries, positional, base64);
      forall i | 0 <= i < |entries|
        ensures ComesBack(entries[i].0, true, base64) <==> Clean(entries[i].0)
        ensures ComesBack(entries[i].1, true, base64) <==> Clean(entries[i].1)
      {
        RoundTrip(entries[i].0, true, base64);
        RoundTrip(entries[i].1, true, base64);
      }
    case Set(members) =>
      SetComesBack(members, positional, base64);
      forall i | 0 <= i < |members| ensures ComesBack(members[i], true, base64) <==> Clean(members[i]) { RoundTrip(members[i], true, base64); }
    case Object(fields) =>
      ObjectComesBack(fields, positional, base64);
      forall i | 0 <= i < |fields| ensures ComesBack(fields[i].1, false, base64) <==> Clean(fields[i].1) { RoundTrip(fields[i].1, false, base64); }
  }

  lemma LeafEncoding(a: Atom, positional: bool, base64: bool)
    ensures Encode(Leaf(a), positional, base64) == EncodeAtom(a, positional, base64)
  {
  }

  /** `decodeValue(encodeValue(v))` gives `v` exactly for the clean values. */
  lemma EncodeDecode(t: Tree, base64: bool)
    requires Sound(t)
    ensures Decode(EncodeValue(t, base64)) == Value(t) <==> Clean(t)
  {
    RoundTrip(t, true, base64);
  }
}
