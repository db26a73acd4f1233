/** What the codec puts on a transport, and what it makes of envelopes that others have written. */
module ValueCodecLaws {
  import opened Wrappers
  import opened ValueCodec
  import Base64
  import Decimal

  // ----- What is put on a transport -----

  /** What JSON can carry: no binary, no negative zero, and nothing absent but an object's member. */
  ghost predicate Json(w: Wire)
    decreases w
  {
    match w
    case WUndefined => false
    case WNegZero => false
    case WBytes(_) => false
    case WArray(items) => forall i | 0 <= i < |items| :: Json(items[i])
    case WObject(fields) => forall i | 0 <= i < |fields| :: fields[i].1.WUndefined? || Json(fields[i].1)
    case _ => true
  }

  lemma {:induction false} SafeFieldsFrom<T>(fields: seq<(string, T)>, k: nat) returns (i: nat)
    requires k < |SafeFields(fields)|
    ensures i < |fields| && SafeFields(fields)[k] == fields[i] && !Dangerous(fields[i].0)
  {
    if Dangerous(fields[0].0) {
      i := SafeFieldsFrom(fields[1..], k);
      i := i + 1;
    } else if k == 0 {
      i := 0;
    } else {
      i := SafeFieldsFrom(fields[1..], k - 1);
      i := i + 1;
    }
  }

  lemma TaggedIsJson(tag: string, fields: seq<(string, Wire)>)
    requires forall i | 0 <= i < |fields| :: Json(fields[i].1)
    ensures Json(Tagged(tag, fields))
  {
    var all := Tagged(tag, fields).fields;
    forall i | 0 <= i < |all| ensures Json(all[i].1) {
      assert i >= 2 ==> all[i] == fields[i - 2];
    }
  }

  lemma ElementIsJson(e: Element)
    ensures Json(EncodeElement(e))
  {
    match e
    case Plain(_) =>
    case MinusZero => TaggedIsJson("negZero", []);
    case Big(i) => TaggedIsJson("bigint", [("value", WString(Chars(Decimal.Print(i))))]);
  }

  lemma AtomIsJson(a: Atom, positional: bool)
    ensures if a.Undefined? && !positional then EncodeAtom(a, positional, true) == WUndefined else Json(EncodeAtom(a, positional, true))
  {
    hide Tagged, EncodeElement;
    match a
    case Undefined => TaggedIsJson("undefined", []);
    case NegZero => TaggedIsJson("negZero", []);
    case BigInt(i) => TaggedIsJson("bigint", [("value", WString(Chars(Decimal.Print(i))))]);
    case DateValue(ms) => TaggedIsJson("date", [("value", WNumber(ms))]);
    case Guid(text) => TaggedIsJson("guid", [("value", WString(text))]);
    case Silo(podName, podUid, endpoint) =>
      TaggedIsJson("silo", [("podName", WString(podName)), ("podUid", WString(podUid)), ("endpoint", WString(endpoint))]);
    case Bytes(bytes) => TaggedIsJson("bytes", [("value", WString(Base64.Encode(bytes)))]);
    case TypedArray(kind, elements) =>
      var ws := seq(|elements|, i requires 0 <= i < |elements| => EncodeElement(elements[i]));
      forall i | 0 <= i < |ws| ensures Json(ws[i]) { ElementIsJson(elements[i]); }
      assert Json(WArray(ws));
      TaggedIsJson("typedArray", [("kind", WString(kind)), ("values", WArray(ws))]);
    case _ =>
  }

  /** For a transport that has no binary, what is encoded is JSON: only an object's absent member is absent. */
  lemma {:induction false} Base64ModeIsJson(t: Tree, positional: bool)
    ensures if t == Leaf(Undefined) && !positional then Encode(t, positional, true) == WUndefined else Json(Encode(t, positional, true))
    decreases t
  {
    hide Tagged, EncodeAtom, SafeFields;
    match t
    case Leaf(a) => AtomIsJson(a, positional);
    case Array(items) =>
      forall i | 0 <= i < |items| ensures Json(Encode(items[i], true, true)) { Base64ModeIsJson(items[i], true); }
    case Map(entries) =>
      var ws := seq(|entries|, i requires 0 <= i < |entries| => WArray([Encode(entries[i].0, true, true), Encode(entries[i].1, true, true)]));
      forall i | 0 <= i < |ws| ensures Json(ws[i]) {
        Base64ModeIsJson(entries[i].0, true);
        Base64ModeIsJson(entries[i].1, true);
      }
      assert Json(WArray(ws));
      TaggedIsJson("map", [("entries", WArray(ws))]);
    case Set(members) =>
      var ws := seq(|members|, i requires 0 <= i < |members| => Encode(members[i], true, true));
      forall i | 0 <= i < |ws| ensures Json(ws[i]) { Base64ModeIsJson(members[i], true); }
      assert Json(WArray(ws));
      TaggedIsJson("set", [("values", WArray(ws))]);
    case Object(fields) =>
      var ws := seq(|fields|, i requires 0 <= i < |fields| => (fields[i].0, Encode(fields[i].1, false, true)));
      forall k | 0 <= k < |SafeFields(ws)| ensures SafeFields(ws)[k].1.WUndefined? || Json(SafeFields(ws)[k].1) {
        var i := SafeFieldsFrom(ws, k);
        Base64ModeIsJson(fields[i].1, false);
      }
  }

  /** Bytes go as they are over a transport that has binary, and as a base64 envelope over one that has not. */
  lemma BytesOnTheWire(bytes: seq<Base64.Byte>, positional: bool)
    ensures Encode(Leaf(Bytes(bytes)), positional, false) == WBytes(bytes)
    ensures Encode(Leaf(Bytes(bytes)), positional, true)
      == WObject([("$thresh", WString("bytes")), ("$tsvv", WNumber(Whole(1))), ("value", WString(Base64.Encode(bytes)))])
  {
  }

  // ----- Envelopes -----

  const BUILT_IN := [
    "bigint", "date", "bytes", "guid", "grainId", "cancellationToken", "undefined", "domException", "callAborted",
    "taskCanceled", "error", "silo", "map", "set", "grainRef", "typedArray", "negZero"]

  /** The tags that are known are the seventeen of the codec's table. */
  lemma KnownTags(s: string)
    ensures TagOf(s) != UnknownTag <==> s in BUILT_IN
  {
  }

  /** The version an envelope is stamped with, if its stamp is a whole number. */
  function Stamp(fields: seq<(string, Wire)>): Option<int> {
    match Field(fields, "$tsvv")
    case Some(WNumber(Whole(version))) => Some(version)
    case _ => None
  }

  /** An object is refused, whatever else is in it, exactly if it is an envelope of a built-in tag, stamped with a newer version. */
  lemma RefusedIffNewer(fields: seq<(string, Wire)>)
    ensures var tag, version := TextField(fields, "$thresh"), Stamp(fields);
      var newer := tag.Some? && tag.value in BUILT_IN && version.Some? && version.value > 1;
      && (Decode(WObject(fields)).TooNew? <==> newer)
      && (newer ==> Decode(WObject(fields)) == TooNew(TagOf(tag.value), version.value))
  {
    var tag := TextField(fields, "$thresh");
    if tag.Some? { KnownTags(tag.value); }
    TaggedLeafIsLeaf(TagIn(fields), fields);
    hide FieldIndex, TagOf, DecodeTaggedLeaf, SafeFields, NewMap, NewSet;
  }

  /** An unknown tag, whatever its stamp, makes a plain object of the members it has. */
  lemma UnknownTagDegrades(fields: seq<(string, Wire)>, i: nat)
    requires TextField(fields, "$thresh").Some? ==> TextField(fields, "$thresh").value !in BUILT_IN
    requires forall i | 0 <= i < |fields| :: Decode(fields[i].1).Value?
    ensures Decode(WObject(fields)).Value? && Decode(WObject(fields)).t.Object?
    ensures i < |fields| && fields[i].0 != "__proto__" && fields[i].0 != "constructor" && fields[i].0 != "prototype" ==>
      (fields[i].0, Decode(fields[i].1).t) in Decode(WObject(fields)).t.fields
  {
    if TextField(fields, "$thresh").Some? { KnownTags(TextField(fields, "$thresh").value); }
    hide FieldIndex, TagOf;
    if i < |fields| && !Dangerous(fields[i].0) {
      var all := seq(|fields|, i requires 0 <= i < |fields| => (fields[i].0, if Dangerous(fields[i].0) then Leaf(Undefined) else Decode(fields[i].1).t));
      SafeFieldsKeep(all, i);
    }
  }

  lemma {:induction false} SafeFieldsKeep<T>(fields: seq<(string, T)>, i: nat)
    requires i < |fields| && !Dangerous(fields[i].0)
    ensures fields[i] in SafeFields(fields)
  {
    if i > 0 {
      SafeFieldsKeep(fields[1..], i - 1);
    }
  }

  /** Envelopes as any build writes them, member by member. */
  lemma LeafEnvelopes(bytes: seq<Base64.Byte>, ms: Num, i: int, podName: string, podUid: string, endpoint: string)
    ensures Decode(WObject([("$thresh", WString("undefined")), ("$tsvv", WNumber(Whole(1)))])) == Value(Leaf(Undefined))
    ensures Decode(WObject([("$thresh", WString("negZero")), ("$tsvv", WNumber(Whole(1)))])) == Value(Leaf(NegZero))
    ensures Decode(WObject([("$thresh", WString("date")), ("$tsvv", WNumber(Whole(1))), ("value", WNumber(ms))])) == Value(Leaf(DateValue(ms)))
    ensures Decode(WObject([("$thresh", WString("bigint")), ("$tsvv", WNumber(Whole(1))), ("value", WString(Chars(Decimal.Print(i))))]))
      == Value(Leaf(BigInt(i)))
    ensures Decode(WObject([("$thresh", WString("bytes")), ("$tsvv", WNumber(Whole(1))), ("value", WString(Base64.Encode(bytes)))]))
      == Value(Leaf(Bytes(bytes)))
    ensures Decode(WObject([("$thresh", WString("silo")), ("$tsvv", WNumber(Whole(1))),
      ("podName", WString(podName)), ("podUid", WString(podUid)), ("endpoint", WString(endpoint))])) == Value(Leaf(Silo(podName, podUid, endpoint)))
  {
    hide Decode, TagOf;
    LeafRoundTrip(Undefined, true, true);
    LeafRoundTrip(NegZero, true, true);
    LeafRoundTrip(DateValue(ms), true, true);
    LeafRoundTrip(BigInt(i), true, true);
    LeafRoundTrip(Bytes(bytes), true, true);
    LeafRoundTrip(Silo(podName, podUid, endpoint), true, true);
    Spelled("undefined", []);
    Spelled("negZero", []);
    Spelled("date", [("value", WNumber(ms))]);
    Spelled("bigint", [("value", WString(Chars(Decimal.Print(i))))]);
    Spelled("bytes", [("value", WString(Base64.Encode(bytes)))]);
    Spelled("silo", [("podName", WString(podName)), ("podUid", WString(podUid)), ("endpoint", WString(endpoint))]);
  }

  lemma Spelled(tag: string, fields: seq<(string, Wire)>)
    ensures var stamp: seq<(string, Wire)> := [("$thresh", WString(tag)), ("$tsvv", WNumber(Whole(1)))];
      && (|fields| == 0 ==> Tagged(tag, fields) == WObject(stamp))
      && (|fields| == 1 ==> Tagged(tag, fields) == WObject([stamp[0], stamp[1], fields[0]]))
      && (|fields| == 3 ==> Tagged(tag, fields) == WObject([stamp[0], stamp[1], fields[0], fields[1], fields[2]]))
  {
  }

  // ----- What decoding never gives -----

  /** No object in it has a key that could reach a prototype. */
  ghost predicate Harmless(t: Tree)
    decreases t
  {
    match t
    case Leaf(_) => true
    case Array(items) => forall i | 0 <= i < |items| :: Harmless(items[i])
    case Map(entries) => forall i | 0 <= i < |entries| :: Harmless(entries[i].0) && Harmless(entries[i].1)
    case Set(members) => forall i | 0 <= i < |members| :: Harmless(members[i])
    case Object(fields) =>
      forall i | 0 <= i < |fields| ::
        fields[i].0 != "__proto__" && fields[i].0 != "constructor" && fields[i].0 != "prototype" && Harmless(fields[i].1)
  }

  lemma NormalIsHarmless(t: Tree)
    requires Harmless(t)
    ensures Harmless(Normal(t))
  {
  }

  lemma {:induction false} NewMapIsHarmless(entries: seq<(Tree, Tree)>)
    requires forall i | 0 <= i < |entries| :: Harmless(entries[i].0) && Harmless(entries[i].1)
    ensures forall i | 0 <= i < |NewMap(entries)| :: Harmless(NewMap(entries)[i].0) && Harmless(NewMap(entries)[i].1)
    decreases |entries|
  {
    hide Harmless, Normal;
    if entries != [] {
      NewMapIsHarmless(entries[..|entries| - 1]);
      NormalIsHarmless(entries[|entries| - 1].0);
    }
  }

  lemma {:induction false} NewSetIsHarmless(members: seq<Tree>)
    requires forall i | 0 <= i < |members| :: Harmless(members[i])
    ensures forall i | 0 <= i < |NewSet(members)| :: Harmless(NewSet(members)[i])
    decreases |members|
  {
    hide Harmless, Normal, HasMember;
    if members != [] {
      NewSetIsHarmless(members[..|members| - 1]);
      NormalIsHarmless(members[|members| - 1]);
    }
  }

  lemma TaggedLeafIsLeaf(tag: Tag, fields: seq<(string, Wire)>)
    ensures !DecodeTaggedLeaf(tag, fields).TooNew?
    ensures DecodeTaggedLeaf(tag, fields).Value? ==> DecodeTaggedLeaf(tag, fields).t.Leaf?
  {
    hide Field, TextField, ListField, DecodeBig, DecodeElement;
  }

  /** Whatever comes in, what decoding gives has no key that could reach a prototype. */
  lemma {:induction false} DecodedIsHarmless(w: Wire)
    ensures Decode(w).Value? ==> Harmless(Decode(w).t)
    decreases w
  {
    hide SafeFields, NewMap, NewSet, DecodeTaggedLeaf, FieldIndex, TagIn, VersionOf;
    if Decode(w).Value? {
      match w
      case WArray(ws) =>
        forall i | 0 <= i < |ws| ensures Harmless(Decode(ws[i]).t) { DecodedIsHarmless(ws[i]); }
      case WObject(fields) => DecodedObjectIsHarmless(fields);
      case _ =>
    }
  }

  lemma {:induction false} DecodedObjectIsHarmless(fields: seq<(string, Wire)>)
    requires Decode(WObject(fields)).Value?
    ensures Harmless(Decode(WObject(fields)).t)
    decreases WObject(fields), 0
  {
    hide SafeFields, NewMap, NewSet, DecodeTaggedLeaf, FieldIndex, TagIn, VersionOf;
    var tag := TagIn(fields);
    if tag == UnknownTag {
      var all := seq(|fields|, i requires 0 <= i < |fields| =>
        (fields[i].0, if Dangerous(fields[i].0) then Leaf(Undefined) else Decode(fields[i].1).t));
      forall k | 0 <= k < |SafeFields(all)| ensures Harmless(SafeFields(all)[k].1) && !Dangerous(SafeFields(all)[k].0) {
        var i := SafeFieldsFrom(all, k);
        DecodedIsHarmless(fields[i].1);
      }
    } else if tag == MapTag {
      var es := fields[FieldIndex(fields, "entries")].1.items;
      forall i | 0 <= i < |es| ensures Harmless(Decode(es[i].items[0]).t) && Harmless(Decode(es[i].items[1]).t) {
        DecodedIsHarmless(es[i].items[0]);
        DecodedIsHarmless(es[i].items[1]);
      }
      NewMapIsHarmless(seq(|es|, i requires 0 <= i < |es| => (Decode(es[i].items[0]).t, Decode(es[i].items[1]).t)));
    } else if tag == SetTag {
      var ws := fields[FieldIndex(fields, "values")].1.items;
      forall i | 0 <= i < |ws| ensures Harmless(Decode(ws[i]).t) { DecodedIsHarmless(ws[i]); }
      NewSetIsHarmless(seq(|ws|, i requires 0 <= i < |ws| => Decode(ws[i]).t));
    } else {
      TaggedLeafIsLeaf(tag, fields);
    }
  }
}
