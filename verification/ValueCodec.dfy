/**
 * The value codec: runtime values in tagged, transport-safe form and back. `base64` says whether the
 * transport needs binary in that form.
 */
module ValueCodec {
  import opened Wrappers
  import Base64
  import Decimal
  import Text

  // ----- Values -----

  /** Numbers other than negative zero; `Other` are the ones that are no integers, `NaN` among them. */
  datatype Num = Whole(i: int) | Other(x: nat)

  datatype Element = Plain(n: Num) | MinusZero | Big(i: int)

  /** `DateValue` holds the time value, `Guid` its canonical text. */
  datatype Atom =
    | Undefined | Null | Bool(b: bool) | Number(n: Num) | NegZero | Str(s: string) | BigInt(i: int)
    | DateValue(ms: Num) | Guid(text: string) | Silo(podName: string, podUid: string, endpoint: string)
    | Bytes(bytes: seq<Base64.Byte>) | TypedArray(kind: string, elements: seq<Element>)

  datatype Tree =
    | Leaf(a: Atom)
    | Array(items: seq<Tree>)
    | Map(entries: seq<(Tree, Tree)>)
    | Set(members: seq<Tree>)
    | Object(fields: seq<(string, Tree)>)

  // ----- The wire -----

  datatype Wire =
    | WUndefined | WNull | WBool(b: bool) | WNumber(n: Num) | WNegZero | WString(s: string) | WBytes(bytes: seq<Base64.Byte>)
    | WArray(items: seq<Wire>)
    | WObject(fields: seq<(string, Wire)>)

  const TAG := "$thresh"
  const VERSION := "$tsvv"
  const CURRENT_VERSION := 1

  /** The tags this build decodes, and every other string. */
  datatype Tag =
    | BigIntTag | DateTag | BytesTag | GuidTag | GrainIdTag | CancellationTokenTag | UndefinedTag | DomExceptionTag
    | CallAbortedTag | TaskCanceledTag | ErrorTag | SiloTag | MapTag | SetTag | GrainRefTag | TypedArrayTag | NegZeroTag
    | UnknownTag

  function TagOf(s: string): Tag {
    if s == "bigint" then BigIntTag
    else if s == "date" then DateTag
    else if s == "bytes" then BytesTag
    else if s == "guid" then GuidTag
    else if s == "grainId" then GrainIdTag
    else if s == "cancellationToken" then CancellationTokenTag
    else if s == "undefined" then UndefinedTag
    else if s == "domException" then DomExceptionTag
    else if s == "callAborted" then CallAbortedTag
    else if s == "taskCanceled" then TaskCanceledTag
    else if s == "error" then ErrorTag
    else if s == "silo" then SiloTag
    else if s == "map" then MapTag
    else if s == "set" then SetTag
    else if s == "grainRef" then GrainRefTag
    else if s == "typedArray" then TypedArrayTag
    else if s == "negZero" then NegZeroTag
    else UnknownTag
  }

  function Tagged(tag: string, fields: seq<(string, Wire)>): Wire {
    WObject([(TAG, WString(tag)), (VERSION, WNumber(Whole(CURRENT_VERSION)))] + fields)
  }

  predicate Dangerous(key: string) {
    key == "__proto__" || key == "constructor" || key == "prototype"
  }

  function SafeFields<T>(fields: seq<(string, T)>): (r: seq<(string, T)>)
    ensures |r| <= |fields|
  {
    if fields == [] then []
    else (if Dangerous(fields[0].0) then [] else [fields[0]]) + SafeFields(fields[1..])
  }

  /** The index of an own member, or the number of members. */
  function FieldIndex<T>(fields: seq<(string, T)>, name: string): (i: nat)
    ensures i <= |fields|
    ensures i < |fields| ==> fields[i].0 == name
  {
    if fields == [] then 0 else if fields[0].0 == name then 0 else 1 + FieldIndex(fields[1..], name)
  }

  function Field(fields: seq<(string, Wire)>, name: string): Option<Wire> {
    var i := FieldIndex(fields, name);
    if i < |fields| then Some(fields[i].1) else None
  }

  /** A member that is a string. */
  function TextField(fields: seq<(string, Wire)>, name: string): Option<string> {
    var w := Field(fields, name);
    if w.Some? && w.value.WString? then Some(w.value.s) else None
  }

  /** A member that is a list. */
  function ListField(fields: seq<(string, Wire)>, name: string): Option<seq<Wire>> {
    var w := Field(fields, name);
    if w.Some? && w.value.WArray? then Some(w.value.items) else None
  }

  // ----- Texts -----

  function Chars(t: Text.Text): string {
    seq(|t|, i requires 0 <= i < |t| => if t[i] < 0xD800 then t[i] as char else '?')
  }

  function Codes(s: string): Text.Text {
    seq(|s|, i requires 0 <= i < |s| => if (s[i] as int) < 0x1_0000 then s[i] as int else 0)
  }

  predicate HexDigit(c: char) {
    '0' <= c <= '9' || 'a' <= c <= 'f' || 'A' <= c <= 'F'
  }

  predicate GuidShaped(s: string) {
    |s| == 36 && forall i | 0 <= i < 36 :: if i in {8, 13, 18, 23} then s[i] == '-' else HexDigit(s[i])
  }

  function LowerChar(c: char): char {
    if 'A' <= c <= 'Z' then (c as int + 32) as char else c
  }

  function Lower(s: string): string {
    seq(|s|, i requires 0 <= i < |s| => LowerChar(s[i]))
  }

  const TYPED_ARRAY_KINDS := {
    "Int8Array", "Uint8Array", "Uint8ClampedArray", "Int16Array", "Uint16Array", "Int32Array", "Uint32Array",
    "Float32Array", "Float64Array", "BigInt64Array", "BigUint64Array" }

  // ----- Encoding -----

  function EncodeElement(e: Element): Wire {
    match e
    case Plain(n) => WNumber(n)
    case MinusZero => Tagged("negZero", [])
    case Big(i) => Tagged("bigint", [("value", WString(Chars(Decimal.Print(i))))])
  }

  /** In a positional slot an absent value is a value; an object's absent member stays absent. */
  function EncodeAtom(a: Atom, positional: bool, base64: bool): Wire {
    match a
    case Undefined => if positional then Tagged("undefined", []) else WUndefined
    case Null => WNull
    case Bool(b) => WBool(b)
    case Number(n) => WNumber(n)
    case NegZero => Tagged("negZero", [])
    case Str(s) => WString(s)
    case BigInt(i) => Tagged("bigint", [("value", WString(Chars(Decimal.Print(i))))])
    case DateValue(ms) => Tagged("date", [("value", WNumber(ms))])
    case Guid(text) => Tagged("guid", [("value", WString(text))])
    case Silo(podName, podUid, endpoint) =>
      Tagged("silo", [("podName", WString(podName)), ("podUid", WString(podUid)), ("endpoint", WString(endpoint))])
    case Bytes(bytes) => if base64 then Tagged("bytes", [("value", WString(Base64.Encode(bytes)))]) else WBytes(bytes)
    case TypedArray(kind, elements) =>
      Tagged("typedArray", [("kind", WString(kind)),
        ("values", WArray(seq(|elements|, i requires 0 <= i < |elements| => EncodeElement(elements[i]))))])
  }

  function Encode(t: Tree, positional: bool, base64: bool): Wire
    decreases t
  {
    match t
    case Leaf(a) => EncodeAtom(a, positional, base64)
    case Array(items) => WArray(seq(|items|, i requires 0 <= i < |items| => Encode(items[i], true, base64)))
    case Map(entries) =>
      Tagged("map", [("entries", WArray(seq(|entries|, i requires 0 <= i < |entries| =>
        WArray([Encode(entries[i].0, true, base64), Encode(entries[i].1, true, base64)]))))])
    case Set(members) =>
      Tagged("set", [("values", WArray(seq(|members|, i requires 0 <= i < |members| => Encode(members[i], true, base64))))])
    case Object(fields) =>
      WObject(SafeFields(seq(|fields|, i requires 0 <= i < |fields| => (fields[i].0, Encode(fields[i].1, false, base64)))))
  }

  /** `encodeValue`: the top level is a positional slot. */
  function EncodeValue(t: Tree, base64: bool): Wire {
    Encode(t, true, base64)
  }

  // ----- Decoding -----

  /**
   * `TooNew`: the envelope is refused for its version. `Outside`: decoding throws otherwise, or
   * something inside is refused, or gives a value that is none of these.
   */
  datatype Decoded = Value(t: Tree) | TooNew(tag: Tag, version: int) | Outside

  predicate IsPrimitive(t: Tree) {
    t.Leaf? && (t.a.Undefined? || t.a.Null? || t.a.Bool? || t.a.Number? || t.a.NegZero? || t.a.Str? || t.a.BigInt?)
  }

  /** A key or member as `Map` and `Set` hold it: zero loses its sign. */
  function Normal(t: Tree): Tree {
    if t == Leaf(NegZero) then Leaf(Number(Whole(0))) else t
  }

  /** Equal as keys: the same primitive, objects being new ones each time. */
  predicate SameKey(a: Tree, b: Tree) {
    IsPrimitive(a) && a == b
  }

  function IndexOfKey(entries: seq<(Tree, Tree)>, key: Tree): (i: nat)
    ensures i <= |entries|
    ensures i < |entries| ==> SameKey(entries[i].0, key)
    ensures forall j | 0 <= j < i :: !SameKey(entries[j].0, key)
  {
    if entries == [] || SameKey(entries[0].0, key) then 0 else 1 + IndexOfKey(entries[1..], key)
  }

  /** `new Map(entries)`. */
  function NewMap(entries: seq<(Tree, Tree)>): (r: seq<(Tree, Tree)>) {
    if entries == [] then []
    else
      var init, (k, v) := NewMap(entries[..|entries| - 1]), entries[|entries| - 1];
      var i := IndexOfKey(init, Normal(k));
      if i < |init| then init[i := (init[i].0, v)] else init + [(Normal(k), v)]
  }

  predicate HasMember(members: seq<Tree>, t: Tree) {
    exists i | 0 <= i < |members| :: SameKey(members[i], t)
  }

  /** `new Set(members)`. */
  function NewSet(members: seq<Tree>): seq<Tree> {
    if members == [] then []
    else
      var init, t := NewSet(members[..|members| - 1]), Normal(members[|members| - 1]);
      if HasMember(init, t) then init else init + [t]
  }

  function TagIn(fields: seq<(string, Wire)>): Tag {
    var s := TextField(fields, TAG);
    if s.Some? then TagOf(s.value) else UnknownTag
  }

  function VersionOf(fields: seq<(string, Wire)>): int {
    var w := Field(fields, VERSION);
    if w.Some? && w.value.WNumber? && w.value.n.Whole? && w.value.n.i >= 1 then w.value.n.i else 1
  }

  function DecodeBig(w: Wire): Option<int> {
    match w
    case WString(s) => (
      match Decimal.Parse(Codes(s))
      case Numeral(i) => Some(i)
      case NotANumeral => None
    )
    case _ => None
  }

  /** One element of a typed array's envelope. */
  function DecodeElement(w: Wire): Option<Element> {
    match w
    case WNumber(n) => Some(Plain(n))
    case WNegZero => Some(MinusZero)
    case WObject(fields) =>
      if VersionOf(fields) > CURRENT_VERSION then None
      else if TagIn(fields) == NegZeroTag then Some(MinusZero)
      else if TagIn(fields) == BigIntTag && Field(fields, "value").Some? then
        match DecodeBig(Field(fields, "value").value)
        case Some(i) => Some(Big(i))
        case None => None
      else None
    case _ => None
  }

  predicate AllElements(ws: seq<Wire>) {
    forall i | 0 <= i < |ws| :: DecodeElement(ws[i]).Some?
  }

  /** The tagged values that hold no others. */
  function DecodeTaggedLeaf(tag: Tag, fields: seq<(string, Wire)>): Decoded {
    var value, text := Field(fields, "value"), TextField(fields, "value");
    match tag
    case UndefinedTag => Value(Leaf(Undefined))
    case NegZeroTag => Value(Leaf(NegZero))
    case BigIntTag =>
      if value.Some? && DecodeBig(value.value).Some? then Value(Leaf(BigInt(DecodeBig(value.value).value))) else Outside
    case DateTag => if value.Some? && value.value.WNumber? then Value(Leaf(DateValue(value.value.n))) else Outside
    case BytesTag => if text.Some? then Value(Leaf(Bytes(Base64.Decode(text.value)))) else Outside
    case GuidTag => if text.Some? && GuidShaped(text.value) then Value(Leaf(Guid(Lower(text.value)))) else Outside
    case SiloTag =>
      var name, uid, endpoint := TextField(fields, "podName"), TextField(fields, "podUid"), TextField(fields, "endpoint");
      if name.Some? && uid.Some? && endpoint.Some? then Value(Leaf(Silo(name.value, uid.value, endpoint.value))) else Outside
    case TypedArrayTag =>
      var kind, ws := TextField(fields, "kind"), ListField(fields, "values");
      if kind.Some? && ws.Some? && kind.value in TYPED_ARRAY_KINDS && AllElements(ws.value) then
        Value(Leaf(TypedArray(kind.value, seq(|ws.value|, i requires 0 <= i < |ws.value| => DecodeElement(ws.value[i]).value))))
      else Outside
    case _ => Outside
  }

  predicate IsPair(w: Wire) {
    w.WArray? && |w.items| == 2
  }

  function Decode(w: Wire): Decoded
    decreases w
  {
    match w
    case WUndefined => Value(Leaf(Undefined))
    case WNull => Value(Leaf(Null))
    case WBool(b) => Value(Leaf(Bool(b)))
    case WNumber(n) => Value(Leaf(Number(n)))
    case WNegZero => Value(Leaf(NegZero))
    case WString(s) => Value(Leaf(Str(s)))
    case WBytes(bytes) => Value(Leaf(Bytes(bytes)))
    case WArray(ws) =>
      if forall i | 0 <= i < |ws| :: Decode(ws[i]).Value? then
        Value(Array(seq(|ws|, i requires 0 <= i < |ws| => Decode(ws[i]).t)))
      else Outside
    case WObject(fields) =>
      var tag := TagIn(fields);
      if tag == UnknownTag then
        if forall i | 0 <= i < |fields| :: Dangerous(fields[i].0) || Decode(fields[i].1).Value? then
          Value(Object(SafeFields(seq(|fields|, i requires 0 <= i < |fields| =>
            (fields[i].0, if Dangerous(fields[i].0) then Leaf(Undefined) else Decode(fields[i].1).t)))))
        else Outside
      else if VersionOf(fields) > CURRENT_VERSION then TooNew(tag, VersionOf(fields))
      else if tag == MapTag then
        var k := FieldIndex(fields, "entries");
        if k < |fields| && fields[k].1.WArray? then
          var es := fields[k].1.items;
          if forall i | 0 <= i < |es| :: IsPair(es[i]) && Decode(es[i].items[0]).Value? && Decode(es[i].items[1]).Value? then
            Value(Map(NewMap(seq(|es|, i requires 0 <= i < |es| => (Decode(es[i].items[0]).t, Decode(es[i].items[1]).t)))))
          else Outside
        else Outside
      else if tag == SetTag then
        var k := FieldIndex(fields, "values");
        if k < |fields| && fields[k].1.WArray? then
          var ws := fields[k].1.items;
          if forall i | 0 <= i < |ws| :: Decode(ws[i]).Value? then
            Value(Set(NewSet(seq(|ws|, i requires 0 <= i < |ws| => Decode(ws[i]).t))))
          else Outside
        else Outside
      else DecodeTaggedLeaf(tag, fields)
  }

  // ----- Reading an envelope back -----

  lemma LeafTagNames()
    ensures TagOf("bigint") == BigIntTag && TagOf("date") == DateTag && TagOf("bytes") == BytesTag && TagOf("guid") == GuidTag
    ensures TagOf("undefined") == UndefinedTag && TagOf("silo") == SiloTag
  {
  }

  lemma LongTagNames()
    ensures TagOf("typedArray") == TypedArrayTag && TagOf("negZero") == NegZeroTag
    ensures TagOf("map") == MapTag && TagOf("set") == SetTag
  {
    assert "typedArray"[1] == 'y' && "negZero"[0] == 'n' && "map"[0] == 'm' && "set"[1] == 'e';
  }

  lemma TagNames()
    ensures TagOf("bigint") == BigIntTag && TagOf("date") == DateTag && TagOf("bytes") == BytesTag && TagOf("guid") == GuidTag
    ensures TagOf("undefined") == UndefinedTag && TagOf("silo") == SiloTag && TagOf("map") == MapTag && TagOf("set") == SetTag
    ensures TagOf("typedArray") == TypedArrayTag && TagOf("negZero") == NegZeroTag
  {
    hide TagOf;
    LeafTagNames();
    LongTagNames();
  }

  lemma {:induction false} FieldAt<T>(fields: seq<(string, T)>, name: string, i: nat)
    requires i < |fields| && fields[i].0 == name
    requires forall j | 0 <= j < i :: fields[j].0 != name
    ensures FieldIndex(fields, name) == i
  {
    if i > 0 {
      assert fields[0].0 != name;
      forall j | 0 <= j < i - 1 ensures fields[1..][j].0 != name { assert fields[1..][j] == fields[j + 1]; }
      FieldAt(fields[1..], name, i - 1);
    }
  }

  lemma NamesDiffer()
    ensures TAG != VERSION && TAG != "value" && VERSION != "value" && TAG != "kind" && VERSION != "kind"
    ensures TAG != "values" && VERSION != "values" && TAG != "entries" && VERSION != "entries" && "kind" != "values"
    ensures TAG != "podName" && VERSION != "podName" && TAG != "podUid" && VERSION != "podUid" && TAG != "endpoint" && VERSION != "endpoint"
    ensures "podName" != "podUid" && "podName" != "endpoint" && "podUid" != "endpoint"
  {
    assert TAG[2] == 'h' && VERSION[2] == 's' && TAG[0] == '$' && VERSION[0] == '$';
    assert "podName"[3] == 'N' && "podUid"[3] == 'U' && "endpoint"[0] == 'e' && "kind"[0] == 'k' && "values"[0] == 'v';
  }

  /** An envelope gives back its tag, the current version, and its fields. */
  lemma Envelope(tag: string, fields: seq<(string, Wire)>, i: nat)
    ensures var all := Tagged(tag, fields).fields; TagIn(all) == TagOf(tag) && VersionOf(all) == CURRENT_VERSION
    ensures i < |fields| && fields[i].0 != TAG && fields[i].0 != VERSION && (forall j | 0 <= j < i :: fields[j].0 != fields[i].0) ==>
      var all := Tagged(tag, fields).fields;
      FieldIndex(all, fields[i].0) == i + 2 && all[i + 2] == fields[i] && Field(all, fields[i].0) == Some(fields[i].1)
  {
    NamesDiffer();
    hide TagOf, FieldIndex;
    var all := Tagged(tag, fields).fields;
    FieldAt(all, TAG, 0);
    FieldAt(all, VERSION, 1);
    if i < |fields| && fields[i].0 != TAG && fields[i].0 != VERSION && (forall j | 0 <= j < i :: fields[j].0 != fields[i].0) {
      forall j | 0 <= j < i + 2 ensures all[j].0 != fields[i].0 {
        assert j >= 2 ==> all[j] == fields[j - 2];
      }
      FieldAt(all, fields[i].0, i + 2);
    }
  }

  // ----- Round trips of the leaves -----

  lemma CodesOfChars(t: Text.Text)
    requires forall i | 0 <= i < |t| :: t[i] < 0xD800
    ensures Codes(Chars(t)) == t
  {
  }

  lemma {:induction false} PrintIsPlain(n: nat)
    ensures forall i | 0 <= i < |Decimal.PrintNat(n)| :: Decimal.PrintNat(n)[i] < 0xD800
  {
  }

  lemma BigRoundTrip(i: int)
    ensures DecodeBig(WString(Chars(Decimal.Print(i)))) == Some(i)
  {
    PrintIsPlain(if i < 0 then -i else i);
    CodesOfChars(Decimal.Print(i));
    Decimal.ParsePrint(i);
  }

  /** The texts and kinds that values of these types have. */
  ghost predicate SoundAtom(a: Atom) {
    && (a.Guid? ==> GuidShaped(a.text) && Lower(a.text) == a.text)
    && (a.TypedArray? ==> a.kind in TYPED_ARRAY_KINDS)
  }

  lemma ElementRoundTrip(e: Element)
    ensures DecodeElement(EncodeElement(e)) == Some(e)
  {
    hide TagOf, TagIn, VersionOf, Field, FieldIndex, DecodeBig;
    TagNames();
    NamesDiffer();
    match e
    case Plain(_) =>
    case MinusZero => Envelope("negZero", [], 0);
    case Big(i) =>
      BigRoundTrip(i);
      Envelope("bigint", [("value", WString(Chars(Decimal.Print(i))))], 0);
  }

  /** An envelope with a tag that holds no other values. */
  lemma DecodeEnvelope(fields: seq<(string, Wire)>, tag: Tag)
    requires TagIn(fields) == tag && VersionOf(fields) == CURRENT_VERSION
    requires tag != UnknownTag && tag != MapTag && tag != SetTag
    ensures Decode(WObject(fields)) == DecodeTaggedLeaf(tag, fields)
  {
    hide TagIn, VersionOf, DecodeTaggedLeaf;
  }

  lemma SiloRoundTrip(podName: string, podUid: string, endpoint: string)
    ensures Decode(EncodeAtom(Silo(podName, podUid, endpoint), true, false)) == Value(Leaf(Silo(podName, podUid, endpoint)))
  {
    hide TagOf, TagIn, VersionOf, Field, FieldIndex, Decode;
    var fields := [("podName", WString(podName)), ("podUid", WString(podUid)), ("endpoint", WString(endpoint))];
    TagNames();
    NamesDiffer();
    Envelope("silo", fields, 0);
    Envelope("silo", fields, 1);
    Envelope("silo", fields, 2);
    DecodeEnvelope(Tagged("silo", fields).fields, SiloTag);
  }

  lemma TypedArrayRoundTrip(kind: string, elements: seq<Element>)
    requires kind in TYPED_ARRAY_KINDS
    ensures Decode(EncodeAtom(TypedArray(kind, elements), true, false)) == Value(Leaf(TypedArray(kind, elements)))
  {
    hide TagOf, TagIn, VersionOf, Field, FieldIndex, Decode, DecodeElement, EncodeElement;
    var ws := seq(|elements|, i requires 0 <= i < |elements| => EncodeElement(elements[i]));
    var fields := [("kind", WString(kind)), ("values", WArray(ws))];
    TagNames();
    NamesDiffer();
    Envelope("typedArray", fields, 0);
    Envelope("typedArray", fields, 1);
    DecodeEnvelope(Tagged("typedArray", fields).fields, TypedArrayTag);
    forall i | 0 <= i < |ws| ensures DecodeElement(ws[i]) == Some(elements[i]) { ElementRoundTrip(elements[i]); }
    assert seq(|ws|, i requires 0 <= i < |ws| => DecodeElement(ws[i]).value) == elements;
  }

  /** An envelope with a single field `value`. */
  lemma ValueTag(name: string, w: Wire, tag: Tag)
    requires TagOf(name) == tag && tag != UnknownTag && tag != MapTag && tag != SetTag
    ensures var all := Tagged(name, [("value", w)]).fields;
      Decode(WObject(all)) == DecodeTaggedLeaf(tag, all) && Field(all, "value") == Some(w)
  {
    hide TagOf, TagIn, VersionOf, Field, FieldIndex, Decode, DecodeTaggedLeaf;
    NamesDiffer();
    Envelope(name, [("value", w)], 0);
    DecodeEnvelope(Tagged(name, [("value", w)]).fields, tag);
  }

  lemma EmptyTag(name: string, tag: Tag)
    requires TagOf(name) == tag && tag != UnknownTag && tag != MapTag && tag != SetTag
    ensures Decode(Tagged(name, [])) == DecodeTaggedLeaf(tag, Tagged(name, []).fields)
  {
    hide TagOf, TagIn, VersionOf, Field, FieldIndex, Decode, DecodeTaggedLeaf;
    Envelope(name, [], 0);
    DecodeEnvelope(Tagged(name, []).fields, tag);
  }

  lemma PlainRoundTrip(a: Atom, positional: bool, base64: bool)
    requires a.Null? || a.Bool? || a.Number? || a.Str? || (a.Undefined? && !positional) || (a.Bytes? && !base64)
    ensures Decode(EncodeAtom(a, positional, base64)) == Value(Leaf(a))
  {
    hide TagIn, VersionOf, DecodeTaggedLeaf, Tagged;
  }

  lemma LeafRoundTrip(a: Atom, positional: bool, base64: bool)
    requires SoundAtom(a)
    ensures Decode(EncodeAtom(a, positional, base64)) == Value(Leaf(a))
  {
    hide TagOf, TagIn, FieldIndex, Field, Decode, DecodeBig, Tagged;
    TagNames();
    match a
    case Undefined =>
      if positional { EmptyTag("undefined", UndefinedTag); } else { PlainRoundTrip(a, positional, base64); }
    case NegZero => EmptyTag("negZero", NegZeroTag);
    case BigInt(i) =>
      BigRoundTrip(i);
      ValueTagged("bigint", WString(Chars(Decimal.Print(i))), BigIntTag);
    case DateValue(ms) => ValueTagged("date", WNumber(ms), DateTag);
    case Guid(text) => ValueTagged("guid", WString(text), GuidTag);
    case Silo(podName, podUid, endpoint) => SiloRoundTrip(podName, podUid, endpoint);
    case Bytes(bytes) =>
      if base64 {
        Base64.RoundTrip(bytes);
        ValueTagged("bytes", WString(Base64.Encode(bytes)), BytesTag);
      } else {
        PlainRoundTrip(a, positional, base64);
      }
    case TypedArray(kind, elements) => TypedArrayRoundTrip(kind, elements);
    case _ => PlainRoundTrip(a, positional, base64);
  }

  lemma ValueTagged(name: string, w: Wire, tag: Tag)
    requires TagOf(name) == tag && tag != UnknownTag && tag != MapTag && tag != SetTag
    ensures var e := Tagged(name, [("value", w)]);
      e.WObject? && Decode(e) == DecodeTaggedLeaf(tag, e.fields) && Field(e.fields, "value") == Some(w)
  {
    hide TagOf, Decode, Field, DecodeTaggedLeaf;
    ValueTag(name, w, tag);
  }
}
