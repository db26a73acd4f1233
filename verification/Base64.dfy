/** The hand-written base64 of the value codec: section 4 of RFC 4648, with a decoder on a 32-bit accumulator. */
module Base64 {

  type Byte = b: int | 0 <= b < 256

  /** Table 1 of RFC 4648. */
  function Character(d: nat): char
    requires d < 64
  {
    if d < 26 then ('A' as int + d) as char
    else if d < 52 then ('a' as int + (d - 26)) as char
    else if d < 62 then ('0' as int + (d - 52)) as char
    else if d == 62 then '+'
    else '/'
  }

  /** The first position of a character in the alphabet from `k` on, or -1. */
  function IndexFrom(ch: char, k: nat): (d: int)
    requires k <= 64
    ensures -1 <= d < 64
    ensures d >= 0 ==> k <= d && Character(d) == ch
    ensures d < 0 ==> forall j: nat | k <= j < 64 :: Character(j) != ch
    decreases 64 - k
  {
    if k == 64 then -1 else if Character(k) == ch then k else IndexFrom(ch, k + 1)
  }

  function Digit(ch: char): (d: int)
    ensures -1 <= d < 64
  {
    IndexFrom(ch, 0)
  }

  lemma CharactersDiffer(d: nat, e: nat)
    requires d < 64 && e < 64
    ensures Character(d) == Character(e) <==> d == e
    ensures Character(d) != '='
  {
  }

  lemma DigitOfCharacter(d: nat)
    requires d < 64
    ensures Digit(Character(d)) == d && Character(d) != '='
  {
    var e := Digit(Character(d));
    CharactersDiffer(d, if e >= 0 then e else d);
  }

  // ----- Encoding -----

  /** The four characters of up to three bytes; one or two bytes are padded. */
  function FirstGroup(bytes: seq<Byte>): (g: string)
    requires bytes != []
    ensures |g| == 4
  {
    var b0 := bytes[0];
    var b1 := if |bytes| > 1 then bytes[1] else 0;
    var b2 := if |bytes| > 2 then bytes[2] else 0;
    [Character(b0 / 4), Character(b0 % 4 * 16 + b1 / 16),
     if |bytes| > 1 then Character(b1 % 16 * 4 + b2 / 64) else '=', if |bytes| > 2 then Character(b2 % 64) else '=']
  }

  function From(bytes: seq<Byte>, i: nat): seq<Byte> {
    if i <= |bytes| then bytes[i..] else []
  }

  function Encode(bytes: seq<Byte>): string
    decreases |bytes|
  {
    if bytes == [] then "" else FirstGroup(bytes) + Encode(From(bytes, 3))
  }

  lemma Whole(bytes: seq<Byte>)
    ensures "" + Encode(From(bytes, 0)) == Encode(bytes)
    ensures forall i: nat | i >= |bytes| :: Encode(From(bytes, i)) == ""
  {
    assert From(bytes, 0) == bytes;
    forall i: nat | i >= |bytes| ensures From(bytes, i) == [] {
    }
  }

  /** A missing byte counts as zero, and its own character is a pad. */
  lemma EncodeStep(bytes: seq<Byte>)
    requires bytes != []
    ensures var b0 := bytes[0];
      var b1 := if |bytes| > 1 then bytes[1] else 0;
      var b2 := if |bytes| > 2 then bytes[2] else 0;
      && FirstGroup(bytes) == [Character(b0 / 4), Character(b0 % 4 * 16 + b1 / 16),
           if |bytes| > 1 then Character(b1 % 16 * 4 + b2 / 64) else '=', if |bytes| > 2 then Character(b2 % 64) else '=']
      && Encode(bytes) == FirstGroup(bytes) + Encode(From(bytes, 3))
  {
    hide Character;
  }

  method BytesToBase64(bytes: seq<Byte>) returns (out: string)
    ensures out == Encode(bytes)
  {
    hide Encode, FirstGroup, Character;
    out := "";
    var i := 0;
    Whole(bytes);
    while i < |bytes|
      invariant 0 <= i && out + Encode(From(bytes, i)) == Encode(bytes)
      decreases |bytes| - i
    {
      ghost var done, rest := out, From(bytes, i);
      var b0 := bytes[i];
      var b1 := if i + 1 < |bytes| then bytes[i + 1] else 0;
      var b2 := if i + 2 < |bytes| then bytes[i + 2] else 0;
      var c2 := if i + 1 < |bytes| then Character(b1 % 16 * 4 + b2 / 64) else '=';
      var c3 := if i + 2 < |bytes| then Character(b2 % 64) else '=';
      var group := [Character(b0 / 4), Character(b0 % 4 * 16 + b1 / 16), c2, c3];
      EncodeStep(rest);
      assert From(rest, 3) == From(bytes, i + 3);
      assert done + (group + Encode(From(bytes, i + 3))) == (done + group) + Encode(From(bytes, i + 3));
      out := out + group;
      i := i + 3;
    }
  }

  // ----- Decoding -----

  /** Conversion to a signed 32-bit integer. */
  function ToInt32(x: int): (r: int)
    ensures -0x8000_0000 <= r < 0x8000_0000
    ensures exists k :: x == r + k * 0x1_0000_0000
  {
    var r := x % 0x1_0000_0000;
    assert x == r + (x / 0x1_0000_0000) * 0x1_0000_0000;
    assert x == (r - 0x1_0000_0000) + (x / 0x1_0000_0000 + 1) * 0x1_0000_0000;
    if r < 0x8000_0000 then r else r - 0x1_0000_0000
  }

  function Pow2(n: nat): (p: nat)
    ensures p > 0
  {
    if n == 0 then 1 else 2 * Pow2(n - 1)
  }

  /** The accumulator, the bits in it not yet written out, and the bytes written out. */
  datatype State = State(acc: int, bits: nat, out: seq<Byte>)

  const START := State(0, 0, [])

  /** `acc >> bits` of a signed integer rounds down. */
  function Push(s: State, digit: nat): (r: State)
    requires digit < 64
    ensures r.bits < 8 || s.bits >= 8
    ensures |r.out| * 8 + r.bits == |s.out| * 8 + s.bits + 6
  {
    var acc := ToInt32(s.acc * 64) + digit;
    var bits := s.bits + 6;
    if bits >= 8 then State(acc, bits - 8, s.out + [(acc / Pow2(bits - 8)) % 256]) else State(acc, bits, s.out)
  }

  function PushChar(s: State, ch: char): State {
    if Digit(ch) < 0 then s else Push(s, Digit(ch))
  }

  function PushAll(s: State, text: string): State
    decreases |text|
  {
    if text == "" then s else PushAll(PushChar(s, text[0]), text[1..])
  }

  /** The text without its padding. */
  function Body(text: string): (b: string)
    ensures |b| <= |text|
  {
    var n := |text|;
    if n >= 2 && text[n - 1] == '=' && text[n - 2] == '=' then text[..n - 2]
    else if n >= 1 && text[n - 1] == '=' then text[..n - 1]
    else text
  }

  /** JavaScript's `length`: a character beyond the basic plane is two code units, though iteration sees it once. */
  function Length(text: string): (n: nat)
    ensures |text| <= n
  {
    if text == "" then 0 else (if text[0] as int < 0x1_0000 then 1 else 2) + Length(text[1..])
  }

  /** The bytes written, in an array whose length the text's length decides. */
  function Decode(text: string): seq<Byte> {
    var size := Length(Body(text)) * 3 / 4;
    var out := PushAll(START, Body(text)).out;
    if |out| <= size then out + seq(size - |out|, _ => 0) else out
  }

  method Base64ToBytes(text: string) returns (bytes: array<Byte>)
    ensures fresh(bytes) && bytes[..] == Decode(text)
  {
    hide ToInt32, Digit, Pow2, Body, Length;
    var body := Body(text);
    bytes := new Byte[Length(body) * 3 / 4](_ => 0);
    var acc, bits, at := 0, 0, 0;
    ghost var s := START;
    for i := 0 to |body|
      invariant bits < 8 && 0 <= at && at * 8 + bits <= 6 * i && at <= bytes.Length
      invariant s == State(acc, bits, bytes[..at])
      invariant PushAll(s, body[i..]) == PushAll(START, body)
      invariant forall j | at <= j < bytes.Length :: bytes[j] == 0
    {
      assert body[i..][1..] == body[i + 1..] && body[i..][0] == body[i];
      var digit := Digit(body[i]);
      if digit < 0 {
        continue;
      }
      s := Push(s, digit);
      acc := ToInt32(acc * 64) + digit;
      bits := bits + 6;
      if bits >= 8 {
        bits := bits - 8;
        bytes[at] := (acc / Pow2(bits)) % 256;
        at := at + 1;
      }
    }
    assert bytes[..] == bytes[..at] + bytes[at..];
  }

  // ----- Round trip -----

  /** The low fourteen bits of the accumulator are all that is ever written out. */
  function Low(s: State): nat {
    s.acc % 16384
  }

  lemma WrapKeepsLow(acc: int, digit: nat)
    requires digit < 64
    ensures (ToInt32(acc * 64) + digit) % 16384 == (acc % 16384 * 64 + digit) % 16384
  {
    var k :| acc * 64 == ToInt32(acc * 64) + k * 0x1_0000_0000;
    var q := acc / 16384;
    assert acc == 16384 * q + acc % 16384;
    assert ToInt32(acc * 64) + digit == (acc % 16384 * 64 + digit) + 16384 * (64 * q - 262144 * k);
    AddMultiple(acc % 16384 * 64 + digit, 64 * q - 262144 * k);
  }

  lemma AddMultiple(x: int, k: int)
    ensures (x + 16384 * k) % 16384 == x % 16384
  {
  }

  lemma Mod4(x: int, q: int, r: int)
    requires x == 4 * q + r && 0 <= r < 4
    ensures x % 4 == r && x / 4 == q
  {
  }

  lemma Mod16(x: int, q: int, r: int)
    requires x == 16 * q + r && 0 <= r < 16
    ensures x % 16 == r && x / 16 == q
  {
  }

  lemma Mod64(x: int, q: int, r: int)
    requires x == 64 * q + r && 0 <= r < 64
    ensures x % 64 == r && x / 64 == q
  {
  }

  lemma Mod256(x: int, q: int, r: int)
    requires x == 256 * q + r && 0 <= r < 256
    ensures x % 256 == r && x / 256 == q
  {
  }

  /** Multiples of 256 do not change the byte. */
  lemma SameByte(k: int, a: nat)
    ensures (256 * k + a) % 256 == a % 256
  {
    Mod256(256 * k + a, k + a / 256, a % 256);
  }

  /** Only low bits reach the byte that is written. */
  lemma ByteFromLow(acc: int, bits: nat)
    requires bits == 0 || bits == 2 || bits == 4
    ensures (acc / Pow2(bits)) % 256 == (acc % 16384 / Pow2(bits)) % 256
  {
    Powers();
    hide Pow2;
    var q, l := acc / 16384, acc % 16384;
    assert acc == 16384 * q + l;
    if bits == 0 {
      SameByte(64 * q, l);
    } else if bits == 2 {
      Mod4(acc, 4096 * q + l / 4, l % 4);
      SameByte(16 * q, l / 4);
    } else {
      Mod16(acc, 1024 * q + l / 16, l % 16);
      SameByte(4 * q, l / 16);
    }
  }

  lemma Powers()
    ensures Pow2(0) == 1 && Pow2(2) == 4 && Pow2(4) == 16
  {
    assert Pow2(1) == 2 && Pow2(3) == 8;
  }

  lemma PushLow(s: State, digit: nat)
    requires digit < 64 && (s.bits == 0 || s.bits == 2 || s.bits == 4 || s.bits == 6)
    ensures var low := (Low(s) * 64 + digit) % 16384; var r := Push(s, digit);
      && Low(r) == low
      && r.bits == (if s.bits == 0 then 6 else s.bits - 2)
      && r.out == if s.bits == 0 then s.out else s.out + [(low / Pow2(s.bits - 2)) % 256]
  {
    WrapKeepsLow(s.acc, digit);
    if s.bits > 0 {
      ByteFromLow(ToInt32(s.acc * 64) + digit, s.bits - 2);
    }
  }

  lemma Remainder(x: int, q: int, r: int)
    requires x == 16384 * q + r && 0 <= r < 16384
    ensures x % 16384 == r
  {
  }

  /** The new low bits: eight old ones, shifted, and the digit. */
  lemma Shifted(l: nat, d: nat)
    requires d < 64
    ensures (l * 64 + d) % 16384 == l % 256 * 64 + d
  {
    assert l == 256 * (l / 256) + l % 256;
    Remainder(l * 64 + d, l / 256, l % 256 * 64 + d);
  }

  lemma CutAt6(m: nat, d: nat)
    requires m < 256 && d < 64
    ensures ((m * 64 + d) / 16) % 256 == m % 64 * 4 + d / 16
  {
    var p, t := m / 64, m % 64;
    assert m == 64 * p + t;
    Mod16(m * 64 + d, 256 * p + (4 * t + d / 16), d % 16);
    Mod256(256 * p + (4 * t + d / 16), p, 4 * t + d / 16);
  }

  lemma CutAt4(m: nat, d: nat)
    requires m < 256 && d < 64
    ensures ((m * 64 + d) / 4) % 256 == m % 16 * 16 + d / 4
  {
    var p, t := m / 16, m % 16;
    assert m == 16 * p + t;
    Mod4(m * 64 + d, 256 * p + (16 * t + d / 4), d % 4);
    Mod256(256 * p + (16 * t + d / 4), p, 16 * t + d / 4);
  }

  lemma CutAt2(m: nat, d: nat)
    requires m < 256 && d < 64
    ensures (m * 64 + d) % 256 == m % 4 * 64 + d
  {
    var p, t := m / 4, m % 4;
    assert m == 4 * p + t;
    Mod256(m * 64 + d, p, 64 * t + d);
  }

  lemma LowOf256(l: nat)
    ensures l % 256 % 64 == l % 64 && l % 256 % 16 == l % 16 && l % 256 % 4 == l % 4
  {
    var q, m := l / 256, l % 256;
    assert l == 256 * q + m;
    Mod64(l, 4 * q + m / 64, m % 64);
    Mod16(l, 16 * q + m / 16, m % 16);
    Mod4(l, 64 * q + m / 4, m % 4);
  }

  /** What one more digit writes out, from the low bits left by the digit before it. */
  lemma PushWrites(s: State, d: nat)
    requires d < 64 && (s.bits == 0 || s.bits == 2 || s.bits == 4 || s.bits == 6)
    ensures var r := Push(s, d); var low := Low(s);
      && Low(r) % 64 == d
      && (s.bits == 0 ==> r.bits == 6 && r.out == s.out)
      && (s.bits == 6 ==> r.bits == 4 && r.out == s.out + [low % 64 * 4 + d / 16])
      && (s.bits == 4 ==> r.bits == 2 && r.out == s.out + [low % 16 * 16 + d / 4])
      && (s.bits == 2 ==> r.bits == 0 && r.out == s.out + [low % 4 * 64 + d])
  {
    hide Push, Low, Pow2;
    Powers();
    PushLow(s, d);
    NewLow(Low(s), d);
  }

  lemma NewLow(l: nat, d: nat)
    requires d < 64
    ensures var n := (l * 64 + d) % 16384;
      && n % 64 == d
      && (n / 16) % 256 == l % 64 * 4 + d / 16
      && (n / 4) % 256 == l % 16 * 16 + d / 4
      && (n / 1) % 256 == l % 4 * 64 + d
  {
    var m := l % 256;
    Shifted(l, d);
    LowOf256(l);
    CutAt6(m, d);
    CutAt4(m, d);
    CutAt2(m, d);
    Mod64(m * 64 + d, m, d);
  }

  lemma PushCharIs(s: State, d: nat)
    requires d < 64
    ensures PushChar(s, Character(d)) == Push(s, d)
  {
    DigitOfCharacter(d);
  }

  lemma {:induction false} PushAllConcat(s: State, a: string, b: string)
    ensures PushAll(s, a + b) == PushAll(PushAll(s, a), b)
    decreases |a|
  {
    if a == "" {
      assert a + b == b;
    } else {
      assert (a + b)[1..] == a[1..] + b;
      PushAllConcat(PushChar(s, a[0]), a[1..], b);
    }
  }

  lemma PushOne(s: State, d: nat)
    requires d < 64
    ensures PushAll(s, [Character(d)]) == Push(s, d)
  {
    hide PushChar, Push;
    PushCharIs(s, d);
    assert [Character(d)][1..] == "";
  }

  lemma PushTwo(s: State, d0: nat, d1: nat)
    requires d0 < 64 && d1 < 64
    ensures PushAll(s, [Character(d0), Character(d1)]) == Push(Push(s, d0), d1)
  {
    hide PushAll, PushChar, Push, Character;
    assert [Character(d0), Character(d1)] == [Character(d0)] + [Character(d1)];
    PushAllConcat(s, [Character(d0)], [Character(d1)]);
    PushOne(s, d0);
    PushOne(Push(s, d0), d1);
  }

  lemma LowOfLow(l: nat, d: nat)
    requires l % 64 == d
    ensures l % 16 == d % 16 && l % 4 == d % 4
  {
    var k := l / 64;
    assert l == 64 * k + d;
    Mod16(l, 4 * k + d / 16, d % 16);
    Mod4(l, 16 * k + d / 4, d % 4);
  }

  /** The bytes are cut into digits and put together again. */
  lemma DigitsOfBytes(b0: Byte, b1: Byte, b2: Byte)
    ensures var d0, d1, d2, d3 := b0 / 4, b0 % 4 * 16 + b1 / 16, b1 % 16 * 4 + b2 / 64, b2 % 64;
      && d0 < 64 && d1 < 64 && d2 < 64 && d3 < 64
      && d0 * 4 + d1 / 16 == b0 && d1 % 16 * 16 + d2 / 4 == b1 && d2 % 4 * 64 + d3 == b2
  {
  }

  /** A whole group of four digits gives its three bytes back, whatever was in the accumulator before. */
  lemma GroupDecodes(s: State, b0: Byte, b1: Byte, b2: Byte)
    requires s.bits == 0
    ensures var r := PushAll(s, FirstGroup([b0, b1, b2])); r.bits == 0 && r.out == s.out + [b0, b1, b2]
  {
    hide Push, Low, PushAll, Character;
    DigitsOfBytes(b0, b1, b2);
    var d0, d1, d2, d3 := b0 / 4, b0 % 4 * 16 + b1 / 16, b1 % 16 * 4 + b2 / 64, b2 % 64;
    var one := Push(s, d0);
    var two := Push(one, d1);
    var three := Push(two, d2);
    PushTwo(s, d0, d1);
    PushTwo(two, d2, d3);
    PushAllConcat(s, [Character(d0), Character(d1)], [Character(d2), Character(d3)]);
    assert FirstGroup([b0, b1, b2]) == [Character(d0), Character(d1)] + [Character(d2), Character(d3)];
    GroupWrites(s, one, two, three, d0, d1, d2, d3);
    assert s.out + [b0] + [b1] + [b2] == s.out + [b0, b1, b2];
  }

  lemma GroupWrites(s: State, one: State, two: State, three: State, d0: nat, d1: nat, d2: nat, d3: nat)
    requires s.bits == 0 && d0 < 64 && d1 < 64 && d2 < 64 && d3 < 64
    requires one == Push(s, d0) && two == Push(one, d1) && three == Push(two, d2)
    requires d0 * 4 + d1 / 16 < 256
    ensures two.out == s.out + [d0 * 4 + d1 / 16] && three.out == two.out + [d1 % 16 * 16 + d2 / 4]
    ensures Push(three, d3).out == three.out + [d2 % 4 * 64 + d3] && Push(three, d3).bits == 0
  {
    hide Push, Low;
    PushWrites(s, d0);
    PushWrites(one, d1);
    PushWrites(two, d2);
    PushWrites(three, d3);
    LowOfLow(Low(two), d1);
    LowOfLow(Low(three), d2);
  }

  lemma TwoDigitsDecode(s: State, b0: Byte)
    requires s.bits == 0
    ensures PushAll(s, [Character(b0 / 4), Character(b0 % 4 * 16)]).out == s.out + [b0]
  {
    hide Push, Low, PushAll, Character;
    DigitsOfBytes(b0, 0, 0);
    PushTwo(s, b0 / 4, b0 % 4 * 16);
    var one := Push(s, b0 / 4);
    GroupWrites(s, one, Push(one, b0 % 4 * 16), Push(Push(one, b0 % 4 * 16), 0), b0 / 4, b0 % 4 * 16, 0, 0);
  }

  lemma ThreeDigitsDecode(s: State, b0: Byte, b1: Byte)
    requires s.bits == 0
    ensures PushAll(s, [Character(b0 / 4), Character(b0 % 4 * 16 + b1 / 16), Character(b1 % 16 * 4)]).out == s.out + [b0, b1]
  {
    hide Push, Low, PushAll, Character;
    DigitsOfBytes(b0, b1, 0);
    var d0, d1, d2 := b0 / 4, b0 % 4 * 16 + b1 / 16, b1 % 16 * 4;
    var one := Push(s, d0);
    var two := Push(one, d1);
    PushTwo(s, d0, d1);
    PushOne(two, d2);
    PushAllConcat(s, [Character(d0), Character(d1)], [Character(d2)]);
    assert [Character(d0), Character(d1), Character(d2)] == [Character(d0), Character(d1)] + [Character(d2)];
    GroupWrites(s, one, two, Push(two, d2), d0, d1, d2, 0);
    assert s.out + [b0] + [b1] == s.out + [b0, b1];
  }

  /** The digits of the encoding, without the padding. */
  function Digits(bytes: seq<Byte>): string
    decreases |bytes|
  {
    if bytes == [] then ""
    else if |bytes| == 1 then FirstGroup(bytes)[..2]
    else if |bytes| == 2 then FirstGroup(bytes)[..3]
    else FirstGroup(bytes) + Digits(bytes[3..])
  }

  lemma Lengths(n: nat)
    requires n >= 3
    ensures (n + 2) / 3 * 4 == 4 + (n - 3 + 2) / 3 * 4 && (n * 8 + 5) / 6 == 4 + ((n - 3) * 8 + 5) / 6 && n % 3 == (n - 3) % 3
  {
  }

  lemma LastIsNoPad(bytes: seq<Byte>)
    requires bytes != []
    ensures FirstGroup(bytes)[1] != '=' && (|bytes| >= 2 ==> FirstGroup(bytes)[2] != '=') && (|bytes| >= 3 ==> FirstGroup(bytes)[3] != '=')
    ensures |bytes| == 1 ==> FirstGroup(bytes)[2] == '=' && FirstGroup(bytes)[3] == '='
    ensures |bytes| == 2 ==> FirstGroup(bytes)[3] == '='
  {
  }

  lemma {:induction false} BodyIsDigits(bytes: seq<Byte>)
    ensures |Encode(bytes)| == (|bytes| + 2) / 3 * 4
    ensures |Digits(bytes)| == (|bytes| * 8 + 5) / 6
    ensures Encode(bytes) == Digits(bytes) + (if |bytes| % 3 == 1 then "==" else if |bytes| % 3 == 2 then "=" else "")
    ensures Digits(bytes) != "" ==> Digits(bytes)[|Digits(bytes)| - 1] != '='
    decreases |bytes|
  {
    hide FirstGroup;
    if bytes != [] {
      LastIsNoPad(bytes);
      if |bytes| >= 3 {
        Lengths(|bytes|);
        BodyIsDigits(bytes[3..]);
      } else {
        var g := FirstGroup(bytes);
        assert g == g[..2] + g[2..] && g == g[..3] + g[3..];
        assert Encode(bytes) == g;
      }
    }
  }

  lemma {:induction false} DigitsDecode(s: State, bytes: seq<Byte>)
    requires s.bits == 0
    ensures PushAll(s, Digits(bytes)).out == s.out + bytes
    decreases |bytes|
  {
    hide PushChar;
    if |bytes| >= 3 {
      var first := FirstGroup([bytes[0], bytes[1], bytes[2]]);
      assert FirstGroup(bytes) == first;
      GroupDecodes(s, bytes[0], bytes[1], bytes[2]);
      var mid := PushAll(s, first);
      PushAllConcat(s, first, Digits(bytes[3..]));
      DigitsDecode(mid, bytes[3..]);
      assert bytes == [bytes[0], bytes[1], bytes[2]] + bytes[3..];
    } else if |bytes| == 2 {
      ThreeDigitsDecode(s, bytes[0], bytes[1]);
      assert bytes == [bytes[0], bytes[1]];
      assert Digits(bytes) == [Character(bytes[0] / 4), Character(bytes[0] % 4 * 16 + bytes[1] / 16), Character(bytes[1] % 16 * 4)];
    } else if |bytes| == 1 {
      TwoDigitsDecode(s, bytes[0]);
      assert bytes == [bytes[0]];
      assert Digits(bytes) == [Character(bytes[0] / 4), Character(bytes[0] % 4 * 16)];
    }
  }

  /** Stripping the padding from digits, none of which is a pad, gives the digits. */
  lemma BodyOf(digits: string, pad: string)
    requires pad == "" || pad == "=" || pad == "=="
    requires digits != "" ==> digits[|digits| - 1] != '='
    requires digits == "" ==> pad == ""
    ensures Body(digits + pad) == digits
  {
    var text := digits + pad;
    assert text[..|digits|] == digits;
    if digits != "" {
      assert text[|digits| - 1] != '=';
    }
  }

  ghost predicate Narrow(text: string) {
    forall i | 0 <= i < |text| :: text[i] as int < 0x1_0000
  }

  lemma {:induction false} NarrowLength(text: string)
    requires Narrow(text)
    ensures Length(text) == |text|
    decreases |text|
  {
    if text != "" {
      NarrowLength(text[1..]);
    }
  }

  lemma GroupIsNarrow(bytes: seq<Byte>)
    requires bytes != []
    ensures Narrow(FirstGroup(bytes))
  {
  }

  lemma {:induction false} DigitsAreNarrow(bytes: seq<Byte>)
    ensures Narrow(Digits(bytes))
    decreases |bytes|
  {
    hide FirstGroup;
    if bytes != [] {
      GroupIsNarrow(bytes);
      if |bytes| >= 3 {
        DigitsAreNarrow(bytes[3..]);
      }
    }
  }

  lemma ExactLength(n: nat)
    ensures (n * 8 + 5) / 6 * 3 / 4 == n
  {
    var q, r := n / 3, n % 3;
    assert n == 3 * q + r;
    assert (n * 8 + 5) / 6 == 4 * q + (r * 8 + 5) / 6;
  }

  /** Every byte sequence comes back, with the exact length, although the accumulator wraps at 32 bits. */
  lemma RoundTrip(bytes: seq<Byte>)
    ensures Decode(Encode(bytes)) == bytes
    ensures |Encode(bytes)| == (|bytes| + 2) / 3 * 4
  {
    hide Encode, Digits, PushAll, Body, Length;
    BodyIsDigits(bytes);
    DigitsAreNarrow(bytes);
    NarrowLength(Digits(bytes));
    ExactLength(|bytes|);
    var pad := if |bytes| % 3 == 1 then "==" else if |bytes| % 3 == 2 then "=" else "";
    BodyOf(Digits(bytes), pad);
    DigitsDecode(START, bytes);
    assert START.out + bytes == bytes;
    assert bytes + seq(0, _ => 0) == bytes;
  }
}
