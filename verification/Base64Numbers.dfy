/**
 * Base64 as arithmetic: an encoded text is the number that the bytes are, written in base 64 with the
 * figures of table 1 of RFC 4648, and decoding reads that number.
 */
module Base64Numbers {
  import opened Base64

  /** Table 1 of RFC 4648. */
  const ALPHABET := "ABCDEFGHIJKLMNOPQRSTUVWXYZ" + "abcdefghijklmnopqrstuvwxyz" + "0123456789+/"

  lemma Upper(k: nat)
    requires k < 26
    ensures "ABCDEFGHIJKLMNOPQRSTUVWXYZ"[k] as int == 'A' as int + k
  {
  }

  lemma Lower(k: nat)
    requires k < 26
    ensures "abcdefghijklmnopqrstuvwxyz"[k] as int == 'a' as int + k
  {
  }

  lemma Figures(k: nat)
    requires k < 12
    ensures "0123456789+/"[k] == if k < 10 then ('0' as int + k) as char else if k == 10 then '+' else '/'
  {
  }

  /** The codec's characters are those of the table, in its order. */
  lemma CharacterIsFigure(d: nat)
    requires d < 64
    ensures |ALPHABET| == 64 && Character(d) == ALPHABET[d]
  {
    if d < 26 { Upper(d); } else if d < 52 { Lower(d - 26); } else { Figures(d - 52); }
  }

  ghost predicate IsFigure(ch: char, d: nat) {
    d < |ALPHABET| && ALPHABET[d] == ch
  }

  /** What a character stands for in the table, or -1. */
  ghost function Figure(ch: char): (d: int)
    ensures d >= 0 ==> IsFigure(ch, d)
    ensures d < 0 ==> d == -1 && forall k :: !IsFigure(ch, k)
  {
    if d: nat :| IsFigure(ch, d) then d else -1
  }

  lemma DigitIsFigure(ch: char)
    ensures Digit(ch) == Figure(ch)
  {
    var d, f := Digit(ch), Figure(ch);
    CharacterIsFigure(0);
    if d >= 0 {
      CharacterIsFigure(d);
      assert IsFigure(ch, d);
      CharacterIsFigure(f);
      CharactersDiffer(d, f);
    } else if f >= 0 {
      CharacterIsFigure(f);
    }
  }

  // ----- Numbers -----

  /** The bytes as one number, the first byte the most significant. */
  function Value256(bytes: seq<Byte>): nat {
    if bytes == [] then 0 else Value256(bytes[..|bytes| - 1]) * 256 + bytes[|bytes| - 1]
  }

  /** The figures of a text as one number; other characters are passed over. */
  ghost function Value64(text: string): nat {
    if text == "" then 0
    else
      var init, f := Value64(text[..|text| - 1]), Figure(text[|text| - 1]);
      if f < 0 then init else init * 64 + f
  }

  ghost function FigureCount(text: string): (n: nat)
    ensures n <= |text|
  {
    if text == "" then 0 else FigureCount(text[..|text| - 1]) + if Figure(text[|text| - 1]) < 0 then 0 else 1
  }

  lemma {:induction false} PowAdds(a: nat, b: nat)
    ensures Pow2(a + b) == Pow2(a) * Pow2(b)
    decreases a
  {
    if a > 0 {
      PowAdds(a - 1, b);
      assert 2 * (Pow2(a - 1) * Pow2(b)) == (2 * Pow2(a - 1)) * Pow2(b);
    }
  }

  lemma SmallPowers()
    ensures Pow2(0) == 1 && Pow2(2) == 4 && Pow2(4) == 16 && Pow2(6) == 64 && Pow2(8) == 256
  {
    Powers();
    assert Pow2(5) == 32 && Pow2(7) == 128;
  }

  lemma Distribute(a: int, b: int, c: int)
    ensures (a + b) * c == a * c + b * c
  {
  }

  lemma Reorder(a: int, b: int, c: int)
    ensures (a * b) * c == a * (b * c) && (a * b) * c == (a * c) * b
  {
  }

  lemma {:induction false} Value256Concat(a: seq<Byte>, b: seq<Byte>)
    ensures Value256(a + b) == Value256(a) * Pow2(8 * |b|) + Value256(b)
    decreases |b|
  {
    hide Pow2;
    SmallPowers();
    if b == [] {
      assert a + b == a;
    } else {
      var n := |b| - 1;
      assert (a + b)[..|a + b| - 1] == a + b[..n] && (a + b)[|a + b| - 1] == b[n];
      Value256Concat(a, b[..n]);
      PowAdds(8 * n, 8);
      assert 8 * n + 8 == 8 * |b|;
      Distribute(Value256(a) * Pow2(8 * n), Value256(b[..n]), 256);
      Reorder(Value256(a), Pow2(8 * n), 256);
    }
  }

  lemma {:induction false} Value64Concat(a: string, b: string)
    ensures Value64(a + b) == Value64(a) * Pow2(6 * FigureCount(b)) + Value64(b)
    ensures FigureCount(a + b) == FigureCount(a) + FigureCount(b)
    decreases |b|
  {
    hide Pow2;
    SmallPowers();
    if b == "" {
      assert a + b == a;
    } else {
      var n := |b| - 1;
      assert (a + b)[..|a + b| - 1] == a + b[..n] && (a + b)[|a + b| - 1] == b[n];
      Value64Concat(a, b[..n]);
      var m := FigureCount(b[..n]);
      if Figure(b[n]) >= 0 {
        PowAdds(6 * m, 6);
        assert 6 * m + 6 == 6 * (m + 1);
        Distribute(Value64(a) * Pow2(6 * m), Value64(b[..n]), 64);
        Reorder(Value64(a), Pow2(6 * m), 64);
      }
    }
  }

  // ----- Decoding -----

  /** The bits in the accumulator that are still to be written. */
  function Rest(s: State): nat {
    if s.bits == 6 then Low(s) % 64 else if s.bits == 4 then Low(s) % 16 else if s.bits == 2 then Low(s) % 4 else 0
  }

  ghost predicate Even(s: State) {
    s.bits == 0 || s.bits == 2 || s.bits == 4 || s.bits == 6
  }

  /** What has been read so far, as a number. */
  function Number(s: State): nat {
    Value256(s.out) * Pow2(s.bits) + Rest(s)
  }

  lemma Value256Snoc(bytes: seq<Byte>, b: Byte)
    ensures Value256(bytes + [b]) == Value256(bytes) * 256 + b
  {
    assert (bytes + [b])[..|bytes|] == bytes;
  }

  lemma PushNumber(s: State, d: nat)
    requires Even(s) && d < 64
    ensures Even(Push(s, d)) && Number(Push(s, d)) == Number(s) * 64 + d
  {
    hide Push, Low, Pow2, Value256;
    SmallPowers();
    PushWrites(s, d);
    var r, low, v := Push(s, d), Low(s), Value256(s.out);
    LowOfLow(Low(r), d);
    if s.bits == 6 {
      Value256Snoc(s.out, low % 64 * 4 + d / 16);
    } else if s.bits == 4 {
      Value256Snoc(s.out, low % 16 * 16 + d / 4);
    } else if s.bits == 2 {
      Value256Snoc(s.out, low % 4 * 64 + d);
    }
  }

  lemma {:induction false} PushAllNumber(s: State, text: string)
    requires Even(s)
    ensures var r := PushAll(s, text);
      && Even(r) && Number(r) == Number(s) * Pow2(6 * FigureCount(text)) + Value64(text)
      && |r.out| * 8 + r.bits == |s.out| * 8 + s.bits + 6 * FigureCount(text)
    decreases |text|
  {
    hide Push, Number, Pow2, Digit, Value64, FigureCount, Even;
    SmallPowers();
    NoBytes();
    if text != "" {
      var c, rest := text[0], text[1..];
      DigitIsFigure(c);
      var t := PushChar(s, c);
      if Digit(c) >= 0 { PushNumber(s, Digit(c)); }
      PushAllNumber(t, rest);
      assert text == [c] + rest;
      Value64Concat([c], rest);
      OneCharacter(c);
      var m := FigureCount(rest);
      if Digit(c) >= 0 {
        PowAdds(6 * m, 6);
        assert 6 * m + 6 == 6 * FigureCount(text);
        OneMoreFigure(Number(s), Digit(c), Pow2(6 * m));
      }
    }
  }

  lemma OneCharacter(c: char)
    ensures Value64([c]) == (if Figure(c) < 0 then 0 else Figure(c)) && FigureCount([c]) == if Figure(c) < 0 then 0 else 1
  {
    assert [c][..0] == "";
  }

  lemma OneMoreFigure(n: nat, d: nat, p: nat)
    ensures (n * 64 + d) * p == n * (p * 64) + d * p
  {
    Distribute(n * 64, d, p);
    Reorder(n, 64, p);
  }

  lemma RestIsSmall(s: State)
    requires Even(s)
    ensures Rest(s) < Pow2(s.bits) && Value256(s.out) == Number(s) / Pow2(s.bits)
  {
    hide Pow2, Value256, Low;
    SmallPowers();
    var v := Value256(s.out);
    if s.bits == 6 { Mod64(v * 64 + Rest(s), v, Rest(s)); }
    else if s.bits == 4 { Mod16(v * 16 + Rest(s), v, Rest(s)); }
    else if s.bits == 2 { Mod4(v * 4 + Rest(s), v, Rest(s)); }
  }

  lemma NumberOfStart()
    ensures Even(START) && Number(START) == 0
  {
  }

  lemma BytesAndBits(n: nat, bits: nat, m: nat)
    requires n * 8 + bits == 6 * m && bits < 8
    ensures n == 6 * m / 8 && bits == 6 * m % 8
  {
  }

  /**
   * Decoding reads the number its figures are, in whole bytes: the text's padding and any other
   * characters do not count, and the bits beyond the last whole byte are dropped. The array's length
   * is decided by that of the text, and what is not written is zero.
   */
  lemma DecodeReadsNumber(text: string)
    ensures var m := FigureCount(Body(text)); var n := 6 * m / 8;
      && |Decode(text)| == Length(Body(text)) * 3 / 4 && n <= |Decode(text)|
      && Value256(Decode(text)[..n]) == Value64(Body(text)) / Pow2(6 * m % 8)
      && forall i | n <= i < |Decode(text)| :: Decode(text)[i] == 0
  {
    hide Number, Even, Pow2, Body, Length, Value256;
    var body := Body(text);
    var r := PushAll(START, body);
    NumberOfStart();
    PushAllNumber(START, body);
    RestIsSmall(r);
    BitsAreFew(r);
    BytesAndBits(|r.out|, r.bits, FigureCount(body));
    assert |r.out| <= Length(body) * 3 / 4;
    assert Decode(text)[..|r.out|] == r.out;
  }

  lemma BitsAreFew(s: State)
    requires Even(s)
    ensures s.bits < 8
  {
  }

  // ----- Encoding -----

  lemma FigureOf(d: nat)
    requires d < 64
    ensures Figure(Character(d)) == d
  {
    DigitIsFigure(Character(d));
    DigitOfCharacter(d);
  }

  lemma OneFigure(d: nat)
    requires d < 64
    ensures Value64([Character(d)]) == d && FigureCount([Character(d)]) == 1
  {
    FigureOf(d);
    assert [Character(d)][..0] == "";
  }

  lemma AddFigure(text: string, d: nat)
    requires d < 64
    ensures Value64(text + [Character(d)]) == Value64(text) * 64 + d && FigureCount(text + [Character(d)]) == FigureCount(text) + 1
  {
    hide Pow2;
    SmallPowers();
    OneFigure(d);
    Value64Concat(text, [Character(d)]);
  }

  lemma TwoFigures(d0: nat, d1: nat)
    requires d0 < 64 && d1 < 64
    ensures Value64([Character(d0), Character(d1)]) == d0 * 64 + d1 && FigureCount([Character(d0), Character(d1)]) == 2
  {
    OneFigure(d0);
    AddFigure([Character(d0)], d1);
    assert [Character(d0)] + [Character(d1)] == [Character(d0), Character(d1)];
  }

  lemma ThreeFigures(d0: nat, d1: nat, d2: nat)
    requires d0 < 64 && d1 < 64 && d2 < 64
    ensures var t := [Character(d0), Character(d1), Character(d2)];
      Value64(t) == (d0 * 64 + d1) * 64 + d2 && FigureCount(t) == 3
  {
    TwoFigures(d0, d1);
    AddFigure([Character(d0), Character(d1)], d2);
    assert [Character(d0), Character(d1)] + [Character(d2)] == [Character(d0), Character(d1), Character(d2)];
  }

  lemma FourFigures(d0: nat, d1: nat, d2: nat, d3: nat)
    requires d0 < 64 && d1 < 64 && d2 < 64 && d3 < 64
    ensures var t := [Character(d0), Character(d1), Character(d2), Character(d3)];
      Value64(t) == ((d0 * 64 + d1) * 64 + d2) * 64 + d3 && FigureCount(t) == 4
  {
    ThreeFigures(d0, d1, d2);
    AddFigure([Character(d0), Character(d1), Character(d2)], d3);
    assert [Character(d0), Character(d1), Character(d2)] + [Character(d3)] == [Character(d0), Character(d1), Character(d2), Character(d3)];
  }

  lemma ThreeBytes(b0: Byte, b1: Byte, b2: Byte)
    ensures Value256([b0]) == b0 && Value256([b0, b1]) == b0 * 256 + b1 && Value256([b0, b1, b2]) == (b0 * 256 + b1) * 256 + b2
  {
    Value256Snoc([], b0);
    Value256Snoc([b0], b1);
    Value256Snoc([b0, b1], b2);
    assert [] + [b0] == [b0] && [b0] + [b1] == [b0, b1] && [b0, b1] + [b2] == [b0, b1, b2];
  }

  /** The bits a text has beyond those of its bytes. */
  function Spare(n: nat): nat {
    if n % 3 == 1 then 4 else if n % 3 == 2 then 2 else 0
  }

  lemma SpareBits(n: nat)
    requires n >= 3
    ensures Spare(n) == Spare(n - 3) && 6 * (((n - 3) * 8 + 5) / 6) == 8 * (n - 3) + Spare(n - 3)
  {
  }

  lemma GroupValue(b0: Byte, b1: Byte, b2: Byte)
    ensures var g := FirstGroup([b0, b1, b2]);
      Value64(g) == (b0 * 256 + b1) * 256 + b2 && FigureCount(g) == 4
  {
    FourFigures(b0 / 4, b0 % 4 * 16 + b1 / 16, b1 % 16 * 4 + b2 / 64, b2 % 64);
    hide Value64, FigureCount, Character;
  }

  lemma {:induction false} DigitsValue(bytes: seq<Byte>)
    ensures Value64(Digits(bytes)) == Value256(bytes) * Pow2(Spare(|bytes|))
    ensures FigureCount(Digits(bytes)) == |Digits(bytes)| == (|bytes| * 8 + 5) / 6
    decreases |bytes|
  {
    hide Pow2, Value64, FigureCount, Value256, Character;
    SmallPowers();
    BodyIsDigits(bytes);
    if bytes == [] {
      NoBytes();
    } else if |bytes| == 1 {
      var b0 := bytes[0];
      assert bytes == [b0];
      ThreeBytes(b0, 0, 0);
      TwoFigures(b0 / 4, b0 % 4 * 16);
      assert Digits(bytes) == [Character(b0 / 4), Character(b0 % 4 * 16)];
    } else if |bytes| == 2 {
      var b0, b1 := bytes[0], bytes[1];
      assert bytes == [b0, b1];
      ThreeBytes(b0, b1, 0);
      ThreeFigures(b0 / 4, b0 % 4 * 16 + b1 / 16, b1 % 16 * 4);
      assert Digits(bytes) == [Character(b0 / 4), Character(b0 % 4 * 16 + b1 / 16), Character(b1 % 16 * 4)];
    } else {
      MoreDigits(bytes);
    }
  }

  lemma NoBytes()
    ensures Value64("") == 0 && FigureCount("") == 0 && Value256([]) == 0
  {
  }

  lemma {:induction false} MoreDigits(bytes: seq<Byte>)
    requires |bytes| >= 3
    ensures Value64(Digits(bytes)) == Value256(bytes) * Pow2(Spare(|bytes|))
    ensures FigureCount(Digits(bytes)) == (|bytes| * 8 + 5) / 6
    decreases |bytes|, 0
  {
    hide Pow2, Value64, FigureCount, Value256, Character, Spare;
    var first, rest := [bytes[0], bytes[1], bytes[2]], bytes[3..];
    DigitsValue(rest);
    SpareBits(|bytes|);
    assert bytes == first + rest;
    assert FirstGroup(bytes) == FirstGroup(first);
    GroupValue(bytes[0], bytes[1], bytes[2]);
    ThreeBytes(bytes[0], bytes[1], bytes[2]);
    Value64Concat(FirstGroup(first), Digits(rest));
    Value256Concat(first, rest);
    var v, w, p, q := Value256(first), Value256(rest), Pow2(8 * |rest|), Pow2(Spare(|rest|));
    PowAdds(8 * |rest|, Spare(|rest|));
    Distribute(v * p, w, q);
    Reorder(v, p, q);
  }

  /** Digits, and then the padding that makes the text whole groups. */
  ghost predicate Padded(text: string, body: string) {
    text == body + (if |body| % 4 == 2 then "==" else if |body| % 4 == 3 then "=" else "") && |body| % 4 != 1
  }

  /**
   * An encoded text, padding apart, consists of figures of the table, as many as the bits need, and
   * read in base 64 they are the number the bytes are in base 256, with the spare bits zero.
   */
  lemma EncodeWritesNumber(bytes: seq<Byte>)
    ensures var body := Digits(bytes);
      && Padded(Encode(bytes), body)
      && |body| == (8 * |bytes| + 5) / 6 && FigureCount(body) == |body|
      && Value64(body) == Value256(bytes) * Pow2(6 * |body| - 8 * |bytes|)
  {
    hide Encode, Digits, Value64, FigureCount, Value256, Pow2, Spare;
    BodyIsDigits(bytes);
    DigitsValue(bytes);
    FiguresFor(|bytes|);
  }

  lemma FiguresFor(n: nat)
    ensures var m := (n * 8 + 5) / 6;
      && m == (8 * n + 5) / 6 && 6 * m - 8 * n == Spare(n)
      && (n % 3 == 0 <==> m % 4 == 0) && (n % 3 == 1 <==> m % 4 == 2) && (n % 3 == 2 <==> m % 4 == 3)
  {
    var q, r := n / 3, n % 3;
    Thirds(n, q, r);
  }

  lemma Thirds(n: nat, q: nat, r: nat)
    requires n == 3 * q + r && r < 3
    ensures n % 3 == r && (n * 8 + 5) / 6 == 4 * q + (8 * r + 5) / 6 && (8 * n + 5) / 6 == 4 * q + (8 * r + 5) / 6
    ensures (4 * q + (8 * r + 5) / 6) % 4 == (8 * r + 5) / 6
  {
  }
}
