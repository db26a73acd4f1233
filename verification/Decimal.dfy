/** Decimal numerals, as `String(n)` and `BigInt.prototype.toString` print them and `BigInt(s)` reads them. */
module Decimal {
  import opened Text

  const ZERO: CodeUnit := 0x30
  const MINUS: CodeUnit := 0x2D

  predicate IsDigit(c: CodeUnit) {
    ZERO <= c <= ZERO + 9
  }

  function PrintNat(n: nat): (t: Text)
    ensures t != [] && forall i | 0 <= i < |t| :: IsDigit(t[i])
  {
    if n < 10 then [ZERO + n] else PrintNat(n / 10) + [ZERO + n % 10]
  }

  function Print(n: int): Text {
    if n < 0 then [MINUS] + PrintNat(-n) else PrintNat(n)
  }

  datatype Parsed = NotANumeral | Numeral(value: int)

  function ParseNat(t: Text): (r: Parsed)
    ensures r.Numeral? ==> r.value >= 0
  {
    if t == [] || !IsDigit(t[|t| - 1]) then NotANumeral
    else
      var last := t[|t| - 1] - ZERO;
      if |t| == 1 then Numeral(last)
      else
        match ParseNat(t[..|t| - 1])
        case NotANumeral => NotANumeral
        case Numeral(high) => Numeral(10 * high + last)
  }

  function Parse(t: Text): Parsed {
    if t != [] && t[0] == MINUS then
      match ParseNat(t[1..])
      case NotANumeral => NotANumeral
      case Numeral(n) => Numeral(-n)
    else ParseNat(t)
  }

  lemma {:induction false} ParsePrintNat(n: nat)
    ensures ParseNat(PrintNat(n)) == Numeral(n)
  {
    if n >= 10 {
      var high := PrintNat(n / 10);
      assert PrintNat(n)[..|PrintNat(n)| - 1] == high;
      ParsePrintNat(n / 10);
    }
  }

  /** Reading back a printed integer gives the integer, so distinct integers print differently. */
  lemma ParsePrint(n: int)
    ensures Parse(Print(n)) == Numeral(n)
  {
    if n < 0 {
      ParsePrintNat(-n);
      assert Print(n)[1..] == PrintNat(-n);
    } else {
      ParsePrintNat(n);
    }
  }
}
