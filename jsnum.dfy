/** JavaScript's string-to-number conversions as the forms use them:
    Number(s) (the required-days box) and parseInt(s) (the page box). */
module JsNum {
  import opened Wrappers
  import opened Text

  /** A JavaScript number, kept only as precisely as the forms look at it. */
  datatype Num = NaN | Finite(value: real) | Infinite(positive: bool)

  function Pow10(e: nat): (r: nat)
    ensures r >= 1
  {
    if e == 0 then 1 else 10 * Pow10(e - 1)
  }

  /** The length of the run of ASCII digits at the start of s. */
  function DigitRun(s: string): (k: nat)
    ensures k <= |s| && AllDigits(s[..k])
    ensures k < |s| ==> !IsDigit(s[k])
  {
    if s != [] && IsDigit(s[0]) then
      var k := 1 + DigitRun(s[1..]);
      assert s[..k] == [s[0]] + s[1..][..k - 1];
      k
    else 0
  }

  /** An optionally signed run of digits, as in an exponent part. */
  function SignedDigits(s: string): Option<int>
  {
    if s != [] && (s[0] == '+' || s[0] == '-') then
      var t := s[1..];
      if t != [] && DigitRun(t) == |t| then
        assert t[..|t|] == t;
        Some(if s[0] == '-' then 0 - DigitsValue(t) else DigitsValue(t))
      else None
    else if s != [] && DigitRun(s) == |s| then
      assert s[..|s|] == s;
      Some(DigitsValue(s))
    else None
  }

  /** digits [. digits] [(e|E) [sign] digits], with a digit on at least one side
      of the point: the unsigned StrDecimalLiteral of ECMAScript without
      Infinity. */
  function UnsignedDecimal(s: string): Option<real>
  {
    var k := DigitRun(s);
    var whole := DigitsValue(s[..k]);
    var rest := s[k..];
    var (frac, fracLen, afterFrac) :=
      if rest != [] && rest[0] == '.' then
        var f := DigitRun(rest[1..]);
        (DigitsValue(rest[1..][..f]), f, rest[1..][f..])
      else (0, 0, rest);
    if k == 0 && fracLen == 0 then None
    else
      var mantissa := whole as real + frac as real / Pow10(fracLen) as real;
      if afterFrac == [] then Some(mantissa)
      else if afterFrac[0] == 'e' || afterFrac[0] == 'E' then
        match SignedDigits(afterFrac[1..])
        case None => None
        case Some(e) =>
          if e >= 0 then Some(mantissa * Pow10(e) as real)
          else Some(mantissa / Pow10(-e) as real)
      else None
  }

  /** Number(s) on a string: white space around the literal is ignored, a blank
      string is 0, an optionally signed decimal literal or Infinity is read, and
      anything else is NaN. The 0x, 0o and 0b forms are read as NaN here. */
  function Number(s: string): (n: Num)
    ensures IsBlank(s) ==> n == Finite(0.0)
  {
    BlankIffTrimmedEmpty(s);
    var t := Trim(s);
    if t == [] then Finite(0.0) else SignedLiteral(t)
  }

  /** An optionally signed decimal literal or Infinity; NaN for anything else. */
  function SignedLiteral(t: string): Num
    requires t != []
  {
    var negative := t[0] == '-';
    var body := if t[0] == '-' || t[0] == '+' then t[1..] else t;
    if body == "Infinity" then Infinite(!negative)
    else match UnsignedDecimal(body)
      case None => NaN
      case Some(m) => Finite(if negative then -m else m)
  }

  predicate IsNaN(n: Num) {
    n.NaN?
  }

  /** n < 0 for a number: false for NaN, and false for -0. */
  predicate IsNegative(n: Num) {
    match n
    case NaN => false
    case Finite(v) => v < 0.0
    case Infinite(p) => !p
  }

  /** parseInt(s) with no radix, on decimal text: leading white space is
      skipped, a sign is read, then the longest run of digits; no digit at all
      gives NaN (None). A 0x prefix is not given its hexadecimal reading. */
  function ParseInt(s: string): (r: Option<int>)
    ensures r.Some? <==>
      var t := TrimStart(IsJsSpace, s);
      var body := if t != [] && (t[0] == '-' || t[0] == '+') then t[1..] else t;
      body != [] && IsDigit(body[0])
  {
    var t := TrimStart(IsJsSpace, s);
    var negative := t != [] && t[0] == '-';
    var body := if t != [] && (t[0] == '-' || t[0] == '+') then t[1..] else t;
    var k := DigitRun(body);
    if k == 0 then None
    else
      var v := DigitsValue(body[..k]);
      Some(if negative then 0 - v else v)
  }

  /** What the number of digits a string is made of denotes, by DigitRun. */
  lemma {:induction false} DigitRunOfDigits(s: string)
    requires AllDigits(s)
    ensures DigitRun(s) == |s|
  {
    if s != [] {
      DigitRunOfDigits(s[1..]);
    }
  }

  /** parseInt reads back the decimal notation of any integer, such as the
      page box after it is synced to the current page. */
  lemma {:induction false} ParseIntOfDecimal(n: int)
    ensures ParseInt(IntToString(n)) == Some(n)
  {
    var s := IntToString(n);
    var d := NatToString(if n < 0 then -n else n);
    assert s == (if n < 0 then "-" else "") + d;
    assert !IsJsSpace(s[0]);
    assert TrimStart(IsJsSpace, s) == s;
    if n < 0 {
      assert s[1..] == d;
    }
    DigitRunOfDigits(d);
    assert d[..|d|] == d;
  }

  /** Number reads back the decimal notation of any integer, such as the
      required-days box pre-filled from a stored number. */
  lemma {:induction false} NumberOfDecimal(n: int)
    ensures Number(IntToString(n)) == Finite(n as real)
  {
    var s := IntToString(n);
    var d := NatToString(if n < 0 then -n else n);
    assert IsDigit(d[0]) && IsDigit(d[|d| - 1]);
    if n < 0 {
      assert s == "-" + d;
      SignedLiteralOfDigits(d, true);
    } else {
      assert s == d;
      SignedLiteralOfDigits(d, false);
    }
    StripPadded(IsJsSpace, [], s, []);
    assert [] + s + [] == s;
  }

  lemma {:induction false} SignedLiteralOfDigits(d: string, negative: bool)
    requires d != [] && AllDigits(d)
    ensures var t := if negative then "-" + d else d;
      SignedLiteral(t) == Finite(if negative then -(DigitsValue(d) as real) else DigitsValue(d) as real)
  {
    var t := if negative then "-" + d else d;
    assert t[0] == '-' <==> negative by {
      assert IsDigit(d[0]);
    }
    var body := if t[0] == '-' || t[0] == '+' then t[1..] else t;
    assert body == d;
    assert body != "Infinity" by {
      assert IsDigit(d[0]);
    }
    UnsignedDecimalOfDigits(d);
  }

  lemma {:induction false} UnsignedDecimalOfDigits(d: string)
    requires d != [] && AllDigits(d)
    ensures UnsignedDecimal(d) == Some(DigitsValue(d) as real)
  {
    DigitRunOfDigits(d);
    assert d[..|d|] == d;
    assert d[|d|..] == [];
  }
}
