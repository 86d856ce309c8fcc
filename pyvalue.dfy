/** JSON values as the Django views see them in request.data and in the rows
    the store returns, with the Python built-ins the views apply to them:
    dict.get, truthiness, `or`, str() and int(). */
module PyValue {
  import opened Wrappers
  import opened Text

  datatype Value = Null | Bool(b: bool) | Int(i: int) | Str(s: string) | List(items: seq<Value>)

  /** A request body, a payload or a stored row: column or key name to value. */
  type Dict = map<string, Value>

  /** d.get(k): None when k is absent. */
  function Get(d: Dict, k: string): (v: Value)
    ensures k !in d ==> v == Null
    ensures k in d ==> v == d[k]
  {
    if k in d then d[k] else Null
  }

  /** d.get(k, default): the default only when k is absent, not when it maps to None. */
  function GetOr(d: Dict, k: string, default: Value): (v: Value)
    ensures k !in d ==> v == default
    ensures k in d ==> v == d[k]
  {
    if k in d then d[k] else default
  }

  /** Python truthiness: None, False, 0, '' and [] are false. */
  predicate Truthy(v: Value) {
    match v
    case Null => false
    case Bool(b) => b
    case Int(i) => i != 0
    case Str(s) => s != ""
    case List(xs) => xs != []
  }

  /** a or b */
  function Or(a: Value, b: Value): (r: Value)
    ensures Truthy(a) ==> r == a
    ensures !Truthy(a) ==> r == b
  {
    if Truthy(a) then a else b
  }

  /** str(v). Strings inside a list are shown between single quotes; Python's
      escaping of quotes and control characters inside them is not modelled. */
  function PyStr(v: Value): string
    decreases v, 1
  {
    match v
    case Null => "None"
    case Bool(b) => if b then "True" else "False"
    case Int(i) => IntToString(i)
    case Str(s) => s
    case List(xs) => "[" + ReprItems(v, xs) + "]"
  }

  function Repr(v: Value): string
    decreases v, 2
  {
    if v.Str? then "'" + v.s + "'" else PyStr(v)
  }

  /** The reprs of the items of the list `whole`, separated by ", ". */
  function ReprItems(whole: Value, xs: seq<Value>): string
    requires forall x :: x in xs ==> x < whole
    decreases whole, 0, |xs|
  {
    if xs == [] then ""
    else
      assert xs[0] in xs;
      if |xs| == 1 then Repr(xs[0])
      else
        assert forall x :: x in xs[1..] ==> x in xs;
        Repr(xs[0]) + ", " + ReprItems(whole, xs[1..])
  }

  /** A decimal integer literal: an optional sign and at least one ASCII digit. */
  predicate IsIntLiteral(t: string) {
    if t != [] && (t[0] == '+' || t[0] == '-') then t[1..] != [] && AllDigits(t[1..])
    else t != [] && AllDigits(t)
  }

  /** The integer a literal denotes. */
  function LiteralValue(t: string): int
    requires IsIntLiteral(t)
  {
    if t[0] == '-' then 0 - DigitsValue(t[1..])
    else if t[0] == '+' then DigitsValue(t[1..])
    else DigitsValue(t)
  }

  /** int(v), None where Python raises ValueError or TypeError: a bool gives 0
      or 1, an int itself, a string its literal once surrounding white space is
      stripped; None and lists raise. */
  function PyInt(v: Value): (r: Option<int>)
    ensures v.Int? ==> r == Some(v.i)
    ensures v.Null? || v.List? ==> r == None
    ensures v.Str? ==> (r.Some? <==> IsIntLiteral(Strip(IsPySpace, v.s)))
  {
    match v
    case Null => None
    case Bool(b) => Some(if b then 1 else 0)
    case Int(i) => Some(i)
    case Str(s) =>
      var t := Strip(IsPySpace, s);
      if IsIntLiteral(t) then Some(LiteralValue(t)) else None
    case List(_) => None
  }

  /** Decimal notation reads back as the same integer: int(str(n)) == n. */
  lemma {:induction false} PyIntOfDecimal(n: int)
    ensures PyInt(Str(IntToString(n))) == Some(n)
  {
    var s := IntToString(n);
    DecimalIsLiteral(n);
    StripPadded(IsPySpace, [], s, []);
    assert [] + s + [] == s;
  }

  lemma DecimalIsLiteral(n: int)
    ensures var s := IntToString(n);
      IsIntLiteral(s) && LiteralValue(s) == n && !IsPySpace(s[0]) && !IsPySpace(s[|s| - 1])
  {
    if n >= 0 {
      DigitsAreLiteral(NatToString(n));
    } else {
      SignedDigitsAreLiteral(NatToString(-n));
    }
  }

  /** A run of digits is a literal that neither starts nor ends with white
      space. */
  lemma DigitsAreLiteral(d: string)
    requires d != [] && AllDigits(d)
    ensures IsIntLiteral(d) && LiteralValue(d) == DigitsValue(d) && !IsPySpace(d[0]) && !IsPySpace(d[|d| - 1])
  {
    assert IsDigit(d[0]) && IsDigit(d[|d| - 1]);
  }

  lemma SignedDigitsAreLiteral(d: string)
    requires d != [] && AllDigits(d)
    ensures var s := "-" + d;
      IsIntLiteral(s) && LiteralValue(s) == 0 - DigitsValue(d) && !IsPySpace(s[0]) && !IsPySpace(s[|s| - 1])
  {
    var s := "-" + d;
    assert s[1..] == d;
    assert s[|s| - 1] == d[|d| - 1];
    assert IsDigit(d[|d| - 1]);
  }
}
