/** String helpers with the semantics of the JavaScript and Python built-ins
    the source calls: String.prototype.trim, toLowerCase, includes, padStart,
    slice(-n), Array.prototype.join, replace(/"/g, '""') and decimal
    formatting of integers. */
module Text {

  /** The characters ECMAScript's trim removes (WhiteSpace and LineTerminator). */
  predicate IsJsSpace(c: char) {
    c == ' ' || c == '\t' || c == '\n' || c == '\r' || c == '\U{000B}' || c == '\U{000C}'
    || c == '\U{00A0}' || c == '\U{1680}' || ('\U{2000}' <= c <= '\U{200A}')
    || c == '\U{2028}' || c == '\U{2029}' || c == '\U{202F}' || c == '\U{205F}'
    || c == '\U{3000}' || c == '\U{FEFF}'
  }

  /** The characters Python's str.strip() removes when given no argument. */
  predicate IsPySpace(c: char) {
    ('\t' <= c <= '\r') || ('\U{001C}' <= c <= ' ') || c == '\U{0085}'
    || c == '\U{00A0}' || c == '\U{1680}' || ('\U{2000}' <= c <= '\U{200A}')
    || c == '\U{2028}' || c == '\U{2029}' || c == '\U{202F}' || c == '\U{205F}'
    || c == '\U{3000}'
  }

  predicate AllSpace(space: char -> bool, s: string) {
    forall i :: 0 <= i < |s| ==> space(s[i])
  }

  /** The characters space accepts removed from the front of s. */
  function TrimStart(space: char -> bool, s: string): string {
    if s != [] && space(s[0]) then TrimStart(space, s[1..]) else s
  }

  /** What TrimStart leaves is a suffix of s, cut after a run of space only,
      and starting with a character space refuses. */
  lemma {:induction false} TrimStartCuts(space: char -> bool, s: string)
    ensures var r := TrimStart(space, s);
      |r| <= |s| && r == s[|s| - |r|..] && AllSpace(space, s[..|s| - |r|]) &&
      (r != [] ==> !space(r[0]))
  {
    if s != [] && space(s[0]) {
      TrimStartCuts(space, s[1..]);
      var r := TrimStart(space, s);
      assert s[..|s| - |r|] == [s[0]] + s[1..][..|s| - 1 - |r|];
    }
  }

  /** The characters space accepts removed from the back of s. */
  function TrimEnd(space: char -> bool, s: string): string {
    if s != [] && space(s[|s| - 1]) then TrimEnd(space, s[..|s| - 1]) else s
  }

  /** What TrimEnd leaves is a prefix of s, followed by a run of space only,
      and ending with a character space refuses. */
  lemma {:induction false} TrimEndCuts(space: char -> bool, s: string)
    ensures var r := TrimEnd(space, s);
      |r| <= |s| && r == s[..|r|] && AllSpace(space, s[|r|..]) &&
      (r != [] ==> !space(r[|r| - 1]))
  {
    if s != [] && space(s[|s| - 1]) {
      TrimEndCuts(space, s[..|s| - 1]);
      var r := TrimEnd(space, s);
      assert s[|r|..] == s[..|s| - 1][|r|..] + [s[|s| - 1]];
    }
  }

  /** Both ends stripped of the characters space accepts. */
  function Strip(space: char -> bool, s: string): string {
    TrimEnd(space, TrimStart(space, s))
  }

  /** Stripping gives the longest infix of s that neither starts nor ends
      with white space; it is empty exactly when s is all white space. */
  lemma StripCuts(space: char -> bool, s: string)
    ensures var r := Strip(space, s);
      |r| <= |s| && (r != [] ==> !space(r[0]) && !space(r[|r| - 1])) &&
      (r == [] <==> AllSpace(space, s))
  {
    var t := TrimStart(space, s);
    TrimStartCuts(space, s);
    TrimEndCuts(space, t);
    var r := TrimEnd(space, t);
    if r != [] {
      assert r[0] == t[0];
    } else {
      assert AllSpace(space, t[0..]) by { assert t[0..] == t; }
      assert s == s[..|s| - |t|] + t;
    }
  }

  lemma {:induction false} TrimStartPadded(space: char -> bool, pre: string, rest: string)
    requires AllSpace(space, pre)
    requires rest != [] && !space(rest[0])
    ensures TrimStart(space, pre + rest) == rest
  {
    if pre != [] {
      assert (pre + rest)[1..] == pre[1..] + rest;
      TrimStartPadded(space, pre[1..], rest);
    }
  }

  lemma {:induction false} TrimEndPadded(space: char -> bool, rest: string, post: string)
    requires AllSpace(space, post)
    requires rest != [] && !space(rest[|rest| - 1])
    ensures TrimEnd(space, rest + post) == rest
  {
    if post == [] {
      assert rest + post == rest;
    } else {
      assert (rest + post)[..|rest + post| - 1] == rest + post[..|post| - 1];
      TrimEndPadded(space, rest, post[..|post| - 1]);
    }
  }

  /** Stripping removes exactly the white space around a string that neither
      starts nor ends with white space. */
  lemma {:induction false} StripPadded(space: char -> bool, pre: string, s: string, post: string)
    requires AllSpace(space, pre) && AllSpace(space, post)
    requires s != [] && !space(s[0]) && !space(s[|s| - 1])
    ensures Strip(space, pre + s + post) == s
  {
    assert pre + s + post == pre + (s + post);
    TrimStartPadded(space, pre, s + post);
    TrimEndPadded(space, s, post);
  }

  /** s.trim() */
  function Trim(s: string): string {
    Strip(IsJsSpace, s)
  }

  /** JavaScript's !s.trim(): the string is empty or white space only. */
  predicate IsBlank(s: string) {
    AllSpace(IsJsSpace, s)
  }

  /** A string is blank exactly when trimming leaves nothing. */
  lemma BlankIffTrimmedEmpty(s: string)
    ensures IsBlank(s) <==> Trim(s) == ""
  {
    StripCuts(IsJsSpace, s);
  }

  function LowerChar(c: char): char {
    if 'A' <= c <= 'Z' then (c as int + 32) as char else c
  }

  /** toLowerCase, on the ASCII letters. */
  function Lower(s: string): (r: string)
    ensures |r| == |s|
    ensures forall i :: 0 <= i < |s| ==> r[i] == LowerChar(s[i])
  {
    if s == [] then [] else [LowerChar(s[0])] + Lower(s[1..])
  }

  /** Lowercasing twice is lowercasing once. */
  lemma LowerTwice(s: string)
    ensures Lower(Lower(s)) == Lower(s)
  {
    var l := Lower(s);
    assert forall i :: 0 <= i < |s| ==> Lower(l)[i] == LowerChar(l[i]) == l[i];
  }

  /** Lowercasing leaves a string without capital letters as it is. */
  lemma LowerKeepsUncapitalised(s: string)
    requires forall i :: 0 <= i < |s| ==> !('A' <= s[i] <= 'Z')
    ensures Lower(s) == s
  {
  }

  /** A string occurs in itself. */
  lemma IncludesItself(s: string)
    ensures Includes(s, s)
  {
    assert OccursAt(s, s, 0);
  }

  predicate OccursAt(hay: string, needle: string, i: int) {
    0 <= i && i + |needle| <= |hay| && hay[i..i + |needle|] == needle
  }

  /** hay.includes(needle) */
  function Includes(hay: string, needle: string): (r: bool)
    ensures r <==> exists i :: OccursAt(hay, needle, i)
  {
    if needle <= hay then
      assert OccursAt(hay, needle, 0);
      true
    else if hay == [] then
      assert forall i :: !OccursAt(hay, needle, i);
      false
    else
      var r := Includes(hay[1..], needle);
      assert forall i :: OccursAt(hay[1..], needle, i) <==> OccursAt(hay, needle, i + 1) by {
        forall i ensures OccursAt(hay[1..], needle, i) <==> OccursAt(hay, needle, i + 1) {
          if 0 <= i && i + |needle| <= |hay| - 1 {
            TailSlice(hay, i, |needle|);
          }
        }
      }
      assert !OccursAt(hay, needle, 0);
      assert r ==> OccursAt(hay[1..], needle, Witness(hay[1..], needle));
      assert (exists i :: OccursAt(hay, needle, i)) ==> r by {
        if exists i :: OccursAt(hay, needle, i) {
          var i :| OccursAt(hay, needle, i);
          assert i >= 1;
          assert OccursAt(hay[1..], needle, i - 1);
        }
      }
      r
  }

  /** A slice of the tail is the slice of the whole one place further on. */
  lemma TailSlice(hay: string, i: nat, n: nat)
    requires i + n <= |hay| - 1
    ensures hay[1..][i..i + n] == hay[i + 1..i + 1 + n]
  {
    var a := hay[1..][i..i + n];
    var b := hay[i + 1..i + 1 + n];
    assert |a| == n == |b|;
    forall k | 0 <= k < n
      ensures a[k] == b[k]
    {
      assert a[k] == hay[1..][i + k] == hay[i + 1 + k];
    }
  }

  /** Some position where needle occurs in hay, when there is one. */
  ghost function Witness(hay: string, needle: string): (i: int)
    requires exists i :: OccursAt(hay, needle, i)
    ensures OccursAt(hay, needle, i)
  {
    var i :| OccursAt(hay, needle, i); i
  }

  /** s.padStart(n, [c]) */
  function PadStart(s: string, n: nat, c: char): (r: string)
    ensures |r| == if |s| >= n then |s| else n
    ensures r[|r| - |s|..] == s
    ensures forall i :: 0 <= i < |r| - |s| ==> r[i] == c
  {
    if |s| >= n then s else seq(n - |s|, _ => c) + s
  }

  /** s.slice(-n) for n > 0: the last n characters, or all of s when shorter. */
  function TakeLast(s: string, n: nat): (r: string)
    ensures |r| == if |s| <= n then |s| else n
    ensures r == s[|s| - |r|..]
  {
    if |s| <= n then s else s[|s| - n..]
  }

  predicate IsDigit(c: char) {
    '0' <= c <= '9'
  }

  predicate AllDigits(s: string) {
    forall i :: 0 <= i < |s| ==> IsDigit(s[i])
  }

  function DigitChar(d: nat): char
    requires d < 10
  {
    ('0' as int + d) as char
  }

  /** The number a string of decimal digits denotes. */
  function DigitsValue(s: string): nat
    requires AllDigits(s)
  {
    if s == [] then 0 else DigitsValue(s[..|s| - 1]) * 10 + (s[|s| - 1] as int - '0' as int)
  }

  /** The decimal notation of n, as Number.prototype.toString and Python's str give it. */
  function NatToString(n: nat): (r: string)
    ensures r != [] && AllDigits(r)
    ensures |r| > 1 ==> r[0] != '0'
    ensures DigitsValue(r) == n
  {
    if n < 10 then [DigitChar(n)]
    else
      var r := NatToString(n / 10) + [DigitChar(n % 10)];
      assert r[..|r| - 1] == NatToString(n / 10);
      r
  }

  function IntToString(i: int): (r: string)
    ensures r != []
    ensures i >= 0 ==> r == NatToString(i)
    ensures i < 0 ==> r == "-" + NatToString(-i)
  {
    if i >= 0 then NatToString(i) else "-" + NatToString(-i)
  }

  /** parts.join(sep) */
  function Join(parts: seq<string>, sep: string): (r: string)
    ensures parts == [] ==> r == ""
    ensures |parts| == 1 ==> r == parts[0]
  {
    if parts == [] then ""
    else if |parts| == 1 then parts[0]
    else parts[0] + sep + Join(parts[1..], sep)
  }

  /** A join begins with its first part. */
  lemma {:induction false} JoinStartsWithFirst(parts: seq<string>, sep: string)
    requires |parts| >= 1
    ensures |Join(parts, sep)| >= |parts[0]| && Join(parts, sep)[..|parts[0]|] == parts[0]
  {
    if |parts| > 1 {
      assert Join(parts, sep) == parts[0] + (sep + Join(parts[1..], sep));
    }
  }

  /** s.replace(/"/g, '""'): every double quote doubled. */
  function DoubleQuotes(s: string): (r: string)
    ensures |r| >= |s|
  {
    if s == [] then ""
    else if s[0] == '"' then "\"\"" + DoubleQuotes(s[1..])
    else [s[0]] + DoubleQuotes(s[1..])
  }

  /** The inverse of DoubleQuotes: every "" read back as one quote. */
  function UndoubleQuotes(s: string): string
  {
    if |s| >= 2 && s[0] == '"' && s[1] == '"' then "\"" + UndoubleQuotes(s[2..])
    else if s == [] then ""
    else [s[0]] + UndoubleQuotes(s[1..])
  }

  lemma {:induction false} UndoubleDoubleQuotes(s: string)
    ensures UndoubleQuotes(DoubleQuotes(s)) == s
  {
    if s != [] {
      UndoubleDoubleQuotes(s[1..]);
      if s[0] == '"' {
        assert DoubleQuotes(s) == "\"\"" + DoubleQuotes(s[1..]);
        assert (DoubleQuotes(s))[2..] == DoubleQuotes(s[1..]);
      } else {
        assert DoubleQuotes(s) == [s[0]] + DoubleQuotes(s[1..]);
        assert (DoubleQuotes(s))[1..] == DoubleQuotes(s[1..]);
      }
    }
  }

  /** After doubling, quotes occur only in adjacent pairs: no lone quote is left. */
  lemma {:induction false} DoubledQuotesComeInPairs(s: string)
    ensures QuotesPaired(DoubleQuotes(s))
  {
    if s != [] {
      DoubledQuotesComeInPairs(s[1..]);
      if s[0] == '"' {
        assert DoubleQuotes(s) == "\"\"" + DoubleQuotes(s[1..]);
        assert DoubleQuotes(s)[2..] == DoubleQuotes(s[1..]);
      } else {
        assert DoubleQuotes(s) == [s[0]] + DoubleQuotes(s[1..]);
        assert DoubleQuotes(s)[1..] == DoubleQuotes(s[1..]);
      }
    }
  }

  /** Every run of quotes in s has even length, read left to right. */
  predicate QuotesPaired(s: string) {
    if s == [] then true
    else if s[0] == '"' then |s| >= 2 && s[1] == '"' && QuotesPaired(s[2..])
    else QuotesPaired(s[1..])
  }
}
