/** The few JavaScript string operations the rewriters rely on: `includes`,
    `startsWith`, `replace` with a string pattern, `split('..')`, `trim` and
    `parseInt`. */
module Text {
  import opened Syntax

  predicate StartsWith(s: string, prefix: string)
  {
    |prefix| <= |s| && s[..|prefix|] == prefix
  }

  predicate OccursAt(s: string, pattern: string, k: nat)
  {
    k + |pattern| <= |s| && s[k..k + |pattern|] == pattern
  }

  /** The first position at or after `from` where `pattern` occurs (`indexOf`). */
  function IndexOf(s: string, pattern: string, from: nat): (r: Option<nat>)
    decreases |s| - from
    ensures r.Some? ==> from <= r.value && OccursAt(s, pattern, r.value)
    ensures r.Some? ==> forall k :: from <= k < r.value ==> !OccursAt(s, pattern, k)
    ensures r.None? ==> forall k :: from <= k ==> !OccursAt(s, pattern, k)
  {
    if from + |pattern| > |s| then None
    else if s[from..from + |pattern|] == pattern then Some(from)
    else IndexOf(s, pattern, from + 1)
  }

  /** `s.includes(pattern)` */
  predicate Includes(s: string, pattern: string)
  {
    IndexOf(s, pattern, 0).Some?
  }

  /** `s.replace(pattern, replacement)` with a string pattern: only the first occurrence is
      replaced, and a string without one comes back unchanged. */
  function ReplaceFirst(s: string, pattern: string, replacement: string): (r: string)
    ensures !Includes(s, pattern) ==> r == s
  {
    match IndexOf(s, pattern, 0)
    case None => s
    case Some(k) => s[..k] + replacement + s[k + |pattern|..]
  }

  /** Removing a prefix that is known to be there leaves the rest of the string. */
  lemma ReplacePrefix(s: string, prefix: string)
    requires StartsWith(s, prefix)
    ensures ReplaceFirst(s, prefix, "") == s[|prefix|..]
  {
    assert OccursAt(s, prefix, 0);
  }

  /** The first two pieces of `s.split("..")`, present when `s` includes `".."`:
      the text before the first separator, and the text between it and the next
      separator (or the end). */
  function RangeParts(s: string): (r: Option<(string, string)>)
    ensures r.Some? <==> Includes(s, "..")
  {
    match IndexOf(s, "..", 0)
    case None => None
    case Some(k) =>
      var rest := s[k + 2..];
      var stop := match IndexOf(rest, "..", 0) case None => |rest| case Some(j) => j;
      Some((s[..k], rest[..stop]))
  }

  predicate IsWhitespace(c: char)
  {
    c == ' ' || c == '\t' || c == '\n' || c == '\r' || c == '\U{0B}' || c == '\U{0C}'
    || c == '\U{A0}' || c == '\U{FEFF}' || c == '\U{2028}' || c == '\U{2029}'
  }

  function TrimStart(s: string): (r: string)
    ensures |r| <= |s| && r == s[|s| - |r|..]
    ensures r != [] ==> !IsWhitespace(r[0])
    ensures forall i :: 0 <= i < |s| - |r| ==> IsWhitespace(s[i])
  {
    if s != [] && IsWhitespace(s[0]) then TrimStart(s[1..]) else s
  }

  function TrimEnd(s: string): (r: string)
    ensures |r| <= |s| && r == s[..|r|]
    ensures r != [] ==> !IsWhitespace(r[|r| - 1])
    ensures forall i :: |r| <= i < |s| ==> IsWhitespace(s[i])
  {
    if s != [] && IsWhitespace(s[|s| - 1]) then TrimEnd(s[..|s| - 1]) else s
  }

  /** `s.trim()` */
  function Trim(s: string): string
  {
    TrimEnd(TrimStart(s))
  }

  predicate IsDigit(c: char)
  {
    '0' <= c <= '9'
  }

  function DigitValue(c: char): nat
    requires IsDigit(c)
  {
    (c as int) - ('0' as int)
  }

  /** The length of the longest prefix of `s` made of decimal digits. */
  function DigitPrefixLength(s: string): (n: nat)
    ensures n <= |s|
    ensures forall i :: 0 <= i < n ==> IsDigit(s[i])
    ensures n < |s| ==> !IsDigit(s[n])
  {
    if s != [] && IsDigit(s[0]) then 1 + DigitPrefixLength(s[1..]) else 0
  }

  /** The number a string of decimal digits denotes. */
  function DigitsValue(s: string): nat
    requires forall i :: 0 <= i < |s| ==> IsDigit(s[i])
  {
    if s == [] then 0 else 10 * DigitsValue(s[..|s| - 1]) + DigitValue(s[|s| - 1])
  }

  /** `parseInt(s)`: leading white space is skipped, a sign is allowed, and the
      longest run of decimal digits after it is read; no digits is `NaN`, here
      `None`.  The hexadecimal `0x` form is not modelled, and the number is an
      exact integer, where JavaScript rounds to a double above 2^53. */
  function ParseInt(s: string): Option<int>
  {
    var t := TrimStart(s);
    var signed := t != [] && (t[0] == '-' || t[0] == '+');
    var unsigned := if signed then t[1..] else t;
    var n := DigitPrefixLength(unsigned);
    if n == 0 then None
    else
      var magnitude: int := DigitsValue(unsigned[..n]);
      Some(if signed && t[0] == '-' then -magnitude else magnitude)
  }

  function DigitChar(d: nat): (c: char)
    requires d < 10
    ensures IsDigit(c) && DigitValue(c) == d
  {
    ('0' as int + d) as char
  }

  /** The decimal numeral of a natural number, without leading zeros. */
  function Digits(n: nat): (s: string)
    ensures s != [] && forall i :: 0 <= i < |s| ==> IsDigit(s[i])
  {
    if n < 10 then [DigitChar(n)] else Digits(n / 10) + [DigitChar(n % 10)]
  }

  /** The decimal numeral of an integer, with a leading `-` when negative. */
  function Decimal(n: int): string
  {
    if n < 0 then "-" + Digits(-n) else Digits(n)
  }

  lemma {:induction false} DigitsValueOfDigits(n: nat)
    ensures DigitsValue(Digits(n)) == n
  {
    if n >= 10 {
      var s := Digits(n);
      assert s[..|s| - 1] == Digits(n / 10);
      DigitsValueOfDigits(n / 10);
    }
  }

  /** A decimal numeral has no surrounding white space. */
  lemma TrimDecimal(n: int)
    ensures Trim(Decimal(n)) == Decimal(n)
  {
    var s := Decimal(n);
    assert !IsWhitespace(s[0]) by {
      if n < 0 { assert s[0] == '-'; } else { assert IsDigit(s[0]); }
    }
    assert TrimStart(s) == s;
    if n < 0 {
      assert s[|s| - 1] == Digits(-n)[|Digits(-n)| - 1];
    }
    assert IsDigit(s[|s| - 1]);
  }

  /** Reading back a decimal numeral with `parseInt` gives the number. */
  lemma ParseDecimal(n: int)
    ensures ParseInt(Decimal(n)) == Some(n)
  {
    var s := Decimal(n);
    var m: nat := if n < 0 then -n else n;
    var d := Digits(m);
    TrimDecimal(n);
    assert TrimStart(s) == s;
    AllDigitsPrefix(d);
    assert d[..|d|] == d;
    DigitsValueOfDigits(m);
    if n < 0 {
      assert s[1..] == d;
    } else {
      assert s == d;
      assert !(s[0] == '-' || s[0] == '+');
    }
  }

  lemma {:induction false} AllDigitsPrefix(s: string)
    requires forall i :: 0 <= i < |s| ==> IsDigit(s[i])
    ensures DigitPrefixLength(s) == |s|
  {
    if s != [] {
      AllDigitsPrefix(s[1..]);
    }
  }

  predicate DotFree(s: string)
  {
    forall i :: 0 <= i < |s| ==> s[i] != '.'
  }

  lemma DecimalDotFree(n: int)
    ensures DotFree(Decimal(n))
  {
    var m: nat := if n < 0 then -n else n;
    assert forall i :: 0 <= i < |Digits(m)| ==> IsDigit(Digits(m)[i]);
  }

  /** Splitting `a + ".." + b` on `".."`, with neither part containing a dot,
      gives back the two parts. */
  lemma RangePartsOfJoin(a: string, b: string)
    requires DotFree(a) && DotFree(b)
    ensures RangeParts(a + ".." + b) == Some((a, b))
  {
    var s := a + ".." + b;
    assert OccursAt(s, "..", |a|);
    forall k | 0 <= k < |a|
      ensures !OccursAt(s, "..", k)
    {
      assert s[k] == a[k];
    }
    var k := IndexOf(s, "..", 0).value;
    assert k == |a|;
    assert s[k + 2..] == b;
    forall j | 0 <= j
      ensures !OccursAt(b, "..", j)
    {
      if j + 2 <= |b| {
        assert b[j..j + 2][0] == b[j];
      }
    }
    assert b[..|b|] == b;
    assert s[..k] == a;
  }
}
