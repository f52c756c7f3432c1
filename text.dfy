/**
 * The .NET string operations the journal engine relies on, written out on `seq<char>`:
 * `char.IsWhiteSpace`, `Trim`, ordinal case-insensitive comparison, `IndexOf`, `TrimEnd(char)`,
 * `Replace(string, string)` for one-character patterns, and decimal formatting of a line number.
 */
module Text {
  import opened Wrappers

  /** `char.IsWhiteSpace`: the characters of the Unicode White_Space property. */
  predicate IsWhiteSpace(c: char) {
    c == ' ' || ('\t' <= c <= '\r') || c == '\U{85}' || c == '\U{A0}' || c == '\U{1680}'
    || ('\U{2000}' <= c <= '\U{200A}') || c == '\U{2028}' || c == '\U{2029}'
    || c == '\U{202F}' || c == '\U{205F}' || c == '\U{3000}'
  }

  /** `string.IsNullOrWhiteSpace`. */
  predicate IsNullOrWhiteSpace(s: Option<string>) {
    s.None? || forall k :: 0 <= k < |s.value| ==> IsWhiteSpace(s.value[k])
  }

  /** Leading white space removed. */
  function TrimStart(s: string): (r: string)
    ensures |r| <= |s| && r == s[|s| - |r|..]
    ensures r == [] || !IsWhiteSpace(r[0])
    ensures forall k :: 0 <= k < |s| - |r| ==> IsWhiteSpace(s[k])
  {
    if s != [] && IsWhiteSpace(s[0]) then TrimStart(s[1..]) else s
  }

  /** Trailing white space removed. */
  function TrimTrailing(s: string): (r: string)
    ensures |r| <= |s| && r == s[..|r|]
    ensures r == [] || !IsWhiteSpace(r[|r| - 1])
    ensures forall k :: |r| <= k < |s| ==> IsWhiteSpace(s[k])
  {
    if s != [] && IsWhiteSpace(s[|s| - 1]) then TrimTrailing(s[..|s| - 1]) else s
  }

  /** `string.Trim()`: white space removed at both ends, so neither end of the result is white space. */
  function Trim(s: string): (r: string)
    ensures |r| <= |s|
    ensures r == [] || (!IsWhiteSpace(r[0]) && !IsWhiteSpace(r[|r| - 1]))
    ensures forall d :: d !in s ==> d !in r
  {
    var t := TrimStart(s);
    var r := TrimTrailing(t);
    assert r != [] ==> r[0] == t[0];
    r
  }

  /** Every character is white space. */
  predicate AllWhiteSpace(s: string) {
    forall k :: 0 <= k < |s| ==> IsWhiteSpace(s[k])
  }

  /** `Trim` keeps a middle slice of the input and drops only white space around it. */
  lemma TrimSlice(s: string)
    ensures exists i, j :: 0 <= i <= j <= |s| && Trim(s) == s[i..j] && AllWhiteSpace(s[..i]) && AllWhiteSpace(s[j..])
  {
    var t := TrimStart(s);
    var r := TrimTrailing(t);
    var i := |s| - |t|;
    var j := i + |r|;
    assert t == s[i..];
    assert r == s[i..j];
    assert AllWhiteSpace(s[..i]);
    forall k | 0 <= k < |s[j..]|
      ensures IsWhiteSpace(s[j..][k])
    {
      assert s[j..][k] == t[|r| + k];
    }
    assert Trim(s) == s[i..j];
  }

  /** A string that neither starts nor ends with white space is its own `Trim`. */
  lemma TrimKeeps(s: string)
    requires s == [] || (!IsWhiteSpace(s[0]) && !IsWhiteSpace(s[|s| - 1]))
    ensures Trim(s) == s
  {
    assert TrimStart(s) == s;
    assert TrimTrailing(s) == s;
  }

  /** Trimming twice is trimming once. */
  lemma TrimIdempotent(s: string)
    ensures Trim(Trim(s)) == Trim(s)
  {
    TrimKeeps(Trim(s));
  }

  /** The upper-casing that ordinal case-insensitive comparison applies (ASCII letters only). */
  function UpperAscii(c: char): char {
    if 'a' <= c <= 'z' then (c as int - 32) as char else c
  }

  /** `a.Equals(b, StringComparison.OrdinalIgnoreCase)`. */
  predicate EqualsIgnoreCase(a: string, b: string) {
    |a| == |b| && forall k :: 0 <= k < |a| ==> UpperAscii(a[k]) == UpperAscii(b[k])
  }

  /** `s.EndsWith(suffix, StringComparison.OrdinalIgnoreCase)`. */
  predicate EndsWithIgnoreCase(s: string, suffix: string) {
    |suffix| <= |s| && EqualsIgnoreCase(s[|s| - |suffix|..], suffix)
  }

  /** `s.IndexOf(c)`, with `None` for -1. */
  function IndexOf(s: string, c: char): (r: Option<nat>)
    ensures r.Some? ==> r.value < |s| && s[r.value] == c && c !in s[..r.value]
    ensures r.None? ==> c !in s
  {
    if s == [] then None
    else if s[0] == c then Some(0)
    else match IndexOf(s[1..], c)
      case None => None
      case Some(k) => Some(k + 1)
  }

  /** `s.TrimEnd(c)`: every trailing copy of `c` is removed, not just one. */
  function TrimEndChar(s: string, c: char): (r: string)
    ensures |r| <= |s| && r == s[..|r|]
    ensures r == [] || r[|r| - 1] != c
    ensures forall k :: |r| <= k < |s| ==> s[k] == c
  {
    if s != [] && s[|s| - 1] == c then TrimEndChar(s[..|s| - 1], c) else s
  }

  /** `s.Replace(c.ToString(), replacement)`. */
  function ReplaceChar(s: string, c: char, replacement: string): (r: string)
    ensures c !in replacement ==> c !in r
    ensures forall d :: d !in s && d !in replacement ==> d !in r
    ensures c !in s ==> r == s
  {
    if s == [] then []
    else (if s[0] == c then replacement else [s[0]]) + ReplaceChar(s[1..], c, replacement)
  }

  /** Replacing in a concatenation replaces in each part. */
  lemma {:induction false} ReplaceCharConcat(a: string, b: string, c: char, replacement: string)
    ensures ReplaceChar(a + b, c, replacement) == ReplaceChar(a, c, replacement) + ReplaceChar(b, c, replacement)
    decreases |a|
  {
    if a != [] {
      var ab := a + b;
      assert ab[0] == a[0];
      assert ab[1..] == a[1..] + b;
      var head := if a[0] == c then replacement else [a[0]];
      var restA := ReplaceChar(a[1..], c, replacement);
      var restB := ReplaceChar(b, c, replacement);
      assert ReplaceChar(ab, c, replacement) == head + ReplaceChar(a[1..] + b, c, replacement);
      ReplaceCharConcat(a[1..], b, c, replacement);
      assert ReplaceChar(a, c, replacement) == head + restA;
      assert head + (restA + restB) == (head + restA) + restB;
    } else {
      assert a + b == b;
    }
  }

  /** The character itself becomes the replacement. */
  lemma ReplaceCharSingle(c: char, replacement: string)
    ensures ReplaceChar([c], c, replacement) == replacement
  {
    assert ReplaceChar([c][1..], c, replacement) == [];
    assert replacement + [] == replacement;
  }

  /** The number a string of decimal digits stands for, most significant digit first. */
  function DigitsValue(s: string): nat
    requires forall k :: 0 <= k < |s| ==> '0' <= s[k] <= '9'
  {
    if s == [] then 0 else DigitsValue(s[..|s| - 1]) * 10 + (s[|s| - 1] as int - '0' as int)
  }

  /** Decimal digits of `n`, as string interpolation of an `int` writes them: no leading zero, and they read back as `n`. */
  function NatToString(n: nat): (r: string)
    ensures |r| > 0 && forall k :: 0 <= k < |r| ==> '0' <= r[k] <= '9'
    ensures DigitsValue(r) == n
    ensures |r| > 1 ==> r[0] != '0'
  {
    var digit := ['0' + (n % 10) as char];
    if n < 10 then digit
    else
      var front := NatToString(n / 10);
      assert (front + digit)[..|front|] == front;
      front + digit
  }
}
