/**
 * ASCII models of the JavaScript string built-ins the components use:
 * `trim`, `toLowerCase`, `includes`, the `<` comparison on strings,
 * `Number.prototype.toString` and `parseInt(_, 10)`.
 */
module Text {
  import opened Wrappers

  /** The ASCII characters that JavaScript's `\s` matches and `trim` removes. */
  predicate IsSpace(c: char) {
    c == ' ' || c == '\t' || c == '\n' || c == '\r' || c == '\U{B}' || c == '\U{C}'
  }

  predicate AllSpace(s: string) {
    forall i :: 0 <= i < |s| ==> IsSpace(s[i])
  }

  /** The number of whitespace characters at the start of `s`. */
  function LeadingSpaces(s: string): (n: nat)
    ensures n <= |s|
    ensures forall k :: 0 <= k < n ==> IsSpace(s[k])
    ensures n < |s| ==> !IsSpace(s[n])
  {
    if |s| > 0 && IsSpace(s[0]) then
      var n := 1 + LeadingSpaces(s[1..]);
      assert forall k :: 1 <= k < n ==> s[k] == s[1..][k - 1];
      n
    else 0
  }

  /** The number of whitespace characters at the end of `s`. */
  function TrailingSpaces(s: string): (n: nat)
    ensures n <= |s|
    ensures forall k :: |s| - n <= k < |s| ==> IsSpace(s[k])
    ensures n < |s| ==> !IsSpace(s[|s| - n - 1])
  {
    if |s| > 0 && IsSpace(s[|s| - 1]) then
      var n := 1 + TrailingSpaces(s[..|s| - 1]);
      assert forall k :: |s| - n <= k < |s| - 1 ==> s[k] == s[..|s| - 1][k];
      n
    else 0
  }

  /** `s` with its leading whitespace removed (`trimStart`). */
  function TrimStart(s: string): string {
    s[LeadingSpaces(s)..]
  }

  /**
   * `String.prototype.trim`: the slice `s[i..j]` left after cutting the
   * whitespace at both ends, where everything outside the slice is
   * whitespace and the slice neither starts nor ends with whitespace.
   */
  function Trim(s: string): (r: string)
    ensures exists i, j :: 0 <= i <= j <= |s| && r == s[i..j]
                           && (forall k :: 0 <= k < i ==> IsSpace(s[k]))
                           && (forall k :: j <= k < |s| ==> IsSpace(s[k]))
    ensures r == [] || (!IsSpace(r[0]) && !IsSpace(r[|r| - 1]))
    ensures r == [] <==> AllSpace(s)
  {
    var i := LeadingSpaces(s);
    var t := s[i..];
    var n := TrailingSpaces(t);
    var j := |s| - n;
    TrimmedEnds(s, i, t, n);
    s[i..j]
  }

  /** The facts behind `Trim`'s contract, for the cut points it computes. */
  lemma TrimmedEnds(s: string, i: nat, t: string, n: nat)
    requires i <= |s| && (forall k :: 0 <= k < i ==> IsSpace(s[k])) && (i < |s| ==> !IsSpace(s[i]))
    requires t == s[i..] && n <= |t| && (forall k :: |t| - n <= k < |t| ==> IsSpace(t[k]))
    requires n < |t| ==> !IsSpace(t[|t| - n - 1])
    ensures i <= |s| - n <= |s|
    ensures forall k :: 0 <= k < i ==> IsSpace(s[k])
    ensures forall k :: |s| - n <= k < |s| ==> IsSpace(s[k])
    ensures s[i..|s| - n] == [] || (!IsSpace(s[i..|s| - n][0]) && !IsSpace(s[i..|s| - n][|s| - n - i - 1]))
    ensures s[i..|s| - n] == [] <==> AllSpace(s)
  {
    var j := |s| - n;
    assert forall k :: j <= k < |s| ==> s[k] == t[k - i];
    if j > i {
      assert s[i..j][0] == s[i] && s[i..j][j - i - 1] == t[|t| - n - 1];
    }
  }

  /** JavaScript's `!s.trim()`: the string is empty or only whitespace. */
  predicate IsBlank(s: string) {
    Trim(s) == []
  }

  /** A string that neither starts nor ends with whitespace is its own trim. */
  lemma TrimKeeps(s: string)
    requires s == [] || (!IsSpace(s[0]) && !IsSpace(s[|s| - 1]))
    ensures Trim(s) == s
  {
    assert LeadingSpaces(s) == 0;
    if s != [] {
      assert TrailingSpaces(s) == 0;
    }
  }

  lemma TrimIdempotent(s: string)
    ensures Trim(Trim(s)) == Trim(s)
  {
    TrimKeeps(Trim(s));
  }

  function LowerChar(c: char): char {
    if 'A' <= c <= 'Z' then (c as int + 32) as char else c
  }

  /** `String.prototype.toLowerCase`, restricted to ASCII. */
  function ToLower(s: string): (r: string)
    ensures |r| == |s|
    ensures forall i :: 0 <= i < |s| ==> r[i] == LowerChar(s[i])
  {
    seq(|s|, i requires 0 <= i < |s| => LowerChar(s[i]))
  }

  lemma ToLowerIdempotent(s: string)
    ensures ToLower(ToLower(s)) == ToLower(s)
  {
  }

  predicate StartsWith(s: string, prefix: string) {
    |prefix| <= |s| && s[..|prefix|] == prefix
  }

  /** `String.prototype.includes`: `sub` occurs somewhere in `s`. */
  predicate Contains(s: string, sub: string)
    decreases |s|
  {
    StartsWith(s, sub) || (|s| > 0 && Contains(s[1..], sub))
  }

  /** `Contains` holds exactly when `sub` occurs at some offset of `s`. */
  lemma ContainsAt(s: string, sub: string)
    ensures Contains(s, sub) <==> exists i :: 0 <= i <= |s| - |sub| && StartsWith(s[i..], sub)
  {
    if Contains(s, sub) {
      ContainsGivesOffset(s, sub);
    }
    if i :| 0 <= i <= |s| - |sub| && StartsWith(s[i..], sub) {
      OffsetGivesContains(s, sub, i);
    }
  }

  lemma {:induction false} ContainsGivesOffset(s: string, sub: string)
    requires Contains(s, sub)
    ensures exists i :: 0 <= i <= |s| - |sub| && StartsWith(s[i..], sub)
    decreases |s|
  {
    if StartsWith(s, sub) {
      assert s[0..] == s;
    } else {
      ContainsGivesOffset(s[1..], sub);
      var i :| 0 <= i <= |s[1..]| - |sub| && StartsWith(s[1..][i..], sub);
      assert s[1..][i..] == s[i + 1..];
    }
  }

  lemma {:induction false} OffsetGivesContains(s: string, sub: string, i: int)
    requires 0 <= i <= |s| - |sub| && StartsWith(s[i..], sub)
    ensures Contains(s, sub)
    decreases i
  {
    if i == 0 {
      assert s[0..] == s;
    } else {
      assert s[1..][i - 1..] == s[i..];
      OffsetGivesContains(s[1..], sub, i - 1);
    }
  }

  /** `words.join(sep)`: the words in order with `sep` between neighbours. */
  function Join(words: seq<string>, sep: string): string {
    if words == [] then ""
    else if |words| == 1 then words[0]
    else words[0] + sep + Join(words[1..], sep)
  }

  /** Joining two non-empty lists puts exactly one separator between their joins. */
  lemma {:induction false} JoinAppend(a: seq<string>, b: seq<string>, sep: string)
    requires a != [] && b != []
    ensures Join(a + b, sep) == Join(a, sep) + sep + Join(b, sep)
    decreases |a|
  {
    if |a| == 1 {
      assert (a + b)[1..] == b;
    } else {
      assert (a + b)[1..] == a[1..] + b;
      JoinAppend(a[1..], b, sep);
    }
  }

  /** JavaScript's `a < b` on strings: lexicographic order on characters. */
  predicate Less(a: string, b: string) {
    if a == [] then b != []
    else if b == [] then false
    else if a[0] != b[0] then a[0] < b[0]
    else Less(a[1..], b[1..])
  }

  lemma {:induction false} LessIrreflexive(a: string)
    ensures !Less(a, a)
  {
    if a != [] { LessIrreflexive(a[1..]); }
  }

  lemma {:induction false} LessAsymmetric(a: string, b: string)
    ensures Less(a, b) ==> !Less(b, a)
  {
    if a != [] && b != [] && a[0] == b[0] { LessAsymmetric(a[1..], b[1..]); }
  }

  /** The order is total: of two different strings, one is smaller. */
  lemma {:induction false} LessTotal(a: string, b: string)
    ensures a != b ==> Less(a, b) || Less(b, a)
  {
    if a != b && a != [] && b != [] && a[0] == b[0] {
      assert a == [a[0]] + a[1..] && b == [b[0]] + b[1..];
      LessTotal(a[1..], b[1..]);
    }
  }

  lemma {:induction false} LessTransitive(a: string, b: string, c: string)
    requires Less(a, b) && Less(b, c)
    ensures Less(a, c)
  {
    if a != [] && b != [] && c != [] && a[0] == b[0] && b[0] == c[0] {
      LessTransitive(a[1..], b[1..], c[1..]);
    }
  }

  predicate IsDigit(c: char) {
    '0' <= c <= '9'
  }

  function DigitChar(d: nat): (c: char)
    requires d < 10
    ensures IsDigit(c) && DigitValue(c) == d
  {
    ('0' as int + d) as char
  }

  /** `n.toString()` for a natural number: its decimal digits, without leading zeros. */
  function NatToString(n: nat): (r: string)
    ensures r != [] && forall i :: 0 <= i < |r| ==> IsDigit(r[i])
  {
    if n < 10 then [DigitChar(n)] else NatToString(n / 10) + [DigitChar(n % 10)]
  }

  /** `n.toString()` for an integer. */
  function IntToString(n: int): (r: string)
    ensures r != [] && (r[0] == '-' <==> n < 0)
  {
    if n < 0 then "-" + NatToString(-n) else NatToString(n)
  }

  function DigitValue(c: char): nat
    requires IsDigit(c)
  {
    c as int - '0' as int
  }

  /** The value of a string of decimal digits. */
  function DigitsValue(ds: string): nat
    requires forall i :: 0 <= i < |ds| ==> IsDigit(ds[i])
  {
    if ds == [] then 0
    else DigitsValue(ds[..|ds| - 1]) * 10 + DigitValue(ds[|ds| - 1])
  }

  /** The longest prefix of `s` made of decimal digits. */
  function DigitPrefix(s: string): (r: string)
    ensures StartsWith(s, r)
    ensures forall i :: 0 <= i < |r| ==> IsDigit(r[i])
    ensures |r| < |s| ==> !IsDigit(s[|r|])
  {
    if s != [] && IsDigit(s[0]) then [s[0]] + DigitPrefix(s[1..]) else []
  }

  /** The value of the decimal digits at the start of `s`, when there is at least one. */
  function LeadingNumber(s: string): (r: Option<int>)
    ensures r.Some? ==> r.value >= 0
  {
    var ds := DigitPrefix(s);
    if ds == [] then None else Some(DigitsValue(ds))
  }

  /**
   * `parseInt(s, 10)`: leading whitespace is skipped, one sign is read, then
   * the longest run of digits. No digit at all gives NaN, modelled as `None`.
   */
  function ParseInt(s: string): Option<int> {
    var t := TrimStart(s);
    if t != [] && t[0] == '-' then
      var v := LeadingNumber(t[1..]);
      if v.None? then None else Some(-v.value)
    else if t != [] && t[0] == '+' then LeadingNumber(t[1..])
    else LeadingNumber(t)
  }

  lemma {:induction false} NatToStringValue(n: nat)
    ensures DigitsValue(NatToString(n)) == n
  {
    var r := NatToString(n);
    if n >= 10 {
      NatToStringValue(n / 10);
      assert r[..|r| - 1] == NatToString(n / 10);
    }
  }

  lemma {:induction false} DigitPrefixOfDigits(s: string)
    requires forall i :: 0 <= i < |s| ==> IsDigit(s[i])
    ensures DigitPrefix(s) == s
    decreases |s|
  {
    if s != [] {
      DigitPrefixOfDigits(s[1..]);
      assert s == [s[0]] + s[1..];
    }
  }

  lemma NoLeadingSpace(s: string)
    requires s != [] && (s[0] == '-' || IsDigit(s[0]))
    ensures TrimStart(s) == s
  {
    assert LeadingSpaces(s) == 0;
  }

  lemma LeadingNumberOfDigits(ds: string)
    requires ds != [] && forall i :: 0 <= i < |ds| ==> IsDigit(ds[i])
    ensures LeadingNumber(ds) == Some(DigitsValue(ds))
  {
    DigitPrefixOfDigits(ds);
  }

  lemma ParseDigits(ds: string)
    requires ds != [] && forall i :: 0 <= i < |ds| ==> IsDigit(ds[i])
    ensures ParseInt(ds) == Some(DigitsValue(ds))
  {
    NoLeadingSpace(ds);
    assert IsDigit(ds[0]);
    assert ds[0] != '-' && ds[0] != '+';
    assert ParseInt(ds) == LeadingNumber(ds);
    LeadingNumberOfDigits(ds);
  }

  /** A `-` followed by digits parses to the negated value of the digits. */
  lemma ParseNegatedDigits(s: string)
    requires |s| > 1 && s[0] == '-' && forall i :: 1 <= i < |s| ==> IsDigit(s[i])
    ensures ParseInt(s) == Some(-(DigitsValue(s[1..]) as int))
  {
    ParseMinus(s);
    LeadingNumberOfDigits(s[1..]);
  }

  /** A leading `-` negates the number that follows it. */
  lemma ParseMinus(s: string)
    requires s != [] && s[0] == '-'
    ensures ParseInt(s) == if LeadingNumber(s[1..]).None? then None else Some(-LeadingNumber(s[1..]).value)
  {
    NoLeadingSpace(s);
  }

  /** `parseInt("1", 10)` is 1. */
  lemma ParseIntOne()
    ensures ParseInt("1") == Some(1)
  {
    var one := "1";
    assert IsDigit(one[0]);
    ParseDigits(one);
    assert DigitsValue(one) == DigitsValue(one[..0]) * 10 + DigitValue(one[0]);
  }

  /** `parseInt(n.toString(), 10) == n` for every integer `n`. */
  lemma IntToStringRoundTrip(n: int)
    ensures ParseInt(IntToString(n)) == Some(n)
  {
    var m: nat := if n < 0 then -n else n;
    NatToStringValue(m);
    if n < 0 {
      var ds := NatToString(m);
      assert ("-" + ds)[0] == '-' && ("-" + ds)[1..] == ds;
      ParseNegatedDigits("-" + ds);
    } else {
      ParseDigits(NatToString(m));
    }
  }
}
