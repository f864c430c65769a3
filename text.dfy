/** The java.lang.String and java.lang.Integer operations the modelled code
    relies on, over `seq<char>`.  Case mapping is ASCII-only (the source passes
    Locale.ENGLISH, under which the ASCII letters map as here). */
module Text {
  import opened Results

  /** `s` holds `pat` starting at position `k` (OccursAtIff restates it with a
      slice). */
  predicate OccursAt(s: string, pat: string, k: int) {
    0 <= k && k + |pat| <= |s| && MatchFrom(s, pat, k, 0)
  }

  /** The characters of `pat` from `i` on agree with those of `s` from `k + i` on,
      compared one at a time as String.indexOf does. */
  predicate MatchFrom(s: string, pat: string, k: nat, i: nat)
    requires i <= |pat| && k + |pat| <= |s|
    decreases |pat| - i
  {
    i == |pat| || (s[k + i] == pat[i] && MatchFrom(s, pat, k, i + 1))
  }

  lemma {:induction false} MatchFromIff(s: string, pat: string, k: nat, i: nat)
    requires i <= |pat| && k + |pat| <= |s|
    ensures MatchFrom(s, pat, k, i) <==> s[k + i..k + |pat|] == pat[i..]
    decreases |pat| - i
  {
    if i < |pat| {
      MatchFromIff(s, pat, k, i + 1);
      assert s[k + i..k + |pat|] == [s[k + i]] + s[k + i + 1..k + |pat|];
      assert pat[i..] == [pat[i]] + pat[i + 1..];
    }
  }

  /** An occurrence is a slice equal to the pattern. */
  lemma OccursAtIff(s: string, pat: string, k: int)
    ensures OccursAt(s, pat, k) <==> 0 <= k && k + |pat| <= |s| && s[k..k + |pat|] == pat
  {
    if 0 <= k && k + |pat| <= |s| {
      MatchFromIff(s, pat, k, 0);
    }
  }

  /** String.indexOf(pat, from) for 0 <= from <= |s|: the first position at or
      after `from` where `pat` occurs, or -1 (IndexOfFinds states it). */
  function IndexOf(s: string, pat: string, from: nat): (r: int)
    requires from <= |s|
    ensures r == -1 || (from <= r && r + |pat| <= |s|)
    decreases |s| - from
  {
    if from + |pat| > |s| then -1
    else if OccursAt(s, pat, from) then from
    else if from == |s| then -1
    else IndexOf(s, pat, from + 1)
  }

  /** IndexOf finds the first occurrence at or after `from`, and -1 means
      there is none. */
  lemma {:induction false} IndexOfFinds(s: string, pat: string, from: nat)
    requires from <= |s|
    ensures var r := IndexOf(s, pat, from);
      && (r != -1 ==> OccursAt(s, pat, r))
      && (forall k :: from <= k && (r == -1 || k < r) ==> !OccursAt(s, pat, k))
    decreases |s| - from
  {
    if from + |pat| <= |s| && !OccursAt(s, pat, from) && from < |s| {
      IndexOfFinds(s, pat, from + 1);
    }
  }

  /** String.indexOf(char): the first position of `c` in `s`, or -1. */
  function IndexOfChar(s: string, c: char): (r: int)
    ensures -1 <= r < |s|
    ensures r == -1 <==> c !in s
    ensures r >= 0 ==> s[r] == c && c !in s[..r]
  {
    var r := IndexOf(s, [c], 0);
    IndexOfFinds(s, [c], 0);
    assert forall k :: 0 <= k < |s| ==> (OccursAt(s, [c], k) <==> s[k] == c) by {
      forall k | 0 <= k < |s| ensures OccursAt(s, [c], k) <==> s[k] == c {
        assert MatchFrom(s, [c], k, 1);
      }
    }
    r
  }

  predicate StartsWith(s: string, prefix: string) {
    |prefix| <= |s| && s[..|prefix|] == prefix
  }

  /** Character.isUpperCase restricted to ASCII. */
  predicate IsUpperCase(c: char) {
    'A' <= c <= 'Z'
  }

  function ToUpperChar(c: char): char {
    if 'a' <= c <= 'z' then (c as int - 32) as char else c
  }

  function ToLowerChar(c: char): char {
    if 'A' <= c <= 'Z' then (c as int + 32) as char else c
  }

  /** String.toUpperCase(Locale.ENGLISH), character by character. */
  function ToUpper(s: string): (r: string)
    ensures |r| == |s|
    ensures forall i :: 0 <= i < |s| ==> r[i] == ToUpperChar(s[i])
  {
    if s == [] then [] else [ToUpperChar(s[0])] + ToUpper(s[1..])
  }

  /** String.replace(c, "") for a single-character target: every `c` removed. */
  function RemoveAll(s: string, c: char): (r: string)
    ensures c !in r
    ensures |r| <= |s|
    ensures c !in s ==> r == s
  {
    if s == [] then [] else (if s[0] == c then [] else [s[0]]) + RemoveAll(s[1..], c)
  }

  /** String.equalsIgnoreCase restricted to ASCII. */
  predicate EqualsIgnoreCase(a: string, b: string) {
    ToUpper(a) == ToUpper(b)
  }

  /** String.join(sep, parts) / Collectors.joining(sep). */
  function Join(parts: seq<string>, sep: string): string {
    if parts == [] then ""
    else if |parts| == 1 then parts[0]
    else parts[0] + sep + Join(parts[1..], sep)
  }

  function DigitChar(d: nat): char
    requires d < 10
  {
    ('0' as int + d) as char
  }

  /** String.valueOf(n) for a non-negative int. */
  function NatToString(n: nat): (r: string)
    ensures |r| > 0
    ensures forall i :: 0 <= i < |r| ==> '0' <= r[i] <= '9'
  {
    if n < 10 then [DigitChar(n)] else NatToString(n / 10) + [DigitChar(n % 10)]
  }

  predicate IsDigit(c: char) {
    '0' <= c <= '9'
  }

  function DigitsValue(s: string): nat
    requires forall i :: 0 <= i < |s| ==> IsDigit(s[i])
  {
    if s == [] then 0
    else
      assert IsDigit(s[|s| - 1]);
      DigitsValue(s[..|s| - 1]) * 10 + (s[|s| - 1] as int - '0' as int)
  }

  const INT_MIN: int := -0x8000_0000
  const INT_MAX: int := 0x7fff_ffff

  /** Integer.parseInt(s) over ASCII digits: an optional sign, at least one
      digit, and a value inside the 32-bit range; None where Java throws
      NumberFormatException. */
  function ParseInt(s: string): (r: Option<int>)
    ensures r.Some? ==> INT_MIN <= r.value <= INT_MAX
  {
    if s == [] then None
    else
      var negative := s[0] == '-';
      var digits := if s[0] == '-' || s[0] == '+' then s[1..] else s;
      if digits == [] || !(forall i :: 0 <= i < |digits| ==> IsDigit(digits[i])) then None
      else
        var magnitude: int := DigitsValue(digits);
        var v := if negative then -magnitude else magnitude;
        if INT_MIN <= v <= INT_MAX then Some(v) else None
  }

  lemma {:induction false} NatToStringParses(n: nat)
    requires n <= INT_MAX
    ensures ParseInt(NatToString(n)) == Some(n)
  {
    var r := NatToString(n);
    assert IsDigit(r[0]);
    assert forall i :: 0 <= i < |r| ==> IsDigit(r[i]);
    DigitsOfNatToString(n);
  }

  lemma {:induction false} DigitsOfNatToString(n: nat)
    ensures DigitsValue(NatToString(n)) == n
  {
    var r := NatToString(n);
    if n < 10 {
    } else {
      DigitsOfNatToString(n / 10);
      assert r[..|r| - 1] == NatToString(n / 10);
    }
  }
}
