/** The few Python `str` operations the core relies on: `lower`, `endswith`, `strip`,
    `str(int)` and the code-point order that `sorted` uses on strings. */
module Strings {

  /** `c.lower()` for the ASCII letters; every other character is left as it is. */
  function LowerChar(c: char): char
  {
    if 'A' <= c <= 'Z' then (c as int + 32) as char else c
  }

  function Lower(s: string): (r: string)
    ensures |r| == |s|
    ensures forall i :: 0 <= i < |s| ==> r[i] == LowerChar(s[i])
  {
    seq(|s|, i requires 0 <= i < |s| => LowerChar(s[i]))
  }

  /** `s.endswith(suffix)` */
  predicate EndsWith(s: string, suffix: string)
  {
    |suffix| <= |s| && s[|s| - |suffix|..] == suffix
  }

  /** The characters `str.isspace` accepts among the ASCII and Latin-1 ones. */
  predicate IsSpace(c: char)
  {
    c == ' ' || '\t' <= c <= '\r' || '\U{1c}' <= c <= '\U{1f}' || c == '\U{85}' || c == '\U{a0}'
  }

  /** Every character of `s[lo..hi]` is white space. */
  predicate SpaceBetween(s: string, lo: int, hi: int)
    requires 0 <= lo <= hi <= |s|
  {
    forall k :: lo <= k < hi ==> IsSpace(s[k])
  }

  /** The index of the first character of `s` at or after `k` that is not white space. */
  function SkipSpaceFrom(s: string, k: nat): (i: nat)
    requires k <= |s|
    ensures k <= i <= |s| && SpaceBetween(s, k, i)
    ensures i < |s| ==> !IsSpace(s[i])
    decreases |s| - k
  {
    if k < |s| && IsSpace(s[k]) then SkipSpaceFrom(s, k + 1) else k
  }

  /** The index just after the last character of `s[..k]` that is not white space. */
  function SkipSpaceBack(s: string, k: nat): (j: nat)
    requires k <= |s|
    ensures j <= k && SpaceBetween(s, j, k)
    ensures 0 < j ==> !IsSpace(s[j - 1])
  {
    if 0 < k && IsSpace(s[k - 1]) then SkipSpaceBack(s, k - 1) else k
  }

  /** `s.strip()`: the slice of `s` that neither begins nor ends with white space, everything
      cut away on either side being white space. */
  function Strip(s: string): (r: string)
    ensures r == [] || (!IsSpace(r[0]) && !IsSpace(r[|r| - 1]))
    ensures exists i, j :: 0 <= i <= j <= |s| && r == s[i..j] && SpaceBetween(s, 0, i) && SpaceBetween(s, j, |s|)
  {
    var i := SkipSpaceFrom(s, 0);
    var j := SkipSpaceBack(s, |s|);
    if i == |s| then
      assert s[i..i] == [];
      []
    else
      assert i < j;
      s[i..j]
  }

  function DigitChar(d: nat): char
    requires d < 10
  {
    ('0' as int + d) as char
  }

  function NatToString(n: nat): (r: string)
    ensures r != []
  {
    if n < 10 then [DigitChar(n)] else NatToString(n / 10) + [DigitChar(n % 10)]
  }

  /** `str(i)` for an `int` */
  function IntToString(i: int): (r: string)
    ensures r != []
  {
    if i < 0 then "-" + NatToString(-i) else NatToString(i)
  }

  /** `a < b` on Python strings: code-point lexicographic order. */
  predicate Less(a: string, b: string)
  {
    if b == [] then false
    else if a == [] then true
    else if a[0] != b[0] then a[0] < b[0]
    else Less(a[1..], b[1..])
  }

  lemma {:induction false} LessTotal(a: string, b: string)
    ensures a == b || Less(a, b) || Less(b, a)
  {
    if a != [] && b != [] && a[0] == b[0] {
      LessTotal(a[1..], b[1..]);
      if a[1..] == b[1..] {
        assert a == [a[0]] + a[1..] && b == [b[0]] + b[1..];
      }
    }
  }

  lemma {:induction false} LessTransitive(a: string, b: string, c: string)
    requires Less(a, b) && Less(b, c)
    ensures Less(a, c)
  {
    if a != [] && a[0] == b[0] && b[0] == c[0] {
      LessTransitive(a[1..], b[1..], c[1..]);
    }
  }

  predicate StrictlySorted(xs: seq<string>)
  {
    forall i, j :: 0 <= i < j < |xs| ==> Less(xs[i], xs[j])
  }

  function Insert(x: string, xs: seq<string>): (r: seq<string>)
    requires StrictlySorted(xs)
    ensures StrictlySorted(r)
    ensures forall y :: y in r <==> y == x || y in xs
  {
    if xs == [] then [x]
    else if x == xs[0] then xs
    else if Less(x, xs[0]) then
      assert forall j :: 0 < j < |xs| ==> Less(x, xs[j]) by {
        forall j | 0 < j < |xs| ensures Less(x, xs[j]) { LessTransitive(x, xs[0], xs[j]); }
      }
      [x] + xs
    else
      LessTotal(x, xs[0]);
      var t := Insert(x, xs[1..]);
      assert forall y :: y in t ==> Less(xs[0], y);
      [xs[0]] + t
  }

  /** `sorted(set(xs))`: the distinct strings of `xs` in increasing order. */
  function SortedDistinct(xs: seq<string>): (r: seq<string>)
    ensures StrictlySorted(r)
    ensures forall y :: y in r <==> y in xs
  {
    if xs == [] then [] else Insert(xs[|xs| - 1], SortedDistinct(xs[..|xs| - 1]))
  }

}
