/** Order-preserving filtering, concatenation of lists and Python's `str.join`. */
module Seqs {

  /** `[x for x in s if p(x)]` */
  function Filter<T(!new)>(s: seq<T>, p: T -> bool): (r: seq<T>)
    ensures |r| <= |s|
    ensures forall x :: x in r <==> x in s && p(x)
  {
    if s == [] then [] else (if p(s[0]) then [s[0]] else []) + Filter(s[1..], p)
  }

  lemma {:induction false} FilterAppend<T(!new)>(a: seq<T>, b: seq<T>, p: T -> bool)
    ensures Filter(a + b, p) == Filter(a, p) + Filter(b, p)
  {
    if a != [] {
      assert (a + b)[1..] == a[1..] + b;
      FilterAppend(a[1..], b, p);
    } else {
      assert a + b == b;
    }
  }

  /** Filtering with a predicate that accepts everything is the identity. */
  lemma {:induction false} FilterAll<T(!new)>(s: seq<T>, p: T -> bool)
    requires forall x :: x in s ==> p(x)
    ensures Filter(s, p) == s
  {
    if s != [] {
      FilterAll(s[1..], p);
      assert s == [s[0]] + s[1..];
    }
  }

  /** Filtering one more element of `s`. */
  lemma FilterPrefix<T(!new)>(s: seq<T>, i: int, p: T -> bool)
    requires 0 <= i < |s|
    ensures Filter(s[..i + 1], p) == Filter(s[..i], p) + (if p(s[i]) then [s[i]] else [])
  {
    assert s[..i + 1] == s[..i] + [s[i]];
    FilterAppend(s[..i], [s[i]], p);
  }

  /** Filters that agree on the elements of `s` keep the same elements. */
  lemma {:induction false} FilterCongruent<T(!new)>(s: seq<T>, p: T -> bool, q: T -> bool)
    requires forall x :: x in s ==> p(x) == q(x)
    ensures Filter(s, p) == Filter(s, q)
  {
    if s != [] {
      FilterCongruent(s[1..], p, q);
    }
  }

  /** The first element a filter keeps is the first element of `s` that satisfies `p`. */
  lemma {:induction false} FilterHead<T(!new)>(s: seq<T>, p: T -> bool)
    requires Filter(s, p) != []
    ensures exists i :: 0 <= i < |s| && s[i] == Filter(s, p)[0] && p(s[i]) &&
                        (forall j :: 0 <= j < i ==> !p(s[j]))
  {
    if p(s[0]) {
      assert s[0] == Filter(s, p)[0];
    } else {
      FilterHead(s[1..], p);
      var i :| 0 <= i < |s[1..]| && s[1..][i] == Filter(s[1..], p)[0] && p(s[1..][i]) &&
               (forall j :: 0 <= j < i ==> !p(s[1..][j]));
      assert s[i + 1] == Filter(s, p)[0];
      forall j | 0 <= j < i + 1 ensures !p(s[j]) {
        if j > 0 { assert s[j] == s[1..][j - 1]; }
      }
    }
  }

  /** `[f(x) for x in s]` */
  function Map<T, U>(s: seq<T>, f: T -> U): (r: seq<U>)
    ensures |r| == |s|
    ensures forall i :: 0 <= i < |s| ==> r[i] == f(s[i])
  {
    seq(|s|, i requires 0 <= i < |s| => f(s[i]))
  }

  lemma MapAppend<T, U>(a: seq<T>, b: seq<T>, f: T -> U)
    ensures Map(a + b, f) == Map(a, f) + Map(b, f)
  {
  }

  /** The concatenation of a list of lists, in order (`pd.concat`, `itertools.chain`). */
  function Concat<T>(ss: seq<seq<T>>): seq<T>
  {
    if ss == [] then [] else ss[0] + Concat(ss[1..])
  }

  lemma {:induction false} ConcatSnoc<T>(ss: seq<seq<T>>, s: seq<T>)
    ensures Concat(ss + [s]) == Concat(ss) + s
  {
    if ss == [] {
      assert [s][1..] == [];
    } else {
      assert (ss + [s])[1..] == ss[1..] + [s];
      ConcatSnoc(ss[1..], s);
    }
  }

  function SumLengths<T>(ss: seq<seq<T>>): nat
  {
    if ss == [] then 0 else |ss[0]| + SumLengths(ss[1..])
  }

  /** `sep.join(parts)` */
  function Join<T>(sep: seq<T>, parts: seq<seq<T>>): seq<T>
  {
    if parts == [] then []
    else if |parts| == 1 then parts[0]
    else parts[0] + sep + Join(sep, parts[1..])
  }

  /** A join holds every part and exactly one separator between consecutive parts. */
  lemma {:induction false} JoinLength<T>(sep: seq<T>, parts: seq<seq<T>>)
    requires parts != []
    ensures |Join(sep, parts)| == SumLengths(parts) + (|parts| - 1) * |sep|
  {
    if |parts| > 1 { JoinLength(sep, parts[1..]); }
  }

  /** A join begins with its first part. */
  lemma {:induction false} JoinStartsWithFirst<T>(sep: seq<T>, parts: seq<seq<T>>)
    requires parts != []
    ensures |parts[0]| <= |Join(sep, parts)|
    ensures Join(sep, parts)[..|parts[0]|] == parts[0]
  {
    var j := Join(sep, parts);
    if |parts| > 1 {
      assert j == parts[0] + (sep + Join(sep, parts[1..]));
    }
  }

}
