/** Python's insertion-ordered `dict` with string keys, as a list of key/value pairs with
    distinct keys. */
module Dicts {
  import opened Wrappers

  type Dict<V> = seq<(string, V)>

  /** `list(d.keys())` */
  function Keys<V>(d: Dict<V>): (ks: seq<string>)
    ensures |ks| == |d|
  {
    if d == [] then [] else [d[0].0] + Keys(d[1..])
  }

  predicate UniqueKeys<V>(d: Dict<V>)
  {
    d == [] || (d[0].0 !in Keys(d[1..]) && UniqueKeys(d[1..]))
  }

  /** `d.get(k)`: the value stored under `k`, if any. */
  function Get<V>(d: Dict<V>, k: string): (r: Option<V>)
    ensures r.None? <==> k !in Keys(d)
  {
    if d == [] then None else if d[0].0 == k then Some(d[0].1) else Get(d[1..], k)
  }

  /** `d[k] = v`: a key already present keeps its position and takes the new value;
      a new key goes at the end. */
  function Put<V>(d: Dict<V>, k: string, v: V): (r: Dict<V>)
    ensures Get(r, k) == Some(v)
    ensures forall k' :: k' != k ==> Get(r, k') == Get(d, k')
  {
    if d == [] then [(k, v)]
    else if d[0].0 == k then [(k, v)] + d[1..]
    else [d[0]] + Put(d[1..], k, v)
  }

  /** A key already present keeps its position; a new key goes at the end. */
  lemma {:induction false} PutKeys<V>(d: Dict<V>, k: string, v: V)
    ensures Keys(Put(d, k, v)) == if k in Keys(d) then Keys(d) else Keys(d) + [k]
  {
    if d == [] {
      assert Keys([(k, v)]) == [k];
    } else if d[0].0 == k {
      assert Put(d, k, v)[1..] == d[1..];
    } else {
      PutKeys(d[1..], k, v);
      assert Put(d, k, v)[1..] == Put(d[1..], k, v);
    }
  }

  lemma {:induction false} PutKeepsUnique<V>(d: Dict<V>, k: string, v: V)
    requires UniqueKeys(d)
    ensures UniqueKeys(Put(d, k, v))
  {
    if d != [] && d[0].0 != k {
      PutKeepsUnique(d[1..], k, v);
      PutKeys(d[1..], k, v);
      assert Put(d, k, v)[1..] == Put(d[1..], k, v);
    } else if d != [] {
      assert Put(d, k, v)[1..] == d[1..];
    }
  }

  lemma {:induction false} KeysSnoc<V>(d: Dict<V>, p: (string, V))
    ensures Keys(d + [p]) == Keys(d) + [p.0]
  {
    if d != [] {
      assert (d + [p])[1..] == d[1..] + [p];
      KeysSnoc(d[1..], p);
    }
  }

  /** `{**d, **e}`: the pairs of `e`, in order, written over `d`, so that for a key that
      `e` repeats the last pair wins. */
  function Update<V>(d: Dict<V>, e: Dict<V>): (r: Dict<V>)
    ensures forall k :: Get(r, k) == if k in Keys(e) then LastValue(e, k) else Get(d, k)
  {
    if e == [] then d
    else
      var last := e[|e| - 1];
      KeysSnoc(e[..|e| - 1], last);
      assert e[..|e| - 1] + [last] == e;
      Put(Update(d, e[..|e| - 1]), last.0, last.1)
  }

  /** The value of the last pair of `e` with key `k`. */
  function LastValue<V>(e: Dict<V>, k: string): Option<V>
  {
    if e == [] then None
    else if e[|e| - 1].0 == k then Some(e[|e| - 1].1)
    else LastValue(e[..|e| - 1], k)
  }

  /** For a dict, whose keys are distinct, the last pair with a key is the only one. */
  lemma {:induction false} LastValueIsGet<V>(e: Dict<V>, k: string)
    requires UniqueKeys(e)
    ensures LastValue(e, k) == Get(e, k)
  {
    if e != [] {
      var init := e[..|e| - 1];
      var last := e[|e| - 1];
      assert e == init + [last];
      UniqueInit(e);
      LastValueIsGet(init, k);
      GetSnoc(init, last, k);
    }
  }

  lemma {:induction false} UniqueInit<V>(e: Dict<V>)
    requires UniqueKeys(e) && e != []
    ensures UniqueKeys(e[..|e| - 1]) && e[|e| - 1].0 !in Keys(e[..|e| - 1])
  {
    if |e| > 1 {
      var tail := e[1..];
      var init := e[..|e| - 1];
      var last := e[|e| - 1];
      UniqueInit(tail);
      assert tail[..|tail| - 1] == init[1..];
      assert tail == init[1..] + [last];
      KeysSnoc(init[1..], last);
      assert init == [e[0]] + init[1..];
    }
  }

  lemma {:induction false} GetSnoc<V>(d: Dict<V>, p: (string, V), k: string)
    ensures Get(d + [p], k) == if k in Keys(d) then Get(d, k) else if k == p.0 then Some(p.1) else None
  {
    if d != [] {
      assert (d + [p])[1..] == d[1..] + [p];
      GetSnoc(d[1..], p, k);
    } else {
      assert d + [p] == [p];
    }
  }

  lemma {:induction false} UpdateKeepsUnique<V>(d: Dict<V>, e: Dict<V>)
    requires UniqueKeys(d)
    ensures UniqueKeys(Update(d, e))
  {
    if e != [] {
      UpdateKeepsUnique(d, e[..|e| - 1]);
      PutKeepsUnique(Update(d, e[..|e| - 1]), e[|e| - 1].0, e[|e| - 1].1);
    }
  }

  /** A copy of `d` without the key `k`. */
  function Remove<V>(d: Dict<V>, k: string): (r: Dict<V>)
    ensures Get(r, k) == None
    ensures forall k' :: k' in Keys(r) ==> k' in Keys(d)
  {
    if d == [] then []
    else if d[0].0 == k then Remove(d[1..], k)
    else [d[0]] + Remove(d[1..], k)
  }

  lemma {:induction false} RemoveKeepsOthers<V>(d: Dict<V>, k: string, k': string)
    requires UniqueKeys(d) && k' != k
    ensures Get(Remove(d, k), k') == Get(d, k')
    ensures UniqueKeys(Remove(d, k))
  {
    if d != [] {
      RemoveKeepsOthers(d[1..], k, k');
    }
  }
}
