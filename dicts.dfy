/**
 * Python dictionaries of display text, as ordered sequences of (key, text)
 * entries: iteration follows insertion order, and a key occurs at most once.
 */
module Dicts {

  datatype Option<+T> = None | Some(value: T)

  type Entry = (string, string)

  /** The keys in iteration order (`d.keys()`). */
  function Keys(m: seq<Entry>): (ks: seq<string>)
    ensures |ks| == |m|
    ensures forall i :: 0 <= i < |m| ==> ks[i] == m[i].0
  {
    if m == [] then [] else [m[0].0] + Keys(m[1..])
  }

  predicate DistinctKeys(m: seq<Entry>) {
    forall i, j :: 0 <= i < j < |m| ==> m[i].0 != m[j].0
  }

  /** What a Python `dict` can hold: no key twice. */
  type Dict = m: seq<Entry> | DistinctKeys(m) witness []

  /** `d.get(k)`: the text stored under `k`, if any. */
  function Get(m: seq<Entry>, k: string): (r: Option<string>)
    ensures r.Some? <==> k in Keys(m)
    ensures r.Some? ==> (k, r.value) in m
  {
    if m == [] then None
    else if m[0].0 == k then Some(m[0].1)
    else Get(m[1..], k)
  }

  /** `d.get(k, default)`. */
  function GetOr(m: seq<Entry>, k: string, default: string): (r: string)
    ensures k in Keys(m) ==> r == Get(m, k).value
    ensures k !in Keys(m) ==> r == default
  {
    match Get(m, k)
    case Some(v) => v
    case None => default
  }

  /** Every entry of a dictionary is what a lookup of its key returns. */
  lemma {:induction false} GetAt(m: seq<Entry>, i: nat)
    requires DistinctKeys(m) && i < |m|
    ensures Get(m, m[i].0) == Some(m[i].1)
  {
    if i > 0 {
      assert DistinctKeys(m[1..]);
      GetAt(m[1..], i - 1);
    }
  }

  /** `d[k] = v`: afterwards `k` reads `v` and every other key reads as before. */
  function Put(m: seq<Entry>, k: string, v: string): (r: seq<Entry>)
    ensures Get(r, k) == Some(v)
    ensures forall k' :: k' != k ==> Get(r, k') == Get(m, k')
  {
    if m == [] then [(k, v)]
    else if m[0].0 == k then [(k, v)] + m[1..]
    else [m[0]] + Put(m[1..], k, v)
  }

  /** `d[k] = v` keeps the order of the keys: an existing key keeps its place, a new one goes last. */
  lemma {:induction false} PutKeys(m: seq<Entry>, k: string, v: string)
    ensures Keys(Put(m, k, v)) == if k in Keys(m) then Keys(m) else Keys(m) + [k]
  {
    if m != [] && m[0].0 != k {
      PutKeys(m[1..], k, v);
      assert Keys(m) == [m[0].0] + Keys(m[1..]);
      assert Keys(Put(m, k, v)) == [m[0].0] + Keys(Put(m[1..], k, v));
    }
  }

  /** `d.update(es)`, or the `**es` part of a dict display: puts each entry in order. */
  function Extend(m: seq<Entry>, es: seq<Entry>): (r: seq<Entry>)
    decreases |es|
  {
    if es == [] then m else Extend(Put(m, es[0].0, es[0].1), es[1..])
  }

  /** After `d.update(es)`, a key of `es` reads its text from `es`; any other key is untouched. */
  lemma {:induction false} ExtendGet(m: seq<Entry>, es: seq<Entry>, k: string)
    requires DistinctKeys(es)
    ensures Get(Extend(m, es), k) == if k in Keys(es) then Get(es, k) else Get(m, k)
    decreases |es|
  {
    if es != [] {
      assert DistinctKeys(es[1..]);
      ExtendGet(Put(m, es[0].0, es[0].1), es[1..], k);
      if k in Keys(es[1..]) {
        assert es[0].0 != k;
      }
    }
  }
}
