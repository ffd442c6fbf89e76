/**
 * Python dictionaries with string keys, as insertion-ordered lists of
 * key/value entries. Iteration order is what decides which argument a
 * check complains about first and in which order parameters are sent.
 */
module Dicts {

  type Dict<V> = seq<(string, V)>

  /** The keys in insertion order (`list(d)`). */
  function Keys<V>(d: Dict<V>): (ks: seq<string>)
    ensures |ks| == |d|
    ensures forall i :: 0 <= i < |d| ==> ks[i] == d[i].0
  {
    if d == [] then [] else [d[0].0] + Keys(d[1..])
  }

  /** `k in d`. */
  predicate Has<V>(d: Dict<V>, k: string)
    ensures Has(d, k) <==> k in Keys(d)
  {
    d != [] && (d[0].0 == k || Has(d[1..], k))
  }

  /** Every key occurs once, as in every Python dict. */
  predicate DistinctKeys<V>(d: Dict<V>) {
    forall i, j :: 0 <= i < j < |d| ==> d[i].0 != d[j].0
  }

  /** `d[k]`. */
  function Get<V>(d: Dict<V>, k: string): (v: V)
    requires Has(d, k)
    ensures (k, v) in d
  {
    if d[0].0 == k then d[0].1 else Get(d[1..], k)
  }

  /** `d[k] = v`: overwrites the entry of `k` in place, or appends one. */
  function Put<V>(d: Dict<V>, k: string, v: V): (r: Dict<V>)
    ensures forall k' :: Has(r, k') <==> Has(d, k') || k' == k
    ensures Get(r, k) == v
    ensures forall k' :: k' != k && Has(d, k') ==> Get(r, k') == Get(d, k')
    ensures !Has(d, k) ==> r == d + [(k, v)]
  {
    if d == [] then [(k, v)]
    else if d[0].0 == k then [(k, v)] + d[1..]
    else [d[0]] + Put(d[1..], k, v)
  }

  /** `d` with the entries of every key in `ks` deleted, order kept. */
  function Without<V>(d: Dict<V>, ks: set<string>): (r: Dict<V>)
    ensures forall k :: Has(r, k) <==> Has(d, k) && k !in ks
    ensures forall k :: Has(r, k) ==> Get(r, k) == Get(d, k)
    ensures |r| <= |d|
  {
    if d == [] then []
    else if d[0].0 in ks then Without(d[1..], ks)
    else [d[0]] + Without(d[1..], ks)
  }

  /** `del d[k]`. */
  function Del<V>(d: Dict<V>, k: string): Dict<V> {
    Without(d, {k})
  }

  lemma WithoutNothing<V>(d: Dict<V>, ks: set<string>)
    requires forall k :: k in ks ==> !Has(d, k)
    ensures Without(d, ks) == d
  {
    if d != [] {
      assert d[0].0 in Keys(d);
      WithoutNothing(d[1..], ks);
    }
  }

  lemma {:induction false} WithoutWithout<V>(d: Dict<V>, a: set<string>, b: set<string>)
    ensures Without(Without(d, a), b) == Without(d, a + b)
  {
    if d != [] {
      WithoutWithout(d[1..], a, b);
    }
  }

  lemma {:induction false} WithoutAppend<V>(d: Dict<V>, k: string, v: V, ks: set<string>)
    ensures Without(d + [(k, v)], ks) == Without(d, ks) + (if k in ks then [] else [(k, v)])
  {
    if d != [] {
      assert (d + [(k, v)])[1..] == d[1..] + [(k, v)];
      WithoutAppend(d[1..], k, v, ks);
    } else {
      assert [] + [(k, v)] == [(k, v)];
    }
  }

  lemma {:induction false} DistinctAppend<V>(d: Dict<V>, k: string, v: V)
    requires DistinctKeys(d) && !Has(d, k)
    ensures DistinctKeys(d + [(k, v)])
  {
    var r := d + [(k, v)];
    forall i, j | 0 <= i < j < |r| ensures r[i].0 != r[j].0 {
      if j == |d| {
        assert Keys(d)[i] == r[i].0;
      }
    }
  }

  lemma DistinctWithout<V>(d: Dict<V>, ks: set<string>)
    requires DistinctKeys(d)
    ensures DistinctKeys(Without(d, ks))
  {
    if d != [] {
      DistinctWithout(d[1..], ks);
      var w := Without(d[1..], ks);
      if d[0].0 !in ks {
        var r := [d[0]] + w;
        forall i, j | 0 <= i < j < |r| ensures r[i].0 != r[j].0 {
          if i == 0 {
            assert Keys(w)[j - 1] == r[j].0;
          }
        }
      }
    }
  }

  lemma GetAppend<V>(d: Dict<V>, k: string, v: V, k': string)
    requires Has(d + [(k, v)], k')
    ensures Get(d + [(k, v)], k') == if Has(d, k') then Get(d, k') else v
  {
    if d != [] {
      assert (d + [(k, v)])[1..] == d[1..] + [(k, v)];
      if d[0].0 != k' {
        GetAppend(d[1..], k, v, k');
      }
    }
  }

  /** Setting a new key and deleting it again gives back the dictionary. */
  lemma PutDel<V>(d: Dict<V>, k: string, v: V)
    requires !Has(d, k)
    ensures Has(Put(d, k, v), k) && Get(Put(d, k, v), k) == v
    ensures Del(Put(d, k, v), k) == d
  {
    assert Put(d, k, v) == d + [(k, v)];
    WithoutAppend(d, k, v, {k});
    WithoutNothing(d, {k});
    assert Without(d, {k}) + [] == d;
  }
}
