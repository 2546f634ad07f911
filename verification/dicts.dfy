/** Python dicts as insertion-ordered lists of key/value pairs. */
module Dicts {
  import opened Errors

  type Dict<K, V> = seq<(K, V)>

  /** The keys in insertion order (what iterating the dict yields). */
  function Keys<K, V>(d: Dict<K, V>): (ks: seq<K>)
    ensures |ks| == |d|
    ensures forall i :: 0 <= i < |d| ==> ks[i] == d[i].0
  {
    seq(|d|, i requires 0 <= i < |d| => d[i].0)
  }

  predicate Distinct<T(==)>(s: seq<T>) {
    forall i, j :: 0 <= i < j < |s| ==> s[i] != s[j]
  }

  /** `d.get(k)` */
  function Get<K(==), V>(d: Dict<K, V>, k: K): Option<V>
    decreases |d|
  {
    if |d| == 0 then None
    else if d[0].0 == k then Some(d[0].1)
    else Get(d[1..], k)
  }

  lemma {:induction false} GetIffKey<K, V>(d: Dict<K, V>, k: K)
    ensures Get(d, k).Some? <==> k in Keys(d)
    decreases |d|
  {
    if |d| > 0 {
      GetIffKey(d[1..], k);
    }
  }

  /** `d[k] = v`: the value of a present key is replaced where it stands,
      a new key goes to the end; no other key changes. */
  function Set<K(==,!new), V>(d: Dict<K, V>, k: K, v: V): (d': Dict<K, V>)
    ensures Get(d', k) == Some(v)
    ensures forall k' :: k' != k ==> Get(d', k') == Get(d, k')
    ensures k in Keys(d) ==> Keys(d') == Keys(d)
    ensures k !in Keys(d) ==> Keys(d') == Keys(d) + [k]
    decreases |d|
  {
    if |d| == 0 then [(k, v)]
    else if d[0].0 == k then
      var d' := [(k, v)] + d[1..];
      assert d'[1..] == d[1..];
      d'
    else
      var d' := [d[0]] + Set(d[1..], k, v);
      assert d'[1..] == Set(d[1..], k, v);
      d'
  }

  /** Setting a key keeps the keys distinct. */
  lemma SetKeepsDistinct<K(!new), V>(d: Dict<K, V>, k: K, v: V)
    requires Distinct(Keys(d))
    ensures Distinct(Keys(Set(d, k, v)))
  {
    var ks := Keys(d);
    if k !in ks {
      forall i, j | 0 <= i < j < |ks| + 1 ensures (ks + [k])[i] != (ks + [k])[j] {
        if j == |ks| {
          assert ks[i] in ks;
        }
      }
    }
  }

  /** `d.update(es)`: the entries of `es` set one after another. */
  function Update<K(==,!new), V>(d: Dict<K, V>, es: Dict<K, V>): Dict<K, V>
    decreases |es|
  {
    if |es| == 0 then d else Update(Set(d, es[0].0, es[0].1), es[1..])
  }

  /** Keys not mentioned by the update keep their values. */
  lemma {:induction false} UpdateOthers<K(!new), V>(d: Dict<K, V>, es: Dict<K, V>, k: K)
    requires k !in Keys(es)
    ensures Get(Update(d, es), k) == Get(d, k)
    decreases |es|
  {
    if |es| > 0 {
      assert Keys(es)[0] == es[0].0;
      assert Keys(es[1..]) == Keys(es)[1..];
      UpdateOthers(Set(d, es[0].0, es[0].1), es[1..], k);
    }
  }

  /** With distinct keys in the update, each of its keys ends with its value. */
  lemma {:induction false} UpdateSets<K(!new), V>(d: Dict<K, V>, es: Dict<K, V>, i: nat)
    requires Distinct(Keys(es)) && i < |es|
    ensures Get(Update(d, es), es[i].0) == Some(es[i].1)
    decreases i
  {
    var (h, v) := es[0];
    var t := Keys(es[1..]);
    assert Keys(es) == [h] + t;
    DistinctCons(h, t);
    if i == 0 {
      UpdateOthers(Set(d, h, v), es[1..], h);
    } else {
      assert es[i] == es[1..][i - 1];
      UpdateSets(Set(d, h, v), es[1..], i - 1);
    }
  }

  /** The update keeps every key and their distinctness. */
  lemma {:induction false} UpdateKeys<K(!new), V>(d: Dict<K, V>, es: Dict<K, V>)
    requires Distinct(Keys(d))
    ensures Distinct(Keys(Update(d, es)))
    ensures forall n :: n in Keys(d) ==> n in Keys(Update(d, es))
    ensures forall i :: 0 <= i < |es| ==> es[i].0 in Keys(Update(d, es))
    decreases |es|
  {
    if |es| > 0 {
      var d1 := Set(d, es[0].0, es[0].1);
      SetKeepsDistinct(d, es[0].0, es[0].1);
      assert forall n :: n in Keys(d) ==> n in Keys(d1);
      assert es[0].0 in Keys(d1);
      UpdateKeys(d1, es[1..]);
      forall i | 0 < i < |es| ensures es[i].0 in Keys(Update(d, es)) {
        assert es[i] == es[1..][i - 1];
      }
    }
  }

  /** An update with keys new to `d` appends them in order. */
  lemma {:induction false} UpdateFresh<K(!new), V>(d: Dict<K, V>, es: Dict<K, V>, ks: seq<K>)
    requires Keys(d) == ks && Distinct(Keys(es))
    requires forall k :: k in Keys(es) ==> k !in ks
    ensures Keys(Update(d, es)) == ks + Keys(es)
    decreases |es|
  {
    if |es| > 0 {
      var (h, v) := es[0];
      FreshStep(es, ks);
      SetFresh(d, h, v, ks);
      UpdateFresh(Set(d, h, v), es[1..], ks + [h]);
      AppendAssoc(ks, h, Keys(es[1..]));
    }
  }

  /** Taking the first entry of a fresh update leaves a fresh update. */
  lemma FreshStep<K, V>(es: Dict<K, V>, ks: seq<K>)
    requires |es| > 0 && Distinct(Keys(es))
    requires forall k :: k in Keys(es) ==> k !in ks
    ensures Keys(es) == [es[0].0] + Keys(es[1..])
    ensures es[0].0 !in ks && Distinct(Keys(es[1..]))
    ensures forall k :: k in Keys(es[1..]) ==> k !in ks + [es[0].0]
  {
    var h, t := es[0].0, Keys(es[1..]);
    assert Keys(es) == [h] + t;
    DistinctCons(h, t);
    forall k | k in t ensures k !in ks + [h] {
      assert k in [h] + t;
    }
  }

  lemma AppendAssoc<T>(a: seq<T>, x: T, b: seq<T>)
    ensures a + [x] + b == a + ([x] + b)
  {
  }

  /** Setting a new key appends it to the keys. */
  lemma SetFresh<K(!new), V>(d: Dict<K, V>, k: K, v: V, ks: seq<K>)
    requires Keys(d) == ks && k !in ks
    ensures Keys(Set(d, k, v)) == ks + [k]
  {
  }

  /** The tail of a sequence without repetitions has none either, and does
      not contain the head. */
  lemma DistinctCons<T>(h: T, t: seq<T>)
    requires Distinct([h] + t)
    ensures Distinct(t) && h !in t
  {
    var s := [h] + t;
    forall i, j | 0 <= i < j < |t| ensures t[i] != t[j] {
      assert s[i + 1] == t[i] && s[j + 1] == t[j];
    }
    forall j | 0 <= j < |t| ensures t[j] != h {
      assert s[0] == h && s[j + 1] == t[j];
    }
  }

  /** Every entry after `d[k] = v` is `(k, v)` or an entry of `d`. */
  lemma {:induction false} SetEntries<K(!new), V>(d: Dict<K, V>, k: K, v: V)
    ensures forall i :: 0 <= i < |Set(d, k, v)| ==> Set(d, k, v)[i] == (k, v) || Set(d, k, v)[i] in d
    decreases |d|
  {
    if |d| > 0 && d[0].0 != k {
      SetEntries(d[1..], k, v);
      var d' := Set(d, k, v);
      forall i | 0 <= i < |d'| ensures d'[i] == (k, v) || d'[i] in d {
        if i > 0 {
          assert d'[i] == Set(d[1..], k, v)[i - 1];
          assert forall x :: x in d[1..] ==> x in d;
        }
      }
    }
  }

  /** With distinct keys, looking up the key of an entry finds that entry. */
  lemma {:induction false} GetAt<K, V>(d: Dict<K, V>, i: nat)
    requires Distinct(Keys(d)) && i < |d|
    ensures Get(d, d[i].0) == Some(d[i].1)
    decreases i
  {
    if i > 0 {
      assert Keys(d)[0] != Keys(d)[i];
      assert Distinct(Keys(d[1..])) by {
        assert Keys(d[1..]) == Keys(d)[1..];
      }
      GetAt(d[1..], i - 1);
    }
  }
}
