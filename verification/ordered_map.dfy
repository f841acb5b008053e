/** An insertion-ordered map, as JavaScript's `Map`: a sequence of key/value
    entries in the order keys were first inserted. Setting an existing key
    replaces its value where it stands; a new key goes to the end. */
module OrderedMap {
  import opened Results

  /** `[...m.keys()]`: the keys in entry order. */
  function Keys<K, V>(m: seq<(K, V)>): (ks: seq<K>)
    ensures |ks| == |m|
    ensures forall i :: 0 <= i < |m| ==> ks[i] == m[i].0
  {
    seq(|m|, i requires 0 <= i < |m| => m[i].0)
  }

  /** No key occurs twice: what every JavaScript `Map` satisfies. */
  ghost predicate UniqueKeys<K, V>(m: seq<(K, V)>) {
    forall i, j :: 0 <= i < j < |m| ==> m[i].0 != m[j].0
  }

  /** The position of the first entry for `k`, or -1 when there is none. */
  function IndexOf<K(==), V>(m: seq<(K, V)>, k: K): (i: int)
    ensures -1 <= i < |m|
    ensures i == -1 <==> k !in Keys(m)
    ensures 0 <= i ==> m[i].0 == k && forall j :: 0 <= j < i ==> m[j].0 != k
  {
    var i := IndexFrom(m, k, 0);
    assert i == -1 ==> forall j :: 0 <= j < |m| ==> Keys(m)[j] != k;
    i
  }

  /** `IndexOf` for the entries from position `from` on. */
  function IndexFrom<K(==), V>(m: seq<(K, V)>, k: K, from: nat): (i: int)
    requires from <= |m|
    ensures i == -1 || from <= i < |m|
    ensures i == -1 <==> forall j :: from <= j < |m| ==> m[j].0 != k
    ensures 0 <= i ==> m[i].0 == k && forall j :: from <= j < i ==> m[j].0 != k
    decreases |m| - from
  {
    if from == |m| then -1
    else if m[from].0 == k then from
    else IndexFrom(m, k, from + 1)
  }

  /** An entry for `k` with none before it is the first one. */
  lemma IndexOfIs<K, V>(m: seq<(K, V)>, k: K, i: nat)
    requires i < |m| && m[i].0 == k
    requires forall j :: 0 <= j < i ==> m[j].0 != k
    ensures IndexOf(m, k) == i
  {
    assert Keys(m)[i] == k;
  }

  /** `m.get(k)`: `undefined` exactly when `m.has(k)` is false, and
      otherwise the value of the first (under unique keys, the only) entry
      for `k`. */
  function Get<K(==), V>(m: seq<(K, V)>, k: K): (r: Option<V>)
    ensures r.None? <==> k !in Keys(m)
    ensures r.Some? ==> exists i :: 0 <= i < |m| && m[i] == (k, r.value) && forall j :: 0 <= j < i ==> m[j].0 != k
  {
    var i := IndexOf(m, k);
    if i < 0 then None
    else
      assert m[i] == (k, m[i].1);
      Some(m[i].1)
  }

  /** `m.set(k, v)`: afterwards `k` maps to `v`, and the key order changes
      only by appending a new key. */
  function Set<K(==), V>(m: seq<(K, V)>, k: K, v: V): (r: seq<(K, V)>)
    ensures k in Keys(m) ==> Keys(r) == Keys(m)
    ensures k !in Keys(m) ==> r == m + [(k, v)]
  {
    var i := IndexOf(m, k);
    if i < 0 then m + [(k, v)]
    else
      var r := m[i := (k, v)];
      assert Keys(r) == Keys(m);
      r
  }

  /** After `m.set(k, v)`, `m.get(k)` is `v`. */
  lemma SetThenGet<K, V>(m: seq<(K, V)>, k: K, v: V)
    ensures Get(Set(m, k, v), k) == Some(v)
  {
    var i := IndexOf(m, k);
    var r := Set(m, k, v);
    if i < 0 {
      IndexOfIs(r, k, |m|);
    } else {
      IndexOfIs(r, k, i);
    }
  }

  /** Setting one key leaves the value of every other key as it was. */
  lemma SetLeavesOtherKeys<K, V>(m: seq<(K, V)>, k: K, v: V, other: K)
    requires other != k
    ensures Get(Set(m, k, v), other) == Get(m, other)
  {
    var i := IndexOf(m, k);
    var o := IndexOf(m, other);
    var r := Set(m, k, v);
    if 0 <= o {
      IndexOfIs(r, other, o);
    } else if i < 0 {
      assert Keys(r) == Keys(m) + [k];
    } else {
      assert Keys(r) == Keys(m);
    }
  }

  /** Setting a key never introduces a second entry for any key. */
  lemma SetKeepsKeysUnique<K, V>(m: seq<(K, V)>, k: K, v: V)
    requires UniqueKeys(m)
    ensures UniqueKeys(Set(m, k, v))
  {
    var r := Set(m, k, v);
    forall i, j | 0 <= i < j < |r|
      ensures r[i].0 != r[j].0
    {
      assert r[i].0 == Keys(r)[i] && r[j].0 == Keys(r)[j];
      if k in Keys(m) || j < |m| {
        assert Keys(r)[i] == m[i].0 && Keys(r)[j] == m[j].0;
      } else {
        assert Keys(r)[j] == k && Keys(r)[i] == Keys(m)[i];
      }
    }
  }

  /** The map obtained by setting each pair's key to its value, in order:
      `for (const [k, v] of pairs) m.set(k, v)` on an empty `Map`. */
  function FromPairs<K(==), V>(ps: seq<(K, V)>): (m: seq<(K, V)>)
    ensures |m| <= |ps|
  {
    FromFirstPairs(ps, |ps|)
  }

  /** The map after the first `k` pairs have been set. */
  function FromFirstPairs<K(==), V>(ps: seq<(K, V)>, k: nat): (m: seq<(K, V)>)
    requires k <= |ps|
    ensures |m| <= k
  {
    if k == 0 then [] else Set(FromFirstPairs(ps, k - 1), ps[k - 1].0, ps[k - 1].1)
  }

  /** Each further pair is one more `set`. */
  lemma FromFirstPairsStep<K, V>(ps: seq<(K, V)>, k: nat)
    requires 0 < k <= |ps|
    ensures FromFirstPairs(ps, k) == Set(FromFirstPairs(ps, k - 1), ps[k - 1].0, ps[k - 1].1)
  {
  }

  /** The last pair wins: its key maps to its value, whatever came before. */
  lemma LastPairWins<K, V>(ps: seq<(K, V)>)
    requires |ps| > 0
    ensures Get(FromPairs(ps), ps[|ps| - 1].0) == Some(ps[|ps| - 1].1)
  {
    var n := |ps| - 1;
    SetThenGet(FromFirstPairs(ps, n), ps[n].0, ps[n].1);
  }

  /** Building a map from pairs never yields a key twice. */
  lemma FromPairsKeysUnique<K, V>(ps: seq<(K, V)>)
    ensures UniqueKeys(FromPairs(ps))
  {
    FromFirstPairsKeysUnique(ps, |ps|);
  }

  lemma {:induction false} FromFirstPairsKeysUnique<K, V>(ps: seq<(K, V)>, k: nat)
    requires k <= |ps|
    ensures UniqueKeys(FromFirstPairs(ps, k))
  {
    if k > 0 {
      FromFirstPairsKeysUnique(ps, k - 1);
      SetKeepsKeysUnique(FromFirstPairs(ps, k - 1), ps[k - 1].0, ps[k - 1].1);
    }
  }

  /** The keys of the built map are exactly the keys among the pairs. */
  lemma FromPairsKeySet<K, V>(ps: seq<(K, V)>)
    ensures forall k :: k in Keys(FromPairs(ps)) <==> k in Keys(ps)
  {
    FromFirstPairsKeySet(ps, |ps|);
    assert Keys(ps)[..|ps|] == Keys(ps);
  }

  lemma {:induction false} FromFirstPairsKeySet<K, V>(ps: seq<(K, V)>, k: nat)
    requires k <= |ps|
    ensures forall key :: key in Keys(FromFirstPairs(ps, k)) <==> key in Keys(ps)[..k]
  {
    if k > 0 {
      var prefix := FromFirstPairs(ps, k - 1);
      FromFirstPairsKeySet(ps, k - 1);
      assert Keys(ps)[..k] == Keys(ps)[..k - 1] + [ps[k - 1].0];
      if ps[k - 1].0 !in Keys(prefix) {
        assert Keys(prefix + [ps[k - 1]]) == Keys(prefix) + [ps[k - 1].0];
      }
    }
  }

  /** Pairs whose keys are already distinct come out unchanged: one entry per
      pair, in the pairs' order. */
  lemma FromDistinctPairs<K, V>(ps: seq<(K, V)>)
    requires UniqueKeys(ps)
    ensures FromPairs(ps) == ps
  {
    FromFirstDistinctPairs(ps, |ps|);
  }

  lemma {:induction false} FromFirstDistinctPairs<K, V>(ps: seq<(K, V)>, k: nat)
    requires k <= |ps| && UniqueKeys(ps)
    ensures FromFirstPairs(ps, k) == ps[..k]
  {
    if k > 0 {
      FromFirstDistinctPairs(ps, k - 1);
      KeyNotBefore(ps, k - 1);
      assert ps[..k - 1] + [ps[k - 1]] == ps[..k];
    }
  }

  /** With distinct keys, the key of entry `n` does not occur before it. */
  lemma KeyNotBefore<K, V>(ps: seq<(K, V)>, n: nat)
    requires n < |ps| && UniqueKeys(ps)
    ensures ps[n].0 !in Keys(ps[..n])
  {
    forall i | 0 <= i < n
      ensures Keys(ps[..n])[i] != ps[n].0
    {
      assert ps[..n][i] == ps[i];
    }
  }
}
