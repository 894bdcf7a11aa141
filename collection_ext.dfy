/** Collection helpers: `arrayMapOf`, `toImmutableMap` and
    `isNotNullOrEmpty`. An `ArrayMap` is modelled by its entries, a Dafny
    `map` (its iteration order carries no meaning). */
module CollectionExt {
  import opened Wrappers

  /** `Collection<T>?.isNotNullOrEmpty()` and `Array<T>?.isNotNullOrEmpty()`. */
  predicate IsNotNullOrEmpty<T>(c: Option<seq<T>>)
    ensures IsNotNullOrEmpty(c) <==> c.Some? && |c.value| >= 1
  {
    match c
    case None => false
    case Some(s) => s != []
  }

  /** `Map<T, Y>?.isNotNullOrEmpty()`. */
  predicate MapIsNotNullOrEmpty<K, V>(m: Option<map<K, V>>)
    ensures MapIsNotNullOrEmpty(m) <==> m.Some? && exists k :: k in m.value
  {
    m.Some? && m.value != map[]
  }

  /** The entries `arrayMapOf(vararg pairs)` ends up with: each pair in turn
      is put into the map, so a later pair overwrites an earlier one with the
      same key. */
  function FromPairs<K(==), V>(pairs: seq<(K, V)>): map<K, V> {
    if |pairs| == 0 then map[]
    else FromPairs(pairs[..|pairs| - 1])[pairs[|pairs| - 1].0 := pairs[|pairs| - 1].1]
  }

  /** One more pair puts one more entry. */
  lemma FromPairsSnoc<K, V>(pairs: seq<(K, V)>, k: K, v: V)
    ensures FromPairs(pairs + [(k, v)]) == FromPairs(pairs)[k := v]
  {
    assert (pairs + [(k, v)])[..|pairs|] == pairs;
  }

  /** Three more pairs put three more entries, in order. */
  lemma FromPairsSnocThree<K, V>(pairs: seq<(K, V)>, a: (K, V), b: (K, V), c: (K, V))
    ensures FromPairs(pairs + [a, b, c]) == FromPairs(pairs)[a.0 := a.1][b.0 := b.1][c.0 := c.1]
  {
    assert pairs + [a, b, c] == pairs + [a] + [b] + [c];
    FromPairsSnoc(pairs, a.0, a.1);
    FromPairsSnoc(pairs + [a], b.0, b.1);
    FromPairsSnoc(pairs + [a] + [b], c.0, c.1);
  }

  /** The keys that appear in a list of pairs. */
  function KeysOf<K(==), V>(pairs: seq<(K, V)>): set<K> {
    set i | 0 <= i < |pairs| :: pairs[i].0
  }

  /** `arrayMapOf()` with no arguments: a fresh, empty map. */
  function EmptyArrayMap<K(==), V>(): (m: map<K, V>)
    ensures forall k :: k !in m
  {
    map[]
  }

  /** `arrayMapOf(vararg pairs)`: fills a fresh map in a loop over the pairs. */
  method ArrayMapOf<K(==), V>(pairs: seq<(K, V)>) returns (m: map<K, V>)
    ensures m == FromPairs(pairs)
  {
    m := map[];
    for i := 0 to |pairs|
      invariant m == FromPairs(pairs[..i])
    {
      assert pairs[..i + 1][..i] == pairs[..i];
      m := m[pairs[i].0 := pairs[i].1];
    }
    assert pairs[..|pairs|] == pairs;
  }

  /** The keys of `arrayMapOf(pairs)` are exactly the keys among the pairs. */
  lemma {:induction false} FromPairsKeys<K, V>(pairs: seq<(K, V)>)
    ensures FromPairs(pairs).Keys == KeysOf(pairs)
  {
    if |pairs| > 0 {
      var init := pairs[..|pairs| - 1];
      FromPairsKeys(init);
      KeysOfSnoc(pairs);
    }
  }

  lemma KeysOfSnoc<K, V>(pairs: seq<(K, V)>)
    requires |pairs| > 0
    ensures KeysOf(pairs) == KeysOf(pairs[..|pairs| - 1]) + {pairs[|pairs| - 1].0}
  {
    var init := pairs[..|pairs| - 1];
    forall k | k in KeysOf(pairs)
      ensures k in KeysOf(init) + {pairs[|pairs| - 1].0}
    {
      var i :| 0 <= i < |pairs| && pairs[i].0 == k;
      if i < |pairs| - 1 {
        assert init[i] == pairs[i];
      }
    }
    forall k | k in KeysOf(init)
      ensures k in KeysOf(pairs)
    {
      var i :| 0 <= i < |init| && init[i].0 == k;
      assert pairs[i] == init[i];
    }
  }

  /** A key maps to the value of its last occurrence among the pairs. */
  lemma {:induction false} FromPairsLastOccurrence<K, V>(pairs: seq<(K, V)>, i: nat)
    requires i < |pairs|
    requires forall j :: i < j < |pairs| ==> pairs[j].0 != pairs[i].0
    ensures pairs[i].0 in FromPairs(pairs)
    ensures FromPairs(pairs)[pairs[i].0] == pairs[i].1
  {
    if i < |pairs| - 1 {
      var init := pairs[..|pairs| - 1];
      assert init[i] == pairs[i];
      forall j | i < j < |init| ensures init[j].0 != init[i].0 {
        assert init[j] == pairs[j];
      }
      FromPairsLastOccurrence(init, i);
    }
  }

  /** `arrayMapOf(pairs)` has one entry per distinct key, so never more
      entries than pairs. */
  lemma {:induction false} FromPairsSize<K, V>(pairs: seq<(K, V)>)
    ensures |FromPairs(pairs)| == |KeysOf(pairs)|
    ensures |FromPairs(pairs)| <= |pairs|
  {
    FromPairsKeys(pairs);
    KeysOfSize(pairs);
    assert |FromPairs(pairs)| == |FromPairs(pairs).Keys|;
  }

  lemma {:induction false} KeysOfSize<K, V>(pairs: seq<(K, V)>)
    ensures |KeysOf(pairs)| <= |pairs|
  {
    if |pairs| > 0 {
      KeysOfSnoc(pairs);
      KeysOfSize(pairs[..|pairs| - 1]);
    } else {
      assert KeysOf(pairs) == {};
    }
  }

  /** `Map.toImmutableMap()`: the empty map for an empty input, otherwise an
      unmodifiable copy; either way the same entries. */
  function ToImmutableMap<K(==), V>(m: map<K, V>): (r: map<K, V>)
    ensures r.Keys == m.Keys
    ensures forall k :: k in r ==> r[k] == m[k]
  {
    if |m| == 0 then map[] else m
  }
}
