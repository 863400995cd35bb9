/**
 Ordered 64-bit keys, in the way the tracker's `std::map`s use them: the
 smallest key (what `begin()` yields), the keys in ascending order (what an
 iterator walk visits) and sums over the values of a map.
 */
module Keys {

  const TWO_TO_THE_64: int := 0x1_0000_0000_0000_0000

  /** An unsigned 64-bit value used as a map key (a tag or a program counter). */
  type u64 = x: int | 0 <= x < TWO_TO_THE_64

  /** `k` is the smallest element of `ks`. */
  predicate IsMin(k: u64, ks: set<u64>)
  {
    k in ks && forall j :: j in ks ==> k <= j
  }

  /** Every non-empty finite set of keys has a smallest element. */
  lemma {:induction false} MinExists(ks: set<u64>)
    requires ks != {}
    ensures exists k :: IsMin(k, ks)
  {
    var x :| x in ks;
    if ks == {x} {
      assert IsMin(x, ks);
    } else {
      MinExists(ks - {x});
      var m :| IsMin(m, ks - {x});
      assert forall j :: j in ks ==> j == x || j in ks - {x};
      if x < m {
        assert IsMin(x, ks);
      } else {
        assert IsMin(m, ks);
      }
    }
  }

  /** The first key of an ordered map with key set `ks`. */
  function MinKey(ks: set<u64>): (k: u64)
    requires ks != {}
    ensures IsMin(k, ks)
  {
    MinExists(ks);
    var k :| IsMin(k, ks); k
  }

  lemma MapRemoveSize<V>(m: map<u64, V>, k: u64)
    requires k in m
    ensures |m - {k}| == |m| - 1
  {
    assert (m - {k}).Keys == m.Keys - {k};
  }

  /** The keys of an ordered map in the order its iterators visit them. */
  function SortedKeys(ks: set<u64>): (r: seq<u64>)
    ensures |r| == |ks|
    ensures forall i :: 0 <= i < |r| ==> r[i] in ks
    decreases |ks|
  {
    if ks == {} then []
    else
      var k := MinKey(ks);
      [k] + SortedKeys(ks - {k})
  }

  /** `SortedKeys` lists every key, in strictly ascending order. */
  lemma {:induction false} SortedKeysSpec(ks: set<u64>)
    ensures forall i, j :: 0 <= i < j < |SortedKeys(ks)| ==> SortedKeys(ks)[i] < SortedKeys(ks)[j]
    ensures forall k :: k in ks ==> k in SortedKeys(ks)
    decreases |ks|
  {
    if ks != {} {
      var k := MinKey(ks);
      var rest := SortedKeys(ks - {k});
      SortedKeysSpec(ks - {k});
      var r := SortedKeys(ks);
      assert r == [k] + rest;
      forall i, j | 0 <= i < j < |r|
        ensures r[i] < r[j]
      {
        assert r[j] == rest[j - 1];
        if i == 0 {
          assert r[j] in ks - {k};
        } else {
          assert r[i] == rest[i - 1];
        }
      }
      forall x | x in ks
        ensures x in r
      {
        if x != k {
          assert x in ks - {k};
          assert x in rest;
        }
      }
    }
  }

  /** The sum of `f` over the values of `m`. */
  function SumOf<V>(m: map<u64, V>, f: V -> nat): nat
    decreases |m|
  {
    if m == map[] then 0
    else
      var k := MinKey(m.Keys);
      MapRemoveSize(m, k);
      f(m[k]) + SumOf(m - {k}, f)
  }

  /** Any one entry can be taken out of the sum, not only the first. */
  lemma {:induction false} SumOfRemove<V>(m: map<u64, V>, f: V -> nat, k: u64)
    requires k in m
    ensures SumOf(m, f) == f(m[k]) + SumOf(m - {k}, f)
    decreases |m|
  {
    var j := MinKey(m.Keys);
    if j != k {
      MapRemoveSize(m, j);
      MapRemoveSize(m, k);
      SumOfRemove(m - {j}, f, k);
      SumOfRemove(m - {k}, f, j);
      assert m - {j} - {k} == m - {k} - {j};
    }
  }

  /** Storing `v` under `k` replaces what `k` contributed to the sum by `f(v)`. */
  lemma SumOfUpdate<V>(m: map<u64, V>, f: V -> nat, k: u64, v: V)
    ensures SumOf(m[k := v], f) == f(v) + SumOf(m - {k}, f)
    ensures k in m ==> SumOf(m, f) == f(m[k]) + SumOf(m - {k}, f)
    ensures k !in m ==> SumOf(m, f) == SumOf(m - {k}, f)
  {
    SumOfRemove(m[k := v], f, k);
    assert m[k := v] - {k} == m - {k};
    if k in m {
      SumOfRemove(m, f, k);
    } else {
      assert m - {k} == m;
    }
  }
}
