/**
 * Order-independent folds over maps. Java iterates a `HashMap` or a `TreeMap`
 * in an order the model does not fix; the folds below pick an arbitrary key
 * first, and the removal lemmas show that the result does not depend on that
 * choice: any key can be taken out first.
 */
module MapSums {

  /** Some element of a non-empty set. */
  ghost function Pick<K>(s: set<K>): (k: K)
    requires s != {}
    ensures k in s
  {
    var k :| k in s; k
  }

  /** The sum of `f` over the values of `m`. */
  ghost function SumBy<K, V>(m: map<K, V>, f: V -> real): real
    decreases |m|
  {
    if m == map[] then 0.0
    else
      var k := Pick(m.Keys);
      f(m[k]) + SumBy(m - {k}, f)
  }

  /** Any key can be the one taken out first. */
  lemma {:induction false} SumByRemove<K, V>(m: map<K, V>, f: V -> real, k: K)
    requires k in m
    ensures SumBy(m, f) == f(m[k]) + SumBy(m - {k}, f)
    decreases |m|
  {
    var j := Pick(m.Keys);
    if j != k {
      SumByRemove(m - {j}, f, k);
      SumByRemove(m - {k}, f, j);
      assert m - {j} - {k} == m - {k} - {j};
    }
  }

  /** Replacing (or adding) the value at `k` changes the sum by the difference. */
  lemma SumByUpdate<K, V>(m: map<K, V>, f: V -> real, k: K, v: V)
    ensures SumBy(m[k := v], f) == SumBy(m, f) + f(v) - (if k in m then f(m[k]) else 0.0)
  {
    var m' := m[k := v];
    SumByRemove(m', f, k);
    assert m' - {k} == m - {k};
    if k in m {
      SumByRemove(m, f, k);
    } else {
      assert m - {k} == m;
    }
  }

  /** The values of `m`, one per key, in the order the fold visits them. */
  ghost function ValuesSeq<K, V>(m: map<K, V>): seq<V>
    decreases |m|
  {
    if m == map[] then []
    else
      var k := Pick(m.Keys);
      [m[k]] + ValuesSeq(m - {k})
  }

  /** The bag of values does not depend on the visiting order: any key can go first. */
  lemma {:induction false} ValuesSeqRemove<K, V>(m: map<K, V>, k: K)
    requires k in m
    ensures multiset(ValuesSeq(m)) == multiset{m[k]} + multiset(ValuesSeq(m - {k}))
    decreases |m|
  {
    var j := Pick(m.Keys);
    if j != k {
      var rest := m - {j} - {k};
      assert rest == m - {k} - {j};
      ValuesSeqRemove(m - {j}, k);
      ValuesSeqRemove(m - {k}, j);
      calc {
        multiset(ValuesSeq(m));
        multiset([m[j]] + ValuesSeq(m - {j}));
        multiset{m[j]} + multiset(ValuesSeq(m - {j}));
        multiset{m[j]} + (multiset{m[k]} + multiset(ValuesSeq(rest)));
        multiset{m[k]} + (multiset{m[j]} + multiset(ValuesSeq(rest)));
        multiset{m[k]} + multiset(ValuesSeq(m - {k}));
      }
    }
  }

  /** The values of `m` in whatever order its keys are drawn, as iterating a `values()` view yields them. */
  method ValuesInAnyOrder<K, V>(m: map<K, V>) returns (values: seq<V>)
    ensures multiset(values) == multiset(ValuesSeq(m))
  {
    var left := m;
    values := [];
    while left != map[]
      invariant multiset(values) + multiset(ValuesSeq(left)) == multiset(ValuesSeq(m))
      decreases |left|
    {
      var key :| key in left;
      ValuesSeqRemove(left, key);
      values := values + [left[key]];
      left := left - {key};
    }
  }

  /** Every listed value is a value of the map and every value is listed. */
  lemma {:induction false} ValuesSeqMembers<K, V>(m: map<K, V>)
    ensures |ValuesSeq(m)| == |m|
    ensures forall v :: v in ValuesSeq(m) <==> v in m.Values
    decreases |m|
  {
    if m != map[] {
      var k := Pick(m.Keys);
      ValuesSeqMembers(m - {k});
      forall v | v in m.Values ensures v in ValuesSeq(m) {
        var j :| j in m && m[j] == v;
        if j != k {
          assert j in m - {k};
          assert v in (m - {k}).Values;
        }
      }
    }
  }

  /** A second update of the same key overrides the first. */
  lemma UpdateTwice<K, V>(m: map<K, V>, k: K, a: V, b: V)
    ensures m[k := a][k := b] == m[k := b]
  {
  }
}
