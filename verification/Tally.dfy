/** Adding up what the values of a map contribute, in whatever order. */
module Tally {
  import opened Pairs

  ghost function Total<K, V, T>(m: map<K, V>, worth: V -> multiset<T>): multiset<T>
    decreases |m|
  {
    if m.Keys == {} then multiset{}
    else
      var k :| k in m.Keys;
      worth(m[k]) + Total(m - {k}, worth)
  }

  lemma TotalUnfolds<K, V, T>(m: map<K, V>, worth: V -> multiset<T>) returns (k: K)
    requires m.Keys != {}
    ensures k in m && Total(m, worth) == worth(m[k]) + Total(m - {k}, worth)
  {
    k :| k in m.Keys && Total(m, worth) == worth(m[k]) + Total(m - {k}, worth);
  }

  /** Any key may be taken out first. */
  lemma {:induction false} TotalWithout<K, V, T>(m: map<K, V>, worth: V -> multiset<T>, k: K)
    requires k in m
    ensures Total(m, worth) == worth(m[k]) + Total(m - {k}, worth)
    decreases |m|
  {
    hide Total;
    var first := TotalUnfolds(m, worth);
    if first != k {
      TotalWithout(m - {first}, worth, k);
      TotalWithout(m - {k}, worth, first);
      assert m - {first} - {k} == m - {k} - {first};
      Swap(worth(m[first]), worth(m[k]), Total(m - {first} - {k}, worth));
    }
  }

  lemma Swap<T>(a: multiset<T>, b: multiset<T>, c: multiset<T>)
    ensures a + (b + c) == b + (a + c)
  {
  }

  /** What adding or replacing a key changes. */
  lemma TotalWith<K, V, T>(m: map<K, V>, worth: V -> multiset<T>, k: K, v: V)
    ensures Total(m[k := v], worth) + (if k in m then worth(m[k]) else multiset{}) == Total(m, worth) + worth(v)
  {
    TotalWithout(m[k := v], worth, k);
    assert m[k := v] - {k} == m - {k};
    if k in m {
      TotalWithout(m, worth, k);
    } else {
      assert m - {k} == m;
    }
  }
}
