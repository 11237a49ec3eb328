/** Sizes of finite sets related by inclusion and by injective maps. */
module Cardinality {

  ghost predicate InjectiveOn<K, V>(m: map<K, V>, s: set<K>)
    requires s <= m.Keys
  {
    forall b, c :: b in s && c in s && m[b] == m[c] ==> b == c
  }

  lemma {:induction false} SubsetSize<T>(s: set<T>, t: set<T>)
    requires s <= t
    ensures |s| <= |t|
    decreases |s|
  {
    if s != {} {
      var x :| x in s;
      SubsetSize(s - {x}, t - {x});
    }
  }

  lemma SplitSize<T>(s: set<T>, t: set<T>)
    ensures |s| == |s * t| + |s - t|
  {
    assert s == s * t + (s - t);
  }

  /** Distinct `m`-values of `s`, all found among the `n`-values of `t`: `s` is no larger than `t`. */
  lemma {:induction false} InjectionSize<K, L, V>(m: map<K, V>, s: set<K>, n: map<L, V>, t: set<L>)
    requires s <= m.Keys && t <= n.Keys && InjectiveOn(m, s)
    requires forall b :: b in s ==> exists c :: c in t && n[c] == m[b]
    ensures |s| <= |t|
    decreases |s|
  {
    if s != {} {
      var b :| b in s;
      var c :| c in t && n[c] == m[b];
      forall b' | b' in s - {b} ensures exists c' :: c' in t - {c} && n[c'] == m[b'] {
        var c' :| c' in t && n[c'] == m[b'];
        assert m[b'] != m[b];
      }
      InjectionSize(m, s - {b}, n, t - {c});
    }
  }
}
