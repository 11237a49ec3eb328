/** Selection and stable sorting of sequences, as the list builtins of the source do them. */
module Lists {

  function Filter<T(!new)>(s: seq<T>, p: T -> bool): (r: seq<T>)
    ensures forall x :: x in r <==> x in s && p(x)
    ensures |r| <= |s|
  {
    if s == [] then [] else
      var n := |s| - 1;
      Filter(s[..n], p) + (if p(s[n]) then [s[n]] else [])
  }

  lemma FilterSnoc<T(!new)>(s: seq<T>, x: T, p: T -> bool)
    ensures Filter(s + [x], p) == if p(x) then Filter(s, p) + [x] else Filter(s, p)
  {
    assert (s + [x])[..|s|] == s;
  }

  lemma {:induction false} FilterPrefix<T(!new)>(s: seq<T>, p: T -> bool, i: nat)
    requires i <= |s|
    ensures Filter(s[..i], p) <= Filter(s, p)
    decreases |s|
  {
    if i < |s| {
      FilterPrefix(s[..|s| - 1], p, i);
      assert s[..|s| - 1][..i] == s[..i];
    } else {
      assert s[..i] == s;
    }
  }

  predicate ArePositions(at: seq<nat>, bound: nat) {
    (forall k :: 0 <= k < |at| ==> at[k] < bound) && forall k, l :: 0 <= k < l < |at| ==> at[k] < at[l]
  }

  /** The elements of `s` at the positions `at`. */
  function Picked<T>(s: seq<T>, at: seq<nat>): (r: seq<T>)
    requires forall k :: 0 <= k < |at| ==> at[k] < |s|
    ensures |r| == |at| && forall k :: 0 <= k < |r| ==> r[k] == s[at[k]]
  {
    seq(|at|, k requires 0 <= k < |at| => s[at[k]])
  }

  /** What is selected stands at exactly the positions that satisfy the test, in order. */
  lemma {:induction false} FilterPositions<T(!new)>(s: seq<T>, p: T -> bool) returns (at: seq<nat>)
    ensures ArePositions(at, |s|) && Filter(s, p) == Picked(s, at)
    ensures forall i :: 0 <= i < |s| ==> (i in at <==> p(s[i]))
  {
    if s == [] {
      at := [];
    } else {
      var n := |s| - 1;
      var front := FilterPositions(s[..n], p);
      assert Filter(s, p) == Filter(s[..n], p) + if p(s[n]) then [s[n]] else [];
      at := PositionsNext(s, p, front);
    }
  }

  lemma PositionsNext<T(!new)>(s: seq<T>, p: T -> bool, front: seq<nat>) returns (at: seq<nat>)
    requires s != [] && ArePositions(front, |s| - 1)
    requires forall i :: 0 <= i < |s| - 1 ==> (i in front <==> p(s[i]))
    ensures ArePositions(at, |s|) && forall i :: 0 <= i < |s| ==> (i in at <==> p(s[i]))
    ensures Picked(s, at) == Picked(s[..|s| - 1], front) + if p(s[|s| - 1]) then [s[|s| - 1]] else []
  {
    var n := |s| - 1;
    at := front;
    assert Picked(s, front) == Picked(s[..n], front);
    if p(s[n]) {
      PickedNext(s, front, n);
      at := front + [n];
    }
  }

  lemma PickedNext<T>(s: seq<T>, at: seq<nat>, n: nat)
    requires ArePositions(at, n) && n < |s|
    ensures ArePositions(at + [n], n + 1) && Picked(s, at + [n]) == Picked(s, at) + [s[n]]
  {
  }

  lemma TakeNext<T>(s: seq<T>, i: nat)
    requires i < |s|
    ensures s[..i + 1] == s[..i] + [s[i]]
  {
  }

  lemma Associate<T>(a: seq<T>, b: seq<T>, c: seq<T>)
    ensures a + b + c == a + (b + c)
  {
  }

  lemma Unit<T>(a: seq<T>)
    ensures a + [] == a && [] + a == a
  {
  }

  lemma AllButLast<T>(s: seq<T>)
    requires s != []
    ensures s == s[..|s| - 1] + [s[|s| - 1]]
  {
  }

  predicate Distinct<T(==)>(s: seq<T>) {
    forall i, j :: 0 <= i < j < |s| ==> s[i] != s[j]
  }

  lemma {:induction false} FilterDistinct<T(!new)>(s: seq<T>, p: T -> bool)
    requires Distinct(s)
    ensures Distinct(Filter(s, p))
  {
    if s != [] {
      var n := |s| - 1;
      FilterDistinct(s[..n], p);
      assert s[n] !in s[..n];
    }
  }

  ghost predicate TotalPreorder<T(!new)>(le: (T, T) -> bool) {
    && (forall x, y :: le(x, y) || le(y, x))
    && (forall x, y, z :: le(x, y) && le(y, z) ==> le(x, z))
  }

  /** `x` stands at or in front of some `y`. */
  ghost predicate NotBehind<T>(s: seq<T>, x: T, y: T) {
    exists i, j :: 0 <= i <= j < |s| && s[i] == x && s[j] == y
  }

  lemma NotBehindSelected<T(!new)>(s: seq<T>, p: T -> bool, x: T, y: T)
    requires NotBehind(Filter(s, p), x, y)
    ensures NotBehind(s, x, y)
  {
    var at := FilterPositions(s, p);
    var i, j :| 0 <= i <= j < |at| && Filter(s, p)[i] == x && Filter(s, p)[j] == y;
    assert i < j ==> at[i] < at[j];
    assert s[at[i]] == x && s[at[j]] == y;
  }

  lemma NotBehindFront<T>(s: seq<T>, n: nat, x: T, y: T)
    requires n <= |s| && NotBehind(s[..n], x, y)
    ensures NotBehind(s, x, y)
  {
    var i, j :| 0 <= i <= j < n && s[..n][i] == x && s[..n][j] == y;
    assert s[i] == x && s[j] == y;
  }

  /** `min` with a key: the first of the least elements. */
  function Least<T(!new)>(s: seq<T>, le: (T, T) -> bool): (r: T)
    requires s != [] && TotalPreorder(le)
    ensures r in s && forall x :: x in s ==> le(r, x)
    ensures forall x :: x in s && le(x, r) ==> NotBehind(s, r, x)
  {
    LeastIsFirst(s, le);
    LeastOf(s, le)
  }

  function LeastOf<T(!new)>(s: seq<T>, le: (T, T) -> bool): T
    requires s != []
  {
    var n := |s| - 1;
    if n == 0 then s[0] else
      var m := LeastOf(s[..n], le);
      if le(m, s[n]) then m else s[n]
  }

  lemma {:induction false} LeastIsFirst<T(!new)>(s: seq<T>, le: (T, T) -> bool)
    requires s != [] && TotalPreorder(le)
    ensures LeastOf(s, le) in s && forall x :: x in s ==> le(LeastOf(s, le), x)
    ensures forall x :: x in s && le(x, LeastOf(s, le)) ==> NotBehind(s, LeastOf(s, le), x)
  {
    var n, r := |s| - 1, LeastOf(s, le);
    if n == 0 {
      assert s[0] == r;
    } else {
      var front := s[..n];
      LeastIsFirst(front, le);
      var m := LeastOf(front, le);
      AllButLast(s);
      forall x | x in s ensures le(r, x) {
        assert x in front || x == s[n];
        assert le(m, s[n]) || le(s[n], m);
      }
      forall x | x in s && le(x, r) ensures NotBehind(s, r, x) {
        if le(m, s[n]) {
          if x in front {
            NotBehindFront(s, n, m, x);
          } else {
            var i :| 0 <= i < n && front[i] == m;
            assert s[i] == m && s[n] == x;
          }
        } else if x in front {
          assert false;
        } else {
          assert s[n] == r == x;
        }
      }
    }
  }

  ghost predicate SortedBy<T>(s: seq<T>, le: (T, T) -> bool) {
    forall i, j :: 0 <= i < j < |s| ==> le(s[i], s[j])
  }

  function Insert<T>(s: seq<T>, x: T, le: (T, T) -> bool): (r: seq<T>)
    ensures multiset(r) == multiset(s) + multiset{x}
  {
    if s == [] || le(s[|s| - 1], x) then s + [x]
    else
      assert s == s[..|s| - 1] + [s[|s| - 1]];
      Insert(s[..|s| - 1], x, le) + [s[|s| - 1]]
  }

  lemma InsertMember<T(!new)>(s: seq<T>, x: T, le: (T, T) -> bool, y: T)
    requires y in Insert(s, x, le)
    ensures y == x || y in s
  {
    assert y in multiset(Insert(s, x, le));
    assert y in multiset(s) || y == x;
  }

  lemma SortedSnoc<T(!new)>(s: seq<T>, x: T, le: (T, T) -> bool)
    requires SortedBy(s, le) && forall y :: y in s ==> le(y, x)
    ensures SortedBy(s + [x], le)
  {
  }

  lemma {:induction false} InsertSorted<T(!new)>(s: seq<T>, x: T, le: (T, T) -> bool)
    requires TotalPreorder(le) && SortedBy(s, le)
    ensures SortedBy(Insert(s, x, le), le)
  {
    if s == [] {
    } else if le(s[|s| - 1], x) {
      forall y | y in s ensures le(y, x) {
        assert le(y, s[|s| - 1]);
      }
      SortedSnoc(s, x, le);
    } else {
      var n := |s| - 1;
      InsertSorted(s[..n], x, le);
      forall y | y in Insert(s[..n], x, le) ensures le(y, s[n]) {
        InsertMember(s[..n], x, le, y);
      }
      SortedSnoc(Insert(s[..n], x, le), s[n], le);
    }
  }

  /** `sorted`: stable, ascending in `le`. */
  function Sort<T>(s: seq<T>, le: (T, T) -> bool): (r: seq<T>)
    ensures multiset(r) == multiset(s)
  {
    if s == [] then [] else
      assert s == s[..|s| - 1] + [s[|s| - 1]];
      Insert(Sort(s[..|s| - 1], le), s[|s| - 1], le)
  }

  lemma {:induction false} SortSorted<T(!new)>(s: seq<T>, le: (T, T) -> bool)
    requires TotalPreorder(le)
    ensures SortedBy(Sort(s, le), le)
  {
    if s != [] {
      SortSorted(s[..|s| - 1], le);
      InsertSorted(Sort(s[..|s| - 1], le), s[|s| - 1], le);
    }
  }

  /** Equal elements keep their order. */
  ghost predicate Stable<T(!new)>(t: seq<T>, s: seq<T>, le: (T, T) -> bool) {
    forall i, j :: 0 <= i < j < |t| && le(t[j], t[i]) ==> NotBehind(s, t[i], t[j])
  }

  lemma {:induction false} SortStable<T(!new)>(s: seq<T>, le: (T, T) -> bool)
    requires TotalPreorder(le)
    ensures Stable(Sort(s, le), s, le)
  {
    if s != [] {
      var n := |s| - 1;
      SortStable(s[..n], le);
      SortSorted(s[..n], le);
      var t := Sort(s[..n], le);
      SameMembers(s[..n], t);
      StableLonger(t, s, n, le);
      forall y | y in t ensures NotBehind(s, y, s[n]) {
        NotBehindLast(s, y);
      }
      InsertStable(t, s[n], s, le);
    }
  }

  lemma StableLonger<T(!new)>(t: seq<T>, s: seq<T>, n: nat, le: (T, T) -> bool)
    requires n <= |s| && Stable(t, s[..n], le)
    ensures Stable(t, s, le)
  {
    forall i, j | 0 <= i < j < |t| && le(t[j], t[i]) ensures NotBehind(s, t[i], t[j]) {
      NotBehindFront(s, n, t[i], t[j]);
    }
  }

  lemma NotBehindLast<T>(s: seq<T>, y: T)
    requires s != [] && y in s[..|s| - 1]
    ensures NotBehind(s, y, s[|s| - 1])
  {
    var n := |s| - 1;
    var i :| 0 <= i < n && s[..n][i] == y;
    assert s[i] == y;
  }

  lemma {:induction false} InsertStable<T(!new)>(t: seq<T>, x: T, s: seq<T>, le: (T, T) -> bool)
    requires TotalPreorder(le) && SortedBy(t, le) && Stable(t, s, le) && forall y :: y in t ==> NotBehind(s, y, x)
    ensures Stable(Insert(t, x, le), s, le)
  {
    if t == [] || le(t[|t| - 1], x) {
      StableSnoc(t, x, s, le);
    } else {
      var n := |t| - 1;
      InsertStable(t[..n], x, s, le);
      var front := Insert(t[..n], x, le);
      forall y | y in front && le(t[n], y) ensures NotBehind(s, y, t[n]) {
        InsertMember(t[..n], x, le, y);
        var k :| 0 <= k < n && t[k] == y;
      }
      StableSnoc(front, t[n], s, le);
    }
  }

  lemma StableSnoc<T(!new)>(t: seq<T>, x: T, s: seq<T>, le: (T, T) -> bool)
    requires Stable(t, s, le) && forall y :: y in t && le(x, y) ==> NotBehind(s, y, x)
    ensures Stable(t + [x], s, le)
  {
  }

  lemma {:induction false} FilterSorted<T(!new)>(s: seq<T>, p: T -> bool, le: (T, T) -> bool)
    requires SortedBy(s, le)
    ensures SortedBy(Filter(s, p), le)
  {
    if s != [] {
      var n := |s| - 1;
      FilterSorted(s[..n], p, le);
      forall x | x in Filter(s[..n], p) ensures le(x, s[n]) {
        var i :| 0 <= i < n && s[..n][i] == x;
      }
    }
  }

  /** A rearrangement has the same members, and is free of repetitions when the original is. */
  lemma SameMembers<T(!new)>(s: seq<T>, t: seq<T>)
    requires multiset(s) == multiset(t)
    ensures |s| == |t| && forall x :: x in s <==> x in t
    ensures Distinct(s) ==> Distinct(t)
  {
    assert |multiset(s)| == |s| && |multiset(t)| == |t|;
    forall x ensures x in s <==> x in t {
      assert x in s <==> x in multiset(s);
      assert x in t <==> x in multiset(t);
    }
    if Distinct(s) {
      forall i, j | 0 <= i < j < |t| ensures t[i] != t[j] {
        if t[i] == t[j] {
          assert t == t[..i] + [t[i]] + t[i + 1..j] + [t[j]] + t[j + 1..];
          assert multiset(t)[t[i]] >= 2;
          OnceInDistinct(s, t[i]);
          assert false;
        }
      }
    }
  }

  lemma SplitAround<T>(s: seq<T>, i: nat)
    requires i < |s|
    ensures s == s[..i] + [s[i]] + s[i + 1..]
    ensures multiset(s) == multiset(s[..i] + s[i + 1..]) + multiset{s[i]}
  {
  }

  /** In a rearrangement the first element can be found and taken out. */
  lemma MatchFirst<T>(s: seq<T>, t: seq<T>) returns (front: seq<T>, back: seq<T>)
    requires s != [] && multiset(s) == multiset(t)
    ensures t == front + [s[0]] + back && multiset(s[1..]) == multiset(front + back)
  {
    assert s[0] in multiset(t);
    var i :| 0 <= i < |t| && t[i] == s[0];
    front, back := t[..i], t[i + 1..];
    SplitAround(t, i);
    SplitFirst(s);
    SameRest(multiset(s[1..]), multiset(front + back), s[0]);
  }

  lemma SplitFirst<T>(s: seq<T>)
    requires s != []
    ensures multiset(s) == multiset(s[1..]) + multiset{s[0]}
  {
    assert s == [s[0]] + s[1..];
  }

  lemma SameRest<T>(a: multiset<T>, b: multiset<T>, x: T)
    requires a + multiset{x} == b + multiset{x}
    ensures a == b
  {
    assert a == a + multiset{x} - multiset{x} && b == b + multiset{x} - multiset{x};
  }

  lemma {:induction false} OnceInDistinct<T>(s: seq<T>, x: T)
    requires Distinct(s)
    ensures multiset(s)[x] <= 1
  {
    if s != [] {
      var n := |s| - 1;
      OnceInDistinct(s[..n], x);
      assert s == s[..n] + [s[n]];
      assert s[n] !in s[..n];
    }
  }
}
