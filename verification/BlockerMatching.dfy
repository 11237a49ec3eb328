/** Whether the declared attacks outnumber the usable blockers: a maximum bipartite
    matching found by augmenting paths, with the mutable `matched` and `visited`
    tables of the source.  Attackers and blockers are card uids. */
module BlockerMatching {
  import opened Cardinality
  import opened Lists

  type Uid = nat

  /** `can(b, a)`: blocker `b` may legally block attacker `a`. */
  type BlockRelation = (Uid, Uid) -> bool

  ghost predicate Legal(m: map<Uid, Uid>, blockers: seq<Uid>, can: BlockRelation) {
    forall b :: b in m ==> b in blockers && can(b, m[b])
  }

  ghost predicate Injective(m: map<Uid, Uid>) {
    forall b, c :: b in m && c in m && m[b] == m[c] ==> b == c
  }

  ghost predicate Covers(m: map<Uid, Uid>, a: Uid) {
    exists b :: b in m && m[b] == a
  }

  /** A set of blocks: legal, at most one blocker per attacker, attackers only. */
  ghost predicate IsBlockPlan(m: map<Uid, Uid>, attackers: seq<Uid>, blockers: seq<Uid>, can: BlockRelation) {
    && Legal(m, blockers, can)
    && Injective(m)
    && forall b :: b in m ==> m[b] in attackers
  }

  ghost predicate IsMaximumPlan(m: map<Uid, Uid>, attackers: seq<Uid>, blockers: seq<Uid>, can: BlockRelation) {
    && IsBlockPlan(m, attackers, blockers, can)
    && forall other :: IsBlockPlan(other, attackers, blockers, can) ==> |other| <= |m|
  }

  /** Every attacker can be blocked by a blocker of its own. */
  ghost predicate CompletePlanExists(attackers: seq<Uid>, blockers: seq<Uid>, can: BlockRelation) {
    exists m :: IsBlockPlan(m, attackers, blockers, can) && forall a :: a in attackers ==> Covers(m, a)
  }

  /** Every legal blocker of `a` lies in `s`. */
  ghost predicate Enclosed(a: Uid, s: set<Uid>, blockers: seq<Uid>, can: BlockRelation) {
    forall c :: c in blockers && can(c, a) ==> c in s
  }

  /** A dead set: matched blockers from whose attackers no other blocker can be reached. */
  ghost predicate Dead(dead: set<Uid>, m: map<Uid, Uid>, blockers: seq<Uid>, can: BlockRelation) {
    dead <= m.Keys && forall b :: b in dead ==> Enclosed(m[b], dead, blockers, can)
  }

  /** `m` is `m0` after an augmenting path for `a` that used no blocker of `seen`.
      When `a` was already matched (to a blocker of `seen`, which the caller is about
      to take away) it is now matched twice, and nothing else is. */
  ghost predicate Augmented(m0: map<Uid, Uid>, m: map<Uid, Uid>, a: Uid, seen: set<Uid>) {
    && (forall b :: b in seen && b in m0 ==> b in m && m[b] == m0[b])
    && (exists b :: b in m && b !in seen && m[b] == a)
    && (forall x :: Covers(m0, x) ==> Covers(m, x))
    && (forall b :: b in m ==> m[b] == a || Covers(m0, m[b]))
    && (forall b, c :: b in m && c in m && b != c && m[b] == m[c] ==> m[b] == a && (b in seen || c in seen))
  }

  /** Where the partners of `a` may be: only among the blockers already seen. */
  ghost predicate PartnersSeen(m: map<Uid, Uid>, a: Uid, seen: set<Uid>) {
    forall b :: b in m && m[b] == a ==> b in seen
  }

  lemma AugmentFree(m: map<Uid, Uid>, b0: Uid, a: Uid, seen: set<Uid>)
    requires Injective(m) && PartnersSeen(m, a, seen)
    requires b0 !in m && b0 !in seen
    ensures Augmented(m, m[b0 := a], a, seen)
  {
    var m' := m[b0 := a];
    assert b0 in m' && m'[b0] == a;
    forall x | Covers(m, x) ensures Covers(m', x) {
      var b :| b in m && m[b] == x;
      assert b in m' && m'[b] == x;
    }
    forall b | b in m' ensures m'[b] == a || Covers(m, m'[b]) {
      if b != b0 { assert b in m && m[b] == m'[b]; }
    }
  }

  /** Taking `b0` from its attacker for `a`, once a deeper path has found that attacker another blocker. */
  lemma AugmentThrough(m0: map<Uid, Uid>, m1: map<Uid, Uid>, b0: Uid, a: Uid, seen: set<Uid>, deeper: set<Uid>)
    requires Injective(m0) && PartnersSeen(m0, a, seen)
    requires b0 in m0 && b0 !in seen && b0 in deeper && seen <= deeper <= m0.Keys
    requires Augmented(m0, m1, m0[b0], deeper)
    ensures Augmented(m0, m1[b0 := a], a, seen)
  {
    var prev := m0[b0];
    var m := m1[b0 := a];
    assert a != prev;
    assert b0 in m && m[b0] == a;
    forall x | Covers(m0, x) ensures Covers(m, x) {
      StillCovered(m0, m1, b0, a, x, deeper);
    }
    forall b | b in m ensures m[b] == a || Covers(m0, m[b]) {
      assert Covers(m0, prev);
    }
    forall b, c | b in m && c in m && b != c && m[b] == m[c] ensures m[b] == a && (b in seen || c in seen) {
      DoublyMatched(m0, m1, b0, a, b, c, seen, deeper);
    }
  }

  /** Nothing loses its blocker: the attacker that gives up `b0` has the one just found for it. */
  lemma StillCovered(m0: map<Uid, Uid>, m1: map<Uid, Uid>, b0: Uid, a: Uid, x: Uid, deeper: set<Uid>)
    requires b0 in m0 && b0 in deeper
    requires Augmented(m0, m1, m0[b0], deeper) && Covers(m0, x)
    ensures Covers(m1[b0 := a], x)
  {
    assert Covers(m1, x);
    var b :| b in m1 && m1[b] == x && (x == m0[b0] ==> b !in deeper);
    assert b in m1[b0 := a] && m1[b0 := a][b] == x;
  }

  /** After the take-over only `a` can be matched twice, once to a blocker of `seen`. */
  lemma DoublyMatched(m0: map<Uid, Uid>, m1: map<Uid, Uid>, b0: Uid, a: Uid, b: Uid, c: Uid, seen: set<Uid>, deeper: set<Uid>)
    requires Injective(m0) && PartnersSeen(m0, a, seen)
    requires b0 in m0 && b0 !in seen && b0 in deeper && seen <= deeper <= m0.Keys
    requires Augmented(m0, m1, m0[b0], deeper)
    requires var m := m1[b0 := a]; b in m && c in m && b != c && m[b] == m[c]
    ensures m1[b0 := a][b] == a && (b in seen || c in seen)
  {
    if b == b0 {
      PartnerKept(m0, m1, b0, a, c, deeper);
    } else if c == b0 {
      PartnerKept(m0, m1, b0, a, b, deeper);
    } else {
      assert false;
    }
  }

  /** The partner an already matched `a` has after the deeper path is the one it had before. */
  lemma PartnerKept(m0: map<Uid, Uid>, m1: map<Uid, Uid>, b0: Uid, a: Uid, c: Uid, deeper: set<Uid>)
    requires b0 in m0 && m0[b0] != a
    requires PartnersSeen(m0, a, deeper) && deeper <= m0.Keys
    requires Augmented(m0, m1, m0[b0], deeper)
    requires c in m1 && m1[c] == a
    ensures c in m0 && m0[c] == a
  {
    assert Covers(m0, a);
    var d :| d in m0 && m0[d] == a;
    assert d in m1 && m1[d] == a;
    assert c == d;
  }

  // ---------------------------------------------------------------- maximality

  /** Optimality certificate (Koenig): when every unmatched attacker's blockers are in
      a dead set, no set of blocks covers more attackers. */
  lemma DeadSetIsCertificate(m: map<Uid, Uid>, dead: set<Uid>, attackers: seq<Uid>, blockers: seq<Uid>,
                             can: BlockRelation, other: map<Uid, Uid>)
    requires IsBlockPlan(m, attackers, blockers, can)
    requires Dead(dead, m, blockers, can)
    requires forall a :: a in attackers && !Covers(m, a) ==> Enclosed(a, dead, blockers, can)
    requires IsBlockPlan(other, attackers, blockers, can)
    ensures |other| <= |m|
  {
    var outside := other.Keys - dead;
    var alive := m.Keys - dead;
    forall b | b in outside ensures exists c :: c in alive && m[c] == other[b] {
      assert Covers(m, other[b]);
      var c :| c in m && m[c] == other[b];
      assert c !in dead;
    }
    InjectionSize(other, outside, m, alive);
    SubsetSize(other.Keys * dead, dead);
    SplitSize(other.Keys, dead);
    SplitSize(m.Keys, dead);
    assert m.Keys * dead == dead;
  }

  // ------------------------------------------------------------ what the order of attackers decides

  /** Some plan for the first `i + 1` attackers is larger than every plan for the first `i`. */
  ghost predicate Gains(attackers: seq<Uid>, i: nat, blockers: seq<Uid>, can: BlockRelation)
    requires i < |attackers|
  {
    exists p :: IsBlockPlan(p, attackers[..i + 1], blockers, can) && LargerThanAll(p, attackers[..i], blockers, can)
  }

  ghost predicate LargerThanAll(p: map<Uid, Uid>, attackers: seq<Uid>, blockers: seq<Uid>, can: BlockRelation) {
    forall q :: IsBlockPlan(q, attackers, blockers, can) ==> |q| < |p|
  }

  /** A plan that covers what another does, and one attacker more, is larger. */
  lemma CoversMore(m: map<Uid, Uid>, other: map<Uid, Uid>, a: Uid)
    requires Injective(m) && Injective(other)
    requires forall b :: b in m ==> Covers(other, m[b])
    requires Covers(other, a) && !Covers(m, a)
    ensures |m| < |other|
  {
    var spare :| spare in other && other[spare] == a;
    forall b | b in m.Keys ensures exists c :: c in other.Keys - {spare} && other[c] == m[b] {
      assert Covers(other, m[b]);
      var c :| c in other && other[c] == m[b];
      assert c != spare;
    }
    InjectionSize(m, m.Keys, other, other.Keys - {spare});
  }

  /** A search that succeeds shows that its attacker adds to the best plan. */
  lemma FoundGains(m0: map<Uid, Uid>, m1: map<Uid, Uid>, attackers: seq<Uid>, i: nat, blockers: seq<Uid>, can: BlockRelation)
    requires i < |attackers| && attackers[i] !in attackers[..i]
    requires IsMaximumPlan(m0, attackers[..i], blockers, can)
    requires Legal(m1, blockers, can) && Augmented(m0, m1, attackers[i], {})
    ensures Gains(attackers, i, blockers, can) && IsBlockPlan(m1, attackers[..i + 1], blockers, can)
  {
    var a := attackers[i];
    forall b | b in m1 ensures m1[b] in attackers[..i + 1] {
      if m1[b] == a {
        assert attackers[..i + 1][i] == a;
      } else {
        var c :| c in m0 && m0[c] == m1[b];
        TakeNext(attackers, i);
      }
    }
    CoversMore(m0, m1, a);
    assert IsBlockPlan(m1, attackers[..i + 1], blockers, can) && LargerThanAll(m1, attackers[..i], blockers, can);
  }

  /** One that fails shows that it does not. */
  lemma FailedGainsNothing(m: map<Uid, Uid>, attackers: seq<Uid>, i: nat, blockers: seq<Uid>, can: BlockRelation)
    requires i < |attackers|
    requires IsBlockPlan(m, attackers[..i], blockers, can) && IsMaximumPlan(m, attackers[..i + 1], blockers, can)
    ensures !Gains(attackers, i, blockers, can)
  {
  }

  /** An augmentation for a new attacker changes the cover of no other. */
  lemma CoverChanges(m0: map<Uid, Uid>, m1: map<Uid, Uid>, a: Uid, x: Uid)
    requires Augmented(m0, m1, a, {})
    ensures Covers(m1, x) <==> x == a || Covers(m0, x)
  {
  }

  // ------------------------------------------------------------ the search itself

  /** A dead set that proves a plan maximal. */
  ghost predicate IsCertificate(dead: set<Uid>, m: map<Uid, Uid>, attackers: seq<Uid>, blockers: seq<Uid>, can: BlockRelation) {
    && Dead(dead, m, blockers, can)
    && forall a :: a in attackers && !Covers(m, a) ==> Enclosed(a, dead, blockers, can)
  }

  lemma CertifiedMaximum(m: map<Uid, Uid>, dead: set<Uid>, attackers: seq<Uid>, blockers: seq<Uid>, can: BlockRelation)
    requires IsBlockPlan(m, attackers, blockers, can) && IsCertificate(dead, m, attackers, blockers, can)
    ensures IsMaximumPlan(m, attackers, blockers, can)
  {
    forall other | IsBlockPlan(other, attackers, blockers, can) ensures |other| <= |m| {
      DeadSetIsCertificate(m, dead, attackers, blockers, can, other);
    }
  }

  lemma CertificateKept(m0: map<Uid, Uid>, m1: map<Uid, Uid>, dead: set<Uid>, attackers: seq<Uid>, i: nat,
                        blockers: seq<Uid>, can: BlockRelation)
    requires i < |attackers| && attackers[i] !in attackers[..i]
    requires IsCertificate(dead, m0, attackers[..i], blockers, can)
    requires Augmented(m0, m1, attackers[i], {}) && forall b :: b in dead ==> b in m1 && m1[b] == m0[b]
    ensures IsCertificate(dead, m1, attackers[..i + 1], blockers, can)
    ensures forall j :: 0 <= j < i ==> (Covers(m1, attackers[j]) <==> Covers(m0, attackers[j])) && Covers(m1, attackers[i])
  {
    TakeNext(attackers, i);
    forall j | 0 <= j <= i ensures Covers(m1, attackers[j]) <==> j == i || Covers(m0, attackers[j]) {
      CoverChanges(m0, m1, attackers[i], attackers[j]);
      assert j < i ==> attackers[..i][j] == attackers[j];
    }
    forall b | b in dead ensures Enclosed(m1[b], dead, blockers, can) {
      assert Enclosed(m0[b], dead, blockers, can);
    }
    forall x | x in attackers[..i + 1] && !Covers(m1, x) ensures Enclosed(x, dead, blockers, can) {
      assert x in attackers[..i] && !Covers(m0, x);
    }
  }

  lemma DeadGrows(m: map<Uid, Uid>, dead: set<Uid>, visited: set<Uid>, attackers: seq<Uid>, i: nat,
                  blockers: seq<Uid>, can: BlockRelation)
    requires i < |attackers| && attackers[i] !in attackers[..i]
    requires IsBlockPlan(m, attackers[..i], blockers, can) && IsCertificate(dead, m, attackers[..i], blockers, can)
    requires visited <= m.Keys && Enclosed(attackers[i], visited, blockers, can)
    requires forall b :: b in visited ==> Enclosed(m[b], visited, blockers, can)
    ensures IsBlockPlan(m, attackers[..i + 1], blockers, can)
    ensures IsCertificate(dead + visited, m, attackers[..i + 1], blockers, can)
    ensures !Covers(m, attackers[i])
  {
    TakeNext(attackers, i);
    forall b | b in dead + visited ensures Enclosed(m[b], dead + visited, blockers, can) {
      assert Enclosed(m[b], dead, blockers, can) || Enclosed(m[b], visited, blockers, can);
    }
  }

  class Matcher {
    const blockers: seq<Uid>
    const can: BlockRelation
    var matched: map<Uid, Uid>
    var visited: set<Uid>

    constructor (blockers: seq<Uid>, can: BlockRelation)
      ensures this.blockers == blockers && this.can == can
      ensures matched == map[]
    {
      this.blockers, this.can := blockers, can;
      matched, visited := map[], {};
    }

    /** What bounds the recursion: every call visits a blocker no call above it has. */
    ghost function Unvisited(): set<Uid>
      reads this
    {
      set b | b in blockers && b !in visited
    }

    /** The recursive search: on success `matched` has gained one augmenting path, on
        failure it is unchanged and everything reachable has been visited.  A path never
        enters `dead`, whatever dead set is given. */
    method MatchAttacker(a: Uid, ghost dead: set<Uid>) returns (ok: bool)
      requires Legal(matched, blockers, can) && Injective(matched)
      requires visited <= matched.Keys && PartnersSeen(matched, a, visited)
      requires Dead(dead, matched, blockers, can)
      modifies this`matched, this`visited
      ensures old(visited) <= visited
      ensures ok ==> Legal(matched, blockers, can) && Augmented(old(matched), matched, a, old(visited))
      ensures ok ==> forall b :: b in dead ==> b in matched && matched[b] == old(matched)[b]
      ensures Enclosed(a, dead, blockers, can) ==> !ok
      ensures !ok ==> matched == old(matched) && visited <= matched.Keys
      ensures !ok ==> Enclosed(a, visited, blockers, can)
      ensures !ok ==> forall b :: b in visited && b !in old(visited) ==> Enclosed(matched[b], visited, blockers, can)
      decreases Unvisited()
    {
      for i := 0 to |blockers|
        invariant matched == old(matched) && old(visited) <= visited <= matched.Keys
        invariant forall j :: 0 <= j < i && can(blockers[j], a) ==> blockers[j] in visited
        invariant forall b :: b in visited && b !in old(visited) ==> Enclosed(matched[b], visited, blockers, can)
      {
        var b := blockers[i];
        if b in visited || !can(b, a) {
          continue;
        }
        assert b in old(Unvisited());
        visited := visited + {b};
        if b !in matched {
          AugmentFree(matched, b, a, old(visited));
          matched := matched[b := a];
          return true;
        }
        ghost var m0 := matched;
        ghost var deeper := visited;
        var previous := matched[b];
        var moved := MatchAttacker(previous, dead);
        if moved {
          AugmentThrough(m0, matched, b, a, old(visited), deeper);
          matched := matched[b := a];
          return true;
        }
      }
      return false;
    }

    /** One search per attacker, never revisited: exactly the attackers that add to the best plan for
        those before them are covered. */
    method MatchEach(attackers: seq<Uid>)
      requires Distinct(attackers) && matched == map[]
      modifies this`matched, this`visited
      ensures IsMaximumPlan(matched, attackers, blockers, can)
      ensures forall i :: 0 <= i < |attackers| ==> (Covers(matched, attackers[i]) <==> Gains(attackers, i, blockers, can))
    {
      ghost var dead: set<Uid> := {};
      for i := 0 to |attackers|
        invariant IsBlockPlan(matched, attackers[..i], blockers, can)
        invariant IsCertificate(dead, matched, attackers[..i], blockers, can)
        invariant forall j :: 0 <= j < i ==> (Covers(matched, attackers[j]) <==> Gains(attackers, j, blockers, can))
      {
        ghost var m0 := matched;
        CertifiedMaximum(m0, dead, attackers[..i], blockers, can);
        visited := {};
        var ok := MatchAttacker(attackers[i], dead);
        if ok {
          FoundGains(m0, matched, attackers, i, blockers, can);
          CertificateKept(m0, matched, dead, attackers, i, blockers, can);
        } else {
          DeadGrows(matched, dead, visited, attackers, i, blockers, can);
          dead := dead + visited;
          CertifiedMaximum(matched, dead, attackers[..i + 1], blockers, can);
          FailedGainsNothing(matched, attackers, i, blockers, can);
        }
      }
      assert attackers[..|attackers|] == attackers;
      CertifiedMaximum(matched, dead, attackers, blockers, can);
    }

    /** `uncovered` are the attackers that add nothing to the best assignment for those before them. */
    method MatchAll(attackers: seq<Uid>) returns (uncovered: seq<Uid>)
      requires Distinct(attackers) && matched == map[]
      modifies this`matched, this`visited
      ensures IsMaximumPlan(matched, attackers, blockers, can)
      ensures forall a :: a in uncovered <==> a in attackers && !Covers(matched, a)
      ensures forall i :: 0 <= i < |attackers| ==> (attackers[i] in uncovered <==> !Gains(attackers, i, blockers, can))
      ensures uncovered == [] <==> CompletePlanExists(attackers, blockers, can)
    {
      MatchEach(attackers);
      uncovered := [];
      for i := 0 to |attackers|
        invariant forall a :: a in uncovered <==> a in attackers[..i] && !Covers(matched, a)
      {
        if attackers[i] !in matched.Values {
          uncovered := uncovered + [attackers[i]];
        }
        assert attackers[i] in matched.Values <==> Covers(matched, attackers[i]);
        assert attackers[..i + 1] == attackers[..i] + [attackers[i]];
      }
      CompleteIffAllCovered(matched, attackers, blockers, can);
      assert uncovered == [] || uncovered[0] in uncovered;
    }
  }

  /** A maximum plan covers everything exactly when some plan does. */
  lemma CompleteIffAllCovered(m: map<Uid, Uid>, attackers: seq<Uid>, blockers: seq<Uid>, can: BlockRelation)
    requires IsMaximumPlan(m, attackers, blockers, can)
    ensures (forall a :: a in attackers ==> Covers(m, a)) <==> CompletePlanExists(attackers, blockers, can)
  {
    if CompletePlanExists(attackers, blockers, can) {
      var full :| IsBlockPlan(full, attackers, blockers, can) && forall a :: a in attackers ==> Covers(full, a);
      forall a | a in attackers ensures Covers(m, a) {
        if !Covers(m, a) {
          MissingOne(m, full, attackers, a);
          assert false;
        }
      }
    }
  }

  /** A plan that misses an attacker is smaller than one that covers them all. */
  lemma MissingOne(m: map<Uid, Uid>, full: map<Uid, Uid>, attackers: seq<Uid>, a: Uid)
    requires Injective(m) && Injective(full)
    requires forall b :: b in m ==> m[b] in attackers
    requires forall x :: x in attackers ==> Covers(full, x)
    requires a in attackers && !Covers(m, a)
    ensures |m| < |full|
  {
    CoversMore(m, full, a);
  }

  // ------------------------------------------------------------- what a summon buys

  /** A path of take-overs from `a`: each blocker of it can block the attacker that the one before
      it gives up. */
  predicate AlternatingPath(m: map<Uid, Uid>, a: Uid, path: seq<Uid>, can: BlockRelation) {
    path == [] ||
    var n := |path| - 1;
    && path[n] in m && path[n] !in path[..n]
    && AlternatingPath(m, a, path[..n], can)
    && can(path[n], GivenUp(m, a, path[..n]))
  }

  /** The attacker at the end of a path. */
  function GivenUp(m: map<Uid, Uid>, a: Uid, path: seq<Uid>): Uid {
    if path == [] || path[|path| - 1] !in m then a else m[path[|path| - 1]]
  }

  /** From an attacker left open by `m` take-overs lead to one that `u` can block. */
  ghost predicate PathOpensTo(m: map<Uid, Uid>, u: Uid, attackers: seq<Uid>, can: BlockRelation) {
    exists a, path :: a in attackers && !Covers(m, a) && AlternatingPath(m, a, path, can) && can(u, GivenUp(m, a, path))
  }

  lemma {:induction false} PathKept(m: map<Uid, Uid>, m': map<Uid, Uid>, a: Uid, path: seq<Uid>, can: BlockRelation)
    requires AlternatingPath(m, a, path, can)
    requires forall b :: b in path ==> b in m' && (b in m ==> m'[b] == m[b])
    ensures AlternatingPath(m', a, path, can) && GivenUp(m', a, path) == GivenUp(m, a, path)
    decreases |path|
  {
    if path != [] {
      var n := |path| - 1;
      assert path[n] in path && forall b :: b in path[..n] ==> b in path;
      PathKept(m, m', a, path[..n], can);
    }
  }

  lemma {:induction false} PathMatched(m: map<Uid, Uid>, a: Uid, path: seq<Uid>, can: BlockRelation)
    requires AlternatingPath(m, a, path, can)
    ensures forall b :: b in path ==> b in m
    decreases |path|
  {
    if path != [] {
      PathMatched(m, a, path[..|path| - 1], can);
      AllButLast(path);
    }
  }

  /** Along a path a free blocker at its end lets one more attacker be blocked. */
  lemma {:induction false} AugmentAlong(m: map<Uid, Uid>, a: Uid, path: seq<Uid>, u: Uid, attackers: seq<Uid>,
                                        blockers: seq<Uid>, can: BlockRelation) returns (more: map<Uid, Uid>)
    requires IsBlockPlan(m, attackers, blockers, can) && a in attackers && !Covers(m, a)
    requires AlternatingPath(m, a, path, can) && u in blockers && u !in m && can(u, GivenUp(m, a, path))
    ensures IsBlockPlan(more, attackers, blockers, can) && |more| == |m| + 1
    decreases |path|
  {
    if path == [] {
      more := m[u := a];
    } else {
      var n := |path| - 1;
      var b, e := path[n], m[path[n]];
      var moved := HandedOver(m, b, u, attackers, blockers, can);
      PathMatched(m, a, path, can);
      assert forall c :: c in path[..n] ==> c in path;
      PathKept(m, moved, a, path[..n], can);
      assert !Covers(moved, a);
      more := AugmentAlong(moved, a, path[..n], b, attackers, blockers, can);
    }
  }

  /** `u` takes over the attacker of `b`. */
  lemma HandedOver(m: map<Uid, Uid>, b: Uid, u: Uid, attackers: seq<Uid>, blockers: seq<Uid>, can: BlockRelation)
    returns (moved: map<Uid, Uid>)
    requires IsBlockPlan(m, attackers, blockers, can) && b in m && u in blockers && u !in m && can(u, m[b])
    ensures IsBlockPlan(moved, attackers, blockers, can) && |moved| == |m|
    ensures b !in moved && b in blockers && forall c :: c in m && c != b ==> c in moved && moved[c] == m[c]
    ensures forall x :: Covers(moved, x) ==> Covers(m, x)
  {
    var rest := m - {b};
    assert m == rest[b := m[b]];
    moved := rest[u := m[b]];
    forall x | Covers(moved, x) ensures Covers(m, x) {
      var c :| c in moved && moved[c] == x;
      assert c == u ==> m[b] == x;
    }
  }

  /** The blockers at the end of paths from attackers left open. */
  ghost function Reached(m: map<Uid, Uid>, attackers: seq<Uid>, can: BlockRelation): set<Uid> {
    set b | b in m && ReachedBy(m, attackers, can, b)
  }

  ghost predicate ReachedBy(m: map<Uid, Uid>, attackers: seq<Uid>, can: BlockRelation, b: Uid) {
    exists a, path ::
      && a in attackers && !Covers(m, a) && AlternatingPath(m, a, path, can)
      && path != [] && path[|path| - 1] == b
  }

  lemma {:induction false} PathTo(m: map<Uid, Uid>, a: Uid, path: seq<Uid>, can: BlockRelation, c: Uid) returns (front: seq<Uid>)
    requires AlternatingPath(m, a, path, can) && c in path
    ensures AlternatingPath(m, a, front, can) && front != [] && front[|front| - 1] == c
    decreases |path|
  {
    if path[|path| - 1] == c {
      front := path;
    } else {
      AllButLast(path);
      front := PathTo(m, a, path[..|path| - 1], can, c);
    }
  }

  /** In a maximum plan whoever can block the end of a path is matched and reached itself. */
  lemma NextReached(m: map<Uid, Uid>, a: Uid, path: seq<Uid>, c: Uid, attackers: seq<Uid>, blockers: seq<Uid>, can: BlockRelation)
    requires IsMaximumPlan(m, attackers, blockers, can) && a in attackers && !Covers(m, a)
    requires AlternatingPath(m, a, path, can) && c in blockers && can(c, GivenUp(m, a, path))
    ensures c in Reached(m, attackers, can)
  {
    if c !in m {
      var more := AugmentAlong(m, a, path, c, attackers, blockers, can);
      assert false;
    }
    if c in path {
      var front := PathTo(m, a, path, can, c);
      assert ReachedBy(m, attackers, can, c);
    } else {
      var longer := path + [c];
      assert longer[..|path|] == path && AlternatingPath(m, a, longer, can);
      assert ReachedBy(m, attackers, can, c);
    }
  }

  /** Without a path to one it can block, a further blocker gains nothing. */
  lemma NoPathNoGain(m: map<Uid, Uid>, u: Uid, attackers: seq<Uid>, blockers: seq<Uid>, can: BlockRelation)
    requires IsMaximumPlan(m, attackers, blockers, can) && !PathOpensTo(m, u, attackers, can)
    ensures IsMaximumPlan(m, attackers, blockers + [u], can)
  {
    var r := Reached(m, attackers, can);
    forall b | b in r ensures Enclosed(m[b], r, blockers + [u], can) {
      var a, path :| a in attackers && !Covers(m, a) && AlternatingPath(m, a, path, can) && path != [] && path[|path| - 1] == b;
      PathEnclosed(m, a, path, u, attackers, blockers, can);
    }
    forall a | a in attackers && !Covers(m, a) ensures Enclosed(a, r, blockers + [u], can) {
      PathEnclosed(m, a, [], u, attackers, blockers, can);
    }
    CertifiedMaximum(m, r, attackers, blockers + [u], can);
  }

  lemma PathEnclosed(m: map<Uid, Uid>, a: Uid, path: seq<Uid>, u: Uid, attackers: seq<Uid>, blockers: seq<Uid>, can: BlockRelation)
    requires IsMaximumPlan(m, attackers, blockers, can) && !PathOpensTo(m, u, attackers, can)
    requires a in attackers && !Covers(m, a) && AlternatingPath(m, a, path, can)
    ensures Enclosed(GivenUp(m, a, path), Reached(m, attackers, can), blockers + [u], can)
  {
    forall c | c in blockers + [u] && can(c, GivenUp(m, a, path)) ensures c in Reached(m, attackers, can) {
      NextReached(m, a, path, c, attackers, blockers, can);
    }
  }

  lemma WithoutOne(big: map<Uid, Uid>, u: Uid, attackers: seq<Uid>, blockers: seq<Uid>, can: BlockRelation)
    requires IsBlockPlan(big, attackers, blockers + [u], can)
    ensures IsBlockPlan(big - {u}, attackers, blockers, can) && |big| <= |big - {u}| + 1
  {
    assert (big - {u}).Keys == big.Keys - {u};
  }

  /** What one more blocker buys: one more attacker blocked, exactly when take-overs lead from an
      attacker left open to one that it can block, whichever maximum plan is looked at. */
  lemma SummonGains(m: map<Uid, Uid>, big: map<Uid, Uid>, u: Uid, attackers: seq<Uid>, blockers: seq<Uid>, can: BlockRelation)
    requires u !in blockers
    requires IsMaximumPlan(m, attackers, blockers, can) && IsMaximumPlan(big, attackers, blockers + [u], can)
    ensures |m| <= |big| <= |m| + 1
    ensures |m| < |big| <==> PathOpensTo(m, u, attackers, can)
  {
    assert IsBlockPlan(m, attackers, blockers + [u], can);
    WithoutOne(big, u, attackers, blockers, can);
    if PathOpensTo(m, u, attackers, can) {
      var a, path :| a in attackers && !Covers(m, a) && AlternatingPath(m, a, path, can) && can(u, GivenUp(m, a, path));
      var more := AugmentAlong(m, a, path, u, attackers, blockers + [u], can);
    } else {
      NoPathNoGain(m, u, attackers, blockers, can);
    }
  }

  /** A summon that can block an attacker left open always buys a block. */
  lemma OpenAttackerGains(m: map<Uid, Uid>, big: map<Uid, Uid>, u: Uid, a: Uid, attackers: seq<Uid>, blockers: seq<Uid>,
                          can: BlockRelation)
    requires u !in blockers && a in attackers && !Covers(m, a) && can(u, a)
    requires IsMaximumPlan(m, attackers, blockers, can) && IsMaximumPlan(big, attackers, blockers + [u], can)
    ensures |big| == |m| + 1
  {
    assert AlternatingPath(m, a, [], can) && can(u, GivenUp(m, a, []));
    SummonGains(m, big, u, attackers, blockers, can);
  }

  // ------------------------------------------------------------- the AI's decision

  datatype Troop = Troop(uid: Uid, tapped: bool, cantBlock: bool, cantBeBlocked: bool, flight: bool, skyGuard: bool)

  /** A troop a quick action in hand would summon. */
  datatype Summon = Summon(exhausted: bool, attacking: bool, cantBlock: bool, flight: bool, skyGuard: bool)

  datatype HandCard = HandCard(quickAction: bool, playable: bool, summons: seq<Summon>)

  predicate CanBlock(blocker: Troop, attacker: Troop) {
    && !blocker.cantBlock
    && !attacker.cantBeBlocked
    && (attacker.flight ==> blocker.flight || blocker.skyGuard)
  }

  /** Whether the troop `s` brings could block `attacker` this combat. */
  predicate CouldBlock(s: Summon, attacker: Troop) {
    && !s.exhausted && !s.attacking && !s.cantBlock
    && !attacker.cantBeBlocked
    && (attacker.flight ==> s.flight || s.skyGuard)
  }

  predicate Helps(card: HandCard, attacker: Troop) {
    card.quickAction && card.playable && exists s :: s in card.summons && CouldBlock(s, attacker)
  }

  predicate HandHelps(hand: seq<HandCard>, attacker: Troop) {
    exists card :: card in hand && Helps(card, attacker)
  }

  /** The decision over the attackers in play: one that adds nothing to the best plan for those
      before it can be blocked with what is in hand. */
  ghost predicate Spends(attackers: seq<Uid>, blockers: seq<Uid>, can: BlockRelation, helps: Uid -> bool) {
    exists i :: 0 <= i < |attackers| && !Gains(attackers, i, blockers, can) && helps(attackers[i])
  }

  /** A set of blocks for attackers of `targets`. */
  ghost predicate IsPlanFor(m: map<Uid, Uid>, targets: set<Uid>, blockers: seq<Uid>, can: BlockRelation) {
    Legal(m, blockers, can) && Injective(m) && m.Values <= targets
  }

  /** With `a`, more attackers of `before` and `a` can be blocked than of `before` alone. */
  ghost predicate Adds(before: set<Uid>, a: Uid, blockers: seq<Uid>, can: BlockRelation) {
    exists p ::
      && IsPlanFor(p, before + {a}, blockers, can)
      && forall q :: IsPlanFor(q, before, blockers, can) ==> |q| < |p|
  }

  function InPlay(uids: seq<Uid>, warzone: map<Uid, Troop>): set<Uid> {
    set u | u in uids && u in warzone
  }

  /** The decision in the order in which the attackers were declared: one in play that something in
      hand can block adds nothing to the best plan for those in play declared before it. */
  ghost predicate SpendsFor(declared: seq<Uid>, warzone: map<Uid, Troop>, blockers: seq<Uid>, can: BlockRelation, helps: Uid -> bool) {
    exists k ::
      && 0 <= k < |declared| && declared[k] in warzone && helps(declared[k])
      && !Adds(InPlay(declared[..k], warzone), declared[k], blockers, can)
  }

  lemma SamePlans(m: map<Uid, Uid>, attackers: seq<Uid>, targets: set<Uid>, blockers: seq<Uid>, can: BlockRelation)
    requires forall a :: a in attackers <==> a in targets
    ensures IsBlockPlan(m, attackers, blockers, can) <==> IsPlanFor(m, targets, blockers, can)
  {
    assert (forall b :: b in m ==> m[b] in attackers) <==> m.Values <= targets;
  }

  lemma GainsIsAdds(attackers: seq<Uid>, i: nat, before: set<Uid>, blockers: seq<Uid>, can: BlockRelation)
    requires i < |attackers| && forall a :: a in attackers[..i] <==> a in before
    ensures Gains(attackers, i, blockers, can) <==> Adds(before, attackers[i], blockers, can)
  {
    TakeNext(attackers, i);
    forall m ensures IsBlockPlan(m, attackers[..i], blockers, can) <==> IsPlanFor(m, before, blockers, can) {
      SamePlans(m, attackers[..i], before, blockers, can);
    }
    forall m ensures IsBlockPlan(m, attackers[..i + 1], blockers, can) <==> IsPlanFor(m, before + {attackers[i]}, blockers, can) {
      SamePlans(m, attackers[..i + 1], before + {attackers[i]}, blockers, can);
    }
    if Gains(attackers, i, blockers, can) {
      var p :| IsBlockPlan(p, attackers[..i + 1], blockers, can) && LargerThanAll(p, attackers[..i], blockers, can);
      assert IsPlanFor(p, before + {attackers[i]}, blockers, can);
    }
    if Adds(before, attackers[i], blockers, can) {
      var p :| IsPlanFor(p, before + {attackers[i]}, blockers, can) && forall q :: IsPlanFor(q, before, blockers, can) ==> |q| < |p|;
      assert IsBlockPlan(p, attackers[..i + 1], blockers, can) && LargerThanAll(p, attackers[..i], blockers, can);
    }
  }

  lemma SpendsNext(attackers: seq<Uid>, a: Uid, blockers: seq<Uid>, can: BlockRelation, helps: Uid -> bool)
    ensures
      Spends(attackers + [a], blockers, can, helps) <==>
      Spends(attackers, blockers, can, helps) || (!Gains(attackers + [a], |attackers|, blockers, can) && helps(a))
  {
    var more := attackers + [a];
    forall i | 0 <= i < |attackers| ensures Gains(more, i, blockers, can) <==> Gains(attackers, i, blockers, can) {
      assert more[..i] == attackers[..i] && more[..i + 1] == attackers[..i + 1];
    }
  }

  lemma SpendsForNext(declared: seq<Uid>, a: Uid, warzone: map<Uid, Troop>, blockers: seq<Uid>, can: BlockRelation, helps: Uid -> bool)
    ensures
      SpendsFor(declared + [a], warzone, blockers, can, helps) <==>
      || SpendsFor(declared, warzone, blockers, can, helps)
      || (a in warzone && helps(a) && !Adds(InPlay(declared, warzone), a, blockers, can))
  {
    var more, n := declared + [a], |declared|;
    assert more[..n] == declared && more[n] == a;
    forall k | 0 <= k < n ensures more[..k] == declared[..k] {}
  }

  lemma PresentNext(front: seq<Uid>, a: Uid, warzone: map<Uid, Troop>)
    requires Distinct(front + [a])
    ensures Distinct(front)
    ensures Present(front + [a], warzone) == if a in warzone then Present(front, warzone) + [a] else Present(front, warzone)
  {
    assert forall i, j :: 0 <= i < j < |front| ==> front[i] == (front + [a])[i] && front[j] == (front + [a])[j];
    assert (front + [a])[..|front|] == front;
    Unit(Present(front, warzone));
  }

  /** Looking only at the attackers in play keeps the order in which they were declared. */
  lemma {:induction false} SpendsInDeclaredOrder(declared: seq<Uid>, warzone: map<Uid, Troop>, blockers: seq<Uid>,
                                                 can: BlockRelation, helps: Uid -> bool)
    requires Distinct(declared)
    ensures
      Spends(Present(declared, warzone), blockers, can, helps) <==> SpendsFor(declared, warzone, blockers, can, helps)
  {
    if declared != [] {
      var n := |declared| - 1;
      var front, a := declared[..n], declared[n];
      var before := Present(front, warzone);
      SpendsInDeclaredOrder(front, warzone, blockers, can, helps);
      PresentNext(front, a, warzone);
      AllButLast(declared);
      SpendsForNext(front, a, warzone, blockers, can, helps);
      if a in warzone {
        SpendsNext(before, a, blockers, can, helps);
        assert (before + [a])[..|before|] == before;
        GainsIsAdds(before + [a], |before|, InPlay(front, warzone), blockers, can);
      }
    }
  }

  function ByUid(cards: seq<Troop>): (m: map<Uid, Troop>)
    ensures forall u :: u in m <==> exists c :: c in cards && c.uid == u
    ensures forall u :: u in m ==> m[u] in cards && m[u].uid == u
  {
    if cards == [] then map[] else
      var n := |cards| - 1;
      ByUid(cards[..n])[cards[n].uid := cards[n]]
  }

  /** The last of several records with one uid counts. */
  lemma {:induction false} LastOfUid(cards: seq<Troop>, i: nat)
    requires i < |cards| && forall j :: i < j < |cards| ==> cards[j].uid != cards[i].uid
    ensures cards[i].uid in ByUid(cards) && ByUid(cards)[cards[i].uid] == cards[i]
    decreases |cards|
  {
    if i < |cards| - 1 {
      LastOfUid(cards[..|cards| - 1], i);
    }
  }

  function Usable(cards: seq<Troop>): (r: seq<Uid>)
    ensures forall u :: u in r <==> exists c :: c in cards && c.uid == u && !c.tapped && !c.cantBlock
  {
    if cards == [] then [] else
      var n := |cards| - 1;
      Usable(cards[..n]) + (if cards[n].tapped || cards[n].cantBlock then [] else [cards[n].uid])
  }

  function Present(declared: seq<Uid>, warzone: map<Uid, Troop>): (r: seq<Uid>)
    requires Distinct(declared)
    ensures Distinct(r) && forall u :: u in r <==> u in declared && u in warzone
  {
    if declared == [] then [] else
      var n := |declared| - 1;
      Present(declared[..n], warzone) + (if declared[n] in warzone then [declared[n]] else [])
  }

  /** Who may block whom among the troops in play. */
  function Relation(own: map<Uid, Troop>, enemies: map<Uid, Troop>): BlockRelation {
    (b, a) => b in own && a in enemies && CanBlock(own[b], enemies[a])
  }

  function Helpful(hand: seq<HandCard>, enemies: map<Uid, Troop>): Uid -> bool {
    a => a in enemies && HandHelps(hand, enemies[a])
  }

  /** What the attributes decide: nobody and no summon can block an attacker that cannot be blocked,
      only flyers and sky guards a flyer, and every usable troop any other. */
  lemma AttributesDecide(cards: seq<Troop>, enemies: map<Uid, Troop>, hand: seq<HandCard>, a: Uid, i: nat)
    requires a in enemies && i < |cards| && forall j :: 0 <= j < |cards| && j != i ==> cards[j].uid != cards[i].uid
    ensures
      cards[i].uid in Usable(cards) && Relation(ByUid(cards), enemies)(cards[i].uid, a) <==>
      && !cards[i].tapped && !cards[i].cantBlock && !enemies[a].cantBeBlocked
      && (!enemies[a].flight || cards[i].flight || cards[i].skyGuard)
    ensures
      Helpful(hand, enemies)(a) <==>
      !enemies[a].cantBeBlocked &&
      exists card, s ::
        && card in hand && card.quickAction && card.playable && s in card.summons
        && !s.exhausted && !s.attacking && !s.cantBlock && (s.flight || s.skyGuard || !enemies[a].flight)
  {
    LastOfUid(cards, i);
    UsableOnce(cards, i);
    var u, own := cards[i].uid, ByUid(cards);
    assert own[u] == cards[i];
    assert Relation(own, enemies)(u, a) <==> CanBlock(cards[i], enemies[a]);
  }

  lemma UsableOnce(cards: seq<Troop>, i: nat)
    requires i < |cards| && forall j :: 0 <= j < |cards| && j != i ==> cards[j].uid != cards[i].uid
    ensures cards[i].uid in Usable(cards) <==> !cards[i].tapped && !cards[i].cantBlock
  {
    assert cards[i] in cards;
    if cards[i].uid in Usable(cards) {
      var c :| c in cards && c.uid == cards[i].uid && !c.tapped && !c.cantBlock;
      var j :| 0 <= j < |cards| && cards[j] == c;
      assert j == i;
    }
  }

  /** A maximum plan decides: something in hand helps against an attacker it leaves open. */
  ghost predicate OpenInPlan(attackers: seq<Uid>, blockers: seq<Uid>, can: BlockRelation, helps: Uid -> bool, needed: bool) {
    exists plan ::
      && IsMaximumPlan(plan, attackers, blockers, can)
      && (needed <==> exists a :: a in attackers && !Covers(plan, a) && helps(a))
  }

  /** Spend a quick summon only when even the best assignment of the troops in play
      leaves an attacker unblocked that the summoned troop could block. */
  method NeedsMoreBlockingTroops(playerWarzone: seq<Troop>, aiWarzone: seq<Troop>, declared: seq<Uid>,
                                 blocksDeclared: bool, hand: seq<HandCard>) returns (needed: bool)
    requires Distinct(declared)
    ensures var enemies := ByUid(playerWarzone);
            var can, helps := Relation(ByUid(aiWarzone), enemies), Helpful(hand, enemies);
            var attackers, blockers := Present(declared, enemies), Usable(aiWarzone);
            && (blocksDeclared || CompletePlanExists(attackers, blockers, can) ==> !needed)
            && (!blocksDeclared ==> OpenInPlan(attackers, blockers, can, helps, needed))
            && (needed <==> !blocksDeclared && SpendsFor(declared, enemies, blockers, can, helps))
  {
    if blocksDeclared {
      return false;
    }
    var enemies := ByUid(playerWarzone);
    needed := HelpsOpenAttacker(Present(declared, enemies), Usable(aiWarzone), Relation(ByUid(aiWarzone), enemies),
                                Helpful(hand, enemies));
    SpendsInDeclaredOrder(declared, enemies, Usable(aiWarzone), Relation(ByUid(aiWarzone), enemies), Helpful(hand, enemies));
  }

  method HelpsOpenAttacker(attackers: seq<Uid>, blockers: seq<Uid>, can: BlockRelation, helps: Uid -> bool) returns (needed: bool)
    requires Distinct(attackers)
    ensures CompletePlanExists(attackers, blockers, can) ==> !needed
    ensures OpenInPlan(attackers, blockers, can, helps, needed)
    ensures needed <==> Spends(attackers, blockers, can, helps)
  {
    var matcher := new Matcher(blockers, can);
    var uncovered := matcher.MatchAll(attackers);
    ghost var plan := matcher.matched;
    needed := exists a :: a in uncovered && helps(a);
    assert IsMaximumPlan(plan, attackers, blockers, can);
    OpenByOrder(attackers, uncovered, blockers, can, helps);
  }

  lemma OpenByOrder(attackers: seq<Uid>, uncovered: seq<Uid>, blockers: seq<Uid>, can: BlockRelation, helps: Uid -> bool)
    requires forall a :: a in uncovered ==> a in attackers
    requires forall i :: 0 <= i < |attackers| ==> (attackers[i] in uncovered <==> !Gains(attackers, i, blockers, can))
    ensures Spends(attackers, blockers, can, helps) <==> exists a :: a in uncovered && helps(a)
  {
  }

  /** What the order in which attackers were declared decides. With one blocker for both, the summon
      can block only the attacker declared first: it completes the defense either way, but only when
      that attacker is declared last is it spent. */
  lemma OrderDecidesSpending()
    ensures
      var can := (b: Uid, a: Uid) => (b == 2 && a <= 1) || (b == 3 && a == 0);
      var summon := (a: Uid) => can(3, a);
      && !Spends([0, 1], [2], can, summon) && Spends([1, 0], [2], can, summon)
      && !CompletePlanExists([0, 1], [2], can) && CompletePlanExists([0, 1], [2, 3], can)
  {
    var can := (b: Uid, a: Uid) => (b == 2 && a <= 1) || (b == 3 && a == 0);
    FirstOnly(0, 1, 2, can);
    FirstOnly(1, 0, 2, can);
    assert [1, 0][1] == 0;
    var full: map<Uid, Uid> := map[3 := 0, 2 := 1];
    assert full[3] == 0 && full[2] == 1;
    assert Covers(full, 0) && Covers(full, 1);
    assert IsBlockPlan(full, [0, 1], [2, 3], can);
  }

  /** A single blocker for two attackers goes to the first. */
  lemma FirstOnly(a: Uid, a': Uid, b: Uid, can: BlockRelation)
    requires a != a' && can(b, a) && can(b, a')
    ensures Gains([a, a'], 0, [b], can) && !Gains([a, a'], 1, [b], can)
    ensures !CompletePlanExists([a, a'], [b], can)
  {
    var attackers := [a, a'];
    var one: map<Uid, Uid> := map[b := a];
    assert attackers[..0] == [] && attackers[..1] == [a];
    assert IsBlockPlan(one, [a], [b], can) && |one| == 1;
    forall q | IsBlockPlan(q, [], [b], can) ensures |q| < |one| { assert q == map[]; }
    assert LargerThanAll(one, [], [b], can);
    forall p | IsBlockPlan(p, attackers[..2], [b], can) ensures |p| <= 1 { SubsetSize(p.Keys, {b}); }
    forall full | IsBlockPlan(full, attackers, [b], can) ensures !(Covers(full, a) && Covers(full, a')) {
      assert full.Keys <= {b};
    }
    assert a in attackers && a' in attackers;
  }
}
