/** One attacker against a list of blockers: how much damage gets through, and what is lost. */
module CombatDamage {
  import opened Lists

  /** Attack and defense as the cards report them, never below zero, and what the loss of the
      card is worth. */
  datatype Troop = Troop(attack: nat, defense: nat, immortal: bool, loss: real)

  function TotalDefense(blockers: seq<Troop>): nat {
    if blockers == [] then 0 else TotalDefense(blockers[..|blockers| - 1]) + blockers[|blockers| - 1].defense
  }

  function TotalLoss(blockers: seq<Troop>): real {
    if blockers == [] then 0.0 else TotalLoss(blockers[..|blockers| - 1]) + blockers[|blockers| - 1].loss
  }

  /** Defense and worth add up over the blockers. */
  lemma {:induction false} LossJoined(a: seq<Troop>, b: seq<Troop>)
    ensures TotalLoss(a + b) == TotalLoss(a) + TotalLoss(b)
    ensures forall x :: TotalLoss([x]) == x.loss && TotalDefense([x]) == x.defense
  {
    if b == [] {
      assert a + b == a;
    } else {
      LossJoined(a, b[..|b| - 1]);
      assert (a + b)[..|a + b| - 1] == a + b[..|b| - 1];
    }
  }

  predicate AnyImmortal(blockers: seq<Troop>) { exists b :: b in blockers && b.immortal }

  /** The damage that gets through: none past an immortal blocker, otherwise what the blockers'
      defense leaves. */
  function Through(attack: nat, blockers: seq<Troop>): nat {
    if AnyImmortal(blockers) || attack < TotalDefense(blockers) then 0 else attack - TotalDefense(blockers)
  }

  /** Whether the attacker gets past all of these. */
  predicate Clears(attack: nat, blockers: seq<Troop>) {
    !AnyImmortal(blockers) && TotalDefense(blockers) <= attack
  }

  lemma ClearsNext(attack: nat, blockers: seq<Troop>, i: nat)
    requires i < |blockers| && Clears(attack, blockers[..i])
    ensures
      Clears(attack, blockers[..i + 1]) <==>
      !blockers[i].immortal && blockers[i].defense <= attack - TotalDefense(blockers[..i])
    ensures TotalDefense(blockers[..i + 1]) == TotalDefense(blockers[..i]) + blockers[i].defense
    ensures TotalLoss(blockers[..i + 1]) == TotalLoss(blockers[..i]) + blockers[i].loss
  {
    var next := blockers[..i + 1];
    assert next[..i] == blockers[..i] && next == blockers[..i] + [blockers[i]];
    assert blockers[i] in next;
  }

  lemma {:induction false} DefenseOfPrefix(blockers: seq<Troop>, i: nat)
    requires i <= |blockers|
    ensures TotalDefense(blockers[..i]) <= TotalDefense(blockers)
    decreases |blockers|
  {
    if i < |blockers| {
      assert blockers[..|blockers| - 1][..i] == blockers[..i];
      DefenseOfPrefix(blockers[..|blockers| - 1], i);
    } else {
      assert blockers[..i] == blockers;
    }
  }

  /** Once a blocker stops the attacker, nothing gets through, whoever stands behind it. */
  lemma StoppedAt(attack: nat, blockers: seq<Troop>, i: nat)
    requires i <= |blockers| && !Clears(attack, blockers[..i])
    ensures Through(attack, blockers) == 0
  {
    DefenseOfPrefix(blockers, i);
    assert AnyImmortal(blockers[..i]) ==> AnyImmortal(blockers);
  }

  /** The blockers the attacker meets: all it destroys, and the one that stops it. */
  ghost predicate Meets(attack: nat, blockers: seq<Troop>, i: nat) {
    i < |blockers| && Clears(attack, blockers[..i])
  }

  /** How many blockers are destroyed: the longest stretch from the front that is cleared. */
  ghost predicate Destroyed(attack: nat, blockers: seq<Troop>, n: nat) {
    && n <= |blockers| && Clears(attack, blockers[..n])
    && forall i :: n < i <= |blockers| ==> !Clears(attack, blockers[..i])
  }

  lemma {:induction false} ClearedBefore(attack: nat, blockers: seq<Troop>, i: nat, j: nat)
    requires i <= j <= |blockers| && Clears(attack, blockers[..j])
    ensures Clears(attack, blockers[..i])
  {
    assert blockers[..j][..i] == blockers[..i];
    DefenseOfPrefix(blockers[..j], i);
    assert forall b :: b in blockers[..i] ==> b in blockers[..j];
  }

  /** The attacker's power goes through the blockers in order. */
  method DamageThrough(attacker: Troop, blockers: seq<Troop>)
    returns (through: nat, gained: real, dies: bool, lost: real)
    ensures through == Through(attacker.attack, blockers)
    ensures exists n: nat :: Destroyed(attacker.attack, blockers, n) && gained == TotalLoss(blockers[..n])
    ensures
      dies <==>
      !attacker.immortal
      && exists i: nat :: Meets(attacker.attack, blockers, i) && blockers[i].attack >= attacker.defense
    ensures lost == if dies then attacker.loss else 0.0
  {
    var attack := attacker.attack;
    gained, dies := 0.0, false;
    var i := 0;
    while i < |blockers|
      invariant i <= |blockers| && Clears(attacker.attack, blockers[..i])
      invariant attack == attacker.attack - TotalDefense(blockers[..i])
      invariant gained == TotalLoss(blockers[..i])
      invariant dies <==> !attacker.immortal && exists j :: 0 <= j < i && blockers[j].attack >= attacker.defense
    {
      var b := blockers[i];
      ClearsNext(attacker.attack, blockers, i);
      var hit := b.attack >= attacker.defense && !attacker.immortal;
      dies := dies || hit;
      if attack >= b.defense && !b.immortal {
        gained := gained + b.loss;
        attack := attack - b.defense;
        i := i + 1;
      } else {
        attack := 0;
        StoppedAt(attacker.attack, blockers, i + 1);
        MeetsUpTo(attacker.attack, blockers, i);
        DestroyedHere(attacker.attack, blockers, i);
        break;
      }
    }
    if i == |blockers| {
      assert blockers[..i] == blockers;
      AllMet(attacker.attack, blockers);
      assert Destroyed(attacker.attack, blockers, i);
    }
    return attack, gained, dies, if dies then attacker.loss else 0.0;
  }

  lemma MeetsUpTo(attack: nat, blockers: seq<Troop>, i: nat)
    requires Meets(attack, blockers, i) && !Clears(attack, blockers[..i + 1])
    ensures forall j: nat :: Meets(attack, blockers, j) <==> j <= i
  {
    forall j: nat ensures Meets(attack, blockers, j) <==> j <= i {
      if j <= i {
        ClearedBefore(attack, blockers, j, i);
      } else if Meets(attack, blockers, j) {
        ClearedBefore(attack, blockers, i + 1, j);
        assert false;
      }
    }
  }

  lemma DestroyedHere(attack: nat, blockers: seq<Troop>, i: nat)
    requires Meets(attack, blockers, i) && !Clears(attack, blockers[..i + 1])
    ensures Destroyed(attack, blockers, i)
  {
    forall j | i < j <= |blockers| ensures !Clears(attack, blockers[..j]) {
      if Clears(attack, blockers[..j]) {
        ClearedBefore(attack, blockers, i + 1, j);
        assert false;
      }
    }
  }

  lemma AllMet(attack: nat, blockers: seq<Troop>)
    requires Clears(attack, blockers)
    ensures forall j: nat :: Meets(attack, blockers, j) <==> j < |blockers|
  {
    assert blockers[..|blockers|] == blockers;
    forall j: nat | j < |blockers| ensures Meets(attack, blockers, j) {
      ClearedBefore(attack, blockers, j, |blockers|);
    }
  }

  // ------------------------------------------------------------ order does not matter

  lemma {:induction false} DefenseJoined(a: seq<Troop>, b: seq<Troop>)
    ensures TotalDefense(a + b) == TotalDefense(a) + TotalDefense(b)
  {
    if b == [] {
      assert a + b == a;
    } else {
      DefenseJoined(a, b[..|b| - 1]);
      assert (a + b)[..|a + b| - 1] == a + b[..|b| - 1];
    }
  }

  lemma {:induction false} DefenseOfRearranged(a: seq<Troop>, b: seq<Troop>)
    requires multiset(a) == multiset(b)
    ensures TotalDefense(a) == TotalDefense(b)
    decreases |a|
  {
    if a == [] {
      assert |multiset(b)| == 0;
    } else {
      var front, back := MatchFirst(a, b);
      DefenseOfRearranged(a[1..], front + back);
      DefenseAround(front, a[0], back);
      assert a == [] + [a[0]] + a[1..] && [] + a[1..] == a[1..];
      DefenseAround([], a[0], a[1..]);
    }
  }

  lemma DefenseAround(a: seq<Troop>, x: Troop, c: seq<Troop>)
    ensures TotalDefense(a + [x] + c) == TotalDefense(a + c) + x.defense
  {
    DefenseJoined(a + [x], c);
    DefenseJoined(a, [x]);
    DefenseJoined(a, c);
  }

  /** The damage that gets through does not depend on the order of the blockers. */
  lemma ThroughOrderFree(attack: nat, a: seq<Troop>, b: seq<Troop>)
    requires multiset(a) == multiset(b)
    ensures Through(attack, a) == Through(attack, b)
  {
    DefenseOfRearranged(a, b);
    assert forall x :: x in a <==> x in multiset(a);
    assert forall x :: x in b <==> x in multiset(b);
  }

  /** Adding a blocker anywhere never lets more damage through. */
  lemma MoreBlockersLessDamage(attack: nat, a: seq<Troop>, x: Troop, b: seq<Troop>)
    ensures Through(attack, a + [x] + b) <= Through(attack, a + b)
  {
    DefenseAround(a, x, b);
    assert forall y :: y in a + b ==> y in a + [x] + b;
  }

  /** What is destroyed does depend on the order: a weak blocker in front of a strong one is lost,
      behind it it is not. */
  lemma OrderDecidesLosses(attack: nat, weak: Troop, strong: Troop)
    requires weak.defense <= attack < strong.defense && !weak.immortal
    ensures Destroyed(attack, [weak, strong], 1) && Destroyed(attack, [strong, weak], 0)
  {
    var a, b := [weak, strong], [strong, weak];
    assert a[..0] == [] && b[..0] == [] && a[..1] == [weak] && b[..1] == [strong];
    ClearsNext(attack, a, 0);
    ClearsNext(attack, a, 1);
    ClearsNext(attack, b, 0);
    DestroyedHere(attack, a, 1);
    DestroyedHere(attack, b, 0);
  }
}
