/** The turn and phase machine of a battle: phase lists built at run time, the cursor, bonus
    turns and extra combats. */
module TurnPhases {
  import opened Lists
  import opened Wrappers

  datatype Phase =
    | StartTurn | Ready | Prep | Draw | FirstMain
    | DeclareCombatWindow | DeclareAttack | DeclareAttackWindow | DeclareDefense | DeclareDefenseWindow
    | AssignFirstStrike | FirstStrikeWindow | AssignDamage
    | SecondMain | EndPhase | Discard | EndTurn

  const Head: seq<Phase> := [StartTurn, Ready, Prep, Draw, FirstMain]

  const CombatSteps: seq<Phase> :=
    [DeclareCombatWindow, DeclareAttack, DeclareAttackWindow, DeclareDefense, DeclareDefenseWindow,
     AssignFirstStrike, FirstStrikeWindow, AssignDamage]

  const Tail: seq<Phase> := [EndPhase, Discard, EndTurn]

  const BaseTurn: seq<Phase> := Head + [SecondMain] + Tail

  const CombatTurn: seq<Phase> := Head + CombatSteps + [SecondMain] + Tail

  predicate IsCombatStep(p: Phase) {
    match p
    case DeclareCombatWindow | DeclareAttack | DeclareAttackWindow | DeclareDefense | DeclareDefenseWindow
       | AssignFirstStrike | FirstStrikeWindow | AssignDamage => true
    case _ => false
  }

  /** `list.index(x, from)`: the first position of `x` at or after `from`. */
  function IndexFrom(s: seq<Phase>, x: Phase, from: nat): (r: Option<nat>)
    ensures r.Some? ==> from <= r.value < |s| && s[r.value] == x && forall k :: from <= k < r.value ==> s[k] != x
    ensures r.None? ==> forall k :: from <= k < |s| ==> s[k] != x
    decreases |s| - from
  {
    if from >= |s| then None else if s[from] == x then Some(from) else IndexFrom(s, x, from + 1)
  }

  /** One combat sequence closed by its own second main phase, `n` times. */
  function ExtraCombats(n: nat): (r: seq<Phase>)
    ensures |r| == 9 * n
  {
    if n == 0 then [] else ExtraCombats(n - 1) + CombatSteps + [SecondMain]
  }

  /** The turn's list: combat steps when a troop is ready, and one more combat sequence per
      extra-combat entry behind the first second main phase. */
  function BuildTurnPhases(ready: bool, extra: nat): (r: seq<Phase>)
    ensures |r| >= 9
  {
    var phases := if ready then CombatTurn else BaseTurn;
    if extra == 0 then phases
    else
      match IndexFrom(phases, SecondMain, 0)
      case None => phases
      case Some(main) => phases[..main + 1] + ExtraCombats(extra) + phases[main + 1..]
  }

  // ------------------------------------------------------------ the shape of the lists

  /** Everything between the head and the tail: second main phases, each after a combat
      sequence, except that the first has none when no troop is ready. */
  function Middle(ready: bool, extra: nat): seq<Phase> {
    if ready then ExtraCombats(extra + 1) else [SecondMain] + ExtraCombats(extra)
  }

  lemma {:induction false} ExtraCombatsFront(n: nat)
    ensures ExtraCombats(n + 1) == CombatSteps + [SecondMain] + ExtraCombats(n)
  {
    if n > 0 {
      ExtraCombatsFront(n - 1);
      assert ExtraCombats(n + 1) == CombatSteps + [SecondMain] + ExtraCombats(n - 1) + CombatSteps + [SecondMain];
    }
  }

  lemma FirstIndex(s: seq<Phase>, x: Phase, from: nat, at: nat)
    requires from <= at < |s| && s[at] == x && forall k :: from <= k < at ==> s[k] != x
    ensures IndexFrom(s, x, from) == Some(at)
  {
  }

  lemma SplitAtMain(front: seq<Phase>, rest: seq<Phase>)
    requires 0 < |front| && front[|front| - 1] == SecondMain
    requires forall k :: 0 <= k < |front| - 1 ==> front[k] != SecondMain
    ensures IndexFrom(front + rest, SecondMain, 0) == Some(|front| - 1)
    ensures (front + rest)[..|front|] == front && (front + rest)[|front|..] == rest
  {
    FirstIndex(front + rest, SecondMain, 0, |front| - 1);
  }

  /** The part of a base list up to its second main phase. */
  function Front(ready: bool): (r: seq<Phase>)
    ensures 0 < |r| && r[|r| - 1] == SecondMain
    ensures forall k :: 0 <= k < |r| - 1 ==> r[k] != SecondMain
  {
    if ready then Head + CombatSteps + [SecondMain] else Head + [SecondMain]
  }

  lemma FrontAndMiddle(ready: bool, extra: nat)
    ensures Front(ready) + ExtraCombats(extra) == Head + Middle(ready, extra)
  {
    if ready {
      ExtraCombatsFront(extra);
      Associate(Head, CombatSteps, [SecondMain]);
      Associate(Head, CombatSteps + [SecondMain], ExtraCombats(extra));
    } else {
      Associate(Head, [SecondMain], ExtraCombats(extra));
    }
  }

  lemma ListShape(ready: bool, extra: nat)
    ensures BuildTurnPhases(ready, extra) == Head + Middle(ready, extra) + Tail
  {
    FrontAndMiddle(ready, extra);
    SplitAtMain(Front(ready), Tail);
    Unit(Front(ready));
  }

  /** The phase at position `k` of a combat sequence and the main phase that closes it. */
  function CombatPhase(k: nat): Phase
    requires k < 9
  {
    if k == 0 then DeclareCombatWindow else if k == 1 then DeclareAttack else if k == 2 then DeclareAttackWindow
    else if k == 3 then DeclareDefense else if k == 4 then DeclareDefenseWindow else if k == 5 then AssignFirstStrike
    else if k == 6 then FirstStrikeWindow else if k == 7 then AssignDamage else SecondMain
  }

  function HeadPhase(k: nat): Phase
    requires k < 5
  {
    if k == 0 then StartTurn else if k == 1 then Ready else if k == 2 then Prep else if k == 3 then Draw else FirstMain
  }

  function TailPhase(k: nat): Phase
    requires k < 3
  {
    if k == 0 then EndPhase else if k == 1 then Discard else EndTurn
  }

  lemma {:induction false} ExtraCombatAt(n: nat, i: nat)
    requires i < 9 * n
    ensures ExtraCombats(n)[i] == CombatPhase(i % 9)
  {
    if i < 9 * (n - 1) {
      ExtraCombatAt(n - 1, i);
    } else {
      var k := i - 9 * (n - 1);
      assert i % 9 == k;
      assert ExtraCombats(n)[i] == (CombatSteps + [SecondMain])[k];
    }
  }

  /** Where the combat sequences of a list begin, and how many there are. */
  function FirstCombat(ready: bool): nat { if ready then 5 else 6 }

  function CombatCount(ready: bool, extra: nat): nat { if ready then extra + 1 else extra }

  function LastMain(ready: bool, extra: nat): nat { FirstCombat(ready) + 9 * CombatCount(ready, extra) - 1 }

  /** The phase at every position of a list. */
  function PhaseAt(ready: bool, extra: nat, i: nat): Phase
    requires i < LastMain(ready, extra) + 4
  {
    if i < 5 then HeadPhase(i)
    else if i > LastMain(ready, extra) then TailPhase(i - LastMain(ready, extra) - 1)
    else if i < FirstCombat(ready) then SecondMain
    else CombatPhase((i - FirstCombat(ready)) % 9)
  }

  /** What a turn's list is: its length and the phase at each of its positions. */
  ghost predicate IsTurnList(phases: seq<Phase>, ready: bool, extra: nat) {
    && |phases| == LastMain(ready, extra) + 4
    && forall i :: 0 <= i < |phases| ==> phases[i] == PhaseAt(ready, extra, i)
  }

  lemma ShapedAt(head: seq<Phase>, middle: seq<Phase>, tail: seq<Phase>, i: nat)
    requires |head| == 5 && |tail| == 3 && i < |middle| + 8
    ensures
      (head + middle + tail)[i] ==
      (if i < 5 then head[i] else if i < 5 + |middle| then middle[i - 5] else tail[i - 5 - |middle|])
  {
  }

  lemma MiddleAt(ready: bool, extra: nat, i: nat)
    requires i + 5 <= LastMain(ready, extra)
    ensures |Middle(ready, extra)| == LastMain(ready, extra) - 4
    ensures Middle(ready, extra)[i] == PhaseAt(ready, extra, i + 5)
  {
    var first, n := FirstCombat(ready), CombatCount(ready, extra);
    if first <= i + 5 {
      ExtraCombatAt(n, i + 5 - first);
    }
  }

  lemma ShapeIsTurnList(ready: bool, extra: nat, i: nat)
    requires i < LastMain(ready, extra) + 4
    ensures |Head + Middle(ready, extra) + Tail| == LastMain(ready, extra) + 4
    ensures (Head + Middle(ready, extra) + Tail)[i] == PhaseAt(ready, extra, i)
  {
    MiddleAt(ready, extra, if 5 <= i <= LastMain(ready, extra) then i - 5 else 0);
    ShapedAt(Head, Middle(ready, extra), Tail, i);
  }

  /** The built list is that list. */
  lemma BuiltList(ready: bool, extra: nat)
    ensures IsTurnList(BuildTurnPhases(ready, extra), ready, extra)
  {
    ListShape(ready, extra);
    ShapeIsTurnList(ready, extra, 0);
    forall i | 0 <= i < LastMain(ready, extra) + 4
      ensures (Head + Middle(ready, extra) + Tail)[i] == PhaseAt(ready, extra, i)
    {
      ShapeIsTurnList(ready, extra, i);
    }
  }

  /** Start of the combat sequence that position `i` lies in. */
  function CombatStart(ready: bool, i: nat): int {
    i - (i - FirstCombat(ready)) % 9
  }

  lemma CombatStepAt(ready: bool, extra: nat, i: nat)
    requires i < LastMain(ready, extra) + 4 && IsCombatStep(PhaseAt(ready, extra, i))
    ensures FirstCombat(ready) <= i < LastMain(ready, extra)
    ensures FirstCombat(ready) <= CombatStart(ready, i) <= i < CombatStart(ready, i) + 8 <= LastMain(ready, extra)
  {
    var first := FirstCombat(ready);
    var q := (i - first) / 9;
    assert i - (i - first) % 9 == first + 9 * q;
    assert q < CombatCount(ready, extra);
  }

  lemma SequenceAt(ready: bool, extra: nat, i: nat, k: nat)
    requires k < 9 && FirstCombat(ready) <= i && CombatStart(ready, i) + 8 <= LastMain(ready, extra)
    ensures
      var at := CombatStart(ready, i) + k;
      FirstCombat(ready) <= at <= LastMain(ready, extra) && PhaseAt(ready, extra, at) == CombatPhase(k)
  {
    var first := FirstCombat(ready);
    var q := (i - first) / 9;
    assert CombatStart(ready, i) == first + 9 * q;
    assert (CombatStart(ready, i) + k - first) % 9 == k;
  }

  lemma SequencePhase(phases: seq<Phase>, ready: bool, extra: nat, i: nat, k: nat)
    requires IsTurnList(phases, ready, extra) && k < 9
    requires FirstCombat(ready) <= i && CombatStart(ready, i) + 8 <= LastMain(ready, extra)
    ensures 0 <= CombatStart(ready, i) + k < |phases| && phases[CombatStart(ready, i) + k] == CombatPhase(k)
  {
    SequenceAt(ready, extra, i, k);
    var at := CombatStart(ready, i) + k;
    assert phases[at] == PhaseAt(ready, extra, at);
  }

  /** Every combat step belongs to a complete sequence of eight steps that is closed by its
      own second main phase. */
  lemma CombatStepInSequence(phases: seq<Phase>, ready: bool, extra: nat, i: nat)
    requires IsTurnList(phases, ready, extra)
    requires i < |phases| && IsCombatStep(phases[i])
    ensures FirstCombat(ready) <= CombatStart(ready, i) <= i < CombatStart(ready, i) + 8 < |phases|
    ensures IsSequence(phases, CombatStart(ready, i))
  {
    assert phases[i] == PhaseAt(ready, extra, i);
    CombatStepAt(ready, extra, i);
    SequenceHolds(phases, ready, extra, i);
  }

  lemma SequenceHolds(phases: seq<Phase>, ready: bool, extra: nat, i: nat)
    requires IsTurnList(phases, ready, extra)
    requires FirstCombat(ready) <= i && CombatStart(ready, i) + 8 <= LastMain(ready, extra)
    ensures CombatStart(ready, i) >= 0 && IsSequence(phases, CombatStart(ready, i))
  {
    SequencePhase(phases, ready, extra, i, 0);
    SequencePhase(phases, ready, extra, i, 1);
    SequencePhase(phases, ready, extra, i, 2);
    SequencePhase(phases, ready, extra, i, 3);
    SequencePhase(phases, ready, extra, i, 4);
    SequencePhase(phases, ready, extra, i, 5);
    SequencePhase(phases, ready, extra, i, 6);
    SequencePhase(phases, ready, extra, i, 7);
    SequencePhase(phases, ready, extra, i, 8);
  }

  /** Eight combat steps and a second main phase, in order, from `start` on. */
  predicate IsSequence(phases: seq<Phase>, start: nat) {
    && start + 8 < |phases|
    && phases[start] == DeclareCombatWindow && phases[start + 1] == DeclareAttack
    && phases[start + 2] == DeclareAttackWindow && phases[start + 3] == DeclareDefense
    && phases[start + 4] == DeclareDefenseWindow && phases[start + 5] == AssignFirstStrike
    && phases[start + 6] == FirstStrikeWindow && phases[start + 7] == AssignDamage
    && phases[start + 8] == SecondMain
  }

  lemma NextMainInSequence(phases: seq<Phase>, start: nat, i: nat)
    requires IsSequence(phases, start) && start <= i < start + 8
    ensures IndexFrom(phases, SecondMain, i) == Some(start + 8)
    ensures forall k :: i < k <= start + 8 ==> phases[k] != DeclareCombatWindow
  {
    FirstIndex(phases, SecondMain, i, start + 8);
  }

  /** From a combat step the next second main phase is the one that closes its sequence, so
      skipping to it loses no later combat: none begins in between. */
  lemma SkipLosesNoCombat(phases: seq<Phase>, ready: bool, extra: nat, i: nat)
    requires IsTurnList(phases, ready, extra)
    requires i < |phases| && IsCombatStep(phases[i])
    ensures
      var end := CombatStart(ready, i) + 8;
      && i < end
      && IndexFrom(phases, SecondMain, i) == Some(end)
      && forall k :: i < k <= end ==> phases[k] != DeclareCombatWindow
  {
    CombatStepInSequence(phases, ready, extra, i);
    NextMainInSequence(phases, CombatStart(ready, i), i);
  }

  lemma PhaseStable(ready: bool, extra: nat, more: nat, i: nat)
    requires extra <= more && i < LastMain(ready, extra) + 4
    ensures LastMain(ready, more) == LastMain(ready, extra) + 9 * (more - extra)
    ensures i <= LastMain(ready, extra) ==> PhaseAt(ready, more, i) == PhaseAt(ready, extra, i)
    ensures i > LastMain(ready, extra) ==> PhaseAt(ready, more, i + 9 * (more - extra)) == PhaseAt(ready, extra, i)
  {
  }

  lemma LastMainPhase(ready: bool, extra: nat)
    ensures PhaseAt(ready, extra, LastMain(ready, extra)) == SecondMain
  {
    var last, first := LastMain(ready, extra), FirstCombat(ready);
    if last >= first {
      assert last - first == 9 * (CombatCount(ready, extra) - 1) + 8;
      assert (last - first) % 9 == 8;
    }
  }

  /** With the ready flag unchanged, more entries change no phase at or before the last second main
      phase, and move the rest back by one combat sequence each. */
  lemma ExtraEntriesKeepCursor(before: seq<Phase>, after: seq<Phase>, ready: bool, extra: nat, more: nat, i: nat)
    requires IsTurnList(before, ready, extra) && IsTurnList(after, ready, more) && extra <= more && i < |before|
    ensures
      var last, shift := LastMain(ready, extra), 9 * (more - extra);
      && last < |before| && before[last] == SecondMain
      && |after| == |before| + shift
      && (i <= last ==> after[i] == before[i])
      && (i > last ==> after[i + shift] == before[i])
  {
    PhaseStable(ready, extra, more, i);
    LastMainPhase(ready, extra);
    assert before[i] == PhaseAt(ready, extra, i);
  }

  lemma NextInSequence(m: nat)
    ensures (m + 1) % 9 == (if m % 9 == 8 then 0 else m % 9 + 1)
  {
  }

  lemma ReadyFlagMovesPhase(extra: nat, i: nat)
    requires i < LastMain(false, extra) + 4
    ensures PhaseAt(true, extra, i) == PhaseAt(false, extra, i) <==> i < 5
    ensures 5 <= i ==> PhaseAt(true, extra, i + 8) == PhaseAt(false, extra, i)
  {
    assert LastMain(false, extra) == 5 + 9 * extra && LastMain(true, extra) == 13 + 9 * extra;
    if 6 <= i <= 5 + 9 * extra {
      NextInSequence(i - 6);
      assert (i + 8 - 5) % 9 == (i - 6) % 9;
    } else if i == 5 {
      assert (5 + 8 - 5) % 9 == 8;
    } else if i > 5 + 9 * extra {
      assert PhaseAt(true, extra, i) == CombatPhase((i - 5) % 9);
    }
  }

  /** Raising the flag in mid-turn does move phases: combat steps go in right after the first
      main phase, so a cursor up to that phase is the only one left in place. */
  lemma ReadyFlagMovesCursor(before: seq<Phase>, after: seq<Phase>, extra: nat, i: nat)
    requires IsTurnList(before, false, extra) && IsTurnList(after, true, extra) && i < |before|
    ensures after[i] == before[i] <==> i < 5
    ensures 5 <= i ==> after[i + 8] == before[i]
  {
    ReadyFlagMovesPhase(extra, i);
    assert before[i] == PhaseAt(false, extra, i);
    assert after[i] == PhaseAt(true, extra, i);
    assert 5 <= i ==> after[i + 8] == PhaseAt(true, extra, i + 8);
  }
}
