/** The cursor over a turn's phase list and the hand-over from one turn to the next. */
module BattleTurns {
  import opened TurnPhases
  import opened Wrappers

  datatype Side = Player | Ai
  {
    function Other(): Side { if Player? then Ai else Player }
  }

  /** The part of the battle state that decides whose turn it is and where it stands. */
  datatype Turn = Turn(player: Side, number: nat, idx: nat, phases: seq<Phase>,
                       ready: bool, extra: nat, bonus: Option<Side>)
  {
    /** An empty stored list stands for one not built yet. */
    function Cached(): (t: Turn)
      ensures t.phases != []
    {
      if phases == [] then this.(phases := BuildTurnPhases(ready, extra)) else this
    }

    predicate InBounds() { idx < |phases| }

    /** The next turn: a bonus marker of the current side is used up and keeps the turn. */
    function NextTurn(): (t: Turn)
      ensures t.InBounds()
    {
      var kept := bonus == Some(player);
      Turn(if kept then player else player.Other(), number + 1, 0, BuildTurnPhases(ready, 0), ready, 0,
           if kept then None else bonus)
    }

    function Advance(): (t: Turn)
      ensures t.InBounds()
    {
      if idx + 1 >= |Cached().phases| then NextTurn() else Cached().(idx := idx + 1)
    }
  }

  class BattleState {
    var turnPlayer: Side
    var turnNumber: nat
    var phaseIdx: nat
    var phaseList: seq<Phase>
    var hasReadyTroop: bool
    var extraCombats: nat
    var bonusTurn: Option<Side>
    var playerPassed: bool
    var aiPassed: bool

    constructor ()
      ensures State() == Turn(Player, 1, 0, BaseTurn, false, 0, None) && State().InBounds()
    {
      turnPlayer, turnNumber, phaseIdx, phaseList := Player, 1, 0, BaseTurn;
      hasReadyTroop, extraCombats, bonusTurn := false, 0, None;
      playerPassed, aiPassed := false, false;
    }

    function State(): Turn
      reads this
    {
      Turn(turnPlayer, turnNumber, phaseIdx, phaseList, hasReadyTroop, extraCombats, bonusTurn)
    }

    method TurnPhases() returns (phases: seq<Phase>)
      modifies this`phaseList
      ensures State() == old(State()).Cached() && phases == phaseList
    {
      if phaseList == [] {
        phaseList := BuildTurnPhases(hasReadyTroop, extraCombats);
      }
      phases := phaseList;
    }

    method CurrentPhase() returns (phase: Phase)
      modifies this`phaseList
      ensures State() == old(State()).Cached()
      ensures phase == phaseList[phaseIdx % |phaseList|]
    {
      var phases := TurnPhases();
      phase := phases[phaseIdx % |phases|];
    }

    method NextTurnPlayer() returns (side: Side)
      modifies this`bonusTurn
      ensures side == old(State()).NextTurn().player
      ensures State() == old(State()).(bonus := old(State()).NextTurn().bonus)
    {
      if bonusTurn == Some(turnPlayer) {
        bonusTurn := None;
        return turnPlayer;
      }
      side := turnPlayer.Other();
    }

    /** Moves the cursor on, or hands the turn over. */
    method MoveCursor()
      modifies this`turnPlayer, this`turnNumber, this`phaseIdx, this`phaseList, this`extraCombats, this`bonusTurn
      ensures State() == old(State()).Advance()
    {
      var phases := TurnPhases();
      var next := phaseIdx + 1;
      if next >= |phases| {
        turnPlayer := NextTurnPlayer();
        turnNumber := turnNumber + 1;
        phaseIdx := 0;
        extraCombats := 0;
        phaseList := BuildTurnPhases(hasReadyTroop, extraCombats);
      } else {
        phaseIdx := next;
      }
    }

    method AdvancePhase() returns (phase: Phase)
      modifies this
      ensures State() == old(State()).Advance()
      ensures phase == phaseList[phaseIdx]
      ensures !playerPassed && !aiPassed
    {
      playerPassed, aiPassed := false, false;
      MoveCursor();
      assert State().InBounds();
      SmallQuotient(phaseIdx, |phaseList|);
      phase := CurrentPhase();
    }

    /** Jumps to the first `phase` at or ahead of the cursor, and leaves the cursor alone when
        there is none. */
    method SkipToPhase(phase: Phase) returns (found: bool)
      modifies this`phaseIdx, this`phaseList
      ensures
        var was := old(State()).Cached();
        var target := IndexFrom(was.phases, phase, was.idx);
        found == target.Some? && State() == was.(idx := target.GetOr(was.idx))
    {
      var phases := TurnPhases();
      var target := IndexFrom(phases, phase, phaseIdx);
      if target.None? {
        return false;
      }
      phaseIdx := target.value;
      found := true;
    }
  }

  // ------------------------------------------------------------ passing through turns

  function Run(t: Turn, passes: nat): (r: Turn)
    requires t.InBounds()
    ensures r.InBounds()
  {
    if passes == 0 then t else Run(t, passes - 1).Advance()
  }

  function Flipped(side: Side, times: nat): Side { if times % 2 == 0 then side else side.Other() }

  /** How many of the first `turns` hand-overs a marker keeps: the marker of the side to move is
      used at the first one, the other side's waits for the second. */
  function Kept(side: Side, bonus: Option<Side>, turns: nat): nat {
    if bonus.None? then 0
    else if turns >= (if bonus.value == side then 1 else 2) then 1 else 0
  }

  /** The start of the `turns`-th turn after this one. */
  function TurnAfter(t: Turn, turns: nat): Turn
    requires turns > 0
  {
    var kept := Kept(t.player, t.bonus, turns);
    Turn(Flipped(t.player, turns - kept), t.number + turns, 0, BuildTurnPhases(t.ready, 0), t.ready, 0,
         if kept == 1 then None else t.bonus)
  }

  lemma NextTurnAfter(t: Turn, turns: nat)
    requires turns > 0
    ensures t.NextTurn() == TurnAfter(t, 1)
    ensures TurnAfter(t, turns).NextTurn() == TurnAfter(t, turns + 1)
  {
  }

  /** Where `passes` passes lead: the current turn takes exactly the rest of its list, every
      later turn its whole list. */
  function Passed(t: Turn, passes: nat): Turn
    requires t.InBounds()
  {
    var rest := |t.phases| - t.idx;
    if passes < rest then t.(idx := t.idx + passes) else Later(t, passes - rest)
  }

  /** `passes` passes behind the start of the next turn. */
  function Later(t: Turn, passes: nat): Turn {
    var length := |BuildTurnPhases(t.ready, 0)|;
    TurnAfter(t, 1 + passes / length).(idx := passes % length)
  }

  lemma PassedStep(t: Turn, passes: nat)
    requires t.InBounds()
    ensures Passed(t, passes + 1) == Passed(t, passes).Advance()
  {
    var rest := |t.phases| - t.idx;
    if passes + 1 == rest {
      NextTurnAfter(t, 1);
      SmallQuotient(0, |BuildTurnPhases(t.ready, 0)|);
    } else if passes >= rest {
      LaterStep(t, passes - rest);
    }
  }

  lemma LaterStep(t: Turn, passes: nat)
    ensures Later(t, passes + 1) == Later(t, passes).Advance()
  {
    var length := |BuildTurnPhases(t.ready, 0)|;
    NextInPeriod(passes, length);
    AdvanceInTurn(t, 1 + passes / length, passes % length);
  }

  lemma AdvanceInTurn(t: Turn, turns: nat, i: nat)
    requires turns > 0 && i < |BuildTurnPhases(t.ready, 0)|
    ensures
      TurnAfter(t, turns).(idx := i).Advance() ==
      if i + 1 < |BuildTurnPhases(t.ready, 0)| then TurnAfter(t, turns).(idx := i + 1) else TurnAfter(t, turns + 1)
  {
    NextTurnAfter(t, turns);
    var at, start := TurnAfter(t, turns).(idx := i), TurnAfter(t, turns);
    assert at.NextTurn() == start.NextTurn();
  }

  /** Every run of passes from a cursor in its list has that closed form: the number rises by one
      per turn, and the player alternates except at the one hand-over that a marker keeps. */
  lemma {:induction false} RunClosedForm(t: Turn, passes: nat)
    requires t.InBounds()
    ensures Run(t, passes) == Passed(t, passes)
  {
    if passes > 0 {
      RunClosedForm(t, passes - 1);
      PassedStep(t, passes - 1);
    }
  }

  lemma SmallQuotient(m: nat, length: nat)
    requires m < length
    ensures m / length == 0 && m % length == m
  {
  }

  lemma NextInPeriod(m: nat, length: nat)
    requires length > 0
    ensures
      if m % length + 1 < length then (m + 1) / length == m / length && (m + 1) % length == m % length + 1
      else (m + 1) / length == m / length + 1 && (m + 1) % length == 0
  {
    var q, r := m / length, m % length;
    assert m == q * length + r;
    if r + 1 < length {
      Divides(q, r + 1, length);
    } else {
      assert m + 1 == (q + 1) * length + 0;
      Divides(q + 1, 0, length);
    }
  }

  lemma {:induction false} Multiples(a: nat, b: nat, length: nat)
    requires a < b
    ensures a * length + length <= b * length
    decreases b
  {
    assert b * length == (b - 1) * length + length;
    if a < b - 1 {
      Multiples(a, b - 1, length);
    }
  }

  lemma Divides(q: nat, r: nat, length: nat)
    requires r < length
    ensures (q * length + r) / length == q && (q * length + r) % length == r
  {
    var d := (q * length + r) / length;
    if d < q {
      Multiples(d, q, length);
      assert false;
    } else if d > q {
      Multiples(q, d, length);
      assert false;
    }
  }

  // ------------------------------------------------------------ runs with other events

  /** What changes the turn besides a pass: the AI ends its turn with the base list and its flag left
      as it is, the start of a human turn lowers the flag, readying the troops and the first main
      phase decide it and rebuild the list, a chain resolved in a main phase rebuilds it as the flag
      stands, an effect grants a bonus turn or adds an extra combat. */
  datatype Event = Pass | AiEnds | Restart | SetReady(ready: bool) | Rebuild | GrantBonus(side: Side) | AddCombat

  predicate Moves(e: Event) { e.Pass? || e.AiEnds? }

  /** The list was built for `built`, when there were at most as many extra combats as now. */
  ghost predicate BuiltFor(t: Turn, built: bool) {
    t.InBounds() && exists listed: nat :: listed <= t.extra && IsTurnList(t.phases, built, listed)
  }

  /** The list was built for the flag as it stands. */
  ghost predicate WellFormed(t: Turn) { BuiltFor(t, t.ready) }

  /** ... or for a lowered flag: the AI's end of turn stores the base list and leaves its flag up. */
  ghost predicate Usable(t: Turn) { WellFormed(t) || BuiltFor(t, false) }

  function Apply(t: Turn, e: Event): Turn
    requires t.InBounds()
  {
    var phase := t.phases[t.idx];
    match e
    case Pass => t.Advance()
    case AiEnds =>
      if t.idx + 1 < |t.phases| then t else t.NextTurn().(phases := BaseTurn, extra := t.extra)
    case Restart =>
      if phase == StartTurn then t.(ready := false, phases := BaseTurn) else t
    case SetReady(ready) =>
      if phase == Prep || phase == FirstMain then t.(ready := ready, phases := BuildTurnPhases(ready, t.extra)) else t
    case Rebuild =>
      if phase == FirstMain || phase == SecondMain then t.(phases := BuildTurnPhases(t.ready, t.extra)) else t
    case GrantBonus(side) => t.(bonus := Some(side))
    case AddCombat => t.(extra := t.extra + 1)
  }

  /** Where the phases stand at which a list is rebuilt. */
  lemma RebuildPoints(phases: seq<Phase>, ready: bool, extra: nat, i: nat)
    requires IsTurnList(phases, ready, extra) && i < |phases|
    ensures phases[i] == StartTurn ==> i == 0
    ensures phases[i] == Prep ==> i == 2
    ensures phases[i] == FirstMain ==> i == 4
    ensures phases[i] == SecondMain ==> i <= LastMain(ready, extra)
  {
    assert phases[i] == PhaseAt(ready, extra, i);
  }

  lemma HeadUnmoved(before: seq<Phase>, after: seq<Phase>, ready: bool, k: nat, ready': bool, e: nat, i: nat)
    requires IsTurnList(before, ready, k) && IsTurnList(after, ready', e) && i < 5
    ensures i < |before| && i < |after| && after[i] == before[i]
  {
    assert before[i] == PhaseAt(ready, k, i) && after[i] == PhaseAt(ready', e, i);
  }

  /** What becomes of the list: it stays, or it is rebuilt for the flag. */
  lemma ListAfter(t: Turn, e: Event, built: bool)
    requires BuiltFor(t, built) && !Moves(e) && Apply(t, e).InBounds()
    ensures WellFormed(Apply(t, e)) || (BuiltFor(Apply(t, e), built) && Apply(t, e).ready == t.ready)
  {
    var listed: nat :| listed <= t.extra && IsTurnList(t.phases, built, listed);
    var r := Apply(t, e);
    BuiltList(r.ready, r.extra);
    BaseListed();
    if r.phases == t.phases {
      assert IsTurnList(r.phases, built, listed);
    }
  }

  /** Only a pass, or the AI's end of turn, moves on: after any other event the cursor is where it
      was and shows the same phase, even when the list has been rebuilt with the combats added
      meanwhile. */
  lemma OnlyPassesMove(t: Turn, e: Event)
    requires WellFormed(t)
    ensures if e.AiEnds? then Usable(Apply(t, e)) else WellFormed(Apply(t, e))
    ensures !Moves(e) ==> Apply(t, e).idx == t.idx && Apply(t, e).phases[t.idx] == t.phases[t.idx]
  {
    var listed: nat :| listed <= t.extra && IsTurnList(t.phases, t.ready, listed);
    if e.Pass? {
      PassKeepsList(t, t.ready, listed);
    } else if e.AiEnds? {
      BaseListed();
    } else {
      PhaseKept(t, e, t.ready, listed);
      ListAfter(t, e, t.ready);
    }
  }

  /** Under a list built for a lowered flag while the flag is up, exactly a rebuild in a second main
      phase shows another phase: there the raised list has a combat. */
  lemma StaleListMoves(t: Turn, e: Event)
    requires BuiltFor(t, false) && t.ready
    ensures Usable(Apply(t, e))
    ensures
      !Moves(e) ==>
        && Apply(t, e).idx == t.idx
        && (Apply(t, e).phases[t.idx] == t.phases[t.idx] <==> !(e.Rebuild? && t.phases[t.idx] == SecondMain))
  {
    var listed: nat :| listed <= t.extra && IsTurnList(t.phases, false, listed);
    if e.Pass? {
      PassKeepsList(t, false, listed);
    } else if e.AiEnds? {
      BaseListed();
    } else if e.Rebuild? && t.phases[t.idx] == SecondMain {
      BuiltList(true, t.extra);
      RaisedRebuild(t.phases, Apply(t, e).phases, listed, t.extra, t.idx);
      ListAfter(t, e, false);
    } else {
      PhaseKept(t, e, false, listed);
      ListAfter(t, e, false);
    }
  }

  lemma RaisedRebuild(before: seq<Phase>, after: seq<Phase>, listed: nat, extra: nat, i: nat)
    requires IsTurnList(before, false, listed) && IsTurnList(after, true, extra) && listed <= extra
    requires i < |before| && before[i] == SecondMain
    ensures i < |after| && after[i] == DeclareCombatWindow
  {
    assert before[i] == PhaseAt(false, listed, i);
    assert after[i] == PhaseAt(true, extra, i);
  }

  /** The phase under the cursor outlives every event but a pass, unless the list is rebuilt in a
      second main phase for another flag. */
  lemma PhaseKept(t: Turn, e: Event, built: bool, listed: nat)
    requires t.InBounds() && listed <= t.extra && IsTurnList(t.phases, built, listed) && !Moves(e)
    requires e.Rebuild? && t.phases[t.idx] == SecondMain ==> built == t.ready
    ensures
      var r := Apply(t, e);
      r.idx == t.idx && r.InBounds() && r.phases[t.idx] == t.phases[t.idx]
  {
    var r := Apply(t, e);
    RebuildPoints(t.phases, built, listed, t.idx);
    if r.phases != t.phases {
      BuiltList(r.ready, t.extra);
      BaseListed();
      if e.Restart? {
        HeadUnmoved(t.phases, BaseTurn, built, listed, false, 0, t.idx);
      } else if t.idx < 5 {
        HeadUnmoved(t.phases, r.phases, built, listed, r.ready, t.extra, t.idx);
      } else {
        ExtraEntriesKeepCursor(t.phases, r.phases, built, listed, t.extra, t.idx);
      }
    }
  }

  lemma PassKeepsList(t: Turn, built: bool, listed: nat)
    requires t.InBounds() && listed <= t.extra && IsTurnList(t.phases, built, listed)
    ensures WellFormed(t.Advance()) || (BuiltFor(t.Advance(), built) && t.Advance().ready == t.ready)
  {
    BuiltList(t.ready, 0);
    assert t.idx + 1 < |t.phases| ==> IsTurnList(t.Advance().phases, built, listed);
  }

  lemma UsableStays(t: Turn, e: Event)
    requires Usable(t)
    ensures Usable(Apply(t, e))
  {
    if WellFormed(t) {
      OnlyPassesMove(t, e);
    } else if t.ready {
      StaleListMoves(t, e);
    }
  }

  lemma BaseListed()
    ensures IsTurnList(BaseTurn, false, 0)
  {
    BuiltList(false, 0);
  }

  /** An AI turn that ends with its flag up leaves a list not built for the flag; the start of the
      human turn, or deciding the flag, makes it one again. */
  lemma AiLeavesStaleList(t: Turn)
    requires t.InBounds() && t.idx + 1 == |t.phases| && t.ready
    ensures Usable(Apply(t, AiEnds)) && !WellFormed(Apply(t, AiEnds))
    ensures WellFormed(Apply(Apply(t, AiEnds), Restart))
  {
    BaseListed();
    assert BaseTurn[0] == Head[0];
    var r := Apply(t, AiEnds);
    if listed: nat :| listed <= r.extra && IsTurnList(r.phases, true, listed) {
      assert false;
    }
    assert IsTurnList(BaseTurn, false, 0);
  }

  lemma DecidingRestores(t: Turn, ready: bool)
    requires Usable(t) && (t.phases[t.idx] == Prep || t.phases[t.idx] == FirstMain)
    ensures WellFormed(Apply(t, SetReady(ready))) && Apply(t, SetReady(ready)).ready == ready
  {
    var built := WellFormed(t) && t.ready;
    assert BuiltFor(t, built);
    var listed: nat :| listed <= t.extra && IsTurnList(t.phases, built, listed);
    RebuildPoints(t.phases, built, listed, t.idx);
    BuiltList(ready, t.extra);
  }

  /** A missing list is built for the flag and the extra combats; one that is there stays. */
  lemma MissingListIsBuilt(t: Turn)
    ensures t.phases == [] ==> t.Cached() == t.(phases := t.Cached().phases) && IsTurnList(t.Cached().phases, t.ready, t.extra)
    ensures t.phases != [] ==> t.Cached() == t
  {
    BuiltList(t.ready, t.extra);
  }

  /** A granted bonus turn: the side that gets it moves after the next hand-over that is its own, and
      only then is the marker gone. */
  lemma BonusIsTaken(t: Turn, side: Side)
    requires t.InBounds()
    ensures
      var granted, rest := Apply(t, GrantBonus(side)), |t.phases| - t.idx;
      var next := Run(granted, rest);
      && next.player == (if side == t.player then t.player else t.player.Other())
      && next.bonus == (if side == t.player then None else Some(side))
      && (side != t.player ==> Run(next, |next.phases|).player == side && Run(next, |next.phases|).bonus == None)
  {
    var granted := Apply(t, GrantBonus(side));
    TurnPassed(granted);
    TurnPassed(granted.NextTurn());
  }

  /** Passing through the rest of a turn hands it over. */
  lemma TurnPassed(t: Turn)
    requires t.InBounds()
    ensures Run(t, |t.phases| - t.idx) == t.NextTurn()
  {
    RunClosedForm(t, |t.phases| - t.idx);
    PassedToEnd(t, |t.phases| - t.idx);
  }

  lemma PassedToEnd(t: Turn, rest: nat)
    requires t.InBounds() && rest == |t.phases| - t.idx
    ensures Passed(t, rest) == t.NextTurn()
  {
    LaterStart(t);
    assert rest - (|t.phases| - t.idx) == 0;
  }

  lemma LaterStart(t: Turn)
    ensures Later(t, 0) == t.NextTurn()
  {
    SmallQuotient(0, |BuildTurnPhases(t.ready, 0)|);
    NextTurnAfter(t, 1);
  }

  /** An extra combat added in a main phase is fought once the list is rebuilt: the list then has one
      more combat sequence, and the cursor has not moved. */
  lemma AddedCombatIsFought(t: Turn)
    requires t.InBounds() && IsTurnList(t.phases, t.ready, t.extra)
    requires t.phases[t.idx] == FirstMain || t.phases[t.idx] == SecondMain
    ensures OneMoreCombat(t, Apply(Apply(t, AddCombat), Rebuild))
  {
    AddThenRebuild(t);
    LongerTurn(t);
  }

  lemma LongerTurn(t: Turn)
    requires t.InBounds() && IsTurnList(t.phases, t.ready, t.extra)
    requires t.phases[t.idx] == FirstMain || t.phases[t.idx] == SecondMain
    ensures OneMoreCombat(t, t.(phases := BuildTurnPhases(t.ready, t.extra + 1), extra := t.extra + 1))
  {
    OneCombatLonger(t.phases, t.ready, t.extra, t.idx);
  }

  /** The same turn at the same phase, with one more combat sequence in its list. */
  ghost predicate OneMoreCombat(t: Turn, r: Turn) {
    && r == t.(phases := r.phases, extra := t.extra + 1) && t.InBounds() && r.InBounds()
    && IsTurnList(r.phases, t.ready, t.extra + 1) && |r.phases| == |t.phases| + 9
    && r.phases[t.idx] == t.phases[t.idx] && CombatCount(r.ready, r.extra) == CombatCount(t.ready, t.extra) + 1
  }

  lemma AddThenRebuild(t: Turn)
    requires t.InBounds() && (t.phases[t.idx] == FirstMain || t.phases[t.idx] == SecondMain)
    ensures
      Apply(Apply(t, AddCombat), Rebuild) == t.(phases := BuildTurnPhases(t.ready, t.extra + 1), extra := t.extra + 1)
  {
    var added := Apply(t, AddCombat);
    assert added == t.(extra := t.extra + 1);
  }

  lemma OneCombatLonger(phases: seq<Phase>, ready: bool, extra: nat, i: nat)
    requires IsTurnList(phases, ready, extra) && i < |phases| && (phases[i] == FirstMain || phases[i] == SecondMain)
    ensures
      var longer := BuildTurnPhases(ready, extra + 1);
      IsTurnList(longer, ready, extra + 1) && |longer| == |phases| + 9 && longer[i] == phases[i]
  {
    BuiltList(ready, extra + 1);
    RebuildPoints(phases, ready, extra, i);
    ExtraEntriesKeepCursor(phases, BuildTurnPhases(ready, extra + 1), ready, extra, extra + 1, i);
  }

  /** Elsewhere neither a rebuild nor a decision does anything, and hand-overs forget extra combats. */
  lemma OutsideMainsNothing(t: Turn, e: Event)
    requires t.InBounds()
    ensures e.Rebuild? && t.phases[t.idx] != FirstMain && t.phases[t.idx] != SecondMain ==> Apply(t, e) == t
    ensures e.SetReady? && t.phases[t.idx] != FirstMain && t.phases[t.idx] != Prep ==> Apply(t, e) == t
    ensures e.Pass? && EndsTurn(t, e) ==> Apply(t, e).extra == 0 && IsTurnList(Apply(t, e).phases, t.ready, 0)
  {
    BuiltList(t.ready, 0);
  }

  ghost function RunEvents(t: Turn, es: seq<Event>): (r: Turn)
    requires Usable(t)
    ensures Usable(r)
  {
    if es == [] then t
    else
      var before := RunEvents(t, es[..|es| - 1]);
      UsableStays(before, es[|es| - 1]);
      Apply(before, es[|es| - 1])
  }

  predicate EndsTurn(t: Turn, e: Event) { Moves(e) && t.idx + 1 >= |t.phases| }

  /** How many turns a run ends, and how many of these hand-overs a marker keeps. */
  ghost function TurnsEnded(t: Turn, es: seq<Event>): nat
    requires Usable(t)
  {
    if es == [] then 0
    else
      var rest, e := es[..|es| - 1], es[|es| - 1];
      TurnsEnded(t, rest) + if EndsTurn(RunEvents(t, rest), e) then 1 else 0
  }

  ghost function TurnsKept(t: Turn, es: seq<Event>): nat
    requires Usable(t)
  {
    if es == [] then 0
    else
      var rest, e := es[..|es| - 1], es[|es| - 1];
      var before := RunEvents(t, rest);
      TurnsKept(t, rest) + if EndsTurn(before, e) && before.bonus == Some(before.player) then 1 else 0
  }

  function Grants(es: seq<Event>): nat {
    if es == [] then 0 else Grants(es[..|es| - 1]) + if es[|es| - 1].GrantBonus? then 1 else 0
  }

  function Pending(t: Turn): nat { if t.bonus.Some? then 1 else 0 }

  lemma ApplyOnce(t: Turn, e: Event)
    requires t.InBounds()
    ensures
      var r := Apply(t, e);
      var kept := EndsTurn(t, e) && t.bonus == Some(t.player);
      && r.number == t.number + (if EndsTurn(t, e) then 1 else 0)
      && r.player == (if EndsTurn(t, e) && !kept then t.player.Other() else t.player)
      && (if kept then 1 else 0) + Pending(r) <= Pending(t) + (if e.GrantBonus? then 1 else 0)
  {
  }

  /** What a run that ended `ended` turns, `kept` of them by a marker, has done to the turn. */
  predicate RunLaw(t: Turn, u: Turn, ended: nat, kept: nat, grants: nat) {
    && u.number == t.number + ended && kept <= ended
    && u.player == Flipped(t.player, ended - kept)
    && kept + Pending(u) <= Pending(t) + grants
  }

  lemma LawStep(t: Turn, u: Turn, ended: nat, kept: nat, grants: nat, e: Event)
    requires u.InBounds() && RunLaw(t, u, ended, kept, grants)
    ensures
      var ends := EndsTurn(u, e);
      RunLaw(t, Apply(u, e), ended + (if ends then 1 else 0),
             kept + (if ends && u.bonus == Some(u.player) then 1 else 0), grants + (if e.GrantBonus? then 1 else 0))
  {
    ApplyOnce(u, e);
  }

  /** Over every run: the cursor stays in its list, the number counts the turns ended, the player
      flips once per turn that no marker keeps, and every kept turn uses up one granted marker. */
  lemma {:induction false} EveryRun(t: Turn, es: seq<Event>)
    requires Usable(t)
    ensures RunEvents(t, es).InBounds()
    ensures RunLaw(t, RunEvents(t, es), TurnsEnded(t, es), TurnsKept(t, es), Grants(es))
  {
    if es != [] {
      var rest, e := es[..|es| - 1], es[|es| - 1];
      EveryRun(t, rest);
      LawStep(t, RunEvents(t, rest), TurnsEnded(t, rest), TurnsKept(t, rest), Grants(rest), e);
      CountsNext(t, es);
    }
  }

  lemma CountsNext(t: Turn, es: seq<Event>)
    requires Usable(t) && es != []
    ensures
      var rest, e := es[..|es| - 1], es[|es| - 1];
      var before := RunEvents(t, rest);
      && RunEvents(t, es) == Apply(before, e)
      && TurnsEnded(t, es) == TurnsEnded(t, rest) + (if EndsTurn(before, e) then 1 else 0)
      && TurnsKept(t, es) == TurnsKept(t, rest) + (if EndsTurn(before, e) && before.bonus == Some(before.player) then 1 else 0)
      && Grants(es) == Grants(rest) + if e.GrantBonus? then 1 else 0
  {
  }
}
