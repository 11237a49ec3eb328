/** The phase loop of the AI's turn. It runs from a cursor, may hand priority to the human and
    return, and is called again with the stored cursor; what that adds up to is compared with
    one run that never returns early. */
module AiTurn {
  import opened Lists
  import opened TurnPhases
  import opened Wrappers

  /** What the loop asks of the rest of the game, which is some world `W`. `extra` counts the extra
      combats of the human side: the list is built from these on either side's turn. */
  datatype Game<!W(!new)> = Game(
    extra: nat,
    dead: W -> bool,
    attacking: W -> bool,
    swiftstrike: W -> bool,
    chainEmpty: W -> bool,
    promptPending: W -> bool,
    canAttack: W -> bool,
    canBlock: W -> bool,
    deckedOut: W -> bool,
    enter: (Phase, W) -> W,
    trick: W -> Option<W>,
    act: (Phase, W) -> W,
    drain: W -> W,
    settle: W -> W)
  {
    /** A trick goes on the chain and entering a phase takes nothing off it. Once the human has
        answered and passed, no prompt and no chain item is left; with neither, passing does
        nothing. */
    ghost predicate Valid() {
      && (forall w :: trick(w).Some? ==> !chainEmpty(trick(w).value))
      && (forall p, w :: chainEmpty(enter(p, w)) ==> chainEmpty(w))
      && (forall w :: chainEmpty(drain(w)))
      && (forall w :: chainEmpty(settle(w)) && !promptPending(settle(w)))
      && (forall w :: chainEmpty(w) && !promptPending(w) ==> settle(w) == w)
    }
  }

  /** The cursor, the stored list with the flag it depends on, and the world. */
  datatype Config<W> = Config(idx: nat, phases: seq<Phase>, ready: bool, world: W)

  /** A phase entered, and what the skip rules saw just before. */
  datatype Entry = Entry(phase: Phase, attacking: bool, swiftstrike: bool)

  /** One round of the loop: a skip rule moved the cursor, a trick repeats the phase, the turn is
      over, or the phase was played and the cursor still stands on it. */
  datatype Round<W> =
    | Skipped(config: Config<W>)
    | Repeated(config: Config<W>, entry: Entry)
    | Over(world: W, entries: seq<Entry>)
    | Played(config: Config<W>, entry: Entry)

  /** Combat steps from the attack window on. */
  predicate NeedsAttackers(p: Phase) { IsCombatStep(p) && p != DeclareCombatWindow && p != DeclareAttack }

  predicate NeedsSwiftstrike(p: Phase) { p == AssignFirstStrike || p == FirstStrikeWindow }

  predicate IsWindow(p: Phase) {
    p == DeclareCombatWindow || p == DeclareAttackWindow || p == DeclareDefenseWindow || p == FirstStrikeWindow
  }

  predicate HasHead(phases: seq<Phase>) {
    |phases| >= 9 && forall i :: 0 <= i < 5 ==> phases[i] == HeadPhase(i)
  }

  /** Up to the first main phase any list will do; that phase rebuilds it, and from then on the
      list is the one for the flag. */
  ghost predicate Inv<W(!new)>(g: Game<W>, c: Config<W>) {
    c.idx < |c.phases| && if c.idx <= 4 then HasHead(c.phases) else IsTurnList(c.phases, c.ready, g.extra)
  }

  function Rebuilt<W(!new)>(g: Game<W>, c: Config<W>, ready: bool, world: W): Config<W> {
    Config(c.idx, BuildTurnPhases(ready, g.extra), ready, world)
  }

  /** What playing a phase does to the list and the world. */
  function Play<W(!new)>(g: Game<W>, c: Config<W>, phase: Phase, world: W): Config<W> {
    var after := g.act(phase, world);
    if phase == FirstMain then Rebuilt(g, c, g.canAttack(after), after)
    else if phase == DeclareAttack && g.attacking(after) then Rebuilt(g, c, true, after)
    else c.(world := after)
  }

  function OneRound<W(!new)>(g: Game<W>, c: Config<W>): Round<W>
    requires c.idx < |c.phases|
  {
    var phase := c.phases[c.idx];
    var entry := Entry(phase, g.attacking(c.world), g.swiftstrike(c.world));
    if g.dead(c.world) then Over(c.world, [])
    else if NeedsAttackers(phase) && !entry.attacking then
      Skipped(c.(idx := IndexFrom(c.phases, SecondMain, c.idx).GetOr(c.idx)))
    else if NeedsSwiftstrike(phase) && !entry.swiftstrike then
      Skipped(c.(idx := IndexFrom(c.phases, AssignDamage, c.idx).GetOr(c.idx)))
    else EnteredRound(g, c, entry)
  }

  /** A round that enters its phase: a trick repeats it, or it is played. */
  function EnteredRound<W(!new)>(g: Game<W>, c: Config<W>, entry: Entry): Round<W> {
    var phase, entered := entry.phase, g.enter(entry.phase, c.world);
    var trick := if IsWindow(phase) && g.chainEmpty(entered) then g.trick(entered) else None;
    if trick.Some? then Repeated(c.(world := trick.value), entry)
    else
      var played := Play(g, c, phase, entered);
      if phase == EndTurn || (phase == Draw && g.deckedOut(played.world)) then Over(played.world, [entry])
      else Played(played, entry)
  }

  // ------------------------------------------------------------ the list around the cursor

  lemma BuiltHasHead(ready: bool, extra: nat)
    ensures HasHead(BuildTurnPhases(ready, extra))
    ensures IsTurnList(BuildTurnPhases(ready, extra), ready, extra)
  {
    BuiltList(ready, extra);
    var phases := BuildTurnPhases(ready, extra);
    forall i | 0 <= i < 5 ensures phases[i] == HeadPhase(i) {
      assert phases[i] == PhaseAt(ready, extra, i);
    }
  }

  lemma NextDamage(phases: seq<Phase>, start: nat, i: nat)
    requires IsSequence(phases, start) && start <= i < start + 8 && NeedsSwiftstrike(phases[i])
    ensures IndexFrom(phases, AssignDamage, i) == Some(start + 7) && i < start + 7
  {
    FirstIndex(phases, AssignDamage, i, start + 7);
  }

  /** Behind the first main phase the skip rules find what they look for ahead of the cursor,
      the first main phase does not come again, and only the last phase ends the turn. */
  lemma AheadOfCursor(phases: seq<Phase>, ready: bool, extra: nat, i: nat)
    requires IsTurnList(phases, ready, extra) && 4 < i < |phases|
    ensures phases[i] != FirstMain && phases[i] != Draw
    ensures phases[i] == EndTurn <==> i == |phases| - 1
    ensures IsCombatStep(phases[i]) ==> IndexFrom(phases, SecondMain, i).Some? && IndexFrom(phases, SecondMain, i).value > i
    ensures NeedsSwiftstrike(phases[i]) ==> IndexFrom(phases, AssignDamage, i).Some? && IndexFrom(phases, AssignDamage, i).value > i
  {
    assert phases[i] == PhaseAt(ready, extra, i);
    if IsCombatStep(phases[i]) {
      SkipLosesNoCombat(phases, ready, extra, i);
      CombatStepInSequence(phases, ready, extra, i);
      if NeedsSwiftstrike(phases[i]) {
        NextDamage(phases, CombatStart(ready, i), i);
      }
    }
  }

  // ------------------------------------------------------------ every round makes progress

  /** Rounds left at most: the stage of the turn, then the phases ahead, then whether a trick can
      still be played here. */
  function Rank<W(!new)>(g: Game<W>, c: Config<W>): nat
    requires c.idx < |c.phases|
  {
    var stage := 36 + 18 * g.extra;
    (if c.idx <= 4 then 2 * stage else if !c.ready then stage else 0)
    + 2 * (|c.phases| - c.idx) + (if g.chainEmpty(c.world) then 1 else 0)
  }

  /** The next phase, in the world that playing this one came to. */
  function Advanced<W>(c: Config<W>, world: W): Config<W> { c.(idx := c.idx + 1, world := world) }

  /** Behind the first main phase and not at the end of the turn: played lists stay turn lists,
      and get longer only when the flag goes up. */
  lemma PlayedLate<W(!new)>(g: Game<W>, c: Config<W>, world: W)
    requires Inv(g, c) && c.idx > 4 && c.phases[c.idx] != EndTurn
    ensures
      var p := Play(g, c, c.phases[c.idx], world);
      && p.idx == c.idx && IsTurnList(p.phases, p.ready, g.extra) && c.idx + 1 < |p.phases| <= 18 + 9 * g.extra
      && (p.ready == c.ready ==> |p.phases| == |c.phases|)
      && (c.ready ==> p.ready)
  {
    AheadOfCursor(c.phases, c.ready, g.extra, c.idx);
    BuiltHasHead(true, g.extra);
  }

  lemma PlayedEarly<W(!new)>(g: Game<W>, c: Config<W>, world: W)
    requires Inv(g, c) && c.idx <= 4
    ensures
      var p := Play(g, c, c.phases[c.idx], world);
      && p.idx == c.idx && HasHead(p.phases)
      && (c.idx < 4 ==> |p.phases| == |c.phases|)
      && (c.idx == 4 ==> IsTurnList(p.phases, p.ready, g.extra) && |p.phases| <= 18 + 9 * g.extra)
  {
    var phase := c.phases[c.idx];
    HeadCursor(c.phases, c.idx);
    BuiltHasHead(g.canAttack(g.act(phase, world)), g.extra);
  }

  lemma HeadCursor(phases: seq<Phase>, i: nat)
    requires HasHead(phases) && i < |phases| && i <= 4
    ensures phases[i] == HeadPhase(i) && phases[i] != DeclareAttack && (phases[i] == FirstMain <==> i == 4)
  {
  }

  lemma PlayProgress<W(!new)>(g: Game<W>, c: Config<W>, world: W, next: W)
    requires Inv(g, c) && c.phases[c.idx] != EndTurn
    ensures
      var n := Advanced(Play(g, c, c.phases[c.idx], world), next);
      Inv(g, n) && Rank(g, n) < Rank(g, c)
  {
    if c.idx <= 4 {
      PlayedEarly(g, c, world);
    } else {
      PlayedLate(g, c, world);
    }
  }

  lemma HeadHasNoCombat<W(!new)>(g: Game<W>, c: Config<W>)
    requires Inv(g, c)
    ensures IsCombatStep(c.phases[c.idx]) ==> c.idx > 4
  {
    assert c.idx <= 4 ==> c.phases[c.idx] == HeadPhase(c.idx);
  }

  lemma SkipProgress<W(!new)>(g: Game<W>, c: Config<W>, target: Phase)
    requires Inv(g, c)
    requires
      || (NeedsAttackers(c.phases[c.idx]) && target == SecondMain)
      || (NeedsSwiftstrike(c.phases[c.idx]) && target == AssignDamage)
    ensures
      var s := c.(idx := IndexFrom(c.phases, target, c.idx).GetOr(c.idx));
      Inv(g, s) && Rank(g, s) < Rank(g, c)
  {
    HeadHasNoCombat(g, c);
    AheadOfCursor(c.phases, c.ready, g.extra, c.idx);
  }

  /** Every round keeps the invariant and comes closer to the end of the turn, whatever world the
      game is in once a played phase is settled. */
  lemma RoundProgress<W(!new)>(g: Game<W>, c: Config<W>, next: W)
    requires g.Valid() && Inv(g, c)
    ensures
      var r := OneRound(g, c);
      && (r.Skipped? || r.Repeated? ==> Inv(g, r.config) && Rank(g, r.config) < Rank(g, c))
      && (r.Played? ==> Inv(g, Advanced(r.config, next)) && Rank(g, Advanced(r.config, next)) < Rank(g, c))
  {
    var phase, r := c.phases[c.idx], OneRound(g, c);
    if r.Skipped? {
      SkipProgress(g, c, if NeedsAttackers(phase) && !g.attacking(c.world) then SecondMain else AssignDamage);
    } else if r.Played? {
      PlayProgress(g, c, g.enter(phase, c.world), next);
    }
  }

  // ------------------------------------------------------------ one run that never stops

  /** What a turn did: the phases entered and the world it ended in. */
  datatype Turn<W> = Turn(entries: seq<Entry>, world: W)

  /** The whole turn in one go: whatever a phase leaves pending is settled before the next. */
  function Uninterrupted<W(!new)>(g: Game<W>, c: Config<W>): Turn<W>
    requires g.Valid() && Inv(g, c)
    decreases Rank(g, c)
  {
    RoundProgress(g, c, g.settle(OneRoundWorld(g, c)));
    match OneRound(g, c)
    case Skipped(config) => Uninterrupted(g, config)
    case Repeated(config, entry) => After([entry], Uninterrupted(g, config))
    case Over(world, entries) => Turn(entries, world)
    case Played(config, entry) => After([entry], Uninterrupted(g, Advanced(config, g.settle(config.world))))
  }

  function After<W>(entries: seq<Entry>, turn: Turn<W>): Turn<W> { turn.(entries := entries + turn.entries) }

  /** The world a round leaves, before anything pending is settled. */
  function OneRoundWorld<W(!new)>(g: Game<W>, c: Config<W>): W
    requires c.idx < |c.phases|
  {
    match OneRound(g, c)
    case Over(world, _) => world
    case Skipped(config) => config.world
    case Repeated(config, _) => config.world
    case Played(config, _) => config.world
  }

  // ------------------------------------------------------------ the loop with its pauses

  const AlwaysStops: set<Phase> := {DeclareDefense}

  const DefaultStops: set<Phase> := {SecondMain, DeclareAttackWindow, DeclareDefenseWindow}

  /** The human's stops on the AI's turn; no stops at all stands for the defaults. */
  predicate IsStop(custom: Option<set<Phase>>, phase: Phase) {
    phase in AlwaysStops || phase in (if custom.Some? && custom.value != {} then custom.value else DefaultStops)
  }

  /** Whether the loop hands priority to the human after a phase. */
  predicate Pauses<W(!new)>(g: Game<W>, custom: Option<set<Phase>>, phase: Phase, world: W) {
    || g.promptPending(world)
    || !g.chainEmpty(world)
    || (IsStop(custom, phase) && !(phase == DeclareDefense && !g.canBlock(world)))
  }

  /** How a call of the loop ends: the turn is over, or the human has priority and the cursor of
      the next phase is stored. */
  datatype Call<W> = Finished(entries: seq<Entry>, world: W) | Paused(entries: seq<Entry>, config: Config<W>)

  function Preceded<W>(entries: seq<Entry>, call: Call<W>): Call<W> { call.(entries := entries + call.entries) }

  lemma PrecededTwice<W>(a: seq<Entry>, b: seq<Entry>, call: Call<W>)
    ensures Preceded(a, Preceded(b, call)) == Preceded(a + b, call)
    ensures Preceded([], call) == call
  {
    assert a + (b + call.entries) == a + b + call.entries;
  }

  /** The world after the human has answered and passed. */
  function Resumed<W(!new)>(g: Game<W>, c: Config<W>): Config<W> { c.(world := g.settle(c.world)) }

  /** One call of the loop. */
  function RunCall<W(!new)>(g: Game<W>, custom: Option<set<Phase>>, c: Config<W>): (r: Call<W>)
    requires g.Valid() && Inv(g, c)
    ensures r.Paused? ==> Inv(g, Resumed(g, r.config)) && Rank(g, Resumed(g, r.config)) < Rank(g, c)
    decreases Rank(g, c)
  {
    RoundProgress(g, c, OneRoundWorld(g, c));
    RoundProgress(g, c, g.settle(OneRoundWorld(g, c)));
    match OneRound(g, c)
    case Skipped(config) => RunCall(g, custom, config)
    case Repeated(config, entry) => Preceded([entry], RunCall(g, custom, config))
    case Over(world, entries) => Finished(entries, world)
    case Played(config, entry) =>
      var next := Advanced(config, config.world);
      if Pauses(g, custom, entry.phase, config.world) then Paused([entry], next)
      else Preceded([entry], RunCall(g, custom, next))
  }

  /** The phases a round entered, and where the loop goes on from when it does not pause. */
  function Entries<W>(r: Round<W>): seq<Entry> {
    match r
    case Skipped(_) => []
    case Repeated(_, entry) => [entry]
    case Over(_, entries) => entries
    case Played(_, entry) => [entry]
  }

  function Target<W>(r: Round<W>): Config<W>
    requires !r.Over?
  {
    if r.Played? then Advanced(r.config, r.config.world) else r.config
  }

  predicate RoundPauses<W(!new)>(g: Game<W>, custom: Option<set<Phase>>, r: Round<W>) {
    r.Played? && Pauses(g, custom, r.entry.phase, r.config.world)
  }

  /** What one round contributes to the call it is part of, after the phases already entered. */
  lemma RoundInCall<W(!new)>(g: Game<W>, custom: Option<set<Phase>>, c: Config<W>, done: seq<Entry>)
    requires g.Valid() && Inv(g, c)
    ensures
      var call, r := Preceded(done, RunCall(g, custom, c)), OneRound(g, c);
      var all := done + Entries(r);
      && (r.Over? ==> call == Finished(all, r.world))
      && (!r.Over? ==>
            && Inv(g, Target(r)) && Rank(g, Target(r)) < Rank(g, c)
            && call == (if RoundPauses(g, custom, r) then Paused(all, Target(r))
                        else Preceded(all, RunCall(g, custom, Target(r)))))
  {
    RoundProgress(g, c, OneRoundWorld(g, c));
    var r := OneRound(g, c);
    if !r.Over? {
      PrecededTwice(done, Entries(r), RunCall(g, custom, Target(r)));
    }
  }

  /** The whole turn with a human who only ever passes: each call goes on from the cursor that the
      one before stored. */
  function AllCalls<W(!new)>(g: Game<W>, custom: Option<set<Phase>>, c: Config<W>): Turn<W>
    requires g.Valid() && Inv(g, c)
    decreases Rank(g, c)
  {
    match RunCall(g, custom, c)
    case Finished(entries, world) => Turn(entries, world)
    case Paused(entries, config) => After(entries, AllCalls(g, custom, Resumed(g, config)))
  }

  lemma AfterTwice<W>(a: seq<Entry>, b: seq<Entry>, turn: Turn<W>)
    ensures After(a, After(b, turn)) == After(a + b, turn)
    ensures After([], turn) == turn
  {
    assert a + (b + turn.entries) == a + b + turn.entries;
  }

  /** What remains of the turn after a call. */
  function Rest<W(!new)>(g: Game<W>, call: Call<W>): Turn<W>
    requires g.Valid() && (call.Paused? ==> Inv(g, Resumed(g, call.config)))
  {
    match call
    case Finished(entries, world) => Turn(entries, world)
    case Paused(entries, config) => After(entries, Uninterrupted(g, Resumed(g, config)))
  }

  lemma {:induction false} CallThenRest<W(!new)>(g: Game<W>, custom: Option<set<Phase>>, c: Config<W>)
    requires g.Valid() && Inv(g, c)
    ensures Rest(g, RunCall(g, custom, c)) == Uninterrupted(g, c)
    decreases Rank(g, c)
  {
    RoundProgress(g, c, OneRoundWorld(g, c));
    match OneRound(g, c)
    case Skipped(config) =>
      CallThenRest(g, custom, config);
    case Repeated(config, entry) =>
      CallThenRest(g, custom, config);
      RestPreceded(g, entry, RunCall(g, custom, config));
    case Over(_, _) =>
    case Played(config, entry) =>
      if !Pauses(g, custom, entry.phase, config.world) {
        var next := Advanced(config, config.world);
        CallThenRest(g, custom, next);
        RestPreceded(g, entry, RunCall(g, custom, next));
      }
  }

  lemma RestPreceded<W(!new)>(g: Game<W>, entry: Entry, call: Call<W>)
    requires g.Valid() && (call.Paused? ==> Inv(g, Resumed(g, call.config)))
    ensures Rest(g, Preceded([entry], call)) == After([entry], Rest(g, call))
  {
    if call.Paused? {
      AfterTwice([entry], call.entries, Uninterrupted(g, Resumed(g, call.config)));
    }
  }

  /** Pausing changes nothing: whatever the stops, the phases entered across all calls and the
      world at the end are those of one uninterrupted run. */
  lemma {:induction false} PausesAreInvisible<W(!new)>(g: Game<W>, custom: Option<set<Phase>>, c: Config<W>)
    requires g.Valid() && Inv(g, c)
    ensures AllCalls(g, custom, c) == Uninterrupted(g, c)
    decreases Rank(g, c)
  {
    CallThenRest(g, custom, c);
    match RunCall(g, custom, c)
    case Finished(_, _) =>
    case Paused(_, config) =>
      PausesAreInvisible(g, custom, Resumed(g, config));
  }

  // ------------------------------------------------------------ which phases are entered

  /** Damage and the other late combat steps only with attackers, the first-strike steps only
      with swiftstrike. */
  predicate Justified(entries: seq<Entry>) {
    forall i :: 0 <= i < |entries| ==>
      && (NeedsAttackers(entries[i].phase) ==> entries[i].attacking)
      && (NeedsSwiftstrike(entries[i].phase) ==> entries[i].swiftstrike)
  }

  lemma {:induction false} NoDamageWithoutAttackers<W(!new)>(g: Game<W>, c: Config<W>)
    requires g.Valid() && Inv(g, c)
    ensures Justified(Uninterrupted(g, c).entries)
    decreases Rank(g, c)
  {
    RoundProgress(g, c, g.settle(OneRoundWorld(g, c)));
    match OneRound(g, c)
    case Skipped(config) => NoDamageWithoutAttackers(g, config);
    case Repeated(config, _) => NoDamageWithoutAttackers(g, config);
    case Over(_, _) =>
    case Played(config, _) => NoDamageWithoutAttackers(g, Advanced(config, g.settle(config.world)));
  }

  predicate EndsOnce(entries: seq<Entry>) {
    && entries != []
    && forall i :: 0 <= i < |entries| ==> (entries[i].phase == EndTurn <==> i == |entries| - 1)
  }

  /** A dead champion, or a draw from an empty deck, ends the turn where it is. */
  predicate CutShort<W(!new)>(g: Game<W>, world: W) { g.dead(world) || g.deckedOut(world) }

  predicate NeverEnds(entries: seq<Entry>) {
    forall i :: 0 <= i < |entries| ==> entries[i].phase != EndTurn
  }

  lemma EndsAfter<W>(entry: Entry, rest: Turn<W>)
    requires entry.phase != EndTurn
    ensures EndsOnce(rest.entries) ==> EndsOnce(After([entry], rest).entries)
    ensures NeverEnds(rest.entries) ==> NeverEnds(After([entry], rest).entries)
  {
  }

  /** A turn enters its end last and once, or, when it is cut short, not at all. */
  ghost predicate EndsOrIsCut<W(!new)>(g: Game<W>, turn: Turn<W>) {
    EndsOnce(turn.entries) || (NeverEnds(turn.entries) && CutShort(g, turn.world))
  }

  lemma EndOfRounds<W(!new)>(g: Game<W>, c: Config<W>)
    requires c.idx < |c.phases|
    ensures
      match OneRound(g, c)
      case Skipped(_) => true
      case Over(world, entries) => EndsOrIsCut(g, Turn(entries, world))
      case Repeated(_, entry) => entry.phase != EndTurn
      case Played(_, entry) => entry.phase != EndTurn
  {
  }

  lemma {:induction false} TurnReachesItsEnd<W(!new)>(g: Game<W>, c: Config<W>)
    requires g.Valid() && Inv(g, c)
    ensures EndsOrIsCut(g, Uninterrupted(g, c))
    decreases Rank(g, c)
  {
    RoundProgress(g, c, g.settle(OneRoundWorld(g, c)));
    EndOfRounds(g, c);
    match OneRound(g, c)
    case Skipped(config) => TurnReachesItsEnd(g, config);
    case Over(_, _) =>
    case Repeated(config, entry) =>
      TurnReachesItsEnd(g, config);
      EndsAfter(entry, Uninterrupted(g, config));
    case Played(config, entry) =>
      var next := Advanced(config, g.settle(config.world));
      TurnReachesItsEnd(g, next);
      EndsAfter(entry, Uninterrupted(g, next));
  }

  // ------------------------------------------------------------ which phases are not left out

  function PhasesOf(entries: seq<Entry>): seq<Phase> {
    if entries == [] then [] else [entries[0].phase] + PhasesOf(entries[1..])
  }

  function OutsideCombat(phases: seq<Phase>): seq<Phase> {
    if phases == [] then [] else
      (if IsCombatStep(phases[0]) then [] else [phases[0]]) + OutsideCombat(phases[1..])
  }

  lemma PhasesAfter<W>(entry: Entry, turn: Turn<W>)
    ensures PhasesOf(After([entry], turn).entries) == [entry.phase] + PhasesOf(turn.entries)
  {
    assert ([entry] + turn.entries)[1..] == turn.entries;
  }

  lemma OutsideFirst(p: Phase, rest: seq<Phase>)
    ensures OutsideCombat([p] + rest) == if IsCombatStep(p) then OutsideCombat(rest) else [p] + OutsideCombat(rest)
  {
    assert ([p] + rest)[1..] == rest;
    Unit(OutsideCombat(rest));
  }

  lemma {:induction false} OutsideSkips(phases: seq<Phase>, start: nat, end: nat)
    requires start <= end <= |phases| && forall k :: start <= k < end ==> IsCombatStep(phases[k])
    ensures OutsideCombat(phases[start..]) == OutsideCombat(phases[end..])
    decreases end
  {
    if start < end {
      OutsideSkips(phases, start, end - 1);
      assert phases[end - 1..] == [phases[end - 1]] + phases[end..];
      OutsideFirst(phases[end - 1], phases[end..]);
    }
  }

  /** What the skip rules find: the end of their own combat. */
  lemma SkipTargets(phases: seq<Phase>, ready: bool, extra: nat, i: nat)
    requires IsTurnList(phases, ready, extra) && i < |phases| && NeedsAttackers(phases[i])
    ensures PassesOnlyCombat(phases, i, IndexFrom(phases, SecondMain, i))
    ensures NeedsSwiftstrike(phases[i]) ==> PassesOnlyCombat(phases, i, IndexFrom(phases, AssignDamage, i))
  {
    CombatStepInSequence(phases, ready, extra, i);
    TargetsInSequence(phases, CombatStart(ready, i), i);
  }

  lemma TargetsInSequence(phases: seq<Phase>, start: nat, i: nat)
    requires IsSequence(phases, start) && start <= i < start + 8 && NeedsAttackers(phases[i])
    ensures PassesOnlyCombat(phases, i, IndexFrom(phases, SecondMain, i))
    ensures NeedsSwiftstrike(phases[i]) ==> PassesOnlyCombat(phases, i, IndexFrom(phases, AssignDamage, i))
  {
    SkipWithin(phases, start, i);
    if NeedsSwiftstrike(phases[i]) {
      NextDamage(phases, start, i);
    }
  }

  predicate PassesOnlyCombat(phases: seq<Phase>, i: nat, target: Option<nat>) {
    && target.Some? && i < target.value < |phases|
    && forall k :: i <= k < target.value ==> IsCombatStep(phases[k]) && phases[k] != DeclareCombatWindow
  }

  /** A skip rule passes over steps of its own combat only. */
  lemma SkipsOnlyCombat<W(!new)>(g: Game<W>, c: Config<W>)
    requires Inv(g, c) && OneRound(g, c).Skipped?
    ensures
      var n := OneRound(g, c).config;
      n == c.(idx := n.idx) && PassesOnlyCombat(c.phases, c.idx, Some(n.idx))
  {
    HeadHasNoCombat(g, c);
    SkipTargets(c.phases, c.ready, g.extra, c.idx);
  }

  lemma SkipWithin(phases: seq<Phase>, start: nat, i: nat)
    requires IsSequence(phases, start) && start <= i < start + 8 && NeedsAttackers(phases[i])
    ensures IndexFrom(phases, SecondMain, i) == Some(start + 8)
    ensures NeedsSwiftstrike(phases[i]) ==> IndexFrom(phases, AssignDamage, i) == Some(start + 7)
    ensures forall k :: i <= k < start + 8 ==> IsCombatStep(phases[k]) && phases[k] != DeclareCombatWindow
  {
    FirstIndex(phases, SecondMain, i, start + 8);
    if NeedsSwiftstrike(phases[i]) {
      NextDamage(phases, start, i);
    }
  }

  /** All of a list of phases, or a beginning of it when the turn was cut short. */
  predicate Part(entered: seq<Phase>, all: seq<Phase>, cut: bool) {
    entered == all || (cut && entered <= all)
  }

  lemma PartAfter(p: Phase, entered: seq<Phase>, all: seq<Phase>, cut: bool)
    requires Part(entered, all, cut)
    ensures Part([p] + entered, [p] + all, cut)
  {
    assert entered <= all ==> [p] + entered <= [p] + all;
  }

  lemma EnteredHere<W>(phases: seq<Phase>, i: nat, entry: Entry, rest: Turn<W>, cut: bool)
    requires i < |phases| && entry.phase == phases[i]
    requires Part(Entered(rest), OutsideCombat(phases[i + 1..]), cut)
    ensures Part(Entered(After([entry], rest)), OutsideCombat(phases[i..]), cut)
  {
    PhasesAfter(entry, rest);
    assert phases[i..] == [phases[i]] + phases[i + 1..];
    OutsideFirst(phases[i], phases[i + 1..]);
    OutsideFirst(phases[i], PhasesOf(rest.entries));
    PartAfter(phases[i], Entered(rest), OutsideCombat(phases[i + 1..]), cut);
  }

  lemma EnteredAgain<W>(entry: Entry, rest: Turn<W>)
    requires IsCombatStep(entry.phase)
    ensures OutsideCombat(PhasesOf(After([entry], rest).entries)) == OutsideCombat(PhasesOf(rest.entries))
  {
    PhasesAfter(entry, rest);
    OutsideFirst(entry.phase, PhasesOf(rest.entries));
  }

  lemma EnteredLast(phases: seq<Phase>, entry: Entry)
    requires phases != [] && entry.phase == phases[|phases| - 1]
    ensures OutsideCombat(PhasesOf([entry])) == OutsideCombat(phases[|phases| - 1..])
  {
    assert phases[|phases| - 1..] == [entry.phase];
    assert PhasesOf([entry]) == [entry.phase];
  }

  /** The phases outside combat that are still ahead. */
  function Ahead<W>(c: Config<W>): seq<Phase>
    requires c.idx <= |c.phases|
  {
    OutsideCombat(c.phases[c.idx..])
  }

  function Entered<W>(turn: Turn<W>): seq<Phase> { OutsideCombat(PhasesOf(turn.entries)) }

  lemma SkipKeepsAhead<W(!new)>(g: Game<W>, c: Config<W>)
    requires Inv(g, c) && OneRound(g, c).Skipped?
    ensures
      var n := OneRound(g, c).config;
      4 < n.idx < |n.phases| && c.idx < n.idx && n.ready == c.ready && Ahead(n) == Ahead(c)
  {
    HeadHasNoCombat(g, c);
    SkipsOnlyCombat(g, c);
    OutsideSkips(c.phases, c.idx, OneRound(g, c).config.idx);
  }

  lemma RepeatKeepsAhead<W(!new)>(g: Game<W>, c: Config<W>, rest: Turn<W>)
    requires c.idx < |c.phases| && OneRound(g, c).Repeated?
    ensures
      var r := OneRound(g, c);
      && r.config.idx == c.idx && r.config.phases == c.phases && r.config.ready == c.ready
      && Entered(After([r.entry], rest)) == Entered(rest)
  {
    EnteredAgain(OneRound(g, c).entry, rest);
  }

  /** Behind the first main phase, only an attack that raises the flag changes the list. */
  lemma UnraisedStays<W(!new)>(g: Game<W>, c: Config<W>)
    requires Inv(g, c) && c.idx > 4 && OneRound(g, c).Played? && !RaisesFlag(g, c)
    ensures OneRound(g, c).config.phases == c.phases && OneRound(g, c).config.ready == c.ready
  {
    AheadOfCursor(c.phases, c.ready, g.extra, c.idx);
    if c.phases[c.idx] == DeclareAttack && g.attacking(OneRoundWorld(g, c)) {
      SameList(c.phases, BuildTurnPhases(true, g.extra), g.extra);
    }
  }

  lemma EndEnters<W(!new)>(g: Game<W>, c: Config<W>)
    requires Inv(g, c) && c.idx > 4 && OneRound(g, c).Over?
    ensures
      var r := OneRound(g, c);
      Part(Entered(Turn(r.entries, r.world)), Ahead(c), g.dead(r.world))
  {
    if !g.dead(c.world) {
      OnlyEndIsOver(g, c);
      EnteredLast(c.phases, OneRound(g, c).entries[0]);
    }
  }

  lemma OnlyEndIsOver<W(!new)>(g: Game<W>, c: Config<W>)
    requires Inv(g, c) && c.idx > 4 && OneRound(g, c).Over? && !g.dead(c.world)
    ensures c.idx == |c.phases| - 1 && c.phases[c.idx] == EndTurn && |OneRound(g, c).entries| == 1
    ensures OneRound(g, c).entries[0].phase == EndTurn
  {
    AheadOfCursor(c.phases, c.ready, g.extra, c.idx);
  }

  lemma RaisedSequence(after: seq<Phase>, extra: nat, i: nat)
    requires IsTurnList(after, true, extra) && i < |after| && after[i] == DeclareAttackWindow
    ensures 2 <= i && IsSequence(after, i - 2)
  {
    CombatStepInSequence(after, true, extra, i);
  }

  lemma RaisedTail(before: seq<Phase>, after: seq<Phase>, extra: nat, i: nat)
    requires IsTurnList(before, false, extra) && IsTurnList(after, true, extra) && 5 <= i <= |before|
    ensures |after| == |before| + 8 && after[i + 8..] == before[i..]
  {
    forall k | i <= k < |before| ensures after[k + 8] == before[k] {
      ReadyFlagMovesCursor(before, after, extra, k);
    }
  }

  /** The list rebuilt under the cursor has one more second main phase ahead of it. */
  lemma RaisedAhead(before: seq<Phase>, after: seq<Phase>, extra: nat, i: nat)
    requires IsTurnList(before, false, extra) && IsTurnList(after, true, extra)
    requires 4 < i < |before| && before[i] == DeclareAttack
    ensures i + 9 <= |after| && OutsideCombat(after[i + 1..]) == [SecondMain] + OutsideCombat(before[i + 1..])
  {
    RaisedUnderCursor(before, after, extra, i);
    RaisedSequence(after, extra, i);
    ReadyFlagMovesCursor(before, after, extra, i);
    CombatStepInSequence(after, true, extra, i + 8);
    RaisedTail(before, after, extra, i + 1);
    WindowSteps(after, i);
    OneMainBetween(after, i);
  }

  lemma WindowSteps(phases: seq<Phase>, i: nat)
    requires 2 <= i && IsSequence(phases, i - 2)
    ensures i + 6 < |phases| && phases[i + 6] == SecondMain && forall k :: i < k < i + 6 ==> IsCombatStep(phases[k])
  {
  }

  lemma OneMainBetween(phases: seq<Phase>, i: nat)
    requires i + 9 <= |phases| && phases[i + 6] == SecondMain && forall k :: i < k < i + 6 ==> IsCombatStep(phases[k])
    requires IsCombatStep(phases[i + 7]) && IsCombatStep(phases[i + 8])
    ensures OutsideCombat(phases[i + 1..]) == [SecondMain] + OutsideCombat(phases[i + 9..])
  {
    MainBehind(phases, i);
    OutsideSkips(phases, i + 7, i + 9);
  }

  lemma MainBehind(phases: seq<Phase>, i: nat)
    requires i + 7 <= |phases| && phases[i + 6] == SecondMain && forall k :: i < k < i + 6 ==> IsCombatStep(phases[k])
    ensures OutsideCombat(phases[i + 1..]) == [SecondMain] + OutsideCombat(phases[i + 7..])
  {
    OutsideSkips(phases, i + 1, i + 6);
    assert phases[i + 6..] == [SecondMain] + phases[i + 7..];
    OutsideFirst(SecondMain, phases[i + 7..]);
  }

  /** What may be entered outside combat from a position on: the phases ahead, with one more second
      main phase if an attack may still raise the flag. */
  predicate EntersFrom(phases: seq<Phase>, ready: bool, extra: nat, i: nat, entered: seq<Phase>, cut: bool)
    requires i <= |phases|
  {
    || Part(entered, OutsideCombat(phases[i..]), cut)
    || (!ready && i < LastMain(false, extra) && Part(entered, [SecondMain] + OutsideCombat(phases[i..]), cut))
  }

  /** The phases that a turn enters outside combat, from a cursor behind the first main phase on:
      those ahead, with one more second main phase if an attack raises the flag. */
  predicate EntersAhead<W(!new)>(g: Game<W>, c: Config<W>, turn: Turn<W>)
    requires c.idx <= |c.phases|
  {
    EntersFrom(c.phases, c.ready, g.extra, c.idx, Entered(turn), g.dead(turn.world))
  }

  lemma OutsideIsMain(phases: seq<Phase>, ready: bool, extra: nat, i: nat)
    requires IsTurnList(phases, ready, extra) && 4 < i < |phases| && i <= LastMain(ready, extra) && !IsCombatStep(phases[i])
    ensures phases[i] == SecondMain
  {
    assert phases[i] == PhaseAt(ready, extra, i);
  }

  lemma StepEnters<W>(phases: seq<Phase>, ready: bool, extra: nat, i: nat, entry: Entry, rest: Turn<W>, cut: bool)
    requires IsTurnList(phases, ready, extra) && 4 < i < |phases| && entry.phase == phases[i]
    requires EntersFrom(phases, ready, extra, i + 1, Entered(rest), cut)
    ensures EntersFrom(phases, ready, extra, i, Entered(After([entry], rest)), cut)
  {
    if Part(Entered(rest), OutsideCombat(phases[i + 1..]), cut) {
      EnteredHere(phases, i, entry, rest, cut);
    } else {
      if !IsCombatStep(phases[i]) {
        OutsideIsMain(phases, ready, extra, i);
      }
      EnteredWithMain(phases, i, entry, rest, cut);
    }
  }

  lemma PlayEnters<W(!new)>(g: Game<W>, c: Config<W>, n: Config<W>, entry: Entry, rest: Turn<W>)
    requires Inv(g, c) && c.idx > 4 && entry.phase == c.phases[c.idx]
    requires n.idx == c.idx + 1 && n.phases == c.phases && n.ready == c.ready && EntersAhead(g, n, rest)
    ensures EntersAhead(g, c, After([entry], rest))
  {
    StepEnters(c.phases, c.ready, g.extra, c.idx, entry, rest, g.dead(rest.world));
  }

  lemma EnteredWithMain<W>(phases: seq<Phase>, i: nat, entry: Entry, rest: Turn<W>, cut: bool)
    requires i < |phases| && entry.phase == phases[i] && (IsCombatStep(phases[i]) || phases[i] == SecondMain)
    requires Part(Entered(rest), [SecondMain] + OutsideCombat(phases[i + 1..]), cut)
    ensures Part(Entered(After([entry], rest)), [SecondMain] + OutsideCombat(phases[i..]), cut)
  {
    PhasesAfter(entry, rest);
    assert phases[i..] == [phases[i]] + phases[i + 1..];
    OutsideFirst(phases[i], phases[i + 1..]);
    OutsideFirst(phases[i], PhasesOf(rest.entries));
    PartAfter(phases[i], Entered(rest), [SecondMain] + OutsideCombat(phases[i + 1..]), cut);
  }

  lemma RaisedEnters<W>(before: seq<Phase>, after: seq<Phase>, extra: nat, i: nat, entry: Entry, rest: Turn<W>, cut: bool)
    requires IsTurnList(before, false, extra) && IsTurnList(after, true, extra)
    requires 4 < i < |before| && before[i] == DeclareAttack == entry.phase
    requires i < |after| && EntersFrom(after, true, extra, i + 1, Entered(rest), cut)
    ensures EntersFrom(before, false, extra, i, Entered(After([entry], rest)), cut)
  {
    RaisedAhead(before, after, extra, i);
    RaisedIsCombat(before, extra, i);
    EnteredAgain(entry, rest);
    assert before[i..] == [DeclareAttack] + before[i + 1..];
    OutsideFirst(DeclareAttack, before[i + 1..]);
  }

  lemma RaisedConfig<W(!new)>(g: Game<W>, c: Config<W>)
    requires c.idx < |c.phases| && OneRound(g, c).Played? && RaisesFlag(g, c)
    ensures OneRound(g, c).config.phases == BuildTurnPhases(true, g.extra) && OneRound(g, c).config.ready
    ensures OneRound(g, c).config.idx == c.idx && OneRound(g, c).entry.phase == DeclareAttack
  {
  }

  lemma RebuiltEnters<W(!new)>(g: Game<W>, c: Config<W>, p: Config<W>, world: W, entry: Entry, rest: Turn<W>)
    requires 4 < c.idx < |c.phases| && !c.ready && IsTurnList(c.phases, false, g.extra)
    requires c.phases[c.idx] == DeclareAttack == entry.phase
    requires p.idx == c.idx && p.ready && p.phases == BuildTurnPhases(true, g.extra)
    requires c.idx < |p.phases| && EntersAhead(g, Advanced(p, world), rest)
    ensures EntersAhead(g, c, After([entry], rest))
  {
    BuiltHasHead(true, g.extra);
    RaisedEnters(c.phases, p.phases, g.extra, c.idx, entry, rest, g.dead(rest.world));
  }

  lemma RaiseEnters<W(!new)>(g: Game<W>, c: Config<W>, world: W, rest: Turn<W>)
    requires Inv(g, c) && OneRound(g, c).Played? && RaisesFlag(g, c)
    requires
      var n := Advanced(OneRound(g, c).config, world);
      n.idx <= |n.phases| && EntersAhead(g, n, rest)
    ensures EntersAhead(g, c, After([OneRound(g, c).entry], rest))
  {
    HeadHasNoCombat(g, c);
    RaisedConfig(g, c);
    RebuiltEnters(g, c, OneRound(g, c).config, world, OneRound(g, c).entry, rest);
  }

  lemma RaisedIsCombat(phases: seq<Phase>, extra: nat, i: nat)
    requires IsTurnList(phases, false, extra) && i < |phases| && phases[i] == DeclareAttack
    ensures i < LastMain(false, extra)
  {
    assert IsCombatStep(PhaseAt(false, extra, i));
    CombatStepAt(false, extra, i);
  }

  /** Behind the first main phase, a turn enters every phase outside combat that is ahead of it,
      each once and in order, and one more second main phase if an attack raises the flag; if a
      champion dies, a beginning of them. */
  lemma {:induction false} EveryPhaseOutsideCombat<W(!new)>(g: Game<W>, c: Config<W>)
    requires g.Valid() && Inv(g, c) && c.idx > 4
    ensures EntersAhead(g, c, Uninterrupted(g, c))
    decreases Rank(g, c)
  {
    var next := g.settle(OneRoundWorld(g, c));
    RoundProgress(g, c, next);
    match OneRound(g, c)
    case Skipped(config) =>
      SkipKeepsAhead(g, c);
      EveryPhaseOutsideCombat(g, config);
    case Repeated(config, entry) =>
      RepeatKeepsAhead(g, c, Uninterrupted(g, config));
      EveryPhaseOutsideCombat(g, config);
    case Over(_, _) =>
      EndEnters(g, c);
    case Played(config, entry) =>
      var n := Advanced(config, next);
      PlayedAdvances(g, c);
      EveryPhaseOutsideCombat(g, n);
      if RaisesFlag(g, c) {
        RaiseEnters(g, c, next, Uninterrupted(g, n));
      } else {
        UnraisedStays(g, c);
        PlayEnters(g, c, n, entry, Uninterrupted(g, n));
      }
  }

  lemma PlayedAdvances<W(!new)>(g: Game<W>, c: Config<W>)
    requires c.idx < |c.phases| && OneRound(g, c).Played?
    ensures OneRound(g, c).config.idx == c.idx && OneRound(g, c).entry.phase == c.phases[c.idx]
  {
  }

  /** Up to the first main phase a round plays its phase, or the turn is cut short in it. */
  lemma HeadRound<W(!new)>(g: Game<W>, c: Config<W>)
    requires Inv(g, c) && c.idx <= 4
    ensures
      match OneRound(g, c)
      case Over(world, entries) =>
        CutShort(g, world) && (entries == [] || (|entries| == 1 && entries[0].phase == HeadPhase(c.idx)))
      case Played(config, entry) =>
        && entry.phase == HeadPhase(c.idx) && config.idx == c.idx
        && (c.idx == 4 ==> exists ready :: config.phases == BuildTurnPhases(ready, g.extra))
      case _ => false
  {
    assert c.phases[c.idx] == HeadPhase(c.idx);
  }

  function Mains(n: nat): (r: seq<Phase>)
    ensures |r| == n && forall i :: 0 <= i < n ==> r[i] == SecondMain
  {
    seq(n, _ => SecondMain)
  }

  lemma MainsFirst(n: nat)
    ensures Mains(n + 1) == [SecondMain] + Mains(n) == Mains(n) + [SecondMain]
  {
  }

  lemma {:induction false} OutsideJoined(a: seq<Phase>, b: seq<Phase>)
    ensures OutsideCombat(a + b) == OutsideCombat(a) + OutsideCombat(b)
  {
    if a == [] {
      Unit(b);
      Unit(OutsideCombat(b));
    } else {
      OutsideJoined(a[1..], b);
      assert a == [a[0]] + a[1..];
      Associate([a[0]], a[1..], b);
      OutsideFirst(a[0], a[1..] + b);
      OutsideFirst(a[0], a[1..]);
      Associate([a[0]], OutsideCombat(a[1..]), OutsideCombat(b));
    }
  }

  lemma {:induction false} OutsideCombats(n: nat)
    ensures OutsideCombat(ExtraCombats(n)) == Mains(n)
  {
    if n > 0 {
      OutsideCombats(n - 1);
      NoMainInSteps();
      OneMoreCombat(ExtraCombats(n - 1), CombatSteps, n - 1);
    }
  }

  lemma OneMoreCombat(combats: seq<Phase>, steps: seq<Phase>, n: nat)
    requires OutsideCombat(combats) == Mains(n) && OutsideCombat(steps) == []
    ensures OutsideCombat(combats + steps + [SecondMain]) == Mains(n + 1)
  {
    OutsideJoined(combats + steps, [SecondMain]);
    OutsideJoined(combats, steps);
    Unit(Mains(n));
    OutsideFirst(SecondMain, []);
    Unit([SecondMain]);
    MainsFirst(n);
  }

  lemma NoMainInSteps()
    ensures OutsideCombat(CombatSteps) == []
  {
    OutsideSkips(CombatSteps, 0, 8);
    assert CombatSteps[0..] == CombatSteps && CombatSteps[8..] == [];
  }

  lemma OutsideTail()
    ensures OutsideCombat(Tail) == Tail
  {
    NoneInCombat(EndPhase, Discard, EndTurn);
  }

  lemma NoneInCombat(a: Phase, b: Phase, c: Phase)
    requires !IsCombatStep(a) && !IsCombatStep(b) && !IsCombatStep(c)
    ensures OutsideCombat([a, b, c]) == [a, b, c]
  {
    assert [a, b, c] == [a] + [b, c] && [b, c] == [b] + [c] && [c] == [c] + [];
    OutsideFirst(a, [b, c]);
    OutsideFirst(b, [c]);
    OutsideFirst(c, []);
  }

  lemma OutsideMiddle(ready: bool, extra: nat)
    ensures OutsideCombat(Middle(ready, extra)) == Mains(extra + 1)
  {
    if ready {
      OutsideCombats(extra + 1);
    } else {
      OutsideCombats(extra);
      OutsideFirst(SecondMain, ExtraCombats(extra));
      MainsFirst(extra);
    }
  }

  /** With or without the flag, a list has one second main phase and one more per extra combat. */
  lemma AheadOfMains(ready: bool, extra: nat)
    ensures OutsideCombat(BuildTurnPhases(ready, extra)[5..]) == Mains(extra + 1) + Tail
  {
    ListShape(ready, extra);
    BehindHead(Head, Middle(ready, extra), Tail);
    OutsideJoined(Middle(ready, extra), Tail);
    OutsideTail();
    OutsideMiddle(ready, extra);
  }

  lemma BehindHead(head: seq<Phase>, middle: seq<Phase>, tail: seq<Phase>)
    requires |head| == 5
    ensures (head + middle + tail)[5..] == middle + tail
  {
  }

  /** The phases outside combat of a turn, from position `i` of its head on. */
  function FromHead(i: nat, mains: nat): (r: seq<Phase>)
    requires i <= 5
    ensures i < 5 ==> r == [HeadPhase(i)] + FromHead(i + 1, mains)
    decreases 5 - i
  {
    if i == 5 then Mains(mains) + Tail else [HeadPhase(i)] + FromHead(i + 1, mains)
  }

  lemma HeadToTail(mains: nat)
    ensures FromHead(0, mains) == Head + Mains(mains) + Tail
  {
    var rest := Mains(mains) + Tail;
    assert Head == [StartTurn, Ready, Prep, Draw, FirstMain];
    assert FromHead(0, mains) == [StartTurn] + ([Ready] + ([Prep] + ([Draw] + ([FirstMain] + rest))));
    Associate(Head, Mains(mains), Tail);
  }

  /** What a turn enters outside combat from position `i` of its head on: one second main phase and
      one per extra combat, and with extra combats perhaps one more. */
  predicate EntersFromHead<W(!new)>(g: Game<W>, i: nat, turn: Turn<W>)
    requires i <= 5
  {
    || Part(Entered(turn), FromHead(i, g.extra + 1), CutShort(g, turn.world))
    || (g.extra > 0 && Part(Entered(turn), FromHead(i, g.extra + 2), CutShort(g, turn.world)))
  }

  lemma AfterHead(phases: seq<Phase>, built: bool, ready: bool, extra: nat, entered: seq<Phase>, cut: bool)
    requires phases == BuildTurnPhases(built, extra) && EntersFrom(phases, ready, extra, 5, entered, cut)
    ensures Part(entered, FromHead(5, extra + 1), cut) || (extra > 0 && Part(entered, FromHead(5, extra + 2), cut))
  {
    AheadOfMains(built, extra);
    MainsFirst(extra + 1);
    Associate([SecondMain], Mains(extra + 1), Tail);
  }

  lemma AfterFirstMain<W(!new)>(g: Game<W>, c: Config<W>)
    requires g.Valid() && Inv(g, c) && c.idx == 5
    requires exists ready :: c.phases == BuildTurnPhases(ready, g.extra)
    ensures EntersFromHead(g, 5, Uninterrupted(g, c))
  {
    EveryPhaseOutsideCombat(g, c);
    FromBuiltList(g, c, Uninterrupted(g, c));
  }

  lemma FromBuiltList<W(!new)>(g: Game<W>, c: Config<W>, turn: Turn<W>)
    requires c.idx == 5 <= |c.phases| && EntersAhead(g, c, turn)
    requires exists ready :: c.phases == BuildTurnPhases(ready, g.extra)
    ensures EntersFromHead(g, 5, turn)
  {
    var built :| c.phases == BuildTurnPhases(built, g.extra);
    DeadIsCut(g, c, turn);
    AfterHead(c.phases, built, c.ready, g.extra, Entered(turn), CutShort(g, turn.world));
  }

  lemma DeadIsCut<W(!new)>(g: Game<W>, c: Config<W>, turn: Turn<W>)
    requires c.idx <= |c.phases| && EntersAhead(g, c, turn)
    ensures EntersFrom(c.phases, c.ready, g.extra, c.idx, Entered(turn), CutShort(g, turn.world))
  {
  }

  lemma HeadEntered<W>(i: nat, mains: nat, entry: Entry, rest: Turn<W>, cut: bool)
    requires i < 5 && entry.phase == HeadPhase(i) && Part(Entered(rest), FromHead(i + 1, mains), cut)
    ensures Part(Entered(After([entry], rest)), FromHead(i, mains), cut)
  {
    EnteredFirst(entry, rest, FromHead(i + 1, mains), cut);
  }

  lemma EnteredFirst<W>(entry: Entry, rest: Turn<W>, all: seq<Phase>, cut: bool)
    requires !IsCombatStep(entry.phase) && Part(Entered(rest), all, cut)
    ensures Part(Entered(After([entry], rest)), [entry.phase] + all, cut)
  {
    PhasesAfter(entry, rest);
    OutsideFirst(entry.phase, PhasesOf(rest.entries));
    PartAfter(entry.phase, Entered(rest), all, cut);
  }

  lemma CutInHead<W>(i: nat, mains: nat, entries: seq<Entry>, world: W)
    requires i < 5 && (entries == [] || (|entries| == 1 && entries[0].phase == HeadPhase(i)))
    ensures Part(Entered(Turn(entries, world)), FromHead(i, mains), true)
  {
    if entries != [] {
      assert PhasesOf(entries) == [HeadPhase(i)];
      OutsideFirst(HeadPhase(i), []);
    }
  }

  /** A turn enters, outside combat, exactly the phases from its start to its end, each once and in
      order, with one second main phase and one per extra combat. There may be one more, but only
      with extra combats. If a champion dies or a deck is empty, it enters a beginning of them. */
  lemma {:induction false} WholeTurn<W(!new)>(g: Game<W>, c: Config<W>)
    requires g.Valid() && Inv(g, c) && c.idx <= 4
    ensures EntersFromHead(g, c.idx, Uninterrupted(g, c))
    decreases 5 - c.idx
  {
    var next := g.settle(OneRoundWorld(g, c));
    RoundProgress(g, c, next);
    HeadRound(g, c);
    match OneRound(g, c)
    case Over(world, entries) => CutInHead(c.idx, g.extra + 1, entries, world);
    case Played(config, entry) =>
      var n := Advanced(config, next);
      if c.idx < 4 {
        WholeTurn(g, n);
      } else {
        AfterFirstMain(g, n);
      }
      HeadRoundEnters(g, c.idx, entry, Uninterrupted(g, n));
    case _ =>
  }

  /** The turn from its start: all phases outside combat, `Head` before and `Tail` behind the second
      main phases. */
  lemma WholeTurnFromStart<W(!new)>(g: Game<W>, c: Config<W>)
    requires g.Valid() && Inv(g, c) && c.idx == 0
    ensures
      var turn := Uninterrupted(g, c);
      var entered, cut := Entered(turn), CutShort(g, turn.world);
      || Part(entered, Head + Mains(g.extra + 1) + Tail, cut)
      || (g.extra > 0 && Part(entered, Head + Mains(g.extra + 2) + Tail, cut))
  {
    WholeTurn(g, c);
    HeadToTail(g.extra + 1);
    HeadToTail(g.extra + 2);
  }

  lemma HeadRoundEnters<W(!new)>(g: Game<W>, i: nat, entry: Entry, rest: Turn<W>)
    requires i < 5 && entry.phase == HeadPhase(i) && EntersFromHead(g, i + 1, rest)
    ensures EntersFromHead(g, i, After([entry], rest))
  {
    var cut := CutShort(g, rest.world);
    if Part(Entered(rest), FromHead(i + 1, g.extra + 1), cut) {
      HeadEntered(i, g.extra + 1, entry, rest, cut);
    } else {
      HeadEntered(i, g.extra + 2, entry, rest, cut);
    }
  }

  // ------------------------------------------------------------ the phase a pause stands for

  /** The phase, its position and the list that a stored cursor stands for: it is the phase before
      the cursor in the stored list, or in a standard list when the stored one is too short. */
  function HeldContext(cursor: Option<nat>, stored: seq<Phase>): Option<(Phase, nat, seq<Phase>)> {
    if cursor.None? || cursor.value == 0 then None
    else
      var k := cursor.value;
      if k <= |stored| then Some((stored[k - 1], k - 1, stored))
      else if k <= |CombatTurn| then Some((CombatTurn[k - 1], k - 1, CombatTurn))
      else None
  }

  /** Combat phases found under way without the flag: the list is rebuilt under the cursor. */
  predicate RaisesFlag<W(!new)>(g: Game<W>, c: Config<W>)
    requires c.idx < |c.phases|
  {
    c.phases[c.idx] == DeclareAttack && !c.ready && g.attacking(OneRoundWorld(g, c))
  }

  lemma RaisedUnderCursor(before: seq<Phase>, after: seq<Phase>, extra: nat, i: nat)
    requires IsTurnList(before, false, extra) && IsTurnList(after, true, extra)
    requires 4 < i < |before| && before[i] == DeclareAttack
    ensures i + 1 < |after| && after[i] == DeclareAttackWindow && after[i + 1] == DeclareDefense
  {
    assert before[i] == PhaseAt(false, extra, i);
    CombatStepAt(false, extra, i);
    NextInSequence(i - 6);
    NextInSequence(i - 5);
    assert after[i] == PhaseAt(true, extra, i);
    assert after[i + 1] == PhaseAt(true, extra, i + 1);
  }

  /** What is held for a cursor inside the stored list. */
  lemma HeldAs(phase: Phase, stored: seq<Phase>, k: nat, raised: bool)
    requires k < |stored| && if raised then phase == DeclareAttack && stored[k] == DeclareAttackWindow else stored[k] == phase
    ensures HeldContext(Some(k + 1), stored) == Some((stored[k], k, stored))
    ensures stored[k] == phase <==> !raised
  {
  }

  lemma PlayedPhaseStays<W(!new)>(g: Game<W>, c: Config<W>)
    requires Inv(g, c) && OneRound(g, c).Played? && !RaisesFlag(g, c)
    ensures c.idx + 1 < |OneRound(g, c).config.phases| && OneRound(g, c).config.phases[c.idx] == c.phases[c.idx]
  {
    var phase, world := c.phases[c.idx], g.enter(c.phases[c.idx], c.world);
    if c.idx <= 4 {
      PlayedEarly(g, c, world);
      assert phase == HeadPhase(c.idx);
    } else {
      PlayedLate(g, c, world);
      AheadOfCursor(c.phases, c.ready, g.extra, c.idx);
      if phase == DeclareAttack && g.attacking(g.act(phase, world)) {
        assert c.ready;
        SameList(c.phases, BuildTurnPhases(true, g.extra), g.extra);
      }
    }
  }

  lemma RaisedPhaseMoves<W(!new)>(g: Game<W>, c: Config<W>)
    requires Inv(g, c) && OneRound(g, c).Played? && RaisesFlag(g, c)
    ensures
      var phases := OneRound(g, c).config.phases;
      c.idx + 1 < |phases| && phases[c.idx] == DeclareAttackWindow && phases[c.idx + 1] == DeclareDefense
  {
    HeadHasNoCombat(g, c);
    BuiltHasHead(true, g.extra);
    RaisedConfig(g, c);
    RaisedUnderCursor(c.phases, OneRound(g, c).config.phases, g.extra, c.idx);
  }

  /** Without a pending extra combat, a list without the flag has no attack to declare. */
  lemma RaiseNeedsExtraCombat<W(!new)>(g: Game<W>, c: Config<W>)
    requires Inv(g, c) && RaisesFlag(g, c)
    ensures g.extra > 0
  {
    HeadHasNoCombat(g, c);
    RaisedIsCombat(c.phases, g.extra, c.idx);
  }

  /** After every phase played, the cursor about to be stored stands for exactly that phase,
      unless an attack has just raised the flag. That takes a pending extra combat; then the list
      has moved by eight under the cursor: it stands for the attack window, and the turn goes on at
      the defense, without that window. */
  lemma HeldPhase<W(!new)>(g: Game<W>, c: Config<W>)
    requires g.Valid() && Inv(g, c) && OneRound(g, c).Played?
    ensures
      var phase, p := c.phases[c.idx], OneRound(g, c).config;
      && p.idx == c.idx && c.idx + 1 < |p.phases|
      && HeldContext(Some(c.idx + 1), p.phases) == Some((p.phases[c.idx], c.idx, p.phases))
      && (p.phases[c.idx] == phase <==> !RaisesFlag(g, c))
      && (RaisesFlag(g, c) ==> g.extra > 0 && p.phases[c.idx] == DeclareAttackWindow && p.phases[c.idx + 1] == DeclareDefense)
  {
    if RaisesFlag(g, c) {
      RaisedPhaseMoves(g, c);
      RaiseNeedsExtraCombat(g, c);
    } else {
      PlayedPhaseStays(g, c);
    }
    PlayedInPlace(g, c);
    HeldAs(c.phases[c.idx], OneRound(g, c).config.phases, c.idx, RaisesFlag(g, c));
  }

  lemma PlayedInPlace<W(!new)>(g: Game<W>, c: Config<W>)
    requires c.idx < |c.phases| && OneRound(g, c).Played?
    ensures OneRound(g, c).config.idx == c.idx
    ensures RaisesFlag(g, c) ==> c.phases[c.idx] == DeclareAttack
  {
  }

  /** Where an uninterrupted turn goes on after a round. */
  function NextOf<W(!new)>(g: Game<W>, r: Round<W>): Config<W>
    requires !r.Over?
  {
    if r.Played? then Advanced(r.config, g.settle(r.config.world)) else r.config
  }

  predicate LeadsTo<W(!new, ==)>(g: Game<W>, c: Config<W>, d: Config<W>) {
    c.idx < |c.phases| && !OneRound(g, c).Over? && NextOf(g, OneRound(g, c)) == d
  }

  /** The configurations of an uninterrupted turn, round by round. */
  predicate IsRun<W(!new, ==)>(g: Game<W>, run: seq<Config<W>>) {
    run != [] && forall k :: 0 <= k < |run| - 1 ==> LeadsTo(g, run[k], run[k + 1])
  }

  /** A game with one extra combat of the human side pending, in which no troop is ready at the
      first main phase and one is when attackers are to be declared. The world is whether attackers
      are declared; nothing else happens. */
  function LateTroop(): Game<bool> {
    Game(1, _ => false, w => w, _ => false, _ => true, _ => false, _ => false, _ => false, _ => false,
         (_, w) => w, _ => None, (p, w) => w || p == DeclareAttack, w => w, w => w)
  }

  /** Its turn up to there: the list is the base list, and from the first main phase on the one with
      the extra combat. */
  function LateTroopAt(k: nat): Config<bool> {
    Config(k, if k <= 4 then BaseTurn else BuildTurnPhases(false, 1), false, false)
  }

  lemma QuietRound(g: Game<bool>, c: Config<bool>, phase: Phase)
    requires g == LateTroop() && !c.world && c.idx < |c.phases| && c.phases[c.idx] == phase
    requires phase != EndTurn && !NeedsAttackers(phase) && phase != DeclareAttack
    ensures
      LeadsTo(g, c, if phase == FirstMain then Config(c.idx + 1, BuildTurnPhases(false, 1), false, false)
                    else c.(idx := c.idx + 1))
  {
  }

  lemma LateTroopPhase(k: nat)
    requires k <= 7
    ensures k < |LateTroopAt(k).phases|
    ensures
      LateTroopAt(k).phases[k] ==
      if k <= 4 then HeadPhase(k) else if k == 5 then SecondMain else if k == 6 then DeclareCombatWindow else DeclareAttack
  {
    if k <= 4 {
      assert BaseTurn[k] == Head[k];
    } else {
      BuiltList(false, 1);
      ExtraCombatAhead(LateTroopAt(k).phases, 1, k);
    }
  }

  lemma ExtraCombatAhead(phases: seq<Phase>, extra: nat, k: nat)
    requires IsTurnList(phases, false, extra) && extra > 0 && 5 <= k <= 7
    ensures k < |phases| && phases[k] == if k == 5 then SecondMain else if k == 6 then DeclareCombatWindow else DeclareAttack
  {
    assert phases[k] == PhaseAt(false, extra, k);
  }

  lemma LateTroopRaises(g: Game<bool>, c: Config<bool>)
    requires g == LateTroop() && !c.world && !c.ready && c.idx < |c.phases| && c.phases[c.idx] == DeclareAttack
    ensures OneRound(g, c).Played? && RaisesFlag(g, c)
  {
  }

  lemma LateTroopStep(g: Game<bool>, k: nat)
    requires g == LateTroop() && k < 7
    ensures LeadsTo(g, LateTroopAt(k), LateTroopAt(k + 1))
  {
    LateTroopPhase(k);
    QuietRound(g, LateTroopAt(k), LateTroopAt(k).phases[k]);
  }

  lemma LateTroopEnd(g: Game<bool>)
    requires g == LateTroop()
    ensures g.Valid() && Inv(g, LateTroopAt(7)) && OneRound(g, LateTroopAt(7)).Played? && RaisesFlag(g, LateTroopAt(7))
  {
    LateTroopPhase(7);
    LateTroopRaises(g, LateTroopAt(7));
    BuiltList(false, 1);
  }

  /** In that game a turn comes, in seven rounds from its start, to an attack that raises the flag. */
  lemma FlagCanBeRaised() returns (g: Game<bool>, run: seq<Config<bool>>)
    ensures g.Valid() && g.extra == 1 && IsRun(g, run) && |run| == 8
    ensures run[0] == Config(0, BaseTurn, false, false)
    ensures Inv(g, run[7]) && OneRound(g, run[7]).Played? && RaisesFlag(g, run[7])
  {
    g, run := LateTroop(), seq(8, k requires 0 <= k < 8 => LateTroopAt(k));
    forall k | 0 <= k < 7 ensures LeadsTo(g, run[k], run[k + 1]) {
      LateTroopStep(g, k);
    }
    LateTroopEnd(g);
  }

  lemma SameList(a: seq<Phase>, b: seq<Phase>, extra: nat)
    requires IsTurnList(a, true, extra)
    ensures IsTurnList(b, true, extra) ==> a == b
    ensures b == BuildTurnPhases(true, extra) ==> a == b
  {
    BuiltList(true, extra);
  }

  // ------------------------------------------------------------ the phase shown

  /** Whether a round declares attackers. */
  predicate DeclaresAttack<W(!new)>(g: Game<W>, c: Config<W>)
    requires c.idx < |c.phases|
  {
    OneRound(g, c).Played? && c.phases[c.idx] == DeclareAttack && g.attacking(OneRoundWorld(g, c))
  }

  /** The index shown after a round: declaring attackers shows the first attack of the list. */
  function Shown<W(!new)>(g: Game<W>, c: Config<W>): nat
    requires c.idx < |c.phases|
  {
    if DeclaresAttack(g, c) then IndexFrom(OneRound(g, c).config.phases, DeclareAttack, 0).GetOr(c.idx) else c.idx
  }

  lemma FirstAttack(phases: seq<Phase>, extra: nat)
    requires IsTurnList(phases, true, extra)
    ensures IndexFrom(phases, DeclareAttack, 0) == Some(6)
  {
    forall k | 0 <= k < 7 ensures phases[k] == PhaseAt(true, extra, k) {
    }
    FirstIndex(phases, DeclareAttack, 0, 6);
  }

  /** The index shown falls behind the cursor exactly when attackers are declared anywhere but in
      the first combat. The stored cursor never does. */
  lemma ShownFallsBehind<W(!new)>(g: Game<W>, c: Config<W>)
    requires Inv(g, c)
    ensures Shown(g, c) == if DeclaresAttack(g, c) then 6 else c.idx
    ensures Shown(g, c) != c.idx <==> DeclaresAttack(g, c) && c.idx != 6
  {
    if DeclaresAttack(g, c) {
      BuiltList(true, g.extra);
      FirstAttack(BuildTurnPhases(true, g.extra), g.extra);
    }
  }

  // ------------------------------------------------------------ the driver

  /** The AI's turn as the server runs it: the phase shown, the cursor stored for the next call,
      and the list are battle state. */
  class Driver<W(!new)> {
    const game: Game<W>
    const custom: Option<set<Phase>>
    var phaseIdx: nat
    var cursor: Option<nat>
    var phases: seq<Phase>
    var ready: bool
    var world: W
    ghost var log: seq<Entry>

    constructor (game: Game<W>, custom: Option<set<Phase>>, phases: seq<Phase>, ready: bool, world: W)
      ensures this.game == game && this.custom == custom && cursor == None && log == []
      ensures At(0) == Config(0, phases, ready, world)
    {
      this.game, this.custom, this.phases, this.ready, this.world := game, custom, phases, ready, world;
      phaseIdx, cursor, log := 0, None, [];
    }

    function At(idx: nat): Config<W>
      reads this
    {
      Config(idx, phases, ready, world)
    }

    ghost predicate Valid(idx: nat)
      reads this
    {
      game.Valid() && Inv(game, At(idx))
    }

    /** At a stop, with no prompt and nothing on the chain, the phase shown is the one before the
        stored cursor. */
    predicate PausesInPhase()
      reads this
    {
      game.promptPending(world) || !game.chainEmpty(world) || cursor == Some(phaseIdx + 1)
    }

    /** Plays the phase at `idx`. Declaring attackers also resets the index shown. */
    method PlayPhase(idx: nat, phase: Phase)
      requires idx < |phases|
      modifies this`world, this`phases, this`ready, this`phaseIdx
      ensures At(idx) == Play(game, old(At(idx)), phase, old(world))
      ensures
        phaseIdx ==
        if phase == DeclareAttack && game.attacking(world) then IndexFrom(phases, DeclareAttack, 0).GetOr(old(phaseIdx))
        else old(phaseIdx)
    {
      world := game.act(phase, world);
      if phase == FirstMain {
        ready := game.canAttack(world);
        phases := BuildTurnPhases(ready, game.extra);
      } else if phase == DeclareAttack && game.attacking(world) {
        ready := true;
        phases := BuildTurnPhases(ready, game.extra);
        phaseIdx := IndexFrom(phases, DeclareAttack, 0).GetOr(phaseIdx);
      }
    }

    /** One round of the loop; `played` tells that a phase was played to its end. */
    method PlayRound(idx: nat) returns (next: nat, over: bool, played: bool)
      requires idx < |phases|
      modifies this`phaseIdx, this`world, this`phases, this`ready, this`log
      ensures
        var r := OneRound(game, old(At(idx)));
        && over == r.Over? && played == r.Played?
        && log == old(log) + Entries(r)
        && (if over then world == r.world else At(next) == Target(r))
        && (played ==> next == idx + 1)
      ensures !over ==> phaseIdx == if played then Shown(game, old(At(idx))) else next
    {
      next, over, played := idx, false, false;
      var phase := phases[idx];
      phaseIdx := idx;
      if game.dead(world) {
        over := true;
        return;
      }
      if NeedsAttackers(phase) && !game.attacking(world) {
        next := IndexFrom(phases, SecondMain, idx).GetOr(idx);
        phaseIdx := next;
        return;
      }
      if NeedsSwiftstrike(phase) && !game.swiftstrike(world) {
        next := IndexFrom(phases, AssignDamage, idx).GetOr(idx);
        phaseIdx := next;
        return;
      }
      next, over, played := EnterPhase(idx, Entry(phase, game.attacking(world), game.swiftstrike(world)));
    }

    /** The rest of a round in which the phase is entered. */
    method EnterPhase(idx: nat, entry: Entry) returns (next: nat, over: bool, played: bool)
      requires idx < |phases| && phaseIdx == idx
      modifies this`phaseIdx, this`world, this`phases, this`ready, this`log
      ensures
        var r := EnteredRound(game, old(At(idx)), entry);
        && over == r.Over? && played == r.Played?
        && log == old(log) + Entries(r)
        && (if over then world == r.world else At(next) == Target(r))
      ensures next == if played then idx + 1 else idx
      ensures
        !over ==>
          phaseIdx ==
          if played && entry.phase == DeclareAttack && game.attacking(world) then IndexFrom(phases, DeclareAttack, 0).GetOr(idx)
          else idx
    {
      next, over, played := idx, false, false;
      var phase := entry.phase;
      log := log + [entry];
      world := game.enter(phase, world);
      if IsWindow(phase) && game.chainEmpty(world) {
        var trick := game.trick(world);
        if trick.Some? {
          world := trick.value;
          return;
        }
      }
      PlayPhase(idx, phase);
      over := phase == EndTurn || (phase == Draw && game.deckedOut(world));
      played := !over;
      if played {
        next := idx + 1;
      }
    }

    /** Whether the human gets priority after a phase: for a prompt, for an item on the chain, or
        at a stop, where a defense without blockers is passed over. */
    method GivesPriority(phase: Phase) returns (paused: bool)
      ensures paused == Pauses(game, custom, phase, world)
    {
      if game.promptPending(world) {
        return true;
      }
      if !game.chainEmpty(world) {
        return true;
      }
      if IsStop(custom, phase) {
        return !(phase == DeclareDefense && !game.canBlock(world));
      }
      return false;
    }

    /** One pass through the loop body: a round, and the decision whether to pause. A pause stores
        the cursor of the next phase; one at a stop also shows the phase before it. */
    method PassLoop(idx: nat) returns (next: nat, over: bool, paused: bool)
      requires Valid(idx) && cursor == None
      modifies this
      ensures
        var call := Preceded(old(log), RunCall(game, custom, old(At(idx))));
        if over then !paused && call == Finished(log, world)
        else if paused then call == Paused(log, At(next))
        else
          && Valid(next) && Rank(game, At(next)) < Rank(game, old(At(idx)))
          && call == Preceded(log, RunCall(game, custom, At(next)))
      ensures cursor == (if paused then Some(next) else None) && (paused ==> next == idx + 1)
      ensures paused && (game.promptPending(world) || !game.chainEmpty(world)) ==> phaseIdx == Shown(game, old(At(idx)))
      ensures paused ==> PausesInPhase()
    {
      RoundInCall(game, custom, At(idx), log);
      var phase := phases[idx];
      var played;
      next, over, played := PlayRound(idx);
      paused := false;
      if played {
        paused := GivesPriority(phase);
      }
      if paused {
        cursor := Some(next);
        if !game.promptPending(world) && game.chainEmpty(world) {
          phaseIdx := idx;
        }
      }
    }

    /** One call of the loop, from `start` until the turn is over or the human has priority. */
    method RunAiTurn(start: nat) returns (paused: bool)
      requires Valid(start) && cursor == None
      modifies this
      ensures cursor.Some? == paused
      ensures
        Preceded(old(log), RunCall(game, custom, old(At(start)))) ==
        if paused then Paused(log, At(cursor.value)) else Finished(log, world)
      ensures paused ==> PausesInPhase()
    {
      ghost var call := Preceded(log, RunCall(game, custom, At(start)));
      var idx: nat := start;
      while idx < |phases|
        invariant Valid(idx) && cursor == None
        invariant call == Preceded(log, RunCall(game, custom, At(idx)))
        decreases Rank(game, At(idx))
      {
        var next, over;
        next, over, paused := PassLoop(idx);
        if over || paused {
          return;
        }
        idx := next;
      }
      assert false;
    }

    /** The whole turn: the chain left by the human is resolved, and after every pause the human
        passes and the loop is called again with the stored cursor. */
    method PlayTurn()
      requires Valid(0)
      modifies this
      ensures
        var start := old(At(0)).(world := if old(game.chainEmpty(world)) then old(world) else game.drain(old(world)));
        Turn(log, world) == After(old(log), Uninterrupted(game, start))
      ensures cursor == None
    {
      if !game.chainEmpty(world) {
        world := game.drain(world);
      }
      cursor := None;
      PlayFrom(0);
    }

    /** Calls the loop until the turn is over. */
    method PlayFrom(start: nat)
      requires Valid(start) && game.chainEmpty(world) && cursor == None
      modifies this
      ensures Turn(log, world) == After(old(log), Uninterrupted(game, old(At(start))))
      ensures cursor == None
      decreases Rank(game, At(start))
    {
      var paused := RunWithin(start, After(log, Uninterrupted(game, At(start))));
      if paused {
        var next := cursor.GetOr(0);
        cursor := None;
        PlayFrom(next);
      }
    }

    /** A call, and the passing that follows a pause, as a part of the whole turn. */
    method RunWithin(start: nat, ghost whole: Turn<W>) returns (paused: bool)
      requires Valid(start) && game.chainEmpty(world) && cursor == None
      requires whole == After(log, Uninterrupted(game, At(start)))
      modifies this
      ensures cursor.Some? == paused
      ensures
        if paused then
          && Valid(cursor.value) && game.chainEmpty(world)
          && Rank(game, At(cursor.value)) < Rank(game, old(At(start)))
          && whole == After(log, Uninterrupted(game, At(cursor.value)))
        else whole == Turn(log, world)
    {
      WholeAfterCall(game, custom, At(start), log);
      paused := RunAiTurn(start);
      if paused {
        world := game.settle(world);
      }
    }
  }

  /** The whole turn in terms of what a call comes to. */
  lemma WholeAfterCall<W(!new)>(g: Game<W>, custom: Option<set<Phase>>, c: Config<W>, log: seq<Entry>)
    requires g.Valid() && Inv(g, c)
    ensures
      var whole := After(log, Uninterrupted(g, c));
      match Preceded(log, RunCall(g, custom, c))
      case Finished(entries, world) => whole == Turn(entries, world)
      case Paused(entries, config) =>
        && Inv(g, Resumed(g, config)) && Rank(g, Resumed(g, config)) < Rank(g, c)
        && whole == After(entries, Uninterrupted(g, Resumed(g, config)))
  {
    var call := RunCall(g, custom, c);
    CallThenRest(g, custom, c);
    if call.Paused? {
      AfterTwice(log, call.entries, Uninterrupted(g, Resumed(g, call.config)));
    }
  }
}
