/** What the AI's turn does step by step: when it fights, which phase follows which, what ends it,
    and where the human gets priority. */
module AiCombat {
  import opened Lists
  import opened TurnPhases
  import opened Wrappers
  import opened AiTurn

  // ------------------------------------------------------------ the kinds of combat steps

  /** Of the eight combat steps every second, from the first on, is a window; the last six need
      attackers, and the sixth and seventh swiftstrike. No other phase is any of these. */
  lemma CombatKinds(p: Phase)
    ensures forall k :: 0 <= k < 9 ==> (IsWindow(CombatPhase(k)) <==> k < 8 && k % 2 == 0)
    ensures forall k :: 0 <= k < 9 ==> (NeedsAttackers(CombatPhase(k)) <==> 2 <= k < 8)
    ensures forall k :: 0 <= k < 9 ==> (NeedsSwiftstrike(CombatPhase(k)) <==> k == 5 || k == 6)
    ensures (forall k :: 0 <= k < 8 ==> p != CombatPhase(k)) ==> !IsWindow(p) && !NeedsAttackers(p) && !NeedsSwiftstrike(p)
  {
    assert CombatPhase(0) == DeclareCombatWindow && CombatPhase(1) == DeclareAttack && CombatPhase(2) == DeclareAttackWindow;
    assert CombatPhase(3) == DeclareDefense && CombatPhase(4) == DeclareDefenseWindow && CombatPhase(5) == AssignFirstStrike;
    assert CombatPhase(6) == FirstStrikeWindow && CombatPhase(7) == AssignDamage;
  }

  // ------------------------------------------------------------ what is entered first

  /** The entry made when the cursor has come to `q`, given what the skip rules saw. */
  predicate Lands(q: Phase, e: Entry) {
    e.phase ==
    if NeedsAttackers(q) && !e.attacking then SecondMain
    else if NeedsSwiftstrike(q) && !e.swiftstrike then AssignDamage
    else q
  }

  /** From any point of a turn: with a dead champion nothing more is entered, otherwise the phase
      under the cursor, or the one its skip rule asks for. */
  lemma {:induction false} FirstEntered<W(!new)>(g: Game<W>, c: Config<W>)
    requires g.Valid() && Inv(g, c)
    ensures
      var turn := Uninterrupted(g, c);
      if g.dead(c.world) then turn == Turn([], c.world)
      else
        && turn.entries != [] && Lands(c.phases[c.idx], turn.entries[0])
        && turn.entries[0].attacking == g.attacking(c.world) && turn.entries[0].swiftstrike == g.swiftstrike(c.world)
    decreases Rank(g, c)
  {
    RoundProgress(g, c, g.settle(OneRoundWorld(g, c)));
    match OneRound(g, c)
    case Skipped(config) =>
      SkipLands(g, c);
      FirstEntered(g, config);
    case Repeated(config, entry) =>
    case Over(_, _) =>
    case Played(config, entry) =>
  }

  lemma SkipLands<W(!new)>(g: Game<W>, c: Config<W>)
    requires Inv(g, c) && OneRound(g, c).Skipped?
    ensures
      var n := OneRound(g, c).config;
      && n.world == c.world && n.phases == c.phases && n.ready == c.ready && c.idx < n.idx < |n.phases|
      && n.phases[n.idx] == (if !g.attacking(c.world) then SecondMain else AssignDamage)
      && NeedsAttackers(c.phases[c.idx]) && (g.attacking(c.world) ==> NeedsSwiftstrike(c.phases[c.idx]) && !g.swiftstrike(c.world))
  {
    SkipsOnlyCombat(g, c);
    var target := if !g.attacking(c.world) then SecondMain else AssignDamage;
  }

  // ------------------------------------------------------------ which step follows which

  function NextStep(p: Phase): Phase {
    match p
    case DeclareCombatWindow => DeclareAttack
    case DeclareAttack => DeclareAttackWindow
    case DeclareAttackWindow => DeclareDefense
    case DeclareDefense => DeclareDefenseWindow
    case DeclareDefenseWindow => AssignFirstStrike
    case AssignFirstStrike => FirstStrikeWindow
    case FirstStrikeWindow => AssignDamage
    case _ => SecondMain
  }

  /** What may be entered right after a combat step: a window again after a trick, or else the next
      step, unless it is to be skipped; behind an attack that raises the flag, the step after next. */
  predicate Follows(e: Entry, f: Entry, extra: nat) {
    || (IsWindow(e.phase) && Lands(e.phase, f))
    || Lands(NextStep(e.phase), f)
    || (e.phase == DeclareAttack && extra > 0 && Lands(DeclareDefense, f))
  }

  predicate StepsFollow(entries: seq<Entry>, extra: nat) {
    forall k :: 0 <= k < |entries| - 1 && IsCombatStep(entries[k].phase) ==> Follows(entries[k], entries[k + 1], extra)
  }

  lemma StepsAfter<W>(e: Entry, rest: Turn<W>, extra: nat)
    requires StepsFollow(rest.entries, extra)
    requires IsCombatStep(e.phase) && rest.entries != [] ==> Follows(e, rest.entries[0], extra)
    ensures StepsFollow(After([e], rest).entries, extra)
  {
    var all := After([e], rest).entries;
    forall k | 0 <= k < |all| - 1 && IsCombatStep(all[k].phase) ensures Follows(all[k], all[k + 1], extra) {
      if k > 0 { assert all[k] == rest.entries[k - 1]; }
    }
  }

  lemma NextInSequence(phases: seq<Phase>, start: nat, i: nat)
    requires IsSequence(phases, start) && start <= i < start + 8
    ensures phases[i + 1] == NextStep(phases[i])
  {
  }

  predicate ComesNext(p: Phase, q: Phase, extra: nat) {
    q == NextStep(p) || (p == DeclareAttack && extra > 0 && q == DeclareDefense)
  }

  lemma ComesAndLands(e: Entry, q: Phase, f: Entry, extra: nat)
    requires IsCombatStep(e.phase) && ComesNext(e.phase, q, extra) && Lands(q, f)
    ensures Follows(e, f, extra) && f.phase != e.phase
  {
  }

  /** What is entered behind a combat step that was played. */
  lemma PlayedFollows<W(!new)>(g: Game<W>, c: Config<W>, n: Config<W>)
    requires g.Valid() && Inv(g, c) && OneRound(g, c).Played? && IsCombatStep(c.phases[c.idx])
    requires Inv(g, n) && n == Advanced(OneRound(g, c).config, n.world)
    ensures
      var rest, e := Uninterrupted(g, n), OneRound(g, c).entry;
      rest.entries != [] ==> Follows(e, rest.entries[0], g.extra) && rest.entries[0].phase != e.phase
  {
    StepPlayed(g, c);
    PlayedInPlace(g, c);
    FirstEntered(g, n);
    if !g.dead(n.world) {
      ComesAndLands(OneRound(g, c).entry, n.phases[n.idx], Uninterrupted(g, n).entries[0], g.extra);
    }
  }

  /** Where the cursor comes to behind a combat step that was played. */
  lemma StepPlayed<W(!new)>(g: Game<W>, c: Config<W>)
    requires Inv(g, c) && OneRound(g, c).Played? && IsCombatStep(c.phases[c.idx])
    ensures
      var p := OneRound(g, c).config;
      && p.idx == c.idx && c.idx + 1 < |p.phases|
      && ComesNext(c.phases[c.idx], p.phases[c.idx + 1], g.extra)
  {
    HeadHasNoCombat(g, c);
    PlayedInPlace(g, c);
    if RaisesFlag(g, c) {
      RaisedPhaseMoves(g, c);
      RaiseNeedsExtraCombat(g, c);
    } else {
      UnraisedStays(g, c);
      NextInList(c.phases, c.ready, g.extra, c.idx);
    }
  }

  lemma NextInList(phases: seq<Phase>, ready: bool, extra: nat, i: nat)
    requires IsTurnList(phases, ready, extra) && i < |phases| && IsCombatStep(phases[i])
    ensures i + 1 < |phases| && phases[i + 1] == NextStep(phases[i])
  {
    CombatStepInSequence(phases, ready, extra, i);
    NextInSequence(phases, CombatStart(ready, i), i);
  }

  /** Over a whole turn: no combat step is left out unless a skip rule asks for it, and none is
      skipped that it does not ask for. */
  lemma {:induction false} EveryStepFollows<W(!new)>(g: Game<W>, c: Config<W>)
    requires g.Valid() && Inv(g, c)
    ensures StepsFollow(Uninterrupted(g, c).entries, g.extra)
    decreases Rank(g, c)
  {
    RoundProgress(g, c, g.settle(OneRoundWorld(g, c)));
    match OneRound(g, c)
    case Skipped(config) => EveryStepFollows(g, config);
    case Repeated(config, entry) =>
      EveryStepFollows(g, config);
      FirstEntered(g, config);
      StepsAfter(entry, Uninterrupted(g, config), g.extra);
    case Over(_, _) =>
    case Played(config, entry) =>
      var next := Advanced(config, g.settle(config.world));
      EveryStepFollows(g, next);
      if IsCombatStep(entry.phase) {
        PlayedFollows(g, c, next);
      }
      StepsAfter(entry, Uninterrupted(g, next), g.extra);
  }

  /** A combat step entered twice in a row is a window, and is not entered a third time. */
  predicate RepeatsOnce(entries: seq<Entry>) {
    forall k :: 0 <= k < |entries| - 1 && IsCombatStep(entries[k].phase) && entries[k].phase == entries[k + 1].phase ==>
      IsWindow(entries[k].phase) && (k + 2 < |entries| ==> entries[k + 2].phase != entries[k].phase)
  }

  predicate MovesOn(entries: seq<Entry>) {
    |entries| > 1 && IsCombatStep(entries[0].phase) ==> entries[0].phase != entries[1].phase
  }

  lemma RepeatsAfter<W>(e: Entry, rest: Turn<W>)
    requires RepeatsOnce(rest.entries)
    requires
      IsCombatStep(e.phase) && rest.entries != [] && e.phase == rest.entries[0].phase ==> IsWindow(e.phase) && MovesOn(rest.entries)
    ensures RepeatsOnce(After([e], rest).entries)
  {
    var all := After([e], rest).entries;
    forall k | 0 <= k < |all| - 1 && IsCombatStep(all[k].phase) && all[k].phase == all[k + 1].phase
      ensures IsWindow(all[k].phase) && (k + 2 < |all| ==> all[k + 2].phase != all[k].phase)
    {
      if k > 0 { assert all[k] == rest.entries[k - 1]; }
    }
  }

  lemma StepMovesOn<W(!new)>(g: Game<W>, c: Config<W>)
    requires g.Valid() && Inv(g, c) && OneRound(g, c).Played?
    ensures MovesOn(Uninterrupted(g, c).entries)
  {
    RoundProgress(g, c, g.settle(OneRoundWorld(g, c)));
    if IsCombatStep(c.phases[c.idx]) {
      PlayedFollows(g, c, Advanced(OneRound(g, c).config, g.settle(OneRound(g, c).config.world)));
    }
  }

  /** At most one trick is played in a window. */
  lemma {:induction false} OneTrickAWindow<W(!new)>(g: Game<W>, c: Config<W>)
    requires g.Valid() && Inv(g, c)
    ensures RepeatsOnce(Uninterrupted(g, c).entries)
    ensures !g.chainEmpty(c.world) ==> MovesOn(Uninterrupted(g, c).entries)
    decreases Rank(g, c)
  {
    RoundProgress(g, c, g.settle(OneRoundWorld(g, c)));
    match OneRound(g, c)
    case Skipped(config) => OneTrickAWindow(g, config);
    case Repeated(config, entry) =>
      OneTrickAWindow(g, config);
      RepeatsAfter(entry, Uninterrupted(g, config));
    case Over(_, _) =>
    case Played(config, entry) =>
      var next := Advanced(config, g.settle(config.world));
      OneTrickAWindow(g, next);
      StepMovesOn(g, c);
      RepeatsAfter(entry, Uninterrupted(g, next));
  }

  /** In a window a trick is played exactly when nothing is on the chain and there is one; then the
      window is entered again in the world it leaves. */
  lemma TricksArePlayed<W(!new)>(g: Game<W>, c: Config<W>)
    requires g.Valid() && Inv(g, c) && !g.dead(c.world) && IsWindow(c.phases[c.idx])
    requires Lands(c.phases[c.idx], Entry(c.phases[c.idx], g.attacking(c.world), g.swiftstrike(c.world)))
    ensures
      var e := Entry(c.phases[c.idx], g.attacking(c.world), g.swiftstrike(c.world));
      var entered := g.enter(e.phase, c.world);
      var again := g.chainEmpty(entered) && g.trick(entered).Some?;
      && (again ==>
            var d := c.(world := g.trick(entered).value);
            Inv(g, d) && Uninterrupted(g, c) == After([e], Uninterrupted(g, d)))
      && (!again ==>
            var d := c.(idx := c.idx + 1, world := g.settle(g.act(e.phase, entered)));
            Inv(g, d) && Uninterrupted(g, c) == After([e], Uninterrupted(g, d)))
  {
    var e := Entry(c.phases[c.idx], g.attacking(c.world), g.swiftstrike(c.world));
    var entered := g.enter(e.phase, c.world);
    WindowRound(g, c, e);
    if g.chainEmpty(entered) && g.trick(entered).Some? {
      RepeatedThen(g, c);
    } else {
      PlayedThen(g, c, c.(idx := c.idx + 1, world := g.settle(g.act(e.phase, entered))));
    }
  }

  lemma WindowRound<W(!new)>(g: Game<W>, c: Config<W>, e: Entry)
    requires c.idx < |c.phases| && !g.dead(c.world) && IsWindow(c.phases[c.idx])
    requires e == Entry(c.phases[c.idx], g.attacking(c.world), g.swiftstrike(c.world)) && Lands(e.phase, e)
    ensures
      var entered := g.enter(e.phase, c.world);
      OneRound(g, c) ==
      if g.chainEmpty(entered) && g.trick(entered).Some? then Repeated(c.(world := g.trick(entered).value), e)
      else Played(c.(world := g.act(e.phase, entered)), e)
  {
  }

  lemma PlayedThen<W(!new)>(g: Game<W>, c: Config<W>, n: Config<W>)
    requires g.Valid() && Inv(g, c) && OneRound(g, c).Played?
    requires n == Advanced(OneRound(g, c).config, g.settle(OneRound(g, c).config.world))
    ensures Inv(g, n) && Uninterrupted(g, c) == After([OneRound(g, c).entry], Uninterrupted(g, n))
  {
    RoundProgress(g, c, n.world);
  }

  lemma RepeatedThen<W(!new)>(g: Game<W>, c: Config<W>)
    requires g.Valid() && Inv(g, c) && OneRound(g, c).Repeated?
    ensures
      var r := OneRound(g, c);
      Inv(g, r.config) && Uninterrupted(g, c) == After([r.entry], Uninterrupted(g, r.config))
  {
    RoundProgress(g, c, g.settle(OneRoundWorld(g, c)));
  }

  // ------------------------------------------------------------ how often the AI attacks

  /** How often attackers are to be declared from position `i` of a list on. */
  function AttacksFrom(phases: seq<Phase>, i: nat): nat
    requires i <= |phases|
    decreases |phases| - i
  {
    if i == |phases| then 0 else (if phases[i] == DeclareAttack then 1 else 0) + AttacksFrom(phases, i + 1)
  }

  /** How often attackers were to be declared. */
  function Attacks(entries: seq<Entry>): nat {
    if entries == [] then 0 else (if entries[0].phase == DeclareAttack then 1 else 0) + Attacks(entries[1..])
  }

  lemma AttacksAfter<W>(e: Entry, rest: Turn<W>)
    ensures Attacks(After([e], rest).entries) == (if e.phase == DeclareAttack then 1 else 0) + Attacks(rest.entries)
  {
    assert ([e] + rest.entries)[1..] == rest.entries;
  }

  lemma {:induction false} AttacksBetween(phases: seq<Phase>, i: nat, j: nat)
    requires i <= j <= |phases| && forall k :: i <= k < j ==> phases[k] != DeclareAttack
    ensures AttacksFrom(phases, i) == AttacksFrom(phases, j)
    decreases j - i
  {
    if i < j {
      AttacksBetween(phases, i + 1, j);
    }
  }

  lemma {:induction false} AttacksShifted(a: seq<Phase>, b: seq<Phase>, i: nat, shift: nat)
    requires i <= |a| && |b| == |a| + shift && forall k :: i <= k < |a| ==> b[k + shift] == a[k]
    ensures AttacksFrom(b, i + shift) == AttacksFrom(a, i)
    decreases |a| - i
  {
    if i < |a| {
      AttacksShifted(a, b, i + 1, shift);
    }
  }

  /** The attacks still ahead; one more may come from an attack that raises the flag. */
  predicate AttacksAhead(phases: seq<Phase>, ready: bool, extra: nat, i: nat, attacks: nat)
    requires i <= |phases|
  {
    attacks == AttacksFrom(phases, i) || (!ready && extra > 0 && attacks == AttacksFrom(phases, i) + 1)
  }

  /** The list rebuilt under the cursor has the attack that raised the flag ahead of it once more. */
  lemma RaisedAttacks(before: seq<Phase>, after: seq<Phase>, extra: nat, i: nat)
    requires IsTurnList(before, false, extra) && IsTurnList(after, true, extra)
    requires 4 < i < |before| && before[i] == DeclareAttack
    ensures i < |after| && AttacksFrom(after, i + 1) == AttacksFrom(before, i)
  {
    RaisedUnderCursor(before, after, extra, i);
    RaisedSequence(after, extra, i);
    ReadyFlagMovesCursor(before, after, extra, i);
    RaisedTail(before, after, extra, i);
    CombatStepInSequence(after, true, extra, i + 8);
    StepsToNext(after, i);
    AttackAgain(before, after, i);
  }

  lemma AttackAgain(before: seq<Phase>, after: seq<Phase>, i: nat)
    requires i <= |before| && |after| == |before| + 8 && after[i + 8..] == before[i..]
    requires forall k :: i < k < i + 8 ==> after[k] != DeclareAttack
    ensures AttacksFrom(after, i + 1) == AttacksFrom(before, i)
  {
    AttacksBetween(after, i + 1, i + 8);
    forall k | i <= k < |before| ensures after[k + 8] == before[k] {
      assert after[i + 8..][k - i] == before[i..][k - i];
    }
    AttacksShifted(before, after, i, 8);
  }

  lemma StepsToNext(phases: seq<Phase>, i: nat)
    requires 2 <= i && IsSequence(phases, i - 2) && i + 8 < |phases| && phases[i + 8] == DeclareAttack
    requires exists start: nat :: start <= i + 8 < start + 8 && IsSequence(phases, start)
    ensures forall k :: i < k < i + 8 ==> phases[k] != DeclareAttack
  {
    var start: nat :| start <= i + 8 < start + 8 && IsSequence(phases, start);
    assert start == i + 7;
  }

  /** Behind the first main phase: attackers are to be declared as often as the list says, and once
      more when an attack raises the flag. */
  lemma {:induction false} AttacksEntered<W(!new)>(g: Game<W>, c: Config<W>)
    requires g.Valid() && Inv(g, c) && c.idx > 4 && !g.dead(Uninterrupted(g, c).world)
    ensures AttacksAhead(c.phases, c.ready, g.extra, c.idx, Attacks(Uninterrupted(g, c).entries))
    decreases Rank(g, c)
  {
    RoundProgress(g, c, g.settle(OneRoundWorld(g, c)));
    match OneRound(g, c)
    case Skipped(config) =>
      SkipsNoAttack(g, c);
      AttacksEntered(g, config);
    case Repeated(config, entry) =>
      AttacksEntered(g, config);
      AttacksAfter(entry, Uninterrupted(g, config));
    case Over(_, entries) =>
      AttacksAtEnd(g, c);
    case Played(config, entry) =>
      var next := Advanced(config, g.settle(config.world));
      PlayedAdvances(g, c);
      AttacksEntered(g, next);
      AttackCounted(g, c, next);
  }

  lemma AttackCounted<W(!new)>(g: Game<W>, c: Config<W>, next: Config<W>)
    requires g.Valid() && Inv(g, c) && c.idx > 4 && OneRound(g, c).Played? && Inv(g, next)
    requires next == Advanced(OneRound(g, c).config, next.world)
    requires AttacksAhead(next.phases, next.ready, g.extra, next.idx, Attacks(Uninterrupted(g, next).entries))
    ensures
      AttacksAhead(c.phases, c.ready, g.extra, c.idx, Attacks(After([OneRound(g, c).entry], Uninterrupted(g, next)).entries))
  {
    PlayedAdvances(g, c);
    AttacksAfter(OneRound(g, c).entry, Uninterrupted(g, next));
    AttackPlayed(g, c, Attacks(Uninterrupted(g, next).entries));
  }

  lemma SkipsNoAttack<W(!new)>(g: Game<W>, c: Config<W>)
    requires Inv(g, c) && OneRound(g, c).Skipped?
    ensures
      var n := OneRound(g, c).config;
      && c.idx < n.idx < |c.phases| && n.phases == c.phases && n.ready == c.ready
      && AttacksFrom(c.phases, c.idx) == AttacksFrom(c.phases, n.idx)
  {
    SkipLands(g, c);
    HeadHasNoCombat(g, c);
    CombatStepInSequence(c.phases, c.ready, g.extra, c.idx);
    SkipWithin(c.phases, CombatStart(c.ready, c.idx), c.idx);
    SkipTargets(c.phases, c.ready, g.extra, c.idx);
    NoAttackSkipped(c.phases, CombatStart(c.ready, c.idx), c.idx, OneRound(g, c).config.idx);
    AttacksBetween(c.phases, c.idx, OneRound(g, c).config.idx);
  }

  lemma NoAttackSkipped(phases: seq<Phase>, start: nat, i: nat, j: nat)
    requires IsSequence(phases, start) && start <= i < start + 8 && NeedsAttackers(phases[i]) && i < j <= start + 8
    ensures forall k :: i <= k < j ==> phases[k] != DeclareAttack
  {
  }

  lemma AttacksAtEnd<W(!new)>(g: Game<W>, c: Config<W>)
    requires Inv(g, c) && c.idx > 4 && OneRound(g, c).Over? && !g.dead(OneRound(g, c).world)
    ensures Attacks(OneRound(g, c).entries) == AttacksFrom(c.phases, c.idx) == 0
  {
    OnlyEndIsOver(g, c);
    assert AttacksFrom(c.phases, c.idx + 1) == 0;
  }

  lemma AttackPlayed<W(!new)>(g: Game<W>, c: Config<W>, attacks: nat)
    requires Inv(g, c) && c.idx > 4 && OneRound(g, c).Played?
    requires
      var p := OneRound(g, c).config;
      c.idx + 1 <= |p.phases| && AttacksAhead(p.phases, p.ready, g.extra, c.idx + 1, attacks)
    ensures
      AttacksAhead(c.phases, c.ready, g.extra, c.idx, attacks + if c.phases[c.idx] == DeclareAttack then 1 else 0)
  {
    if RaisesFlag(g, c) {
      RaiseNeedsExtraCombat(g, c);
      RaisedConfig(g, c);
      BuiltHasHead(true, g.extra);
      RaisedAttacks(c.phases, OneRound(g, c).config.phases, g.extra, c.idx);
    } else {
      UnraisedStays(g, c);
    }
  }

  lemma {:induction false} AttacksInList(phases: seq<Phase>, ready: bool, extra: nat, n: nat)
    requires IsTurnList(phases, ready, extra) && n <= CombatCount(ready, extra)
    ensures FirstCombat(ready) + 9 * n <= |phases|
    ensures AttacksFrom(phases, FirstCombat(ready) + 9 * n) == CombatCount(ready, extra) - n
    decreases CombatCount(ready, extra) - n
  {
    var i := FirstCombat(ready) + 9 * n;
    if n == CombatCount(ready, extra) {
      forall k | i <= k < |phases| ensures phases[k] != DeclareAttack { assert phases[k] == PhaseAt(ready, extra, k); }
      AttacksBetween(phases, i, |phases|);
    } else {
      AttacksInList(phases, ready, extra, n + 1);
      CombatAt(phases, ready, extra, n);
      OneAttack(phases, i);
    }
  }

  lemma CombatAt(phases: seq<Phase>, ready: bool, extra: nat, n: nat)
    requires IsTurnList(phases, ready, extra) && n < CombatCount(ready, extra)
    ensures IsSequence(phases, FirstCombat(ready) + 9 * n)
  {
    var i := FirstCombat(ready) + 9 * n;
    assert CombatStart(ready, i) == i;
    SequenceHolds(phases, ready, extra, i);
  }

  lemma OneAttack(phases: seq<Phase>, i: nat)
    requires IsSequence(phases, i)
    ensures AttacksFrom(phases, i) == 1 + AttacksFrom(phases, i + 9)
  {
    AttacksBetween(phases, i, i + 1);
    AttacksBetween(phases, i + 2, i + 9);
  }

  lemma AttacksOfList(phases: seq<Phase>, ready: bool, extra: nat)
    requires IsTurnList(phases, ready, extra)
    ensures 5 < |phases| && AttacksFrom(phases, 5) == CombatCount(ready, extra)
  {
    AttacksInList(phases, ready, extra, 0);
    assert phases[5] == PhaseAt(ready, extra, 5);
    if !ready { AttacksBetween(phases, 5, 6); }
  }

  // ------------------------------------------------------------ what the first main phase decides

  /** The world that the first main phase leaves. */
  function MainLeaves<W(!new)>(g: Game<W>, c: Config<W>): W { g.act(FirstMain, g.enter(FirstMain, c.world)) }

  /** Where the turn goes on behind the first main phase. */
  function BehindMain<W(!new)>(g: Game<W>, c: Config<W>): Config<W> {
    var after := MainLeaves(g, c);
    Config(5, BuildTurnPhases(g.canAttack(after), g.extra), g.canAttack(after), g.settle(after))
  }

  lemma MainPlayed<W(!new)>(g: Game<W>, c: Config<W>)
    requires g.Valid() && Inv(g, c) && c.idx == 4 && !g.dead(c.world)
    ensures Inv(g, BehindMain(g, c))
    ensures
      Uninterrupted(g, c) ==
      After([Entry(FirstMain, g.attacking(c.world), g.swiftstrike(c.world))], Uninterrupted(g, BehindMain(g, c)))
  {
    HeadCursor(c.phases, c.idx);
    MainRound(g, c);
    PlayedThen(g, c, BehindMain(g, c));
  }

  lemma MainRound<W(!new)>(g: Game<W>, c: Config<W>)
    requires c.idx < |c.phases| && c.phases[c.idx] == FirstMain && c.idx == 4 && !g.dead(c.world)
    ensures OneRound(g, c).Played?
    ensures OneRound(g, c).entry == Entry(FirstMain, g.attacking(c.world), g.swiftstrike(c.world))
    ensures Advanced(OneRound(g, c).config, g.settle(OneRound(g, c).config.world)) == BehindMain(g, c)
  {
  }

  /** An attack comes up in `entries` behind combat windows only. */
  predicate OpensCombat(entries: seq<Entry>, k: nat) {
    && k < |entries| && entries[k].phase == DeclareAttack
    && forall j :: 0 <= j < k ==> entries[j].phase == DeclareCombatWindow
  }

  lemma {:induction false} WindowOpensCombat<W(!new)>(g: Game<W>, c: Config<W>) returns (k: nat)
    requires g.Valid() && Inv(g, c) && c.phases[c.idx] == DeclareCombatWindow && !g.dead(Uninterrupted(g, c).world)
    ensures 0 < k && OpensCombat(Uninterrupted(g, c).entries, k)
    decreases Rank(g, c)
  {
    FirstEntered(g, c);
    OpeningRound(g, c);
    if OneRound(g, c).Repeated? {
      RoundProgress(g, c, c.world);
      RepeatedThen(g, c);
      var j := WindowOpensCombat(g, OneRound(g, c).config);
      OpensAfter(OneRound(g, c).entry, Uninterrupted(g, OneRound(g, c).config), j);
      k := j + 1;
    } else {
      OpenedCombat(g, c);
      k := 1;
    }
  }

  lemma OpeningRound<W(!new)>(g: Game<W>, c: Config<W>)
    requires c.idx < |c.phases| && c.phases[c.idx] == DeclareCombatWindow && !g.dead(c.world)
    ensures OneRound(g, c).Repeated? || OneRound(g, c).Played?
    ensures OneRound(g, c).Repeated? ==> OneRound(g, c).config == c.(world := OneRound(g, c).config.world)
    ensures OneRound(g, c).entry.phase == DeclareCombatWindow
  {
  }

  lemma AttackIsNext<W(!new)>(g: Game<W>, c: Config<W>, n: Config<W>)
    requires g.Valid() && Inv(g, c) && c.phases[c.idx] == DeclareCombatWindow && OneRound(g, c).Played?
    requires Inv(g, n) && n == Advanced(OneRound(g, c).config, n.world) && !g.dead(Uninterrupted(g, n).world)
    ensures OpensCombat(Uninterrupted(g, n).entries, 0)
  {
    WindowPlayed(g, c);
    FirstEntered(g, n);
  }

  lemma WindowPlayed<W(!new)>(g: Game<W>, c: Config<W>)
    requires Inv(g, c) && OneRound(g, c).Played? && c.phases[c.idx] == DeclareCombatWindow
    ensures
      var p := OneRound(g, c).config;
      p.idx == c.idx && c.idx + 1 < |p.phases| && p.phases[c.idx + 1] == DeclareAttack
  {
    StepPlayed(g, c);
  }

  lemma OpenedCombat<W(!new)>(g: Game<W>, c: Config<W>)
    requires g.Valid() && Inv(g, c) && c.phases[c.idx] == DeclareCombatWindow && !g.dead(Uninterrupted(g, c).world)
    requires OneRound(g, c).Played?
    ensures OpensCombat(Uninterrupted(g, c).entries, 1)
  {
    var next := Advanced(OneRound(g, c).config, g.settle(OneRound(g, c).config.world));
    PlayedThen(g, c, next);
    PlayedAdvances(g, c);
    AttackIsNext(g, c, next);
    OpensAfter(OneRound(g, c).entry, Uninterrupted(g, next), 0);
  }

  lemma OpensAfter<W>(e: Entry, rest: Turn<W>, k: nat)
    requires e.phase == DeclareCombatWindow && OpensCombat(rest.entries, k)
    ensures OpensCombat(After([e], rest).entries, k + 1)
  {
    var all := After([e], rest).entries;
    forall j | 0 <= j < k + 1 ensures all[j].phase == DeclareCombatWindow {
      if j > 0 { assert all[j] == rest.entries[j - 1]; }
    }
  }

  predicate NoCombat(entries: seq<Entry>) { forall k :: 0 <= k < |entries| ==> !IsCombatStep(entries[k].phase) }

  lemma {:induction false} NothingToFight<W(!new)>(g: Game<W>, c: Config<W>)
    requires g.Valid() && Inv(g, c) && c.idx > 4 && !c.ready && g.extra == 0
    ensures NoCombat(Uninterrupted(g, c).entries)
    decreases Rank(g, c)
  {
    RoundProgress(g, c, g.settle(OneRoundWorld(g, c)));
    assert c.phases[c.idx] == PhaseAt(false, 0, c.idx);
    match OneRound(g, c)
    case Over(_, _) =>
    case Played(config, _) =>
      PlayedInPlace(g, c);
      UnraisedStays(g, c);
      NothingToFight(g, Advanced(config, g.settle(config.world)));
  }

  /** What the first main phase decides for the rest of the turn, when no champion dies: a troop that
      can attack then opens a combat at once, and without one and without extra combats there is
      none at all. */
  lemma FirstMainDecides<W(!new)>(g: Game<W>, c: Config<W>) returns (k: nat)
    requires g.Valid() && Inv(g, c) && c.idx == 4 && !g.dead(Uninterrupted(g, c).world)
    ensures
      var entries, attack := Uninterrupted(g, c).entries, g.canAttack(MainLeaves(g, c));
      && |entries| > 1 && entries[0].phase == FirstMain
      && entries[1].phase == (if attack then DeclareCombatWindow else SecondMain)
      && (attack ==> 0 < k && OpensCombat(entries[1..], k))
      && (!attack && g.extra == 0 ==> NoCombat(entries))
    ensures AttackCount(g, g.canAttack(MainLeaves(g, c)), Attacks(Uninterrupted(g, c).entries))
  {
    FirstEntered(g, c);
    MainPlayed(g, c);
    var rest := Uninterrupted(g, BehindMain(g, c));
    k := DecidedBehindMain(g, BehindMain(g, c));
    var e := Entry(FirstMain, g.attacking(c.world), g.swiftstrike(c.world));
    assert Uninterrupted(g, c).entries == [e] + rest.entries && ([e] + rest.entries)[1..] == rest.entries;
    AttacksAfter(e, rest);
  }

  lemma DecidedBehindMain<W(!new)>(g: Game<W>, n: Config<W>) returns (k: nat)
    requires g.Valid() && Inv(g, n) && n.idx == 5 && !g.dead(Uninterrupted(g, n).world)
    ensures
      var entries := Uninterrupted(g, n).entries;
      && entries != [] && entries[0].phase == (if n.ready then DeclareCombatWindow else SecondMain)
      && (n.ready ==> 0 < k && OpensCombat(entries, k))
      && (!n.ready && g.extra == 0 ==> NoCombat(entries))
      && AttackCount(g, n.ready, Attacks(entries))
  {
    FirstEntered(g, n);
    assert n.phases[5] == PhaseAt(n.ready, g.extra, 5);
    k := 0;
    if n.ready {
      k := WindowOpensCombat(g, n);
    } else if g.extra == 0 {
      NothingToFight(g, n);
    }
    AttacksEntered(g, n);
    AttacksOfList(n.phases, n.ready, g.extra);
  }

  /** How often attackers may be declared: once for each extra combat, and once more with a troop
      that can attack at the first main phase, or one that is found when attackers are declared. */
  predicate AttackCount<W(!new)>(g: Game<W>, attack: bool, count: nat) {
    count == g.extra + (if attack then 1 else 0) || (!attack && g.extra > 0 && count == g.extra + 1)
  }

  /** The turn comes to its first main phase, through exactly the phases in front of it, unless it is
      cut short. */
  lemma {:induction false} ReachesFirstMain<W(!new)>(g: Game<W>, c: Config<W>) returns (run: seq<Config<W>>)
    requires g.Valid() && Inv(g, c) && c.idx <= 4 && !CutShort(g, Uninterrupted(g, c).world)
    ensures |run| == 5 - c.idx && run[0] == c && IsRun(g, run)
    ensures
      var m, turn := run[|run| - 1], Uninterrupted(g, c);
      && Inv(g, m) && m.idx == 4 && 4 - c.idx <= |turn.entries|
      && turn == After(turn.entries[..4 - c.idx], Uninterrupted(g, m))
      && forall i :: 0 <= i < 4 - c.idx ==> turn.entries[i].phase == HeadPhase(c.idx + i)
    decreases 4 - c.idx
  {
    if c.idx == 4 {
      run := [c];
      AfterTwice([], [], Uninterrupted(g, c));
    } else {
      RoundProgress(g, c, g.settle(OneRoundWorld(g, c)));
      HeadRound(g, c);
      FirstEntered(g, c);
      var r := OneRound(g, c);
      var n := Advanced(r.config, g.settle(r.config.world));
      var tail := ReachesFirstMain(g, n);
      run := [c] + tail;
      assert LeadsTo(g, c, n);
      RunLonger(g, c, tail);
      HeadLonger(r.entry, Uninterrupted(g, n), Uninterrupted(g, tail[|tail| - 1]), 4 - n.idx);
    }
  }

  lemma RunLonger<W(!new)>(g: Game<W>, c: Config<W>, run: seq<Config<W>>)
    requires IsRun(g, run) && LeadsTo(g, c, run[0])
    ensures IsRun(g, [c] + run)
  {
    var all := [c] + run;
    forall k | 0 <= k < |all| - 1 ensures LeadsTo(g, all[k], all[k + 1]) {
      if k > 0 { assert LeadsTo(g, run[k - 1], run[k]); }
    }
  }

  lemma HeadLonger<W>(e: Entry, rest: Turn<W>, last: Turn<W>, n: nat)
    requires n <= |rest.entries| && rest == After(rest.entries[..n], last)
    ensures After([e], rest) == After(After([e], rest).entries[..n + 1], last)
  {
    assert After([e], rest).entries[..n + 1] == [e] + rest.entries[..n];
    AfterTwice([e], rest.entries[..n], last);
  }

  /** The whole turn: with a troop that can attack when the first main phase is over, and only then,
      the phase entered next is the combat window, and attackers are declared right behind it. */
  lemma TurnWithCombat<W(!new)>(g: Game<W>, c: Config<W>) returns (run: seq<Config<W>>, k: nat)
    requires g.Valid() && Inv(g, c) && c.idx <= 4 && !CutShort(g, Uninterrupted(g, c).world)
    ensures |run| == 5 - c.idx && run[0] == c && IsRun(g, run)
    ensures
      var entries, main := Uninterrupted(g, c).entries, 4 - c.idx;
      var attack := g.canAttack(MainLeaves(g, run[main]));
      && |entries| > main + 1 && entries[main].phase == FirstMain
      && (entries[main + 1].phase == DeclareCombatWindow <==> attack)
      && (attack ==> 0 < k && OpensCombat(entries[main + 1..], k))
      && (!attack && g.extra == 0 ==> NoCombat(entries))
      && AttackCount(g, attack, Attacks(entries))
  {
    run := ReachesFirstMain(g, c);
    var m, turn, main := run[|run| - 1], Uninterrupted(g, c), 4 - c.idx;
    var rest := Uninterrupted(g, m);
    k := FirstMainDecides(g, m);
    assert turn.entries[main..] == rest.entries && turn.entries[main + 1..] == rest.entries[1..];
    assert forall i :: 0 <= i < main ==> !IsCombatStep(turn.entries[i].phase);
    forall i | main <= i < |turn.entries| ensures turn.entries[i] == rest.entries[i - main] {}
    HeadAttacks(turn.entries, main);
  }

  lemma {:induction false} HeadAttacks(entries: seq<Entry>, n: nat)
    requires n <= |entries| && forall i :: 0 <= i < n ==> !IsCombatStep(entries[i].phase)
    ensures Attacks(entries) == Attacks(entries[n..])
  {
    if n > 0 {
      HeadAttacks(entries[1..], n - 1);
      assert entries[1..][n - 1..] == entries[n..];
    } else {
      assert entries[0..] == entries;
    }
  }

  /** A draw from an empty deck ends the turn there and then, and nothing else in the draw phase but a
      dead champion does. */
  lemma DeckOutEndsTurn<W(!new)>(g: Game<W>, c: Config<W>)
    requires g.Valid() && Inv(g, c) && c.idx == 3 && !g.dead(c.world)
    ensures
      var e, after := Entry(Draw, g.attacking(c.world), g.swiftstrike(c.world)), g.act(Draw, g.enter(Draw, c.world));
      if g.deckedOut(after) then Uninterrupted(g, c) == Turn([e], after)
      else
        var n := c.(idx := 4, world := g.settle(after));
        Inv(g, n) && Uninterrupted(g, c) == After([e], Uninterrupted(g, n))
  {
    HeadCursor(c.phases, 3);
    DrawRound(g, c);
    var after := g.act(Draw, g.enter(Draw, c.world));
    if !g.deckedOut(after) {
      PlayedThen(g, c, c.(idx := 4, world := g.settle(after)));
    }
  }

  lemma DrawRound<W(!new)>(g: Game<W>, c: Config<W>)
    requires c.idx < |c.phases| && c.phases[c.idx] == Draw && !g.dead(c.world)
    ensures
      var e, after := Entry(Draw, g.attacking(c.world), g.swiftstrike(c.world)), g.act(Draw, g.enter(Draw, c.world));
      OneRound(g, c) == if g.deckedOut(after) then Over(after, [e]) else Played(c.(world := after), e)
  {
  }

  // ------------------------------------------------------------ where the human gets priority

  /** The phases at which the human may stop the AI's turn, besides the declaration of blockers. */
  predicate ChosenStop(custom: Option<set<Phase>>, p: Phase) {
    match custom
    case Some(stops) => if stops == {} then DefaultStop(p) else p in stops
    case None => DefaultStop(p)
  }

  predicate DefaultStop(p: Phase) { p.SecondMain? || p.DeclareAttackWindow? || p.DeclareDefenseWindow? }

  /** The human declares blockers whatever the stops, but only when there are any. */
  lemma PausesWhen<W(!new)>(g: Game<W>, custom: Option<set<Phase>>, p: Phase, world: W)
    ensures Pauses(g, custom, p, world) <==> GivesPriority(g, custom, p, world)
  {
  }

  /** A prompt, an item on the chain, a defense that can be made, or a chosen stop. */
  predicate GivesPriority<W(!new)>(g: Game<W>, custom: Option<set<Phase>>, p: Phase, world: W) {
    || g.promptPending(world) || !g.chainEmpty(world)
    || (if p.DeclareDefense? then g.canBlock(world) else ChosenStop(custom, p))
  }

  /** A call begins with what the turn begins with. */
  lemma CallEntered<W(!new)>(g: Game<W>, custom: Option<set<Phase>>, c: Config<W>)
    requires g.Valid() && Inv(g, c)
    ensures
      var entries := RunCall(g, custom, c).entries;
      entries != [] ==>
        && !g.dead(c.world) && Uninterrupted(g, c).entries != []
        && entries[0] == Uninterrupted(g, c).entries[0] && Lands(c.phases[c.idx], entries[0])
  {
    CallThenRest(g, custom, c);
    FirstEntered(g, c);
  }

  /** The phases of a call up to its last: none is a chosen stop, except a window that a trick repeats
      or whose attackers it removes. */
  predicate PastNoStop(custom: Option<set<Phase>>, entries: seq<Entry>) {
    forall k :: 0 <= k < |entries| - 1 && !entries[k].phase.DeclareDefense? && ChosenStop(custom, entries[k].phase) ==>
      IsWindow(entries[k].phase) && Lands(entries[k].phase, entries[k + 1])
  }

  lemma PastNoStopAfter<W>(custom: Option<set<Phase>>, e: Entry, call: Call<W>)
    requires PastNoStop(custom, call.entries)
    requires
      call.entries != [] && !e.phase.DeclareDefense? && ChosenStop(custom, e.phase) ==>
        IsWindow(e.phase) && Lands(e.phase, call.entries[0])
    ensures PastNoStop(custom, Preceded([e], call).entries)
  {
    var all := Preceded([e], call).entries;
    forall k | 0 <= k < |all| - 1 && !all[k].phase.DeclareDefense? && ChosenStop(custom, all[k].phase)
      ensures IsWindow(all[k].phase) && Lands(all[k].phase, all[k + 1])
    {
      if k > 0 { assert all[k] == call.entries[k - 1]; }
    }
  }

  /** A call of the loop never runs past a chosen stop. */
  lemma {:induction false} CallKeepsStops<W(!new)>(g: Game<W>, custom: Option<set<Phase>>, c: Config<W>)
    requires g.Valid() && Inv(g, c)
    ensures PastNoStop(custom, RunCall(g, custom, c).entries)
    decreases Rank(g, c)
  {
    RoundProgress(g, c, OneRoundWorld(g, c));
    match OneRound(g, c)
    case Skipped(config) => CallKeepsStops(g, custom, config);
    case Repeated(config, entry) =>
      CallKeepsStops(g, custom, config);
      CallEntered(g, custom, config);
      PastNoStopAfter(custom, entry, RunCall(g, custom, config));
    case Over(_, _) =>
    case Played(config, entry) =>
      if !Pauses(g, custom, entry.phase, config.world) {
        var next := Advanced(config, config.world);
        CallKeepsStops(g, custom, next);
        PausesWhen(g, custom, entry.phase, config.world);
        PastNoStopAfter(custom, entry, RunCall(g, custom, next));
      }
  }

  predicate PausedThere<W(!new)>(g: Game<W>, custom: Option<set<Phase>>, call: Call<W>) {
    call.Paused? ==> call.entries != [] && GivesPriority(g, custom, call.entries[|call.entries| - 1].phase, call.config.world)
  }

  lemma PausedThereAfter<W(!new)>(g: Game<W>, custom: Option<set<Phase>>, e: Entry, call: Call<W>)
    requires PausedThere(g, custom, call)
    ensures PausedThere(g, custom, Preceded([e], call))
  {
  }

  /** A call pauses right behind the phase that gives priority, for a prompt, an item on the chain, a
      chosen stop, or a defense that can be made. */
  lemma {:induction false} CallPausesThere<W(!new)>(g: Game<W>, custom: Option<set<Phase>>, c: Config<W>)
    requires g.Valid() && Inv(g, c)
    ensures PausedThere(g, custom, RunCall(g, custom, c))
    decreases Rank(g, c)
  {
    RoundProgress(g, c, OneRoundWorld(g, c));
    match OneRound(g, c)
    case Skipped(config) => CallPausesThere(g, custom, config);
    case Repeated(config, entry) =>
      CallPausesThere(g, custom, config);
      PausedThereAfter(g, custom, entry, RunCall(g, custom, config));
    case Over(_, _) =>
    case Played(config, entry) =>
      PausesWhen(g, custom, entry.phase, config.world);
      if !Pauses(g, custom, entry.phase, config.world) {
        var next := Advanced(config, config.world);
        CallPausesThere(g, custom, next);
        PausedThereAfter(g, custom, entry, RunCall(g, custom, next));
      }
  }

  /** Whatever the stops, a defense that can be made is offered before anything else happens. */
  lemma DefenseIsOffered<W(!new)>(g: Game<W>, custom: Option<set<Phase>>, c: Config<W>)
    requires g.Valid() && Inv(g, c) && c.phases[c.idx] == DeclareDefense && !g.dead(c.world) && g.attacking(c.world)
    ensures
      var world := g.act(DeclareDefense, g.enter(DeclareDefense, c.world));
      var e := Entry(DeclareDefense, true, g.swiftstrike(c.world));
      g.canBlock(world) ==> RunCall(g, custom, c) == Paused([e], c.(idx := c.idx + 1, world := world))
  {
    DefenseRound(g, c);
    RoundProgress(g, c, OneRoundWorld(g, c));
  }

  lemma DefenseRound<W(!new)>(g: Game<W>, c: Config<W>)
    requires c.idx < |c.phases| && c.phases[c.idx] == DeclareDefense && !g.dead(c.world) && g.attacking(c.world)
    ensures
      OneRound(g, c) ==
      Played(c.(world := g.act(DeclareDefense, g.enter(DeclareDefense, c.world))), Entry(DeclareDefense, true, g.swiftstrike(c.world)))
  {
  }
}
