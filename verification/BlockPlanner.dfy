/** The AI's block declaration: a greedy plan over the attackers, largest attack first,
    with four ways of blocking.  Card records stand for the uids that key the source's
    dictionaries, so records in play are distinct. */
module BlockPlanner {
  import opened Lists

  datatype Blocker = Blocker(uid: nat, atk: int, def: int)
  datatype Attacker = Attacker(uid: nat, atk: int, def: int)

  /** One attacker and the blockers assigned to it, none when it goes unblocked. */
  datatype Block = Block(attacker: Attacker, blockers: seq<Blocker>)

  /** What one declaration is decided from.  `legal` and `trade` are whatever the rules
      kernel and the card evaluator answer. */
  datatype Defense = Defense(avail: seq<Blocker>, lethal: bool,
                             legal: (Attacker, Blocker) -> bool, trade: (Attacker, Blocker) -> bool)
  {
    predicate Worth(a: Attacker, b: Blocker) { lethal || trade(a, b) }

    predicate Free(used: set<Blocker>, a: Attacker, b: Blocker) {
      b in avail && b !in used && legal(a, b)
    }

    predicate Reusable(used: set<Blocker>, damage: map<Blocker, int>, a: Attacker, b: Blocker) {
      b in avail && b in used && legal(a, b) && CanFace(damage, a, b)
    }
  }

  predicate CanFace(damage: map<Blocker, int>, a: Attacker, b: Blocker) {
    b in damage && b.def - damage[b] > a.atk
  }

  function Sum(s: seq<Blocker>): int {
    if s == [] then 0 else Sum(s[..|s| - 1]) + s[|s| - 1].atk
  }

  ghost function Total(s: set<Blocker>): int {
    if s == {} then 0 else
      var b :| b in s;
      b.atk + Total(s - {b})
  }

  lemma {:induction false} TotalRemove(s: set<Blocker>, x: Blocker)
    requires x in s
    ensures Total(s) == x.atk + Total(s - {x})
    decreases |s|
  {
    var b :| b in s && Total(s) == b.atk + Total(s - {b});
    if b != x {
      TotalRemove(s - {b}, x);
      TotalRemove(s - {x}, b);
      assert s - {b} - {x} == s - {x} - {b};
    }
  }

  function Members(s: seq<Blocker>): set<Blocker> {
    set b | b in s
  }

  /** Distinct troops, strongest first. */
  ghost predicate Ranked(c: seq<Blocker>) {
    c == [] || (var last, front := c[|c| - 1], c[..|c| - 1];
                Ranked(front) && last !in front && forall b :: b in front ==> b.atk >= last.atk)
  }

  lemma {:induction false} SortedIsRanked(c: seq<Blocker>)
    requires Distinct(c) && SortedBy(c, AtkAtLeast)
    ensures Ranked(c)
  {
    if c != [] {
      var n := |c| - 1;
      SortedIsRanked(c[..n]);
      forall b | b in c[..n] ensures b.atk >= c[n].atk && b != c[n] {
        var i :| 0 <= i < n && c[i] == b;
        assert AtkAtLeast(c[i], c[n]);
      }
    }
  }

  lemma {:induction false} RankedTotal(c: seq<Blocker>)
    requires Ranked(c)
    ensures Sum(c) == Total(Members(c)) && |Members(c)| == |c|
  {
    if c != [] {
      var last, front := c[|c| - 1], c[..|c| - 1];
      RankedTotal(front);
      assert Members(c) == Members(front) + {last} && Members(c) - {last} == Members(front);
      TotalRemove(Members(c), last);
    }
  }

  lemma {:induction false} RankedPrefix(c: seq<Blocker>, k: nat)
    requires Ranked(c) && k <= |c|
    ensures Ranked(c[..k])
  {
    if k == |c| {
      assert c[..k] == c;
    } else {
      RankedPrefix(c[..|c| - 1], k);
      assert c[..|c| - 1][..k] == c[..k];
    }
  }

  /** Exchange argument: of the sets of a given size, the prefix of the attack-descending
      list has the greatest combined attack. */
  lemma {:induction false} PrefixIsStrongest(c: seq<Blocker>, s: set<Blocker>)
    requires Ranked(c) && s <= Members(c)
    ensures |s| <= |c| && Total(s) <= Sum(c[..|s|])
    decreases |c|
  {
    if c == [] {
      assert s == {};
    } else {
      var last, front := c[|c| - 1], c[..|c| - 1];
      var rest := s - {last};
      assert Members(c) == Members(front) + {last};
      PrefixIsStrongest(front, rest);
      if last in s {
        TotalRemove(s, last);
        SumNext(c, |rest|);
        assert |s| == |rest| + 1;
      } else {
        assert rest == s;
        assert front[..|s|] == c[..|s|];
      }
    }
  }

  /** The weakest candidate never adds more than the one that extends the prefix. */
  lemma SumNext(c: seq<Blocker>, k: nat)
    requires Ranked(c) && k < |c|
    ensures Sum(c[..k + 1]) >= Sum(c[..|c| - 1][..k]) + c[|c| - 1].atk
  {
    assert c[..k + 1][..k] == c[..|c| - 1][..k];
    assert k < |c| - 1 ==> c[k] in c[..|c| - 1];
  }

  // ------------------------------------------------------- the decision for one attacker

  /** Unused, legal, worthwhile blockers: what a dogpile may be built from. */
  ghost predicate Pilable(d: Defense, used: set<Blocker>, a: Attacker, s: set<Blocker>) {
    s != {} && forall b :: b in s ==> d.Free(used, a, b) && d.Worth(a, b)
  }

  ghost predicate Kills(s: set<Blocker>, a: Attacker) { Total(s) >= a.def }

  ghost predicate CheapestKill(d: Defense, used: set<Blocker>, a: Attacker, pile: seq<Blocker>) {
    && |Members(pile)| == |pile|
    && Pilable(d, used, a, Members(pile))
    && Kills(Members(pile), a)
    && forall s :: Pilable(d, used, a, s) && |s| < |pile| ==> !Kills(s, a)
  }

  /** More attack, or as much and not behind it among the available troops. */
  ghost predicate Stronger(d: Defense, x: Blocker, y: Blocker) {
    x.atk > y.atk || (x.atk == y.atk && NotBehind(d.avail, x, y))
  }

  ghost predicate Descends(d: Defense, s: seq<Blocker>) {
    forall i, j :: 0 <= i < j < |s| ==> Stronger(d, s[i], s[j])
  }

  /** The troops that could pile up, strongest first, up to some point. */
  ghost predicate StrongestPile(d: Defense, used: set<Blocker>, a: Attacker, pile: seq<Blocker>) {
    && Descends(d, pile)
    && forall x, b :: x in pile && b !in pile && d.Free(used, a, b) && d.Worth(a, b) ==> Stronger(d, x, b)
  }

  ghost predicate Survivor(d: Defense, used: set<Blocker>, damage: map<Blocker, int>, a: Attacker, b: Blocker) {
    d.Free(used, a, b) && CanFace(damage, a, b)
  }

  /** The rule each choice of blockers obeys, in order of preference. */
  ghost predicate Justified(d: Defense, used: set<Blocker>, damage: map<Blocker, int>, a: Attacker, pick: seq<Blocker>) {
    if exists b :: Survivor(d, used, damage, a, b) then
      // an unused troop that lives; the cheapest, among the worthwhile ones if there are any
      && |pick| == 1
      && Survivor(d, used, damage, a, pick[0])
      && forall b :: Survivor(d, used, damage, a, b) ==>
           (d.Worth(a, pick[0]) == d.Worth(a, b) ==> pick[0].def < b.def || (pick[0].def == b.def && NotBehind(d.avail, pick[0], b)))
           && (d.Worth(a, b) ==> d.Worth(a, pick[0]))
    else if exists b :: d.Reusable(used, damage, a, b) then
      // the sturdiest troop already blocking that survives this attacker as well
      && |pick| == 1
      && d.Reusable(used, damage, a, pick[0])
      && forall b :: d.Reusable(used, damage, a, b) ==>
           b.def < pick[0].def || (b.def == pick[0].def && NotBehind(d.avail, pick[0], b))
    else if (a.atk >= 3 || d.lethal) && exists s :: Pilable(d, used, a, s) && Kills(s, a) then
      CheapestKill(d, used, a, pick) && StrongestPile(d, used, a, pick)
    else if d.lethal && exists b :: d.Free(used, a, b) then
      // a chump: the legal troop with the least attack, then defense, then uid
      && |pick| == 1
      && d.Free(used, a, pick[0])
      && forall b :: d.Free(used, a, b) ==> ChumpBefore(pick[0], b)
    else
      pick == []
  }

  predicate ChumpBefore(x: Blocker, y: Blocker) {
    x.atk < y.atk || (x.atk == y.atk && (x.def < y.def || (x.def == y.def && x.uid <= y.uid)))
  }

  /** No non-empty prefix of the pile reaches the attacker's defense. */
  ghost predicate StillShort(pile: seq<Blocker>, need: int) {
    pile == [] || (StillShort(pile[..|pile| - 1], need) && Sum(pile) < need)
  }

  lemma {:induction false} ShortPrefix(pile: seq<Blocker>, need: int, k: nat)
    requires StillShort(pile, need) && 0 < k <= |pile|
    ensures Sum(pile[..k]) < need
  {
    if k == |pile| {
      assert pile[..k] == pile;
    } else {
      ShortPrefix(pile[..|pile| - 1], need, k);
      assert pile[..|pile| - 1][..k] == pile[..k];
    }
  }

  predicate AtkAtLeast(x: Blocker, y: Blocker) { x.atk >= y.atk }

  function Worthwhile(d: Defense, a: Attacker, s: seq<Blocker>): seq<Blocker> {
    Filter(s, b => d.Worth(a, b))
  }

  lemma WorthwhileStep(d: Defense, a: Attacker, s: seq<Blocker>, i: nat)
    requires i < |s|
    ensures Worthwhile(d, a, s[..i + 1]) == Worthwhile(d, a, s[..i]) + (if d.Worth(a, s[i]) then [s[i]] else [])
  {
    assert s[..i + 1][..i] == s[..i];
  }

  /** `all` is the worthwhile free troops, strongest first. */
  ghost predicate PileOrder(d: Defense, used: set<Blocker>, a: Attacker, all: seq<Blocker>) {
    && Ranked(all)
    && forall b :: b in all <==> d.Free(used, a, b) && d.Worth(a, b)
  }

  lemma CandidateOrder(d: Defense, used: set<Blocker>, a: Attacker, free: seq<Blocker>)
    requires Distinct(free)
    requires forall b :: b in free <==> d.Free(used, a, b)
    ensures PileOrder(d, used, a, Worthwhile(d, a, Sort(free, AtkAtLeast)))
  {
    var cands := Sort(free, AtkAtLeast);
    SortSorted(free, AtkAtLeast);
    SameMembers(free, cands);
    FilterDistinct(cands, b => d.Worth(a, b));
    FilterSorted(cands, b => d.Worth(a, b), AtkAtLeast);
    SortedIsRanked(Worthwhile(d, a, cands));
  }

  /** `pile` is the shortest non-empty prefix of `all` that reaches `need`, or all of it. */
  ghost predicate GreedyPrefix(all: seq<Blocker>, pile: seq<Blocker>, need: int) {
    && pile <= all
    && if pile != [] && Sum(pile) >= need then StillShort(pile[..|pile| - 1], need)
       else pile == all && StillShort(pile, need)
  }

  /** The greedy pile: strongest worthwhile troops until the attacker would die. */
  method Dogpile(d: Defense, a: Attacker, cands: seq<Blocker>) returns (pile: seq<Blocker>, total: int)
    ensures total == Sum(pile)
    ensures GreedyPrefix(Worthwhile(d, a, cands), pile, a.def)
  {
    pile, total := [], 0;
    for i := 0 to |cands|
      invariant pile == Worthwhile(d, a, cands[..i])
      invariant total == Sum(pile) && StillShort(pile, a.def)
    {
      var b := cands[i];
      WorthwhileStep(d, a, cands, i);
      if !d.Worth(a, b) {
        continue;
      }
      GrowPile(pile, b, a.def);
      pile := pile + [b];
      total := total + b.atk;
      if total >= a.def {
        PrefixOfWorthwhile(d, a, cands, i + 1);
        return;
      }
    }
    assert cands[..|cands|] == cands;
  }

  lemma GrowPile(pile: seq<Blocker>, b: Blocker, need: int)
    ensures (pile + [b])[..|pile|] == pile
    ensures Sum(pile + [b]) == Sum(pile) + b.atk
    ensures StillShort(pile, need) && Sum(pile + [b]) < need ==> StillShort(pile + [b], need)
  {
    assert (pile + [b])[..|pile|] == pile;
  }

  lemma PrefixOfWorthwhile(d: Defense, a: Attacker, cands: seq<Blocker>, i: nat)
    requires i <= |cands|
    ensures Worthwhile(d, a, cands[..i]) <= Worthwhile(d, a, cands)
  {
    FilterPrefix(cands, b => d.Worth(a, b), i);
  }

  /** Among the candidates in the order of the dogpile, each is as strong as all behind it. */
  lemma CandidatesStronger(d: Defense, used: set<Blocker>, a: Attacker, free: seq<Blocker>)
    requires InAvailOrder(d, free)
    ensures Descends(d, Worthwhile(d, a, Sort(free, AtkAtLeast)))
  {
    var cands := Sort(free, AtkAtLeast);
    var all := Worthwhile(d, a, cands);
    SortSorted(free, AtkAtLeast);
    SortStable(free, AtkAtLeast);
    var at := FilterPositions(cands, b => d.Worth(a, b));
    forall i, j | 0 <= i < j < |all| ensures Stronger(d, all[i], all[j]) {
      assert AtkAtLeast(cands[at[i]], cands[at[j]]);
    }
  }

  /** The list keeps the order of the available troops. */
  ghost predicate InAvailOrder(d: Defense, free: seq<Blocker>) {
    forall x, y :: NotBehind(free, x, y) ==> NotBehind(d.avail, x, y)
  }

  lemma PrefixIsStrongestPile(d: Defense, used: set<Blocker>, a: Attacker, all: seq<Blocker>, pile: seq<Blocker>)
    requires PileOrder(d, used, a, all) && pile <= all
    requires Descends(d, all)
    ensures StrongestPile(d, used, a, pile)
  {
    forall x, b | x in pile && b !in pile && d.Free(used, a, b) && d.Worth(a, b) ensures Stronger(d, x, b) {
      var i :| 0 <= i < |pile| && pile[i] == x;
      var j :| 0 <= j < |all| && all[j] == b;
      assert all[i] == x && j >= |pile|;
    }
  }

  lemma PileIsPicked(d: Defense, used: set<Blocker>, a: Attacker, all: seq<Blocker>, pile: seq<Blocker>)
    requires PileOrder(d, used, a, all) && Descends(d, all) && GreedyPrefix(all, pile, a.def)
    requires pile != [] && Sum(pile) >= a.def
    ensures CheapestKill(d, used, a, pile) && StrongestPile(d, used, a, pile)
  {
    PileIsCheapest(d, used, a, all, pile);
    PrefixIsStrongestPile(d, used, a, all, pile);
  }

  /** Mode 3: trade a group of troops for the attacker, or nothing. */
  method ChoosePile(d: Defense, used: set<Blocker>, a: Attacker, free: seq<Blocker>) returns (pick: seq<Blocker>)
    requires Distinct(free) && InAvailOrder(d, free)
    requires forall b :: b in free <==> d.Free(used, a, b)
    ensures pick == [] ==> forall s :: Pilable(d, used, a, s) ==> !Kills(s, a)
    ensures pick != [] ==> CheapestKill(d, used, a, pick) && StrongestPile(d, used, a, pick)
  {
    var cands := Sort(free, AtkAtLeast);
    var pile, total := Dogpile(d, a, cands);
    CandidateOrder(d, used, a, free);
    if pile != [] && total >= a.def {
      CandidatesStronger(d, used, a, free);
      PileIsPicked(d, used, a, Worthwhile(d, a, cands), pile);
      return pile;
    }
    NothingKills(d, used, a, pile);
    pick := [];
  }

  /** When even the whole list falls short at every prefix, no pile kills. */
  lemma NothingKills(d: Defense, used: set<Blocker>, a: Attacker, all: seq<Blocker>)
    requires PileOrder(d, used, a, all) && StillShort(all, a.def)
    ensures forall s :: Pilable(d, used, a, s) ==> !Kills(s, a)
  {
    forall s | Pilable(d, used, a, s) ensures !Kills(s, a) {
      assert s <= Members(all);
      PrefixIsStrongest(all, s);
      ShortPrefix(all, a.def, |s|);
    }
  }

  lemma PileIsCheapest(d: Defense, used: set<Blocker>, a: Attacker, all: seq<Blocker>, pile: seq<Blocker>)
    requires PileOrder(d, used, a, all)
    requires pile <= all && pile != [] && Sum(pile) >= a.def
    requires StillShort(pile[..|pile| - 1], a.def)
    ensures CheapestKill(d, used, a, pile)
  {
    assert all[..|pile|] == pile;
    RankedPrefix(all, |pile|);
    RankedTotal(pile);
    assert pile[0] in Members(pile);
    forall s | Pilable(d, used, a, s) && |s| < |pile| ensures !Kills(s, a) {
      assert s <= Members(all);
      PrefixIsStrongest(all, s);
      ShortPrefix(pile[..|pile| - 1], a.def, |s|);
      assert all[..|s|] == pile[..|pile| - 1][..|s|];
    }
  }

  predicate DefAtMost(x: Blocker, y: Blocker) { x.def <= y.def }
  predicate DefAtLeast(x: Blocker, y: Blocker) { x.def >= y.def }

  function FreeBlockers(d: Defense, used: set<Blocker>, a: Attacker): (free: seq<Blocker>)
    requires Distinct(d.avail)
    ensures Distinct(free) && InAvailOrder(d, free) && forall b :: b in free <==> d.Free(used, a, b)
  {
    var p := b => b !in used && d.legal(a, b);
    FilterDistinct(d.avail, p);
    SelectedInOrder(d, p);
    Filter(d.avail, p)
  }

  lemma SelectedInOrder(d: Defense, p: Blocker -> bool)
    ensures InAvailOrder(d, Filter(d.avail, p))
  {
    forall x, y | NotBehind(Filter(d.avail, p), x, y) ensures NotBehind(d.avail, x, y) {
      NotBehindSelected(d.avail, p, x, y);
    }
  }

  lemma NarrowedInOrder(d: Defense, s: seq<Blocker>, p: Blocker -> bool)
    requires InAvailOrder(d, s)
    ensures InAvailOrder(d, Filter(s, p))
  {
    forall x, y | NotBehind(Filter(s, p), x, y) ensures NotBehind(d.avail, x, y) {
      NotBehindSelected(s, p, x, y);
    }
  }

  lemma LeastDefense(d: Defense, used: set<Blocker>, damage: map<Blocker, int>, a: Attacker, survivors: seq<Blocker>,
                     good: seq<Blocker>, x: Blocker)
    requires InAvailOrder(d, survivors) && InAvailOrder(d, good)
    requires forall b :: b in survivors <==> Survivor(d, used, damage, a, b)
    requires forall b :: b in good <==> b in survivors && d.Worth(a, b)
    requires
      var pool := if good != [] then good else survivors;
      pool != [] && x in pool && (forall b :: b in pool ==> DefAtMost(x, b))
      && forall b :: b in pool && DefAtMost(b, x) ==> NotBehind(pool, x, b)
    ensures Justified(d, used, damage, a, [x])
  {
    assert good != [] ==> good[0] in good;
    assert Survivor(d, used, damage, a, x);
    forall b | Survivor(d, used, damage, a, b) && d.Worth(a, x) == d.Worth(a, b)
      ensures x.def < b.def || (x.def == b.def && NotBehind(d.avail, x, b))
    {
      assert b in if good != [] then good else survivors;
      assert DefAtMost(x, b);
      assert x.def == b.def ==> DefAtMost(b, x);
    }
  }

  /** Mode 1: a single unused troop that survives. */
  method ChooseSurvivor(d: Defense, used: set<Blocker>, damage: map<Blocker, int>, a: Attacker, free: seq<Blocker>)
    returns (pick: seq<Blocker>)
    requires InAvailOrder(d, free) && forall b :: b in free <==> d.Free(used, a, b)
    ensures pick == [] <==> !exists b :: Survivor(d, used, damage, a, b)
    ensures pick != [] ==> Justified(d, used, damage, a, pick)
  {
    var survivors := Filter(free, b => CanFace(damage, a, b));
    assert forall b :: b in survivors <==> Survivor(d, used, damage, a, b);
    if survivors == [] {
      return [];
    }
    assert Survivor(d, used, damage, a, survivors[0]);
    var good := Filter(survivors, b => d.Worth(a, b));
    assert good != [] ==> good[0] in good;
    var pool := if good != [] then good else survivors;
    NarrowedInOrder(d, free, b => CanFace(damage, a, b));
    NarrowedInOrder(d, survivors, b => d.Worth(a, b));
    pick := [Least(pool, DefAtMost)];
    LeastDefense(d, used, damage, a, survivors, good, pick[0]);
  }

  /** Mode 2: a troop already blocking that survives this attacker too. */
  method ChooseReuse(d: Defense, used: set<Blocker>, damage: map<Blocker, int>, a: Attacker) returns (pick: seq<Blocker>)
    ensures pick == [] <==> !exists b :: d.Reusable(used, damage, a, b)
    ensures pick != [] && (!exists b :: Survivor(d, used, damage, a, b)) ==> Justified(d, used, damage, a, pick)
  {
    var reuse := Filter(d.avail, b => b in used && CanFace(damage, a, b) && d.legal(a, b));
    assert forall b :: b in reuse <==> d.Reusable(used, damage, a, b);
    if reuse == [] {
      return [];
    }
    assert d.Reusable(used, damage, a, reuse[0]);
    SelectedInOrder(d, b => b in used && CanFace(damage, a, b) && d.legal(a, b));
    pick := [Least(reuse, DefAtLeast)];
    assert forall b :: b in reuse && b.def == pick[0].def ==> DefAtLeast(b, pick[0]);
  }

  /** Blockers for one attacker. */
  method ChooseBlockers(d: Defense, used: set<Blocker>, damage: map<Blocker, int>, a: Attacker) returns (pick: seq<Blocker>)
    requires Distinct(d.avail)
    ensures Justified(d, used, damage, a, pick)
  {
    var free := FreeBlockers(d, used, a);
    pick := ChooseSurvivor(d, used, damage, a, free);
    if pick != [] {
      return;
    }
    pick := ChooseReuse(d, used, damage, a);
    if pick != [] {
      return;
    }
    if (a.atk >= 3 || d.lethal) && exists b :: b in free && d.Worth(a, b) {
      pick := ChoosePile(d, used, a, free);
      if pick != [] {
        return;
      }
    }
    pick := ChooseChump(d, free);
  }

  /** Mode 4: under a lethal attack, the least valuable legal troop. */
  method ChooseChump(d: Defense, free: seq<Blocker>) returns (pick: seq<Blocker>)
    ensures pick == [] <==> !d.lethal || free == []
    ensures pick != [] ==> |pick| == 1 && pick[0] in free && forall b :: b in free ==> ChumpBefore(pick[0], b)
  {
    pick := if d.lethal && free != [] then [Least(free, ChumpBefore)] else [];
  }

  // ---------------------------------------------------------------- the whole plan

  /** Blockers assigned anywhere in the plan. */
  function Assigned(plan: seq<Block>): set<Blocker> {
    if plan == [] then {} else Assigned(plan[..|plan| - 1]) + Members(plan[|plan| - 1].blockers)
  }

  /** Combined attack of the attackers `b` is assigned to. */
  function Damage(plan: seq<Block>, b: Blocker): int {
    if plan == [] then 0 else
      var last := plan[|plan| - 1];
      Damage(plan[..|plan| - 1], b) + (if b in last.blockers then last.attacker.atk else 0)
  }

  /** How many attackers `b` is assigned to. */
  function TimesUsed(plan: seq<Block>, b: Blocker): nat {
    if plan == [] then 0 else
      TimesUsed(plan[..|plan| - 1], b) + (if b in plan[|plan| - 1].blockers then 1 else 0)
  }

  function DamageTable(avail: seq<Blocker>, plan: seq<Block>): map<Blocker, int> {
    map b | b in avail :: Damage(plan, b)
  }

  ghost predicate JustifiedAfter(d: Defense, earlier: seq<Block>, block: Block) {
    Justified(d, Assigned(earlier), DamageTable(d.avail, earlier), block.attacker, block.blockers)
  }

  /** Every attacker was given its blockers by the rule, from the state the earlier ones left. */
  ghost predicate Planned(d: Defense, plan: seq<Block>) {
    plan == [] || (var front := plan[..|plan| - 1];
                   Planned(d, front) && JustifiedAfter(d, front, plan[|plan| - 1]))
  }

  lemma {:induction false} PlannedAt(d: Defense, plan: seq<Block>, k: nat)
    requires Planned(d, plan) && k < |plan|
    ensures JustifiedAfter(d, plan[..k], plan[k])
  {
    if k < |plan| - 1 {
      PlannedAt(d, plan[..|plan| - 1], k);
      assert plan[..|plan| - 1][..k] == plan[..k];
    }
  }

  function Attackers(plan: seq<Block>): seq<Attacker> {
    if plan == [] then [] else Attackers(plan[..|plan| - 1]) + [plan[|plan| - 1].attacker]
  }

  function AddDamage(damage: map<Blocker, int>, block: Block): map<Blocker, int> {
    map b | b in damage :: damage[b] + (if b in block.blockers then block.attacker.atk else 0)
  }

  predicate StrongerFirst(x: Attacker, y: Attacker) { x.atk >= y.atk }

  function Incoming(attackers: seq<Attacker>): int {
    if attackers == [] then 0 else
      var a := attackers[|attackers| - 1];
      Incoming(attackers[..|attackers| - 1]) + (if a.atk > 0 then a.atk else 0)
  }

  /** All of them, by descending attack, those of equal attack in the order they had. */
  ghost predicate StrongestFirst(attackers: seq<Attacker>, order: seq<Attacker>) {
    && multiset(order) == multiset(attackers)
    && forall i, j :: 0 <= i < j < |order| ==>
         order[i].atk > order[j].atk || (order[i].atk == order[j].atk && NotBehind(attackers, order[i], order[j]))
  }

  lemma OrderIsStrongestFirst(attackers: seq<Attacker>)
    ensures StrongestFirst(attackers, Sort(attackers, StrongerFirst))
  {
    var order := Sort(attackers, StrongerFirst);
    SortSorted(attackers, StrongerFirst);
    SortStable(attackers, StrongerFirst);
    forall i, j | 0 <= i < j < |order|
      ensures order[i].atk > order[j].atk || (order[i].atk == order[j].atk && NotBehind(attackers, order[i], order[j]))
    {
      assert StrongerFirst(order[i], order[j]);
      assert order[i].atk == order[j].atk ==> StrongerFirst(order[j], order[i]);
    }
  }

  /** The damage that comes in when nothing blocks: that of every attacker, and never less than none. */
  lemma {:induction false} IncomingJoined(a: seq<Attacker>, b: seq<Attacker>)
    ensures Incoming(a + b) == Incoming(a) + Incoming(b)
    ensures forall x :: Incoming([x]) == if x.atk < 0 then 0 else x.atk
  {
    if b == [] {
      Unit(a);
    } else {
      IncomingJoined(a, b[..|b| - 1]);
      assert (a + b)[..|a + b| - 1] == a + b[..|b| - 1];
    }
  }

  /** The damage a blocker takes, and how often it is used, add up over the parts of a plan. */
  lemma {:induction false} DamageJoined(p: seq<Block>, q: seq<Block>, b: Blocker)
    ensures Damage(p + q, b) == Damage(p, b) + Damage(q, b) && TimesUsed(p + q, b) == TimesUsed(p, b) + TimesUsed(q, b)
    ensures
      forall a, bs ::
        && Damage([Block(a, bs)], b) == (if b in bs then a.atk else 0)
        && TimesUsed([Block(a, bs)], b) == if b in bs then 1 else 0
  {
    if q == [] {
      Unit(p);
    } else {
      DamageJoined(p, q[..|q| - 1], b);
      assert (p + q)[..|p + q| - 1] == p + q[..|q| - 1];
    }
  }

  /** The AI's declaration.  `plan` is the source's `assignment`, in processing order. */
  method PlanBlocks(avail: seq<Blocker>, attackers: seq<Attacker>, health: int,
                    legal: (Attacker, Blocker) -> bool, trade: (Attacker, Blocker) -> bool)
    returns (plan: seq<Block>, used: set<Blocker>, damage: map<Blocker, int>)
    requires Distinct(avail)
    ensures var d := Defense(avail, health > 0 && Incoming(attackers) >= health, legal, trade); Planned(d, plan)
    ensures Attackers(plan) == Sort(attackers, StrongerFirst) && StrongestFirst(attackers, Attackers(plan))
    ensures used == Assigned(plan) && damage == DamageTable(avail, plan)
  {
    var d := Defense(avail, health > 0 && Incoming(attackers) >= health, legal, trade);
    var order := Sort(attackers, StrongerFirst);
    OrderIsStrongestFirst(attackers);
    plan, used, damage := [], {}, map b | b in avail :: 0;
    for i := 0 to |order|
      invariant Attackers(plan) == order[..i]
      invariant used == Assigned(plan) && damage == DamageTable(avail, plan)
      invariant Planned(d, plan)
    {
      var pick := ChooseBlockers(d, used, damage, order[i]);
      var block := Block(order[i], pick);
      ExtendPlan(d, plan, block);
      ExtendDamage(avail, plan, block);
      TakeNext(order, i);
      plan := plan + [block];
      damage := AddDamage(damage, block);
      used := used + Members(pick);
    }
    assert order[..|order|] == order;
  }

  lemma ExtendDamage(avail: seq<Blocker>, plan: seq<Block>, block: Block)
    ensures DamageTable(avail, plan + [block]) == AddDamage(DamageTable(avail, plan), block)
  {
    assert (plan + [block])[..|plan|] == plan;
    var more := DamageTable(avail, plan + [block]);
    var sum := AddDamage(DamageTable(avail, plan), block);
    assert more.Keys == sum.Keys;
    forall b | b in more ensures more[b] == sum[b] {
      assert Damage(plan + [block], b) == Damage(plan, b) + if b in block.blockers then block.attacker.atk else 0;
    }
  }

  lemma ExtendPlan(d: Defense, plan: seq<Block>, block: Block)
    ensures Planned(d, plan) && JustifiedAfter(d, plan, block) ==> Planned(d, plan + [block])
    ensures Assigned(plan + [block]) == Assigned(plan) + Members(block.blockers)
    ensures Attackers(plan + [block]) == Attackers(plan) + [block.attacker]
  {
    assert (plan + [block])[..|plan|] == plan;
  }

  // ------------------------------------------------------------- what a plan guarantees

  lemma JustifiedMembers(d: Defense, used: set<Blocker>, damage: map<Blocker, int>, a: Attacker, pick: seq<Blocker>, b: Blocker)
    requires Justified(d, used, damage, a, pick)
    requires b in pick
    ensures b in d.avail && d.legal(a, b)
    ensures b in used ==> CanFace(damage, a, b)
  {
    assert b in Members(pick);
  }

  /** Every assigned block is legal and made by a troop that was available. */
  lemma BlocksAreLegal(d: Defense, plan: seq<Block>, k: nat, b: Blocker)
    requires Planned(d, plan) && k < |plan| && b in plan[k].blockers
    ensures b in d.avail && d.legal(plan[k].attacker, b)
  {
    PlannedAt(d, plan, k);
    JustifiedMembers(d, Assigned(plan[..k]), DamageTable(d.avail, plan[..k]), plan[k].attacker, plan[k].blockers, b);
  }

  lemma {:induction false} UsedIsAssigned(plan: seq<Block>, b: Blocker)
    ensures TimesUsed(plan, b) > 0 <==> b in Assigned(plan)
  {
    if plan != [] { UsedIsAssigned(plan[..|plan| - 1], b); }
  }

  /** Multiblock safety: a troop facing two or more attackers survives all of them. */
  lemma {:induction false} MultiblockSafety(d: Defense, plan: seq<Block>, b: Blocker)
    requires Planned(d, plan)
    ensures TimesUsed(plan, b) >= 2 ==> Damage(plan, b) < b.def
  {
    if plan != [] {
      var n := |plan| - 1;
      MultiblockSafety(d, plan[..n], b);
      if b in plan[n].blockers && TimesUsed(plan[..n], b) > 0 {
        UsedIsAssigned(plan[..n], b);
        JustifiedMembers(d, Assigned(plan[..n]), DamageTable(d.avail, plan[..n]), plan[n].attacker, plan[n].blockers, b);
      }
    }
  }

  lemma {:induction false} DamageAtLeast(plan: seq<Block>, b: Blocker, k: nat)
    requires k < |plan| && b in plan[k].blockers
    requires forall i :: 0 <= i < |plan| ==> plan[i].attacker.atk >= 0
    ensures Damage(plan, b) >= plan[k].attacker.atk && TimesUsed(plan, b) >= 1
  {
    var n := |plan| - 1;
    DamageIsNonNegative(plan[..n], b);
    if k < n { DamageAtLeast(plan[..n], b, k); }
  }

  lemma {:induction false} DamageIsNonNegative(plan: seq<Block>, b: Blocker)
    requires forall i :: 0 <= i < |plan| ==> plan[i].attacker.atk >= 0
    ensures Damage(plan, b) >= 0
  {
    if plan != [] { DamageIsNonNegative(plan[..|plan| - 1], b); }
  }

  /** A troop that some attacker kills (dogpiled or chumped) blocks nothing else. */
  lemma DoomedBlockOnce(d: Defense, plan: seq<Block>, k: nat, b: Blocker)
    requires Planned(d, plan) && k < |plan| && b in plan[k].blockers
    requires forall i :: 0 <= i < |plan| ==> plan[i].attacker.atk >= 0
    requires plan[k].attacker.atk >= b.def
    ensures TimesUsed(plan, b) == 1
  {
    DamageAtLeast(plan, b, k);
    MultiblockSafety(d, plan, b);
  }

  lemma {:induction false} AssignedGrows(plan: seq<Block>, n: nat)
    requires n <= |plan|
    ensures Assigned(plan[..n]) <= Assigned(plan)
  {
    if n == |plan| {
      assert plan[..n] == plan;
    } else {
      AssignedGrows(plan[..|plan| - 1], n);
      assert plan[..|plan| - 1][..n] == plan[..n];
    }
  }

  /** Under a lethal attack an attacker goes unblocked only if every troop that could
      legally block it is assigned. */
  lemma LethalAttackersAreBlocked(d: Defense, plan: seq<Block>, k: nat, b: Blocker)
    requires Planned(d, plan) && k < |plan| && d.lethal && plan[k].blockers == []
    requires b in d.avail && d.legal(plan[k].attacker, b)
    ensures b in Assigned(plan)
  {
    PlannedAt(d, plan, k);
    AssignedGrows(plan, k);
    assert d.Free(Assigned(plan[..k]), plan[k].attacker, b) || b in Assigned(plan[..k]);
  }

  /** Several troops are assigned to one attacker only to kill it, and no smaller group of
      troops still unassigned then could have. */
  lemma DogpileIsMinimal(d: Defense, plan: seq<Block>, k: nat)
    requires Planned(d, plan) && k < |plan| && |plan[k].blockers| >= 2
    ensures CheapestKill(d, Assigned(plan[..k]), plan[k].attacker, plan[k].blockers)
    ensures StrongestPile(d, Assigned(plan[..k]), plan[k].attacker, plan[k].blockers)
    ensures !d.lethal ==> forall b :: b in plan[k].blockers ==> d.trade(plan[k].attacker, b)
  {
    PlannedAt(d, plan, k);
    assert forall b :: b in plan[k].blockers ==> b in Members(plan[k].blockers);
  }

  /** Without lethal danger no troop is thrown away: a block is by one troop that survives it on top of
      all it faces already, or by troops that together kill an attacker of attack three or more. */
  lemma NoSacrifice(d: Defense, plan: seq<Block>, k: nat)
    requires Planned(d, plan) && k < |plan| && !d.lethal && plan[k].blockers != []
    ensures
      var a, blockers := plan[k].attacker, plan[k].blockers;
      || (|blockers| == 1 && blockers[0].def - Damage(plan[..k], blockers[0]) > a.atk)
      || (a.atk >= 3 && Total(Members(blockers)) >= a.def && forall b :: b in blockers ==> d.trade(a, b))
  {
    PlannedAt(d, plan, k);
    assert forall b :: b in plan[k].blockers ==> b in Members(plan[k].blockers);
  }

  /** Under a lethal attack, when unused troops could together kill an attacker, whatever the trade is
      worth, it is blocked by a troop that survives it or it is killed. */
  lemma LethalKillIsTaken(d: Defense, plan: seq<Block>, k: nat, s: set<Blocker>)
    requires Planned(d, plan) && k < |plan| && d.lethal && s != {}
    requires forall b :: b in s ==> b in d.avail && b !in Assigned(plan[..k]) && d.legal(plan[k].attacker, b)
    requires Total(s) >= plan[k].attacker.def
    ensures
      || (|plan[k].blockers| == 1 && plan[k].blockers[0].def - Damage(plan[..k], plan[k].blockers[0]) > plan[k].attacker.atk)
      || Total(Members(plan[k].blockers)) >= plan[k].attacker.def
  {
    PlannedAt(d, plan, k);
    assert Pilable(d, Assigned(plan[..k]), plan[k].attacker, s) && Kills(s, plan[k].attacker);
  }

  /** An attacker is left unblocked, without lethal danger, only when nothing could have
      been gained: no troop survives it (unused, or on top of what it already blocks), and
      it is too small for a dogpile or no group of worthwhile troops kills it. */
  lemma UnblockedMeansNoGain(d: Defense, plan: seq<Block>, k: nat, b: Blocker, s: set<Blocker>)
    requires Planned(d, plan) && k < |plan| && plan[k].blockers == []
    requires b in d.avail && d.legal(plan[k].attacker, b)
    ensures b.def - Damage(plan[..k], b) <= plan[k].attacker.atk
    ensures plan[k].attacker.atk >= 3 && Pilable(d, Assigned(plan[..k]), plan[k].attacker, s) ==> !Kills(s, plan[k].attacker)
  {
    PlannedAt(d, plan, k);
    var used, damage, a := Assigned(plan[..k]), DamageTable(d.avail, plan[..k]), plan[k].attacker;
    assert !Survivor(d, used, damage, a, b) && !d.Reusable(used, damage, a, b);
  }
}
