/** A campaign pack: two common cards, one weighted card, and two slots that hold equipment or
    stardust. All random draws are parameters. */
module CampaignPack {
  import opened WeightedChoice
  import opened Wrappers

  datatype Rarity = Common | Uncommon | Rare | Legendary

  datatype Slot = Equipment(rarity: Rarity) | Stardust

  const CardWeights: seq<(Rarity, real)> := [(Uncommon, 60.0), (Rare, 35.0), (Legendary, 5.0)]

  const SlotWeights: seq<(Slot, real)> :=
    [(Equipment(Common), 35.0), (Equipment(Uncommon), 25.0), (Equipment(Rare), 10.0), (Equipment(Legendary), 5.0),
     (Stardust, 25.0)]

  datatype PackError = NoWeights | TooFewCommons | NoCards(rarity: Rarity) | NoEquipment(rarity: Rarity)

  /** The pools the metadata leaves, of card and equipment ids, and the stardust weights. */
  datatype Pools<!Id> = Pools(commons: seq<Id>, cards: Rarity -> seq<Id>, equipment: Rarity -> seq<Id>, dust: seq<(Rarity, real)>)

  datatype Pack<Id> = Pack(cards: seq<Id>, equipment: seq<Id>, stardust: seq<Rarity>)

  /** Draws of one pack: two different places among the commons, a number for the rarity and a
      place in its pool, and for each slot a number for its kind and one for its content. */
  datatype Draws = Draws(first: nat, second: nat, rarity: real, place: nat, kinds: seq<real>, contents: seq<real>)

  predicate IsRoll(r: real) { 0.0 <= r < 1.0 }

  predicate Valid(d: Draws, commons: nat) {
    && d.first != d.second && (commons >= 2 ==> d.first < commons && d.second < commons)
    && IsRoll(d.rarity) && |d.kinds| == |d.contents| == 2
    && (forall i :: 0 <= i < 2 ==> IsRoll(d.kinds[i]) && IsRoll(d.contents[i]))
  }

  function Evenly<Id>(ids: seq<Id>): seq<(Id, real)> { seq(|ids|, i requires 0 <= i < |ids| => (ids[i], 1.0)) }

  lemma {:induction false} EvenTotal<Id>(ids: seq<Id>, n: nat)
    requires n <= |ids|
    ensures Cumulated(Evenly(ids), n) == n as real
  {
    if n > 0 {
      EvenTotal(ids, n - 1);
    }
  }

  lemma WeightsArePositive()
    ensures Total(CardWeights) == 100.0 && Total(SlotWeights) == 100.0
  {
    assert Cumulated(CardWeights, 2) == 95.0;
    assert Cumulated(SlotWeights, 2) == 60.0;
    assert Cumulated(SlotWeights, 4) == 75.0;
  }

  ghost predicate Stocked<Id(!new)>(p: Pools<Id>) {
    && |p.commons| >= 2 && Total(p.dust) > 0.0
    && (forall r :: r != Common ==> p.cards(r) != [])
    && forall r :: p.equipment(r) != []
  }

  /** The outcome of a slot: what the kind drawn and the content drawn select, or the pool that is
      missing for it. */
  ghost predicate SlotHolds<Id(!new)>(p: Pools<Id>, slot: Slot, content: real, res: Result<(seq<Id>, seq<Rarity>), PackError>) {
    match slot
    case Stardust =>
      if Total(p.dust) <= 0.0 then res == Err(NoWeights)
      else exists j: nat :: Selected(p.dust, content, j) && res == Ok(([], [p.dust[j].0]))
    case Equipment(r) =>
      if p.equipment(r) == [] then res == Err(NoEquipment(r))
      else exists j: nat :: Selected(Evenly(p.equipment(r)), content, j) && res == Ok(([p.equipment(r)[j]], []))
  }

  ghost predicate FilledBy<Id(!new)>(p: Pools<Id>, kind: real, content: real, res: Result<(seq<Id>, seq<Rarity>), PackError>) {
    exists i: nat :: Selected(SlotWeights, kind, i) && SlotHolds(p, SlotWeights[i].0, content, res)
  }

  /** Fills one slot. */
  method FillSlot<Id(!new)>(p: Pools<Id>, kind: real, content: real) returns (res: Result<(seq<Id>, seq<Rarity>), PackError>)
    requires IsRoll(kind) && IsRoll(content)
    ensures FilledBy(p, kind, content, res)
    ensures Stocked(p) ==> res.Ok?
    ensures res.Ok? ==> |res.value.0| + |res.value.1| == 1
  {
    WeightsArePositive();
    var slot := Choose(SlotWeights, kind);
    match slot.value {
      case Stardust =>
        var rarity := Choose(p.dust, content);
        res := if rarity.Err? then Err(NoWeights) else Ok(([], [rarity.value]));
      case Equipment(r) =>
        var choices := p.equipment(r);
        if choices == [] {
          res := Err(NoEquipment(r));
        } else {
          EvenTotal(choices, |choices|);
          var choice := Choose(Evenly(choices), content);
          res := Ok(([choice.value], []));
        }
    }
    SlotCounts(p, kind, content, res);
  }

  /** What a slot comes to: exactly one thing, or an error that stocked pools rule out. */
  lemma SlotCounts<Id(!new)>(p: Pools<Id>, kind: real, content: real, res: Result<(seq<Id>, seq<Rarity>), PackError>)
    requires FilledBy(p, kind, content, res)
    ensures Counted(p, 1, res)
  {
  }

  /** The outcome of the first `n` slots: the contents of all, or the error of the first that
      fails. */
  ghost predicate SlotsHold<Id(!new)>(p: Pools<Id>, d: Draws, n: nat, res: Result<(seq<Id>, seq<Rarity>), PackError>)
    requires n <= |d.kinds| == |d.contents|
    decreases n, 1
  {
    if n == 0 then res == Ok(([], [])) else exists front, slot :: SlotAdded(p, d, n, front, slot, res)
  }

  ghost predicate SlotAdded<Id(!new)>(p: Pools<Id>, d: Draws, n: nat, front: Result<(seq<Id>, seq<Rarity>), PackError>,
                                      slot: Result<(seq<Id>, seq<Rarity>), PackError>, res: Result<(seq<Id>, seq<Rarity>), PackError>)
    requires 0 < n <= |d.kinds| == |d.contents|
    decreases n, 0
  {
    && SlotsHold(p, d, n - 1, front)
    && (front.Ok? ==> FilledBy(p, d.kinds[n - 1], d.contents[n - 1], slot))
    && res == Joined(front, slot)
  }

  function Joined<Id>(front: Result<(seq<Id>, seq<Rarity>), PackError>, slot: Result<(seq<Id>, seq<Rarity>), PackError>)
    : Result<(seq<Id>, seq<Rarity>), PackError>
  {
    if front.Err? then front
    else if slot.Err? then slot
    else Ok((front.value.0 + slot.value.0, front.value.1 + slot.value.1))
  }

  lemma SlotsNext<Id(!new)>(p: Pools<Id>, d: Draws, n: nat, front: Result<(seq<Id>, seq<Rarity>), PackError>,
                            slot: Result<(seq<Id>, seq<Rarity>), PackError>)
    requires n < |d.kinds| == |d.contents| && SlotsHold(p, d, n, front)
    requires front.Ok? ==> FilledBy(p, d.kinds[n], d.contents[n], slot)
    ensures SlotsHold(p, d, n + 1, Joined(front, slot))
  {
    assert SlotAdded(p, d, n + 1, front, slot, Joined(front, slot));
  }

  lemma {:induction false} ErrorStays<Id(!new)>(p: Pools<Id>, d: Draws, n: nat, m: nat, res: Result<(seq<Id>, seq<Rarity>), PackError>)
    requires n <= m <= |d.kinds| == |d.contents| && SlotsHold(p, d, n, res) && res.Err?
    ensures SlotsHold(p, d, m, res)
    decreases m
  {
    if n < m {
      ErrorStays(p, d, n, m - 1, res);
      SlotsNext(p, d, m - 1, res, res);
    }
  }

  /** What the first `n` slots may come to: `n` things, or an error that stocked pools rule out. */
  ghost predicate Counted<Id(!new)>(p: Pools<Id>, n: nat, res: Result<(seq<Id>, seq<Rarity>), PackError>) {
    && (res.Ok? ==> |res.value.0| + |res.value.1| == n)
    && (res.Err? ==> !Stocked(p) && (res.error == NoWeights || res.error.NoEquipment?))
  }

  lemma JoinedCounts<Id(!new)>(p: Pools<Id>, kind: real, content: real, n: nat,
                               front: Result<(seq<Id>, seq<Rarity>), PackError>, slot: Result<(seq<Id>, seq<Rarity>), PackError>)
    requires Counted(p, n, front) && (front.Ok? ==> FilledBy(p, kind, content, slot))
    ensures Counted(p, n + 1, Joined(front, slot))
  {
    if front.Ok? {
      SlotCounts(p, kind, content, slot);
    }
  }

  /** Every slot adds exactly one thing. */
  lemma {:induction false} SlotsCount<Id(!new)>(p: Pools<Id>, d: Draws, n: nat, res: Result<(seq<Id>, seq<Rarity>), PackError>)
    requires n <= |d.kinds| == |d.contents| && SlotsHold(p, d, n, res)
    ensures Counted(p, n, res)
    decreases n
  {
    if n > 0 {
      var front, slot :| SlotAdded(p, d, n, front, slot, res);
      SlotsCount(p, d, n - 1, front);
      JoinedCounts(p, d.kinds[n - 1], d.contents[n - 1], n - 1, front, slot);
    }
  }

  /** What a slot holds comes behind what the slots before it hold. */
  lemma SlotsInOrder<Id(!new)>(p: Pools<Id>, d: Draws, n: nat, res: Result<(seq<Id>, seq<Rarity>), PackError>)
    requires 0 < n <= |d.kinds| == |d.contents| && SlotsHold(p, d, n, res) && res.Ok?
    ensures
      exists front :: SlotsHold(p, d, n - 1, front) && front.Ok? && front.value.0 <= res.value.0 && front.value.1 <= res.value.1
  {
    var front, slot :| SlotAdded(p, d, n, front, slot, res);
    assert SlotsHold(p, d, n - 1, front) && front.Ok?;
  }

  /** The slot loop: appends to the two reward lists until a slot fails. */
  method FillSlots<Id(!new)>(p: Pools<Id>, d: Draws) returns (res: Result<(seq<Id>, seq<Rarity>), PackError>)
    requires Valid(d, |p.commons|)
    ensures SlotsHold(p, d, 2, res)
  {
    var equipment: seq<Id>, stardust: seq<Rarity> := [], [];
    for i := 0 to 2
      invariant SlotsHold(p, d, i, Ok((equipment, stardust)))
    {
      var slot := FillSlot(p, d.kinds[i], d.contents[i]);
      SlotsNext(p, d, i, Ok((equipment, stardust)), slot);
      if slot.Err? {
        ErrorStays(p, d, i + 1, 2, slot);
        return slot;
      }
      equipment, stardust := equipment + slot.value.0, stardust + slot.value.1;
    }
    res := Ok((equipment, stardust));
  }

  /** The outcome of a pack: too few commons, else no card of the drawn rarity, else the first slot
      that fails, else two commons, a card of the drawn rarity, and what the slots hold. */
  ghost predicate PackHolds<Id(!new)>(p: Pools<Id>, d: Draws, res: Result<Pack<Id>, PackError>)
    requires Valid(d, |p.commons|)
  {
    if |p.commons| < 2 then res == Err(TooFewCommons)
    else exists i: nat :: Selected(CardWeights, d.rarity, i) && DrawnPackHolds(p, d, CardWeights[i].0, res)
  }

  ghost predicate DrawnPackHolds<Id(!new)>(p: Pools<Id>, d: Draws, rarity: Rarity, res: Result<Pack<Id>, PackError>)
    requires Valid(d, |p.commons|) && |p.commons| >= 2
  {
    var pool := p.cards(rarity);
    if pool == [] then res == Err(NoCards(rarity))
    else
      exists slots :: SlotsHold(p, d, 2, slots) && res == Packed(p, d, pool[d.place % |pool|], slots)
  }

  function Packed<Id>(p: Pools<Id>, d: Draws, card: Id, slots: Result<(seq<Id>, seq<Rarity>), PackError>): Result<Pack<Id>, PackError>
    requires Valid(d, |p.commons|) && |p.commons| >= 2
  {
    match slots
    case Err(error) => Err(error)
    case Ok((equipment, stardust)) => Ok(Pack([p.commons[d.first], p.commons[d.second], card], equipment, stardust))
  }

  lemma RarityIsNotCommon(i: nat)
    requires i < |CardWeights|
    ensures CardWeights[i].0 != Common
  {
  }

  /** Two cards from different places among the commons, so different ones when none is listed twice, and
      one of the rarity drawn, which is not common. */
  ghost predicate CardsDrawn<Id(!new)>(p: Pools<Id>, d: Draws, cards: seq<Id>) {
    && |cards| == 3 && d.first < |p.commons| && d.second < |p.commons| && d.first != d.second
    && cards[0] == p.commons[d.first] && cards[1] == p.commons[d.second]
    && ((forall i, j :: 0 <= i < j < |p.commons| ==> p.commons[i] != p.commons[j]) ==> cards[0] != cards[1])
    && exists i: nat ::
         && Selected(CardWeights, d.rarity, i) && CardWeights[i].0 != Common && cards[2] in p.cards(CardWeights[i].0)
         && (d.place < |p.cards(CardWeights[i].0)| ==> cards[2] == p.cards(CardWeights[i].0)[d.place])
  }

  /** Every outcome: a pack has three cards and two things from its slots, the commons error comes
      exactly below two commons, and stocked pools never fail. */
  lemma PackShape<Id(!new)>(p: Pools<Id>, d: Draws, res: Result<Pack<Id>, PackError>)
    requires Valid(d, |p.commons|) && PackHolds(p, d, res)
    ensures res.Ok? ==> |res.value.cards| == 3 && |res.value.equipment| + |res.value.stardust| == 2
    ensures res == Err(TooFewCommons) <==> |p.commons| < 2
    ensures Stocked(p) ==> res.Ok?
    ensures res.Ok? ==> CardsDrawn(p, d, res.value.cards)
  {
    if |p.commons| >= 2 {
      var i: nat :| Selected(CardWeights, d.rarity, i) && DrawnPackHolds(p, d, CardWeights[i].0, res);
      RarityIsNotCommon(i);
      DrawnPackShape(p, d, CardWeights[i].0, res);
      if res.Ok? {
        assert CardWeights[i].0 != Common && res.value.cards[2] in p.cards(CardWeights[i].0);
      }
    }
  }

  lemma DrawnPackShape<Id(!new)>(p: Pools<Id>, d: Draws, rarity: Rarity, res: Result<Pack<Id>, PackError>)
    requires Valid(d, |p.commons|) && |p.commons| >= 2 && rarity != Common && DrawnPackHolds(p, d, rarity, res)
    ensures res.Ok? ==> |res.value.cards| == 3 && |res.value.equipment| + |res.value.stardust| == 2
    ensures
      res.Ok? ==>
        && res.value.cards[0] == p.commons[d.first] && res.value.cards[1] == p.commons[d.second]
        && res.value.cards[2] in p.cards(rarity)
        && (d.place < |p.cards(rarity)| ==> res.value.cards[2] == p.cards(rarity)[d.place])
    ensures res != Err(TooFewCommons)
    ensures Stocked(p) ==> res.Ok?
  {
    var pool := p.cards(rarity);
    if pool != [] {
      var slots :| SlotsHold(p, d, 2, slots) && res == Packed(p, d, pool[d.place % |pool|], slots);
      SlotsCount(p, d, 2, slots);
      PackedCards(p, d, pool, slots);
    }
  }

  lemma PackedCards<Id(!new)>(p: Pools<Id>, d: Draws, pool: seq<Id>, slots: Result<(seq<Id>, seq<Rarity>), PackError>)
    requires Valid(d, |p.commons|) && |p.commons| >= 2 && pool != []
    ensures
      var res := Packed(p, d, pool[d.place % |pool|], slots);
      res.Ok? ==>
        && |res.value.cards| == 3 && res.value.cards[0] == p.commons[d.first] && res.value.cards[1] == p.commons[d.second]
        && res.value.cards[2] in pool && (d.place < |pool| ==> res.value.cards[2] == pool[d.place])
  {
    assert d.place < |pool| ==> d.place % |pool| == d.place;
  }

  /** Generates a pack. */
  method Generate<Id(!new)>(p: Pools<Id>, d: Draws) returns (res: Result<Pack<Id>, PackError>)
    requires Valid(d, |p.commons|)
    ensures PackHolds(p, d, res)
    ensures res.Ok? ==> |res.value.cards| == 3 && |res.value.equipment| + |res.value.stardust| == 2
    ensures res == Err(TooFewCommons) <==> |p.commons| < 2
    ensures Stocked(p) ==> res.Ok?
    ensures res.Ok? ==> CardsDrawn(p, d, res.value.cards)
  {
    if |p.commons| < 2 {
      return Err(TooFewCommons);
    }
    WeightsArePositive();
    var rarity := Choose(CardWeights, d.rarity);
    var pool := p.cards(rarity.value);
    if pool == [] {
      res := Err(NoCards(rarity.value));
    } else {
      var slots := FillSlots(p, d);
      res := Packed(p, d, pool[d.place % |pool|], slots);
    }
    PackShape(p, d, res);
  }
}
