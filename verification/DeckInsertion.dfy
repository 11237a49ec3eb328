/** Putting chosen cards back into a deck at random places. The two shuffles and the random slot
    are parameters: what is proved holds for every outcome. */
module DeckInsertion {
  import opened Lists

  type Card = nat

  predicate StrictlyAscending(s: seq<nat>) {
    forall i, j :: 0 <= i < j < |s| ==> s[i] < s[j]
  }

  function Range(n: nat): (r: seq<nat>)
    ensures |r| == n && forall i :: 0 <= i < n ==> r[i] == i
  {
    seq(n, i => i)
  }

  /** `shuffle`: any rearrangement. */
  ghost predicate IsShuffle(s: seq<nat>, of: seq<nat>) { multiset(s) == multiset(of) }

  function In(wanted: set<Card>): Card -> bool { x => x in wanted }

  function NotIn(wanted: set<Card>): Card -> bool { x => x !in wanted }

  function Chosen(deck: seq<Card>, wanted: set<Card>): seq<Card> { Filter(deck, In(wanted)) }

  function Others(deck: seq<Card>, wanted: set<Card>): seq<Card> { Filter(deck, NotIn(wanted)) }

  /** What a new order must be: the same cards, the chosen ones at exactly the given slots in
      shuffled order, and the others in the order they had. */
  ghost predicate Outcome(deck: seq<Card>, wanted: set<Card>, shuffled: seq<Card>, slots: seq<nat>, order: seq<Card>) {
    && multiset(order) == multiset(deck)
    && Chosen(order, wanted) == shuffled
    && Others(order, wanted) == Others(deck, wanted)
    && forall i :: 0 <= i < |order| ==> (order[i] in wanted <==> i in slots)
  }

  // ------------------------------------------------------------ selecting from sequences

  lemma {:induction false} FilterSplit(deck: seq<Card>, wanted: set<Card>)
    ensures multiset(deck) == multiset(Chosen(deck, wanted)) + multiset(Others(deck, wanted))
    ensures |deck| == |Chosen(deck, wanted)| + |Others(deck, wanted)|
  {
    if deck != [] {
      var n := |deck| - 1;
      TakeNext(deck, n);
      assert deck[..n + 1] == deck;
      FilterSplit(deck[..n], wanted);
      FilterNext(deck[..n], deck[n], wanted);
    }
  }

  lemma FilterNext(deck: seq<Card>, x: Card, wanted: set<Card>)
    ensures Chosen(deck + [x], wanted) == if x in wanted then Chosen(deck, wanted) + [x] else Chosen(deck, wanted)
    ensures Others(deck + [x], wanted) == if x in wanted then Others(deck, wanted) else Others(deck, wanted) + [x]
  {
    FilterSnoc(deck, x, In(wanted));
    FilterSnoc(deck, x, NotIn(wanted));
  }

  lemma {:induction false} SameSelection(deck: seq<Card>, p: Card -> bool, q: Card -> bool)
    requires forall x :: x in deck ==> p(x) == q(x)
    ensures Filter(deck, p) == Filter(deck, q)
  {
    if deck != [] {
      SameSelection(deck[..|deck| - 1], p, q);
    }
  }

  // ------------------------------------------------------------ the slots

  lemma RangeDistinct(n: nat)
    ensures Distinct(Range(n))
  {
  }

  lemma {:induction false} AscendingGap(s: seq<nat>, i: nat, j: nat)
    requires StrictlyAscending(s) && i <= j < |s|
    ensures s[i] + (j - i) <= s[j]
    decreases j
  {
    if i < j {
      AscendingGap(s, i, j - 1);
    }
  }

  function Le(): (nat, nat) -> bool { (a, b) => a <= b }

  /** The first slots of a shuffled range, sorted: distinct places in the deck. */
  lemma SlotsAscend(slots: seq<nat>, n: nat, k: nat)
    requires IsShuffle(slots, Range(n)) && k <= n
    ensures k <= |slots|
    ensures var s := Sort(slots[..k], Le()); |s| == k && StrictlyAscending(s) && forall x :: x in s <==> x in slots[..k]
    ensures forall x :: x in slots[..k] ==> x < n
  {
    RangeDistinct(n);
    SameMembers(Range(n), slots);
    var s := Sort(slots[..k], Le());
    SameMembers(slots[..k], s);
    SortSorted(slots[..k], Le());
    forall x | x in slots[..k] ensures x < n {
      assert x in slots;
    }
  }

  /** The positions that an update assigns: each card its place in the order. */
  ghost predicate PlacesOf(place: map<Card, nat>, order: seq<Card>) {
    && (forall x :: x in place <==> x in order)
    && forall i :: 0 <= i < |order| ==> order[i] in place && place[order[i]] == i
  }

  /** The cards of one deck and the place of each, as the table stores them. */
  class DeckTable {
    var place: map<Card, nat>

    constructor ()
      ensures place == map[]
    {
      place := map[];
    }

    /** `rows` is the deck as read in the order of the places. */
    ghost predicate Rows(rows: seq<Card>)
      reads this
    {
      && Distinct(rows)
      && (forall x :: x in place <==> x in rows)
      && forall i, j :: 0 <= i < j < |rows| ==> place[rows[i]] <= place[rows[j]]
    }

    /** Gives every card of an order its index as place. */
    method Place(order: seq<Card>)
      requires Distinct(order)
      modifies this
      ensures PlacesOf(place, order)
    {
      place := map[];
      for i := 0 to |order|
        invariant PlacesOf(place, order[..i])
      {
        TakeNext(order, i);
        place := place[order[i] := i];
      }
      assert order[..|order|] == order;
    }

    /** One wanted card, in the deck already or about to join it, goes to the slot drawn among
        the others. */
    method InsertOne(rows: seq<Card>, card: Card, present: bool, slot: nat) returns (returned: seq<Card>)
      requires Rows(rows) && slot <= |Others(rows, {card})|
      modifies this
      ensures rows == [] || !present ==> returned == [] && place == old(place)
      ensures
        rows != [] && present ==>
          var others := Others(rows, {card});
          && returned == [card]
          && PlacesOf(place, others[..slot] + [card] + others[slot..])
    {
      if rows == [] || !present {
        return [];
      }
      var others := Others(rows, {card});
      FilterDistinct(rows, NotIn({card}));
      InsertedDistinct(others, card, slot);
      Place(others[..slot] + [card] + others[slot..]);
      returned := [card];
    }

    /** Several wanted cards: those in the deck are shuffled, and go to the sorted first slots of
        a shuffled range of places; the others fill the rest in order. */
    method InsertMany(rows: seq<Card>, wanted: set<Card>, shuffled: seq<Card>, slots: seq<nat>)
      returns (returned: seq<Card>, ghost order: seq<Card>)
      requires Rows(rows)
      requires IsShuffle(shuffled, Chosen(rows, wanted)) && IsShuffle(slots, Range(|rows|))
      modifies this
      ensures shuffled == [] ==> returned == [] && place == old(place)
      ensures
        shuffled != [] ==>
          && |shuffled| <= |slots|
          && Outcome(rows, wanted, shuffled, slots[..|shuffled|], order)
          && PlacesOf(place, order)
          && returned == shuffled
    {
      order := rows;
      if shuffled == [] {
        return [], rows;
      }
      FilterSplit(rows, wanted);
      ShuffledCards(rows, wanted, shuffled);
      var n, k := |rows|, |shuffled|;
      SlotsAscend(slots, n, k);
      var selectedSlots := Sort(slots[..k], Le());
      var selected := set x | x in shuffled;
      var remaining := Others(rows, selected);
      SameSelection(rows, NotIn(selected), NotIn(wanted));
      var deck := Merge(wanted, selectedSlots, shuffled, remaining);
      order := deck;
      MergedIsOutcome(rows, wanted, shuffled, slots[..k], selectedSlots, deck);
      SameMembers(rows, deck);
      Place(deck);
      SameSelection(deck, In(selected), In(wanted));
      returned := Chosen(deck, selected);
    }
  }

  lemma ShuffledCards(rows: seq<Card>, wanted: set<Card>, shuffled: seq<Card>)
    requires IsShuffle(shuffled, Chosen(rows, wanted))
    ensures |shuffled| == |Chosen(rows, wanted)| && forall x :: x in shuffled <==> x in rows && x in wanted
  {
    SameMembers(Chosen(rows, wanted), shuffled);
  }

  lemma MergedIsOutcome(rows: seq<Card>, wanted: set<Card>, shuffled: seq<Card>, firstSlots: seq<nat>,
                        sorted: seq<nat>, deck: seq<Card>)
    requires IsShuffle(shuffled, Chosen(rows, wanted))
    requires forall x :: x in sorted <==> x in firstSlots
    requires Chosen(deck, wanted) == shuffled && Others(deck, wanted) == Others(rows, wanted)
    requires forall i :: 0 <= i < |deck| ==> (deck[i] in wanted <==> i in sorted)
    ensures Outcome(rows, wanted, shuffled, firstSlots, deck)
  {
    FilterSplit(rows, wanted);
    FilterSplit(deck, wanted);
  }

  lemma InsertedDistinct(others: seq<Card>, card: Card, slot: nat)
    requires Distinct(others) && card !in others && slot <= |others|
    ensures Distinct(others[..slot] + [card] + others[slot..])
  {
  }

  /** The pairs of slots and cards, as `dict(zip(slots, cards))`. */
  function Zipped(slots: seq<nat>, cards: seq<Card>): (m: map<nat, Card>)
    requires StrictlyAscending(slots) && |slots| == |cards|
    ensures forall x :: x in m <==> x in slots
    ensures forall i :: 0 <= i < |slots| ==> m[slots[i]] == cards[i]
  {
    map x | x in slots :: cards[Index(slots, x)]
  }

  function Index(s: seq<nat>, x: nat): (i: nat)
    requires x in s
    ensures i < |s| && s[i] == x
  {
    if s[0] == x then 0 else 1 + Index(s[1..], x)
  }

  /** `used` slots lie before the place `rank`, the rest at or behind it. */
  predicate Reached(slots: seq<nat>, used: nat, rank: nat) {
    && used <= |slots|
    && (forall i :: 0 <= i < used ==> slots[i] < rank)
    && forall i :: used <= i < |slots| ==> slots[i] >= rank
  }

  /** Distinct slots that all lie beyond a place leave room at it. */
  lemma RoomLeft(slots: seq<nat>, used: nat, rank: nat, n: nat)
    requires StrictlyAscending(slots) && Reached(slots, used, rank) && rank !in slots && rank < n
    requires forall x :: x in slots ==> x < n
    ensures |slots| - used < n - rank
    ensures Reached(slots, used, rank + 1)
  {
    forall i | used <= i < |slots| ensures slots[i] >= rank + 1 {
      assert slots[i] in slots;
    }
    if used < |slots| {
      AscendingGap(slots, used, |slots| - 1);
      assert slots[|slots| - 1] in slots;
    }
  }

  lemma SlotReached(slots: seq<nat>, used: nat, rank: nat)
    requires StrictlyAscending(slots) && Reached(slots, used, rank) && rank in slots
    ensures used < |slots| && slots[used] == rank
    ensures Reached(slots, used + 1, rank + 1)
  {
    var k := Index(slots, rank);
    assert k >= used;
  }

  /** A deck under construction: the first cards and the first remaining ones, merged. */
  ghost predicate Merged(wanted: set<Card>, slots: seq<nat>, cards: seq<Card>, others: seq<Card>, deck: seq<Card>) {
    && Chosen(deck, wanted) == cards && Others(deck, wanted) == others
    && forall i :: 0 <= i < |deck| ==> (deck[i] in wanted <==> i in slots)
  }

  lemma MergedNext(wanted: set<Card>, slots: seq<nat>, cards: seq<Card>, others: seq<Card>, deck: seq<Card>, x: Card)
    requires Merged(wanted, slots, cards, others, deck) && (x in wanted <==> |deck| in slots)
    ensures x in wanted ==> Merged(wanted, slots, cards + [x], others, deck + [x])
    ensures x !in wanted ==> Merged(wanted, slots, cards, others + [x], deck + [x])
  {
    FilterNext(deck, x, wanted);
  }

  lemma MergedFully(wanted: set<Card>, slots: seq<nat>, cards: seq<Card>, others: seq<Card>, deck: seq<Card>,
                    used: nat, next: nat)
    requires Reached(slots, used, |deck|) && |slots| == |cards| && next <= |others|
    requires |deck| == used + next == |cards| + |others|
    requires Merged(wanted, slots, cards[..used], others[..next], deck)
    ensures Merged(wanted, slots, cards, others, deck)
  {
    assert cards[..|cards|] == cards && others[..|others|] == others;
  }

  /** Walks the places: a card with this slot, or else the next of the remaining ones. There
      always is a next one. */
  method Merge(wanted: set<Card>, slots: seq<nat>, cards: seq<Card>, remaining: seq<Card>) returns (deck: seq<Card>)
    requires StrictlyAscending(slots) && |slots| == |cards|
    requires forall x :: x in slots ==> x < |cards| + |remaining|
    requires (forall x :: x in cards ==> x in wanted) && (forall x :: x in remaining ==> x !in wanted)
    ensures |deck| == |cards| + |remaining|
    ensures Merged(wanted, slots, cards, remaining, deck)
  {
    var bySlot := Zipped(slots, cards);
    var next, n := 0, |cards| + |remaining|;
    deck := [];
    ghost var used := 0;
    for rank := 0 to n
      invariant |deck| == rank == used + next && next <= |remaining|
      invariant Reached(slots, used, rank)
      invariant Merged(wanted, slots, cards[..used], remaining[..next], deck)
    {
      if rank in bySlot {
        SlotReached(slots, used, rank);
        TakeNext(cards, used);
        MergedNext(wanted, slots, cards[..used], remaining[..next], deck, cards[used]);
        deck := deck + [bySlot[rank]];
        used := used + 1;
      } else {
        RoomLeft(slots, used, rank, n);
        TakeNext(remaining, next);
        MergedNext(wanted, slots, cards[..used], remaining[..next], deck, remaining[next]);
        deck := deck + [remaining[next]];
        next := next + 1;
      }
    }
    MergedFully(wanted, slots, cards, remaining, deck, used, next);
  }

  // ------------------------------------------------------------ which orders can come out

  lemma {:induction false} SelectJoined(a: seq<Card>, b: seq<Card>, p: Card -> bool)
    ensures Filter(a + b, p) == Filter(a, p) + Filter(b, p)
  {
    if b == [] {
      Unit(a);
    } else {
      var front, x := b[..|b| - 1], b[|b| - 1];
      AllButLast(b);
      SelectJoined(a, front, p);
      SnocJoined(a, front, x, p);
    }
  }

  lemma SnocJoined(a: seq<Card>, front: seq<Card>, x: Card, p: Card -> bool)
    requires Filter(a + front, p) == Filter(a, p) + Filter(front, p)
    ensures Filter(a + (front + [x]), p) == Filter(a, p) + Filter(front + [x], p)
  {
    Associate(a, front, [x]);
    FilterSnoc(a + front, x, p);
    FilterSnoc(front, x, p);
    Associate(Filter(a, p), Filter(front, p), [x]);
  }

  lemma {:induction false} SelectAll(s: seq<Card>, p: Card -> bool)
    requires forall x :: x in s ==> p(x)
    ensures Filter(s, p) == s
  {
    if s != [] {
      var front, x := s[..|s| - 1], s[|s| - 1];
      AllButLast(s);
      SelectAll(front, p);
      FilterSnoc(front, x, p);
    }
  }

  lemma {:induction false} SelectNone(s: seq<Card>, p: Card -> bool)
    requires forall x :: x in s ==> !p(x)
    ensures Filter(s, p) == []
  {
    if s != [] {
      var front, x := s[..|s| - 1], s[|s| - 1];
      AllButLast(s);
      SelectNone(front, p);
      FilterSnoc(front, x, p);
    }
  }

  lemma {:induction false} ChosenOnce(rows: seq<Card>, card: Card)
    requires Distinct(rows)
    ensures Chosen(rows, {card}) == if card in rows then [card] else []
  {
    if rows != [] {
      var n := |rows| - 1;
      ChosenOnce(rows[..n], card);
      assert rows[n] !in rows[..n];
    }
  }

  lemma SelectAround(a: seq<Card>, x: Card, b: seq<Card>, p: Card -> bool)
    ensures Filter(a + [x] + b, p) == (if p(x) then Filter(a, p) + [x] else Filter(a, p)) + Filter(b, p)
  {
    FilterSnoc(a, x, p);
    SelectJoined(a + [x], b, p);
  }

  lemma OnlyCardBetween(a: seq<Card>, card: Card, b: seq<Card>, p: Card -> bool)
    requires p(card) && (forall x :: x in a ==> !p(x)) && (forall x :: x in b ==> !p(x))
    ensures Filter(a + [card] + b, p) == [card]
  {
    SelectAround(a, card, b, p);
    SelectNone(a, p);
    SelectNone(b, p);
    Unit([card]);
  }

  lemma AllAroundCard(a: seq<Card>, card: Card, b: seq<Card>, p: Card -> bool)
    requires !p(card) && (forall x :: x in a ==> p(x)) && (forall x :: x in b ==> p(x))
    ensures Filter(a + [card] + b, p) == a + b
  {
    SelectAround(a, card, b, p);
    SelectAll(a, p);
    SelectAll(b, p);
  }

  lemma CardBetween(a: seq<Card>, card: Card, b: seq<Card>)
    requires card !in a && card !in b
    ensures Chosen(a + [card] + b, {card}) == [card] && Others(a + [card] + b, {card}) == a + b
  {
    OnlyCardBetween(a, card, b, In({card}));
    AllAroundCard(a, card, b, NotIn({card}));
  }

  /** The single-card path takes the card out and puts it in at one place: nothing else moves, and
      a card that was in the deck makes the new order a permutation of the old one. */
  lemma OneCardMoves(rows: seq<Card>, card: Card, slot: nat)
    requires Distinct(rows) && slot <= |Others(rows, {card})|
    ensures
      var others := Others(rows, {card});
      var order := others[..slot] + [card] + others[slot..];
      && Chosen(order, {card}) == [card] && Others(order, {card}) == others
      && multiset(order) == if card in rows then multiset(rows) else multiset(rows) + multiset{card}
  {
    var others := Others(rows, {card});
    assert card !in others && others[..slot] + others[slot..] == others;
    CardBetween(others[..slot], card, others[slot..]);
    ChosenOnce(rows, card);
    FilterSplit(rows, {card});
    FilterSplit(others[..slot] + [card] + others[slot..], {card});
  }

  /** The places of the chosen cards of an order. */
  function Spots(order: seq<Card>, p: Card -> bool): (r: seq<nat>)
    ensures |r| == |Filter(order, p)|
  {
    if order == [] then [] else
      var n := |order| - 1;
      if p(order[n]) then Spots(order[..n], p) + [n] else Spots(order[..n], p)
  }

  lemma {:induction false} SpotMembers(order: seq<Card>, p: Card -> bool, x: nat)
    ensures x in Spots(order, p) <==> x < |order| && p(order[x])
  {
    if order != [] {
      var n := |order| - 1;
      SpotMembers(order[..n], p, x);
      InSnoc(Spots(order[..n], p), n, x);
    }
  }

  lemma InSnoc(s: seq<nat>, n: nat, x: nat)
    ensures x in s + [n] <==> x in s || x == n
  {
  }

  lemma RangeNext(n: nat)
    ensures Range(n + 1) == Range(n) + [n]
  {
  }

  lemma {:induction false} SpotsPartition(order: seq<Card>, wanted: set<Card>)
    ensures multiset(Spots(order, In(wanted)) + Spots(order, NotIn(wanted))) == multiset(Range(|order|))
  {
    if order != [] {
      var n := |order| - 1;
      var a, b := Spots(order[..n], In(wanted)), Spots(order[..n], NotIn(wanted));
      SpotsPartition(order[..n], wanted);
      RangeNext(n);
      OneMoreSpot(a, b, Range(n), n);
      assert Spots(order, In(wanted)) == if order[n] in wanted then a + [n] else a;
      assert Spots(order, NotIn(wanted)) == if order[n] in wanted then b else b + [n];
    }
  }

  lemma OneMoreSpot(a: seq<nat>, b: seq<nat>, all: seq<nat>, n: nat)
    requires multiset(a + b) == multiset(all)
    ensures multiset((a + [n]) + b) == multiset(all + [n]) && multiset(a + (b + [n])) == multiset(all + [n])
  {
  }

  lemma {:induction false} SameMaskSameOrder(a: seq<Card>, b: seq<Card>, wanted: set<Card>)
    requires |a| == |b| && forall i :: 0 <= i < |a| ==> (a[i] in wanted <==> b[i] in wanted)
    requires Chosen(a, wanted) == Chosen(b, wanted) && Others(a, wanted) == Others(b, wanted)
    ensures a == b
  {
    if a != [] {
      AllButLast(a);
      AllButLast(b);
      LastSelected(a, b, wanted);
      SameMaskSameOrder(a[..|a| - 1], b[..|b| - 1], wanted);
    }
  }

  lemma LastSelected(a: seq<Card>, b: seq<Card>, wanted: set<Card>)
    requires a != [] && b != [] && (a[|a| - 1] in wanted <==> b[|b| - 1] in wanted)
    requires Chosen(a, wanted) == Chosen(b, wanted) && Others(a, wanted) == Others(b, wanted)
    ensures a[|a| - 1] == b[|b| - 1]
    ensures Chosen(a[..|a| - 1], wanted) == Chosen(b[..|b| - 1], wanted)
    ensures Others(a[..|a| - 1], wanted) == Others(b[..|b| - 1], wanted)
  {
    AllButLast(a);
    AllButLast(b);
    SnocSelected(a[..|a| - 1], a[|a| - 1], b[..|b| - 1], b[|b| - 1], wanted);
  }

  lemma SnocSelected(a: seq<Card>, x: Card, b: seq<Card>, y: Card, wanted: set<Card>)
    requires x in wanted <==> y in wanted
    requires Chosen(a + [x], wanted) == Chosen(b + [y], wanted) && Others(a + [x], wanted) == Others(b + [y], wanted)
    ensures x == y && Chosen(a, wanted) == Chosen(b, wanted) && Others(a, wanted) == Others(b, wanted)
  {
    FilterNext(a, x, wanted);
    FilterNext(b, y, wanted);
    if x in wanted {
      LastEqual(Chosen(a, wanted), x, Chosen(b, wanted), y);
    } else {
      LastEqual(Others(a, wanted), x, Others(b, wanted), y);
    }
  }

  lemma LastEqual(s: seq<Card>, x: Card, t: seq<Card>, y: Card)
    requires s + [x] == t + [y]
    ensures s == t && x == y
  {
    assert (s + [x])[|s|] == (t + [y])[|t|];
    assert s == (s + [x])[..|s|] && t == (t + [y])[..|t|];
  }

  lemma SameChosen(rows: seq<Card>, wanted: set<Card>, target: seq<Card>)
    requires multiset(target) == multiset(rows) && Others(target, wanted) == Others(rows, wanted)
    ensures |target| == |rows| && multiset(Chosen(target, wanted)) == multiset(Chosen(rows, wanted))
  {
    assert |multiset(target)| == |target| && |multiset(rows)| == |rows|;
    FilterSplit(rows, wanted);
    FilterSplit(target, wanted);
    var c, d, o := multiset(Chosen(target, wanted)), multiset(Chosen(rows, wanted)), multiset(Others(rows, wanted));
    assert c == c + o - o && d == d + o - o;
  }

  lemma OnlyOutcome(rows: seq<Card>, wanted: set<Card>, target: seq<Card>, order: seq<Card>)
    requires multiset(target) == multiset(rows) && Others(target, wanted) == Others(rows, wanted)
    ensures Outcome(rows, wanted, Chosen(target, wanted), Spots(target, In(wanted)), order) <==> order == target
  {
    if Outcome(rows, wanted, Chosen(target, wanted), Spots(target, In(wanted)), order) {
      assert |multiset(target)| == |target| && |multiset(order)| == |order|;
      forall i | 0 <= i < |target| ensures order[i] in wanted <==> target[i] in wanted {
        SpotMembers(target, In(wanted), i);
      }
      SameMaskSameOrder(order, target, wanted);
    } else if order == target {
      forall i | 0 <= i < |target| ensures target[i] in wanted <==> i in Spots(target, In(wanted)) {
        SpotMembers(target, In(wanted), i);
      }
    }
  }

  /** Every rearrangement that keeps the order of the other cards can come out: there are shuffles
      for which it is the only possible outcome. */
  lemma EveryOrderReachable(rows: seq<Card>, wanted: set<Card>, target: seq<Card>)
    returns (shuffled: seq<Card>, slots: seq<nat>)
    requires multiset(target) == multiset(rows) && Others(target, wanted) == Others(rows, wanted)
    ensures IsShuffle(shuffled, Chosen(rows, wanted)) && IsShuffle(slots, Range(|rows|)) && |shuffled| <= |slots|
    ensures forall order :: Outcome(rows, wanted, shuffled, slots[..|shuffled|], order) <==> order == target
  {
    var first := Spots(target, In(wanted));
    shuffled, slots := Chosen(target, wanted), first + Spots(target, NotIn(wanted));
    assert slots[..|shuffled|] == first;
    SameChosen(rows, wanted, target);
    SpotsPartition(target, wanted);
    forall order ensures Outcome(rows, wanted, shuffled, first, order) <==> order == target {
      OnlyOutcome(rows, wanted, target, order);
    }
  }
}
