/** The AI's search for the best order in which to play cards this turn: exhaustive up to
    five plays, with card values drawn once (they contain random noise) and memoised. */
module BoardStack {
  import opened Lists
  import opened Wrappers

  /** A hand card.  `multiplier` is 0 for a fixed cost, 1 for X and 2 for double X. */
  datatype Card = Card(uid: nat, template: nat, resource: bool, granted: int, cost: int, troop: bool, multiplier: nat)
  {
    function Price(): int {
      if multiplier > 0 && !troop then cost + (if multiplier > 1 then multiplier else 1) else cost
    }
  }

  /** What is left to spend, and whether this turn's resource has been played. */
  datatype Purse = Purse(resources: int, used: bool)

  predicate CanPlay(c: Card, p: Purse) {
    if c.resource then !p.used else c.Price() <= p.resources
  }

  function After(c: Card, p: Purse): Purse {
    if c.resource then Purse(p.resources + c.granted, true) else Purse(p.resources - c.Price(), p.used)
  }

  predicate Affordable(order: seq<Card>, p: Purse) {
    order == [] || (CanPlay(order[0], p) && Affordable(order[1..], After(order[0], p)))
  }

  const MaxPlays: nat := 5

  /** An order the search may return: distinct cards of `cards`, affordable at every prefix. */
  predicate Playable(order: seq<Card>, cards: seq<Card>, p: Purse, depth: nat) {
    multiset(order) <= multiset(cards) && |order| + depth <= MaxPlays && Affordable(order, p)
  }

  function Resources(order: seq<Card>): nat {
    if order == [] then 0 else (if order[0].resource then 1 else 0) + Resources(order[1..])
  }

  /** At most one resource is played. */
  lemma {:induction false} OneResource(order: seq<Card>, p: Purse)
    requires Affordable(order, p)
    ensures Resources(order) <= if p.used then 0 else 1
  {
    if order != [] { OneResource(order[1..], After(order[0], p)); }
  }

  // --------------------------------------------------------------- what affordable means

  /** What a card that is no resource costs: X counts once, a double X twice, for a troop not at all. */
  function Cost(c: Card): int { c.cost + if c.troop then 0 else c.multiplier }

  /** What the resources among the cards grant. */
  function Granted(order: seq<Card>): int {
    if order == [] then 0 else (if order[0].resource then order[0].granted else 0) + Granted(order[1..])
  }

  /** What the other cards cost. */
  function Spent(order: seq<Card>): int {
    if order == [] then 0 else (if order[0].resource then 0 else Cost(order[0])) + Spent(order[1..])
  }

  lemma SumsFirst(c: Card, rest: seq<Card>)
    ensures Granted([c] + rest) == (if c.resource then c.granted else 0) + Granted(rest)
    ensures Spent([c] + rest) == (if c.resource then 0 else Cost(c)) + Spent(rest)
    ensures Resources([c] + rest) == (if c.resource then 1 else 0) + Resources(rest)
  {
    assert ([c] + rest)[1..] == rest;
  }

  /** Every card is paid from the resources at the start and what was granted before it, less what
      was spent before it; and at most one resource is played, none when one was played already. */
  ghost predicate PaidInOrder(order: seq<Card>, p: Purse) {
    && Resources(order) <= (if p.used then 0 else 1)
    && forall k :: 0 <= k < |order| && !order[k].resource ==> Cost(order[k]) <= p.resources + Granted(order[..k]) - Spent(order[..k])
  }

  lemma PaidFirst(c: Card, rest: seq<Card>, p: Purse)
    ensures
      PaidInOrder([c] + rest, p) <==>
      && (c.resource ==> !p.used)
      && (!c.resource ==> Cost(c) <= p.resources)
      && PaidInOrder(rest, Purse(p.resources + Granted([c]) - Spent([c]), p.used || c.resource))
  {
    var order, q := [c] + rest, Purse(p.resources + Granted([c]) - Spent([c]), p.used || c.resource);
    SumsFirst(c, rest);
    assert Granted([c]) == (if c.resource then c.granted else 0) && Spent([c]) == if c.resource then 0 else Cost(c);
    forall k | 0 <= k < |rest|
      ensures p.resources + Granted(order[..k + 1]) - Spent(order[..k + 1]) == q.resources + Granted(rest[..k]) - Spent(rest[..k])
    {
      assert order[..k + 1] == [c] + rest[..k];
      SumsFirst(c, rest[..k]);
    }
    if PaidInOrder(order, p) {
      assert order[0] == c && order[..0] == [];
      forall k | 0 <= k < |rest| && !rest[k].resource
        ensures Cost(rest[k]) <= q.resources + Granted(rest[..k]) - Spent(rest[..k])
      {
        assert order[k + 1] == rest[k];
      }
    }
    if PaidInOrder(rest, q) && (c.resource ==> !p.used) && (!c.resource ==> Cost(c) <= p.resources) {
      forall k | 0 <= k < |order| && !order[k].resource
        ensures Cost(order[k]) <= p.resources + Granted(order[..k]) - Spent(order[..k])
      {
        if k > 0 { assert order[k] == rest[k - 1] && order[..k] == order[..k - 1 + 1]; } else { assert order[..0] == []; }
      }
    }
  }

  /** The search's own notion of what can be played is exactly that. */
  lemma {:induction false} AffordableIff(order: seq<Card>, p: Purse)
    ensures Affordable(order, p) <==> PaidInOrder(order, p)
  {
    if order != [] {
      var c := order[0];
      assert order == [c] + order[1..];
      PaidFirst(c, order[1..], p);
      AffordableIff(order[1..], After(c, p));
    }
  }

  // --------------------------------------------------------------- memoised values

  type Values = map<nat, real>

  ghost predicate Extends(old_: Values, new_: Values) {
    forall u :: u in old_ ==> u in new_ && new_[u] == old_[u]
  }

  lemma ExtendsTwice(u: Values, v: Values, w: Values)
    requires Extends(u, v) && Extends(v, w)
    ensures Extends(u, w)
  {
  }

  ghost predicate Known(v: Values, order: seq<Card>) {
    forall c :: c in order ==> c.uid in v
  }

  ghost function Worth(v: Values, order: seq<Card>): real
    requires Known(v, order)
  {
    if order == [] then 0.0 else v[order[0].uid] + Worth(v, order[1..])
  }

  lemma {:induction false} WorthStable(v: Values, w: Values, order: seq<Card>)
    requires Extends(v, w) && Known(v, order)
    ensures Known(w, order) && Worth(w, order) == Worth(v, order)
  {
    if order != [] { WorthStable(v, w, order[1..]); }
  }

  /** No playable order is worth more than `value`, and the values of all their cards are fixed. */
  ghost predicate Bounded(v: Values, order: seq<Card>, value: real) {
    Known(v, order) && Worth(v, order) <= value
  }

  ghost predicate Optimal(v: Values, order: seq<Card>, value: real, cards: seq<Card>, p: Purse, depth: nat) {
    && Playable(order, cards, p, depth)
    && Known(v, order) && value == Worth(v, order)
    && forall s :: Playable(s, cards, p, depth) ==> Bounded(v, s, value)
  }

  function Without(cards: seq<Card>, i: nat): (rest: seq<Card>)
    requires i < |cards|
    ensures multiset(cards) == multiset(rest) + multiset{cards[i]}
  {
    assert cards == cards[..i] + [cards[i]] + cards[i + 1..];
    cards[..i] + cards[i + 1..]
  }

  /** Playing `cards[i]` first and then `tail` is an order of `cards`, and every order that
      starts with that card arises so. */
  lemma PlayFirst(cards: seq<Card>, i: nat, tail: seq<Card>, p: Purse, depth: nat)
    requires i < |cards| && depth < MaxPlays && CanPlay(cards[i], p)
    ensures Playable(tail, Without(cards, i), After(cards[i], p), depth + 1)
       <==> Playable([cards[i]] + tail, cards, p, depth)
  {
    var c, rest := cards[i], Without(cards, i);
    var order := [c] + tail;
    assert order[1..] == tail;
    assert multiset(order) == multiset(tail) + multiset{c};
    assert multiset(order) <= multiset(cards) <==> multiset(tail) <= multiset(rest) by {
      assert forall x :: multiset(order)[x] - multiset(tail)[x] == multiset(cards)[x] - multiset(rest)[x];
      assert multiset(order) <= multiset(cards) ==> forall x :: multiset(order)[x] <= multiset(cards)[x];
    }
  }

  // --------------------------------------------------------------- which of the best orders

  function Position(cards: seq<Card>, c: Card): (i: nat)
    requires c in cards
    ensures i < |cards| && cards[i] == c
  {
    if cards[0] == c then 0 else 1 + Position(cards[1..], c)
  }

  /** In the order of `cards`, `a` comes before `b` or is the same: at the first difference it has the
      earlier card, or ends. */
  predicate NotAfter(a: seq<Card>, b: seq<Card>, cards: seq<Card>)
    requires (forall c :: c in a ==> c in cards) && forall c :: c in b ==> c in cards
    decreases |a|
  {
    a == [] || (b != [] && if a[0] == b[0] then NotAfter(a[1..], b[1..], cards) else Position(cards, a[0]) < Position(cards, b[0]))
  }

  predicate Among(order: seq<Card>, cards: seq<Card>) { forall c :: c in order ==> c in cards }

  lemma PlayableAmong(order: seq<Card>, cards: seq<Card>, p: Purse, depth: nat)
    requires Playable(order, cards, p, depth)
    ensures Among(order, cards)
  {
    forall c | c in order ensures c in cards {
      assert c in multiset(order) && c in multiset(cards);
    }
  }

  /** Whether `order` is the first of the playable orders of its value. */
  ghost predicate FirstOfValue(v: Values, order: seq<Card>, value: real, cards: seq<Card>, p: Purse, depth: nat) {
    Among(order, cards) && forall s :: Playable(s, cards, p, depth) && IsWorth(v, s, value) ==> Among(s, cards) && NotAfter(order, s, cards)
  }

  ghost predicate IsWorth(v: Values, s: seq<Card>, value: real) { Known(v, s) && Worth(v, s) == value }

  lemma PositionAt(cards: seq<Card>, i: nat)
    requires Distinct(cards) && i < |cards|
    ensures Position(cards, cards[i]) == i
  {
    assert cards[Position(cards, cards[i])] == cards[i];
  }

  /** Taking one card out leaves the others in their order. */
  lemma PositionsKept(cards: seq<Card>, i: nat, x: Card, y: Card)
    requires Distinct(cards) && i < |cards| && x in Without(cards, i) && y in Without(cards, i)
    ensures x in cards && y in cards
    ensures Position(cards, x) < Position(cards, y) <==> Position(Without(cards, i), x) < Position(Without(cards, i), y)
  {
    var rest := Without(cards, i);
    var j, k := Position(rest, x), Position(rest, y);
    PositionAt(cards, if j < i then j else j + 1);
    PositionAt(cards, if k < i then k else k + 1);
  }

  lemma {:induction false} NotAfterKept(a: seq<Card>, b: seq<Card>, cards: seq<Card>, i: nat)
    requires Distinct(cards) && i < |cards| && Among(a, Without(cards, i)) && Among(b, Without(cards, i))
    requires NotAfter(a, b, Without(cards, i))
    ensures Among(a, cards) && Among(b, cards) && NotAfter(a, b, cards)
    decreases |a|
  {
    forall c | c in Without(cards, i) ensures c in cards {}
    if a != [] {
      if a[0] == b[0] {
        NotAfterKept(a[1..], b[1..], cards, i);
      } else {
        PositionsKept(cards, i, a[0], b[0]);
      }
    }
  }

  /** `order` is an order of `cards` whose value is known to be `value`. */
  ghost predicate Reached(v: Values, order: seq<Card>, value: real, cards: seq<Card>, p: Purse, depth: nat) {
    Playable(order, cards, p, depth) && Known(v, order) && value == Worth(v, order)
  }

  /** `value` bounds every order that starts with one of the first `n` cards. */
  ghost predicate BoundedFrom(v: Values, cards: seq<Card>, n: nat, p: Purse, depth: nat, value: real)
    requires n <= |cards|
  {
    forall s :: s != [] && s[0] in cards[..n] && Playable(s, cards, p, depth) ==> Bounded(v, s, value)
  }

  lemma ReachFirst(v: Values, w: Values, cards: seq<Card>, i: nat, p: Purse, depth: nat, tail: seq<Card>, val: real)
    requires i < |cards| && depth < MaxPlays && CanPlay(cards[i], p)
    requires Reached(v, tail, val, Without(cards, i), After(cards[i], p), depth + 1)
    requires Extends(v, w) && cards[i].uid in w
    ensures Reached(w, [cards[i]] + tail, w[cards[i].uid] + val, cards, p, depth)
  {
    PlayFirst(cards, i, tail, p, depth);
    WorthStable(v, w, tail);
    assert ([cards[i]] + tail)[1..] == tail;
  }

  lemma BoundFirst(v: Values, w: Values, cards: seq<Card>, i: nat, p: Purse, depth: nat, val: real, s: seq<Card>)
    requires i < |cards| && depth < MaxPlays && CanPlay(cards[i], p)
    requires forall t :: Playable(t, Without(cards, i), After(cards[i], p), depth + 1) ==> Bounded(v, t, val)
    requires Extends(v, w) && cards[i].uid in w
    requires s != [] && s[0] == cards[i] && Playable(s, cards, p, depth)
    ensures Bounded(w, s, w[cards[i].uid] + val)
  {
    assert s == [cards[i]] + s[1..];
    PlayFirst(cards, i, s[1..], p, depth);
    assert Bounded(v, s[1..], val);
    WorthStable(v, w, s[1..]);
  }

  /** Having tried `cards[i]`: the bound extends to the orders that start with it. */
  lemma BoundNext(u: Values, v: Values, w: Values, cards: seq<Card>, i: nat, p: Purse, depth: nat, val: real, best: real, next: real)
    requires i < |cards| && depth < MaxPlays && CanPlay(cards[i], p)
    requires BoundedFrom(u, cards, i, p, depth, best) && Extends(u, w)
    requires forall t :: Playable(t, Without(cards, i), After(cards[i], p), depth + 1) ==> Bounded(v, t, val)
    requires Extends(v, w) && cards[i].uid in w
    requires next >= best && next >= w[cards[i].uid] + val
    ensures BoundedFrom(w, cards, i + 1, p, depth, next)
  {
    forall s | s != [] && s[0] in cards[..i + 1] && Playable(s, cards, p, depth)
      ensures Bounded(w, s, next)
    {
      if s[0] == cards[i] {
        BoundFirst(v, w, cards, i, p, depth, val, s);
      } else {
        assert s[0] in cards[..i] && Bounded(u, s, best);
        WorthStable(u, w, s);
      }
    }
  }

  /** A card that cannot be played now starts no order. */
  lemma BoundSkip(v: Values, cards: seq<Card>, i: nat, p: Purse, depth: nat, best: real)
    requires i < |cards| && !CanPlay(cards[i], p) && BoundedFrom(v, cards, i, p, depth, best)
    ensures BoundedFrom(v, cards, i + 1, p, depth, best)
  {
  }

  /** `order` comes no later than any order of the same value that starts with one of the first `n`
      cards, and starts with one of these itself. */
  ghost predicate FirstFrom(v: Values, order: seq<Card>, value: real, cards: seq<Card>, n: nat, p: Purse, depth: nat)
    requires n <= |cards|
  {
    && Among(order, cards) && (order != [] ==> order[0] in cards[..n])
    && forall s :: Playable(s, cards, p, depth) && IsWorth(v, s, value) && (s == [] || s[0] in cards[..n]) ==>
         Among(s, cards) && NotAfter(order, s, cards)
  }

  lemma FirstSkips(v: Values, order: seq<Card>, value: real, cards: seq<Card>, i: nat, p: Purse, depth: nat)
    requires i < |cards| && !CanPlay(cards[i], p) && FirstFrom(v, order, value, cards, i, p, depth)
    ensures FirstFrom(v, order, value, cards, i + 1, p, depth)
  {
    TakeNext(cards, i);
  }

  lemma FirstKept(u: Values, w: Values, order: seq<Card>, value: real, cards: seq<Card>, i: nat, p: Purse, depth: nat)
    requires Distinct(cards) && i < |cards| && Extends(u, w)
    requires BoundedFrom(u, cards, i, p, depth, value) && FirstFrom(u, order, value, cards, i, p, depth)
    ensures FirstFrom(w, order, value, cards, i + 1, p, depth)
  {
    TakeNext(cards, i);
    forall s | Playable(s, cards, p, depth) && IsWorth(w, s, value) && (s == [] || s[0] in cards[..i + 1])
      ensures Among(s, cards) && NotAfter(order, s, cards)
    {
      PlayableAmong(s, cards, p, depth);
      if s == [] || s[0] in cards[..i] {
        assert s != [] ==> Bounded(u, s, value);
        WorthStable(u, w, s);
      } else if order != [] {
        Earlier(cards, i, order[0]);
      }
    }
  }

  lemma Earlier(cards: seq<Card>, i: nat, x: Card)
    requires Distinct(cards) && i < |cards| && x in cards[..i]
    ensures Position(cards, x) < Position(cards, cards[i]) && x != cards[i]
  {
    var j :| 0 <= j < i && cards[j] == x;
    PositionAt(cards, i);
    PositionAt(cards, j);
  }

  lemma FirstReplaced(u: Values, v: Values, w: Values, cards: seq<Card>, i: nat, p: Purse, depth: nat, tail: seq<Card>,
                      val: real, best: real)
    requires Distinct(cards) && i < |cards| && depth < MaxPlays && CanPlay(cards[i], p)
    requires BoundedFrom(u, cards, i, p, depth, best) && Extends(u, w) && 0.0 <= best
    requires forall t :: Playable(t, Without(cards, i), After(cards[i], p), depth + 1) ==> Bounded(v, t, val)
    requires FirstOfValue(v, tail, val, Without(cards, i), After(cards[i], p), depth + 1)
    requires Extends(v, w) && cards[i].uid in w && w[cards[i].uid] + val > best
    ensures FirstFrom(w, [cards[i]] + tail, w[cards[i].uid] + val, cards, i + 1, p, depth)
  {
    var c, rest := cards[i], Without(cards, i);
    TakeNext(cards, i);
    assert forall x :: x in rest ==> x in cards;
    forall s | Playable(s, cards, p, depth) && IsWorth(w, s, w[c.uid] + val) && (s == [] || s[0] in cards[..i + 1])
      ensures Among(s, cards) && NotAfter([c] + tail, s, cards)
    {
      PlayableAmong(s, cards, p, depth);
      if s == [] {
        assert false;
      } else if s[0] in cards[..i] {
        assert Bounded(u, s, best);
        WorthStable(u, w, s);
        assert false;
      } else {
        SameFirst(v, w, cards, i, p, depth, tail, val, s);
      }
    }
  }

  lemma SameFirst(v: Values, w: Values, cards: seq<Card>, i: nat, p: Purse, depth: nat, tail: seq<Card>, val: real, s: seq<Card>)
    requires Distinct(cards) && i < |cards| && depth < MaxPlays && CanPlay(cards[i], p)
    requires forall t :: Playable(t, Without(cards, i), After(cards[i], p), depth + 1) ==> Bounded(v, t, val)
    requires FirstOfValue(v, tail, val, Without(cards, i), After(cards[i], p), depth + 1)
    requires Extends(v, w) && cards[i].uid in w
    requires s != [] && s[0] == cards[i] && Playable(s, cards, p, depth) && IsWorth(w, s, w[cards[i].uid] + val)
    ensures Among(s, cards) && Among([cards[i]] + tail, cards) && NotAfter([cards[i]] + tail, s, cards)
  {
    var t := s[1..];
    assert s == [cards[i]] + t;
    PlayFirst(cards, i, t, p, depth);
    assert Bounded(v, t, val);
    WorthStable(v, w, t);
    PlayableAmong(s, cards, p, depth);
    NotAfterKept(tail, t, cards, i);
    assert ([cards[i]] + tail)[1..] == tail;
  }

  lemma RestDistinct(cards: seq<Card>, i: nat)
    requires i < |cards|
    ensures Distinct(cards) ==> Distinct(Without(cards, i))
  {
  }

  lemma BoundAll(v: Values, cards: seq<Card>, p: Purse, depth: nat, order: seq<Card>, best: real)
    requires Reached(v, order, best, cards, p, depth) && best >= 0.0
    requires BoundedFrom(v, cards, |cards|, p, depth, best)
    ensures Optimal(v, order, best, cards, p, depth)
  {
    forall s | Playable(s, cards, p, depth) ensures Bounded(v, s, best) {
      if s != [] {
        assert s[0] in multiset(s) && s[0] in multiset(cards);
      }
    }
  }

  /** What the loop has established when the first `n` cards have been tried as the first card. */
  ghost predicate Searched(v: Values, order: seq<Card>, value: real, cards: seq<Card>, n: nat, p: Purse, depth: nat) {
    && n <= |cards| && Reached(v, order, value, cards, p, depth) && value >= 0.0
    && BoundedFrom(v, cards, n, p, depth, value)
    && (Distinct(cards) ==> FirstFrom(v, order, value, cards, n, p, depth))
  }

  /** What a call establishes. */
  ghost predicate Found(v: Values, order: seq<Card>, value: real, cards: seq<Card>, p: Purse, depth: nat) {
    && Optimal(v, order, value, cards, p, depth) && PaidInOrder(order, p)
    && (Distinct(cards) ==> FirstOfValue(v, order, value, cards, p, depth))
  }

  lemma SearchSkips(v: Values, order: seq<Card>, value: real, cards: seq<Card>, i: nat, p: Purse, depth: nat)
    requires i < |cards| && !CanPlay(cards[i], p) && Searched(v, order, value, cards, i, p, depth)
    ensures Searched(v, order, value, cards, i + 1, p, depth)
  {
    BoundSkip(v, cards, i, p, depth, value);
    if Distinct(cards) {
      FirstSkips(v, order, value, cards, i, p, depth);
    }
  }

  lemma SearchStarts(v: Values, cards: seq<Card>, p: Purse, depth: nat)
    requires depth <= MaxPlays
    ensures Searched(v, [], 0.0, cards, 0, p, depth)
  {
  }

  /** Having tried `cards[i]` with the best order of the rest behind it. */
  lemma SearchTries(u: Values, v: Values, w: Values, order: seq<Card>, value: real, cards: seq<Card>, i: nat, p: Purse,
                    depth: nat, tail: seq<Card>, val: real)
    requires i < |cards| && depth < MaxPlays && CanPlay(cards[i], p)
    requires Searched(u, order, value, cards, i, p, depth) && Extends(u, w)
    requires Found(v, tail, val, Without(cards, i), After(cards[i], p), depth + 1)
    requires Extends(v, w) && cards[i].uid in w
    ensures
      var own := w[cards[i].uid];
      if own + val > value then Searched(w, [cards[i]] + tail, own + val, cards, i + 1, p, depth)
      else Searched(w, order, value, cards, i + 1, p, depth)
  {
    var own := w[cards[i].uid];
    WorthStable(u, w, order);
    ReachFirst(v, w, cards, i, p, depth, tail, val);
    RestDistinct(cards, i);
    if own + val > value {
      BoundNext(u, v, w, cards, i, p, depth, val, value, own + val);
      if Distinct(cards) {
        FirstReplaced(u, v, w, cards, i, p, depth, tail, val, value);
      }
    } else {
      BoundNext(u, v, w, cards, i, p, depth, val, value, value);
      if Distinct(cards) {
        FirstKept(u, w, order, value, cards, i, p, depth);
      }
    }
  }

  lemma SearchEnds(v: Values, order: seq<Card>, value: real, cards: seq<Card>, p: Purse, depth: nat)
    requires Searched(v, order, value, cards, |cards|, p, depth)
    ensures Found(v, order, value, cards, p, depth)
  {
    BoundAll(v, cards, p, depth, order, value);
    AffordableIff(order, p);
    if Distinct(cards) {
      forall s | Playable(s, cards, p, depth) && IsWorth(v, s, value) ensures Among(s, cards) && NotAfter(order, s, cards) {
        PlayableAmong(s, cards, p, depth);
      }
    }
  }

  /** At the greatest depth there is only the empty order. */
  lemma NothingLeft(v: Values, cards: seq<Card>, p: Purse)
    ensures Found(v, [], 0.0, cards, p, MaxPlays)
  {
    AffordableIff([], p);
  }

  class Evaluator {
    var values: Values

    constructor ()
      ensures values == map[]
    {
      values := map[];
    }

    /** A card's value: any real the first time it is asked for, the same ever after. */
    method CardValue(c: Card) returns (value: real)
      modifies this
      ensures Extends(old(values), values)
      ensures c.uid in values && value == values[c.uid]
    {
      if c.uid !in values {
        var drawn: real := *;
        values := values[c.uid := drawn];
      }
      value := values[c.uid];
    }

    method BestStack(cards: seq<Card>, resources: int, used: bool, depth: nat) returns (order: seq<Card>, value: real)
      requires depth <= MaxPlays
      modifies this
      ensures Extends(old(values), values)
      ensures Found(values, order, value, cards, Purse(resources, used), depth)
      decreases MaxPlays - depth
    {
      var p := Purse(resources, used);
      order, value := [], 0.0;
      if depth >= MaxPlays {
        NothingLeft(values, cards, p);
        return;
      }
      SearchStarts(values, cards, p, depth);
      for i := 0 to |cards|
        invariant Extends(old(values), values)
        invariant Searched(values, order, value, cards, i, p, depth)
      {
        var card := cards[i];
        ghost var before := values;
        if (if card.resource then used else card.Price() > resources) {
          SearchSkips(values, order, value, cards, i, p, depth);
          continue;
        }
        var tail, val := BestStack(Without(cards, i), After(card, p).resources, After(card, p).used, depth + 1);
        ghost var mid := values;
        var own := CardValue(card);
        ExtendsTwice(before, mid, values);
        ExtendsTwice(old(values), before, values);
        SearchTries(before, mid, values, order, value, cards, i, p, depth, tail, val);
        if own + val > value {
          order, value := [card] + tail, own + val;
        }
        assert Searched(values, order, value, cards, i + 1, p, depth);
      }
      SearchEnds(values, order, value, cards, p, depth);
    }

    /** The card to play next: the first of the best order, or none when no order of the
        considered cards is worth more than playing nothing. */
    method GetBestBoardBuilder(hand: seq<Card>, resources: int, includeResources: bool, eligible: Card -> bool)
      returns (choice: Option<Card>)
      modifies this
      ensures Extends(old(values), values)
      ensures var cards := Considered(hand, includeResources, eligible);
              exists order, value ::
                && Found(values, order, value, cards, Purse(resources, false), 0)
                && choice == (if order == [] then None else Some(order[0]))
    {
      var cards := Considered(hand, includeResources, eligible);
      var order, value := BestStack(cards, resources, false, 0);
      assert Found(values, order, value, cards, Purse(resources, false), 0);
      choice := if order == [] then None else Some(order[0]);
    }
  }

  /** The candidates, thinned to one card a template when there are more than ten. */
  function Considered(hand: seq<Card>, includeResources: bool, eligible: Card -> bool): seq<Card> {
    var candidates := Filter(hand, (c: Card) => (c.resource ==> includeResources) && eligible(c));
    if |candidates| > 10 then FirstPerTemplate(candidates) else candidates
  }

  function Templates(cards: seq<Card>): set<nat> {
    if cards == [] then {} else Templates(cards[..|cards| - 1]) + {cards[|cards| - 1].template}
  }

  predicate OnePerTemplate(cards: seq<Card>) {
    cards == [] || (var front := cards[..|cards| - 1];
                    OnePerTemplate(front) && cards[|cards| - 1].template !in Templates(front))
  }

  function FirstPerTemplate(cards: seq<Card>): (keep: seq<Card>)
    ensures Templates(keep) == Templates(cards) && OnePerTemplate(keep)
    ensures forall c :: c in keep ==> c in cards
  {
    if cards == [] then [] else
      var last := cards[|cards| - 1];
      var keep := FirstPerTemplate(cards[..|cards| - 1]);
      assert (keep + [last])[..|keep|] == keep;
      if last.template in Templates(keep) then keep else keep + [last]
  }

  predicate FirstOfTemplate(cards: seq<Card>, i: nat)
    requires i < |cards|
  {
    forall j :: 0 <= j < i ==> cards[j].template != cards[i].template
  }

  lemma {:induction false} TemplatesAre(cards: seq<Card>, t: nat)
    ensures t in Templates(cards) <==> exists i :: 0 <= i < |cards| && cards[i].template == t
  {
    if cards != [] {
      var n := |cards| - 1;
      TemplatesAre(cards[..n], t);
      if t in Templates(cards[..n]) {
        var i :| 0 <= i < n && cards[..n][i].template == t;
        assert cards[i].template == t;
      }
    }
  }

  /** Among the first `n` cards, `at` are the positions of the first cards of their templates. */
  ghost predicate FirstsAt(cards: seq<Card>, at: seq<nat>, n: nat) {
    n <= |cards| && ArePositions(at, n) && forall i :: 0 <= i < n ==> (i in at <==> FirstOfTemplate(cards, i))
  }

  lemma FirstsKept(cards: seq<Card>, at: seq<nat>)
    requires cards != [] && FirstsAt(cards[..|cards| - 1], at, |cards| - 1)
    ensures FirstsAt(cards, at, |cards| - 1)
  {
    forall i | 0 <= i < |cards| - 1 ensures i in at <==> FirstOfTemplate(cards, i) {
      SameFirsts(cards, i);
    }
  }

  lemma FirstsGrow(cards: seq<Card>, front: seq<nat>, n: nat)
    requires n < |cards| && FirstsAt(cards, front, n)
    ensures FirstsAt(cards, if FirstOfTemplate(cards, n) then front + [n] else front, n + 1)
  {
    assert n !in front;
  }

  /** What is kept are the first cards of their templates, in the order of the hand. */
  lemma {:induction false} KeepsFirsts(cards: seq<Card>) returns (at: seq<nat>)
    ensures FirstsAt(cards, at, |cards|) && FirstPerTemplate(cards) == Picked(cards, at)
  {
    if cards == [] {
      at := [];
    } else {
      var n := |cards| - 1;
      var front := KeepsFirsts(cards[..n]);
      FirstsKept(cards, front);
      FirstsGrow(cards, front, n);
      LastIsFirst(cards);
      at := if FirstOfTemplate(cards, n) then front + [n] else front;
      assert Picked(cards, front) == Picked(cards[..n], front);
      if FirstOfTemplate(cards, n) {
        PickedNext(cards, front, n);
      }
    }
  }

  /** The last card is the first of its template when that is not among those before it. */
  lemma LastIsFirst(cards: seq<Card>)
    requires cards != []
    ensures FirstOfTemplate(cards, |cards| - 1) <==> cards[|cards| - 1].template !in Templates(cards[..|cards| - 1])
  {
    var n := |cards| - 1;
    TemplatesAre(cards[..n], cards[n].template);
    assert forall j :: 0 <= j < n ==> cards[..n][j] == cards[j];
  }

  lemma SameFirsts(cards: seq<Card>, i: nat)
    requires i < |cards| - 1
    ensures FirstOfTemplate(cards, i) <==> FirstOfTemplate(cards[..|cards| - 1], i)
  {
    assert forall j :: 0 <= j <= i ==> cards[..|cards| - 1][j] == cards[j];
  }

  predicate Fits(c: Card, includeResources: bool, eligible: Card -> bool) { (c.resource ==> includeResources) && eligible(c) }

  /** The candidates, as positions in the hand: all cards that fit, and when these are more than ten,
      of each template the first one. */
  lemma ConsideredAre(hand: seq<Card>, includeResources: bool, eligible: Card -> bool) returns (fit: seq<nat>, at: seq<nat>)
    ensures ArePositions(fit, |hand|) && forall i :: 0 <= i < |hand| ==> (i in fit <==> Fits(hand[i], includeResources, eligible))
    ensures ArePositions(at, |fit|) && Considered(hand, includeResources, eligible) == Picked(Picked(hand, fit), at)
    ensures forall k :: 0 <= k < |fit| ==> (k in at <==> |fit| <= 10 || FirstOfTemplate(Picked(hand, fit), k))
  {
    fit := FilterPositions(hand, (c: Card) => (c.resource ==> includeResources) && eligible(c));
    var candidates := Picked(hand, fit);
    if |fit| > 10 {
      at := KeepsFirsts(candidates);
    } else {
      at := seq(|fit|, k => k);
      forall k | 0 <= k < |fit| ensures k in at { assert at[k] == k; }
      assert Picked(candidates, at) == candidates;
    }
  }
}
