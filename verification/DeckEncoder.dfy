/** The encoder: writers that append to a stream, the grouping of owned cards, and the whole
    payload.  A database row is what `lookup` answers for a card instance. */
module DeckEncoder {
  import opened Bytes
  import opened Lists
  import opened Wrappers
  import opened EncodedDecks

  /** The stream every writer appends to. */
  class Buffer {
    var bytes: ByteString

    constructor ()
      ensures bytes == []
    {
      bytes := [];
    }

    method Write(more: ByteString)
      modifies this
      ensures bytes == old(bytes) + more
    {
      bytes := bytes + more;
    }
  }

  method WriteVarint(buf: Buffer, n: nat)
    modifies buf
    ensures buf.bytes == old(buf.bytes) + Varint(n)
  {
    var val := n;
    while val >= 128
      invariant buf.bytes + Varint(val) == old(buf.bytes) + Varint(n)
    {
      Associate(buf.bytes, [val % 128 + 128], Varint(val / 128));
      buf.Write([val % 128 + 128]);
      val := val / 128;
    }
    buf.Write([val]);
  }

  method WriteCString(buf: Buffer, text: ByteString)
    modifies buf
    ensures buf.bytes == old(buf.bytes) + CString(text)
  {
    WriteVarint(buf, |text|);
    buf.Write(text);
    Associate(old(buf.bytes), Varint(|text|), text);
  }

  method WriteGems(buf: Buffer, gems: seq<nat>)
    modifies buf
    ensures buf.bytes == old(buf.bytes) + GemList(gems)
  {
    WriteVarint(buf, |gems|);
    ghost var start := buf.bytes;
    assert gems[..|gems|] == gems;
    for i := 0 to |gems|
      invariant buf.bytes == start + Concat(gems[..i], Varint)
    {
      TakeNext(gems, i);
      ConcatOneMore(gems[..i], gems[i], Varint);
      Associate(start, Concat(gems[..i], Varint), Varint(gems[i]));
      WriteVarint(buf, gems[i]);
    }
    Associate(old(buf.bytes), Varint(|gems|), Concat(gems, Varint));
  }

  method WriteCard(buf: Buffer, c: Card)
    modifies buf
    ensures buf.bytes == old(buf.bytes) + CardBytes(c)
  {
    buf.Write(GuidBytes(c.guid));
    WriteVarint(buf, c.count);
    buf.Write(Flag(c.reserve));
    buf.Write(Flag(c.extended));
    buf.Write(Flag(c.foil));
    WriteGems(buf, c.gems);
    Appended6(old(buf.bytes), GuidBytes(c.guid), Varint(c.count), Flag(c.reserve), Flag(c.extended), Flag(c.foil), GemList(c.gems));
  }

  lemma Appended6(o: ByteString, a: ByteString, b: ByteString, c: ByteString, d: ByteString, e: ByteString, f: ByteString)
    ensures o + a + b + c + d + e + f == o + (a + b + c + d + e + f)
  {
    Regroup6(o, a, b, c, d, e, f);
    Regroup4(a, b, c, d, e + f);
    Associate(a + b + c + d, e, f);
  }

  method WriteTemplate(buf: Buffer, t: Template)
    modifies buf
    ensures buf.bytes == old(buf.bytes) + TemplateBytes(t)
  {
    WriteCString(buf, t.name);
    buf.Write(GuidBytes(t.champ));
    buf.Write(GuidBytes(t.sleeve));
    WriteVarint(buf, 0);
    WriteCards(buf, t.cards);
    WritePairs(buf, t.extended);
    Appended6(old(buf.bytes), CString(t.name), GuidBytes(t.champ), GuidBytes(t.sleeve), Varint(0),
              CardList(t.cards), PairList(t.extended));
  }

  method WriteCards(buf: Buffer, cards: seq<Card>)
    modifies buf
    ensures buf.bytes == old(buf.bytes) + CardList(cards)
  {
    WriteVarint(buf, |cards|);
    ghost var start := buf.bytes;
    assert cards[..|cards|] == cards;
    for i := 0 to |cards|
      invariant buf.bytes == start + Concat(cards[..i], CardBytes)
    {
      TakeNext(cards, i);
      ConcatOneMore(cards[..i], cards[i], CardBytes);
      Associate(start, Concat(cards[..i], CardBytes), CardBytes(cards[i]));
      WriteCard(buf, cards[i]);
    }
    Associate(old(buf.bytes), Varint(|cards|), Concat(cards, CardBytes));
  }

  method WritePairs(buf: Buffer, pairs: seq<Pair>)
    modifies buf
    ensures buf.bytes == old(buf.bytes) + PairList(pairs)
  {
    WriteVarint(buf, |pairs|);
    ghost var start := buf.bytes;
    assert pairs[..|pairs|] == pairs;
    for i := 0 to |pairs|
      invariant buf.bytes == start + Concat(pairs[..i], PairBytes)
    {
      TakeNext(pairs, i);
      ConcatOneMore(pairs[..i], pairs[i], PairBytes);
      Associate(start, Concat(pairs[..i], PairBytes), PairBytes(pairs[i]));
      ghost var mid := buf.bytes;
      WriteCString(buf, pairs[i].key);
      WriteCString(buf, pairs[i].value);
      Associate(mid, CString(pairs[i].key), CString(pairs[i].value));
    }
    Associate(old(buf.bytes), Varint(|pairs|), Concat(pairs, PairBytes));
  }

  method WriteTail(buf: Buffer, d: Deck)
    modifies buf
    ensures buf.bytes == old(buf.bytes) + TailBytes(d)
  {
    buf.Write(GuidBytes(d.gameboard));
    buf.Write(LittleEndian(d.id, 8));
    buf.Write(Unlocked());
    WriteCString(buf, d.coin);
    Appended4(old(buf.bytes), GuidBytes(d.gameboard), LittleEndian(d.id, 8), Unlocked(), CString(d.coin));
  }

  method WriteDeck(buf: Buffer, d: Deck)
    modifies buf
    ensures buf.bytes == old(buf.bytes) + DeckBytes(d)
  {
    var inner := new Buffer();
    WriteTemplate(inner, d.template);
    assert inner.bytes == TemplateBytes(d.template);
    buf.Write(Int32(|inner.bytes|));
    buf.Write(inner.bytes);
    WriteTail(buf, d);
    Framed(old(buf.bytes), Int32(|inner.bytes|), inner.bytes, TailBytes(d));
  }

  lemma Framed(o: ByteString, a: ByteString, b: ByteString, c: ByteString)
    ensures o + a + b + c == o + (a + b + c)
  {
  }

  method WriteGroup(buf: Buffer, g: Group)
    modifies buf
    ensures buf.bytes == old(buf.bytes) + GroupBytes(g)
  {
    buf.Write(GuidBytes(g.guid));
    buf.Write(Flag(g.extended));
    buf.Write(NoEscrow());
    buf.Write(Int32(|g.ids|));
    ghost var start := buf.bytes;
    var sorted := SortedIds(g.ids);
    WriteDeltas(buf, sorted);
    Regroup4(old(buf.bytes) + GuidBytes(g.guid), Flag(g.extended), NoEscrow(), Int32(|g.ids|), DeltaBytes(sorted, 0));
    Regroup4(GuidBytes(g.guid), Flag(g.extended), NoEscrow(), Int32(|g.ids|), DeltaBytes(sorted, 0));
    Associate(old(buf.bytes), GuidBytes(g.guid),
              Flag(g.extended) + (NoEscrow() + (Int32(|g.ids|) + DeltaBytes(sorted, 0))));
  }

  lemma DeltaFirst(ids: seq<nat>, i: nat, prev: nat, written: ByteString)
    requires i < |ids| && Ascending(ids[i..], prev)
    ensures prev <= ids[i] && Ascending(ids[i + 1..], ids[i])
    ensures
      written + DeltaBytes(ids[i..], prev) ==
      written + Varint(ids[i] - prev) + DeltaBytes(ids[i + 1..], ids[i])
  {
    assert ids[i..][1..] == ids[i + 1..] && ids[i..][0] == ids[i];
    DeltaOf(ids[i..], prev, written);
  }

  lemma DeltaOf(ids: seq<nat>, prev: nat, written: ByteString)
    requires ids != [] && Ascending(ids, prev)
    ensures
      written + DeltaBytes(ids, prev) == written + Varint(ids[0] - prev) + DeltaBytes(ids[1..], ids[0])
  {
    Associate(written, Varint(ids[0] - prev), DeltaBytes(ids[1..], ids[0]));
  }

  /** Each id is written as its distance from the previous one. */
  method WriteDeltas(buf: Buffer, ids: seq<nat>)
    requires Ascending(ids, 0)
    modifies buf
    ensures buf.bytes == old(buf.bytes) + DeltaBytes(ids, 0)
  {
    var prev := 0;
    assert ids[0..] == ids;
    for i := 0 to |ids|
      invariant Ascending(ids[i..], prev)
      invariant buf.bytes + DeltaBytes(ids[i..], prev) == old(buf.bytes) + DeltaBytes(ids, 0)
    {
      DeltaFirst(ids, i, prev, buf.bytes);
      WriteVarint(buf, ids[i] - prev);
      prev := ids[i];
    }
    assert ids[|ids|..] == [];
    Unit(buf.bytes);
  }

  // ------------------------------------------------------------ from stored decks to bytes

  /** What the card table says of an instance its owner still has. */
  datatype Owned = Owned(guid: Guid, extended: bool)

  datatype StoredDeck = StoredDeck(name: ByteString, champ: Guid, sleeve: Guid, gameboard: Guid, coin: ByteString,
                                   id: nat, cards: seq<nat>, gems: seq<nat>)

  type Lookup = nat -> Option<Owned>

  function ActiveGems(gems: seq<nat>): seq<nat> { Filter(gems, (g: nat) => g != 0) }

  /** The deck's cards that are still owned, one copy each, every one with the deck's gems. */
  function DeckCards(cards: seq<nat>, gems: seq<nat>, lookup: Lookup): seq<Card> {
    if cards == [] then [] else
      var n := |cards| - 1;
      DeckCards(cards[..n], gems, lookup) + NextCard(cards[n], gems, lookup)
  }

  function WireDeck(d: StoredDeck, lookup: Lookup): Deck {
    Deck(Template(d.name, d.champ, d.sleeve, DeckCards(d.cards, ActiveGems(d.gems), lookup), []), d.gameboard, d.id, d.coin)
  }

  /** The cards of a deck as a reader finds them: one copy of each owned card in the order of the deck,
      with what the card table says of it. */
  ghost predicate CardsOf(found: seq<Card>, cards: seq<nat>, gems: seq<nat>, lookup: Lookup, at: seq<nat>) {
    && ArePositions(at, |cards|) && (forall i :: 0 <= i < |cards| ==> (i in at <==> lookup(cards[i]).Some?))
    && |found| == |at|
    && forall k :: 0 <= k < |at| ==> IsCardOf(found[k], cards[at[k]], gems, lookup)
  }

  /** The gems that are set, in their order. */
  ghost predicate GemsOf(found: seq<nat>, gems: seq<nat>, at: seq<nat>) {
    && ArePositions(at, |gems|) && (forall i :: 0 <= i < |gems| ==> (i in at <==> gems[i] != 0))
    && found == Picked(gems, at)
  }

  /** A deck as a reader finds it: every field where it belongs. */
  ghost predicate Carries(found: Deck, d: StoredDeck, lookup: Lookup) {
    && found.template.name == d.name && found.template.champ == d.champ && found.template.sleeve == d.sleeve
    && found.template.extended == []
    && found.gameboard == d.gameboard && found.id == d.id && found.coin == d.coin
    && exists gems, inGems, inCards :: GemsOf(gems, d.gems, inGems) && CardsOf(found.template.cards, d.cards, gems, lookup, inCards)
  }

  predicate IsCardOf(found: Card, c: nat, gems: seq<nat>, lookup: Lookup) {
    && lookup(c).Some? && found.guid == lookup(c).value.guid && found.extended == lookup(c).value.extended
    && found.count == 1 && !found.reserve && !found.foil && found.gems == gems
  }

  function IsOwned(lookup: Lookup): nat -> bool { (c: nat) => lookup(c).Some? }

  lemma {:induction false} DeckCardsSelected(cards: seq<nat>, gems: seq<nat>, lookup: Lookup)
    ensures
      var owned, found := Filter(cards, IsOwned(lookup)), DeckCards(cards, gems, lookup);
      |found| == |owned| && forall k :: 0 <= k < |owned| ==> IsCardOf(found[k], owned[k], gems, lookup)
  {
    if cards != [] {
      DeckCardsSelected(cards[..|cards| - 1], gems, lookup);
    }
  }

  lemma DeckCardsFound(cards: seq<nat>, gems: seq<nat>, lookup: Lookup) returns (at: seq<nat>)
    ensures CardsOf(DeckCards(cards, gems, lookup), cards, gems, lookup, at)
  {
    DeckCardsSelected(cards, gems, lookup);
    at := FilterPositions(cards, IsOwned(lookup));
  }

  function NextCard(c: nat, gems: seq<nat>, lookup: Lookup): seq<Card> {
    match lookup(c)
    case None => []
    case Some(o) => [Card(o.guid, 1, false, o.extended, false, gems)]
  }

  lemma DeckCarried(d: StoredDeck, lookup: Lookup)
    ensures Carries(WireDeck(d, lookup), d, lookup)
  {
    var gems := ActiveGems(d.gems);
    var inGems := FilterPositions(d.gems, (g: nat) => g != 0);
    var inCards := DeckCardsFound(d.cards, gems, lookup);
    assert GemsOf(gems, d.gems, inGems) && CardsOf(WireDeck(d, lookup).template.cards, d.cards, gems, lookup, inCards);
  }

  function WireDecks(decks: seq<StoredDeck>, lookup: Lookup): (r: seq<Deck>)
    ensures |r| == |decks| && forall i :: 0 <= i < |r| ==> r[i] == WireDeck(decks[i], lookup)
  {
    if decks == [] then [] else WireDecks(decks[..|decks| - 1], lookup) + [WireDeck(decks[|decks| - 1], lookup)]
  }

  /** Entering an id in the insertion-ordered table of groups. */
  function Enter(groups: seq<Group>, o: Owned, id: nat): seq<Group> {
    if groups == [] then [Group(o.guid, o.extended, [id])]
    else if KeyIs(groups[0], o) then
      [groups[0].(ids := groups[0].ids + [id])] + groups[1..]
    else [groups[0]] + Enter(groups[1..], o, id)
  }

  function EnterAll(groups: seq<Group>, cards: seq<nat>, lookup: Lookup): seq<Group> {
    if cards == [] then groups else
      var n := |cards| - 1;
      var before := EnterAll(groups, cards[..n], lookup);
      match lookup(cards[n]) case None => before case Some(o) => Enter(before, o, cards[n])
  }

  function Grouped(decks: seq<StoredDeck>, lookup: Lookup): seq<Group> {
    if decks == [] then [] else EnterAll(Grouped(decks[..|decks| - 1], lookup), decks[|decks| - 1].cards, lookup)
  }

  /** The ids filed under a key. */
  function IdsOf(groups: seq<Group>, o: Owned): seq<nat> {
    if groups == [] then []
    else (if KeyIs(groups[0], o) then groups[0].ids else [])
         + IdsOf(groups[1..], o)
  }

  predicate KeyIs(g: Group, o: Owned) { g.guid == o.guid && g.extended == o.extended }

  predicate HasKey(groups: seq<Group>, o: Owned) {
    groups != [] && (KeyIs(groups[0], o) || HasKey(groups[1..], o))
  }

  /** No key twice, no group empty. */
  predicate WellKeyed(groups: seq<Group>) {
    groups == [] || (groups[0].ids != [] && !HasKey(groups[1..], Owned(groups[0].guid, groups[0].extended)) && WellKeyed(groups[1..]))
  }

  lemma {:induction false} NoKeyNoIds(groups: seq<Group>, o: Owned)
    requires !HasKey(groups, o)
    ensures IdsOf(groups, o) == []
  {
    if groups != [] { NoKeyNoIds(groups[1..], o); }
  }

  lemma {:induction false} EnterFiles(groups: seq<Group>, o: Owned, id: nat, key: Owned)
    requires WellKeyed(groups)
    ensures WellKeyed(Enter(groups, o, id))
    ensures HasKey(Enter(groups, o, id), key) ==> key == o || HasKey(groups, key)
    ensures IdsOf(Enter(groups, o, id), key) == IdsOf(groups, key) + (if key == o then [id] else [])
  {
    if groups != [] {
      var head, tail := groups[0], groups[1..];
      var own := Owned(head.guid, head.extended);
      KeyedFirst(head, tail, key);
      assert groups == [head] + tail;
      if KeyIs(head, o) {
        NoKeyNoIds(tail, o);
        KeyedFirst(head.(ids := head.ids + [id]), tail, key);
      } else {
        EnterFiles(tail, o, id, key);
        EnterFiles(tail, o, id, own);
        KeyedFirst(head, Enter(tail, o, id), key);
      }
    }
  }

  lemma KeyedFirst(head: Group, tail: seq<Group>, key: Owned)
    ensures
      WellKeyed([head] + tail) <==> head.ids != [] && !HasKey(tail, Owned(head.guid, head.extended)) && WellKeyed(tail)
    ensures HasKey([head] + tail, key) <==> KeyIs(head, key) || HasKey(tail, key)
    ensures IdsOf([head] + tail, key) == (if KeyIs(head, key) then head.ids else []) + IdsOf(tail, key)
  {
    assert ([head] + tail)[1..] == tail;
  }

  /** The instances of one kind among the cards, in order. */
  function CopiesIn(cards: seq<nat>, lookup: Lookup, key: Owned): seq<nat> {
    Filter(cards, (c: nat) => lookup(c) == Some(key))
  }

  function Copies(decks: seq<StoredDeck>, lookup: Lookup, key: Owned): seq<nat> {
    if decks == [] then [] else
      Copies(decks[..|decks| - 1], lookup, key) + CopiesIn(decks[|decks| - 1].cards, lookup, key)
  }

  lemma {:induction false} EnterAllFiles(groups: seq<Group>, cards: seq<nat>, lookup: Lookup, key: Owned)
    requires WellKeyed(groups)
    ensures WellKeyed(EnterAll(groups, cards, lookup))
    ensures IdsOf(EnterAll(groups, cards, lookup), key) == IdsOf(groups, key) + CopiesIn(cards, lookup, key)
  {
    if cards != [] {
      var n := |cards| - 1;
      EnterAllFiles(groups, cards[..n], lookup, key);
      match lookup(cards[n])
      case None =>
      case Some(o) => EnterFiles(EnterAll(groups, cards[..n], lookup), o, cards[n], key);
    }
  }

  /** Conservation: every owned card of every deck is in exactly the group of its kind. */
  lemma {:induction false} GroupsHoldAllCopies(decks: seq<StoredDeck>, lookup: Lookup, key: Owned)
    ensures WellKeyed(Grouped(decks, lookup))
    ensures IdsOf(Grouped(decks, lookup), key) == Copies(decks, lookup, key)
  {
    if decks != [] {
      GroupsHoldAllCopies(decks[..|decks| - 1], lookup, key);
      EnterAllFiles(Grouped(decks[..|decks| - 1], lookup), decks[|decks| - 1].cards, lookup, key);
    }
  }

  /** How many groups a key has. */
  function GroupCount(groups: seq<Group>, key: Owned): nat {
    if groups == [] then 0 else (if KeyIs(groups[0], key) then 1 else 0) + GroupCount(groups[1..], key)
  }

  lemma {:induction false} WellKeyedOnce(groups: seq<Group>, key: Owned)
    requires WellKeyed(groups)
    ensures GroupCount(groups, key) <= 1 && (!HasKey(groups, key) ==> GroupCount(groups, key) == 0)
  {
    if groups != [] {
      WellKeyedOnce(groups[1..], key);
    }
  }

  lemma {:induction false} FiledJoined(a: seq<Group>, b: seq<Group>, key: Owned)
    ensures IdsOf(a + b, key) == IdsOf(a, key) + IdsOf(b, key)
    ensures GroupCount(a + b, key) == GroupCount(a, key) + GroupCount(b, key)
  {
    if a == [] {
      Unit(b);
      Unit(IdsOf(b, key));
    } else {
      FiledJoined(a[1..], b, key);
      assert (a + b)[1..] == a[1..] + b;
      Associate(if KeyIs(a[0], key) then a[0].ids else [], IdsOf(a[1..], key), IdsOf(b, key));
    }
  }

  lemma IdsAround(a: seq<Group>, g: Group, c: seq<Group>, key: Owned)
    ensures multiset(IdsOf(a + [g] + c, key)) == multiset(IdsOf(a + c, key)) + multiset(IdsOf([g], key))
  {
    FiledJoined(a + [g], c, key);
    FiledJoined(a, [g], key);
    FiledJoined(a, c, key);
  }

  lemma CountAround(a: seq<Group>, g: Group, c: seq<Group>, key: Owned)
    ensures GroupCount(a + [g] + c, key) == GroupCount(a + c, key) + GroupCount([g], key)
  {
    FiledJoined(a + [g], c, key);
    FiledJoined(a, [g], key);
    FiledJoined(a, c, key);
  }

  /** Reordering the groups moves no id to another key. */
  lemma {:induction false} RearrangedFiles(a: seq<Group>, b: seq<Group>, key: Owned)
    requires multiset(a) == multiset(b)
    ensures multiset(IdsOf(a, key)) == multiset(IdsOf(b, key)) && GroupCount(a, key) == GroupCount(b, key)
    decreases |a|
  {
    if a == [] {
      assert |multiset(b)| == 0;
    } else {
      var front, back := MatchFirst(a, b);
      RearrangedFiles(a[1..], front + back, key);
      FiledFirst(a, key);
      IdsAround(front, a[0], back, key);
      CountAround(front, a[0], back, key);
    }
  }

  lemma FiledFirst(a: seq<Group>, key: Owned)
    requires a != []
    ensures multiset(IdsOf(a, key)) == multiset(IdsOf([a[0]], key)) + multiset(IdsOf(a[1..], key))
    ensures GroupCount(a, key) == GroupCount([a[0]], key) + GroupCount(a[1..], key)
  {
    assert a == [a[0]] + a[1..];
    FiledJoined([a[0]], a[1..], key);
  }

  lemma CanonicalSplits(groups: seq<Group>)
    requires groups != []
    ensures CanonicalGroups(groups)[0] == Canonical(groups[0]) && CanonicalGroups(groups)[1..] == CanonicalGroups(groups[1..])
  {
  }

  lemma FiledAlike(a: seq<Group>, b: seq<Group>, key: Owned)
    requires a != [] && b != [] && a[0] == Canonical(b[0])
    requires multiset(IdsOf(a[1..], key)) == multiset(IdsOf(b[1..], key)) && GroupCount(a[1..], key) == GroupCount(b[1..], key)
    ensures multiset(IdsOf(a, key)) == multiset(IdsOf(b, key)) && GroupCount(a, key) == GroupCount(b, key)
  {
  }

  lemma {:induction false} CanonicalFiles(groups: seq<Group>, key: Owned)
    ensures multiset(IdsOf(CanonicalGroups(groups), key)) == multiset(IdsOf(groups, key))
    ensures GroupCount(CanonicalGroups(groups), key) == GroupCount(groups, key)
  {
    if groups != [] {
      CanonicalFiles(groups[1..], key);
      CanonicalSplits(groups);
      FiledAlike(CanonicalGroups(groups), groups, key);
    }
  }

  /** A kind has at most one group, which holds exactly its owned copies. */
  predicate HoldsCopies(groups: seq<Group>, decks: seq<StoredDeck>, lookup: Lookup, key: Owned) {
    GroupCount(groups, key) <= 1 && multiset(IdsOf(groups, key)) == multiset(Copies(decks, lookup, key))
  }

  lemma StoredGroupsHoldAllCopies(decks: seq<StoredDeck>, lookup: Lookup, keyOrder: (Group, Group) -> bool, key: Owned)
    ensures HoldsCopies(CanonicalGroups(Sort(Grouped(decks, lookup), keyOrder)), decks, lookup, key)
  {
    var groups := Grouped(decks, lookup);
    GroupsHoldAllCopies(decks, lookup, key);
    WellKeyedOnce(groups, key);
    RearrangedFiles(Sort(groups, keyOrder), groups, key);
    CanonicalFiles(Sort(groups, keyOrder), key);
  }

  /** What the payload holds: the decks in order, the groups in the order of their keys. */
  function Stored(decks: seq<StoredDeck>, lookup: Lookup, keyOrder: (Group, Group) -> bool): Payload {
    Payload(WireDecks(decks, lookup), Sort(Grouped(decks, lookup), keyOrder))
  }

  /** The whole payload. Decoding it gives back every deck, and for each kind of card one group
      with exactly the owned copies, sorted. */
  method EncodeEncodedDecks(decks: seq<StoredDeck>, lookup: Lookup, keyOrder: (Group, Group) -> bool) returns (out: ByteString)
    requires Fits(Stored(decks, lookup, keyOrder))
    ensures out == PayloadBytes(Stored(decks, lookup, keyOrder))
    ensures Decode(out) == Some(Payload(WireDecks(decks, lookup), CanonicalGroups(Sort(Grouped(decks, lookup), keyOrder))))
    ensures forall key :: HoldsCopies(Decode(out).value.groups, decks, lookup, key)
    ensures TotalPreorder(keyOrder) ==> SortedBy(Stored(decks, lookup, keyOrder).groups, keyOrder)
    ensures var found := Decode(out).value.decks; |found| == |decks| && forall i :: 0 <= i < |decks| ==> Carries(found[i], decks[i], lookup)
  {
    if TotalPreorder(keyOrder) {
      SortSorted(Grouped(decks, lookup), keyOrder);
    }
    forall i | 0 <= i < |decks| ensures Carries(WireDeck(decks[i], lookup), decks[i], lookup) {
      DeckCarried(decks[i], lookup);
    }
    forall key ensures HoldsCopies(CanonicalGroups(Sort(Grouped(decks, lookup), keyOrder)), decks, lookup, key) {
      StoredGroupsHoldAllCopies(decks, lookup, keyOrder, key);
    }
    var entries, groups := CollectDecks(decks, lookup);
    var buf := new Buffer();
    WritePayload(buf, Payload(entries, Sort(groups, keyOrder)));
    out := buf.bytes;
    assert [] + out == out;
    DecodeEncode(Stored(decks, lookup, keyOrder));
  }

  method WritePayload(buf: Buffer, p: Payload)
    modifies buf
    ensures buf.bytes == old(buf.bytes) + PayloadBytes(p)
  {
    buf.Write(Int32(1));
    WriteDecks(buf, p.decks);
    WriteGroups(buf, p.groups);
    Framed(old(buf.bytes), Int32(1), DeckList(p.decks), GroupList(p.groups));
  }

  method CollectDecks(decks: seq<StoredDeck>, lookup: Lookup) returns (entries: seq<Deck>, groups: seq<Group>)
    ensures entries == WireDecks(decks, lookup) && groups == Grouped(decks, lookup)
  {
    entries, groups := [], [];
    assert decks[..|decks|] == decks;
    for i := 0 to |decks|
      invariant groups == Grouped(decks[..i], lookup) && entries == WireDecks(decks[..i], lookup)
    {
      assert decks[..i + 1][..i] == decks[..i];
      var d := decks[i];
      var gems := ActiveGems(d.gems);
      var cards: seq<Card>;
      cards, groups := CollectCards(d.cards, gems, lookup, groups);
      entries := entries + [Deck(Template(d.name, d.champ, d.sleeve, cards, []), d.gameboard, d.id, d.coin)];
    }
  }

  method CollectCards(ids: seq<nat>, gems: seq<nat>, lookup: Lookup, before: seq<Group>) returns (cards: seq<Card>, groups: seq<Group>)
    ensures cards == DeckCards(ids, gems, lookup) && groups == EnterAll(before, ids, lookup)
  {
    cards, groups := [], before;
    assert ids[..|ids|] == ids;
    for i := 0 to |ids|
      invariant cards == DeckCards(ids[..i], gems, lookup) && groups == EnterAll(before, ids[..i], lookup)
    {
      assert ids[..i + 1][..i] == ids[..i];
      match lookup(ids[i])
      case None =>
      case Some(o) =>
        cards := cards + [Card(o.guid, 1, false, o.extended, false, gems)];
        groups := Enter(groups, o, ids[i]);
    }
  }

  method WriteDecks(buf: Buffer, decks: seq<Deck>)
    modifies buf
    ensures buf.bytes == old(buf.bytes) + DeckList(decks)
  {
    buf.Write(Int32(|decks|));
    ghost var start := buf.bytes;
    assert decks[..|decks|] == decks;
    for i := 0 to |decks|
      invariant buf.bytes == start + Concat(decks[..i], DeckBytes)
    {
      TakeNext(decks, i);
      ConcatOneMore(decks[..i], decks[i], DeckBytes);
      Associate(start, Concat(decks[..i], DeckBytes), DeckBytes(decks[i]));
      WriteDeck(buf, decks[i]);
    }
    Associate(old(buf.bytes), Int32(|decks|), Concat(decks, DeckBytes));
  }

  method WriteGroups(buf: Buffer, groups: seq<Group>)
    modifies buf
    ensures buf.bytes == old(buf.bytes) + GroupList(groups)
  {
    buf.Write(Int32(|groups|));
    ghost var start := buf.bytes;
    assert groups[..|groups|] == groups;
    for i := 0 to |groups|
      invariant buf.bytes == start + Concat(groups[..i], GroupBytes)
    {
      TakeNext(groups, i);
      ConcatOneMore(groups[..i], groups[i], GroupBytes);
      Associate(start, Concat(groups[..i], GroupBytes), GroupBytes(groups[i]));
      WriteGroup(buf, groups[i]);
    }
    Associate(old(buf.bytes), Int32(|groups|), Concat(groups, GroupBytes));
  }
}
