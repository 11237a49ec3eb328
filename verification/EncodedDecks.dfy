/** The EncodedDecks payload: the bytes the encoder writes for decks and card groups, and a
    reader that recovers both. */
module EncodedDecks {
  import opened Bytes
  import opened Lists
  import opened Wrappers

  // ------------------------------------------------------------------ building blocks

  /** Unsigned LEB128 (section 7.6 of DWARF 5). */
  function Varint(n: nat): ByteString {
    if n < 128 then [n] else [n % 128 + 128] + Varint(n / 128)
  }

  function ReadVarint(s: ByteString): (r: Option<(nat, ByteString)>)
    ensures r.Some? ==> |r.value.1| < |s|
  {
    if s == [] then None
    else if s[0] < 128 then Some((s[0], s[1..]))
    else
      var (high, rest) :- ReadVarint(s[1..]);
      Some((128 * high + (s[0] - 128), rest))
  }

  lemma {:induction false} VarintRoundTrip(n: nat, rest: ByteString)
    ensures ReadVarint(Varint(n) + rest) == Some((n, rest))
  {
    var s := Varint(n) + rest;
    if n >= 128 {
      assert s[1..] == Varint(n / 128) + rest;
      VarintRoundTrip(n / 128, rest);
    } else {
      assert s[1..] == rest;
    }
  }

  /** A .NET string: its length in bytes as a varint, then the bytes. */
  function CString(text: ByteString): ByteString { Varint(|text|) + text }

  function ReadCString(s: ByteString): Option<(ByteString, ByteString)> {
    var (length, rest) :- ReadVarint(s);
    Take(rest, length)
  }

  lemma CStringRoundTrip(text: ByteString, rest: ByteString)
    ensures ReadCString(CString(text) + rest) == Some((text, rest))
  {
    assert CString(text) + rest == Varint(|text|) + (text + rest);
    VarintRoundTrip(|text|, text + rest);
  }

  function Int32(n: nat): ByteString { LittleEndian(n, 4) }

  function ReadLittle(s: ByteString, width: nat): Option<(nat, ByteString)> {
    var (field, rest) :- Take(s, width);
    Some((FromLittleEndian(field), rest))
  }

  lemma LittleReads(n: nat, width: nat, rest: ByteString)
    requires n < Pow256(width)
    ensures ReadLittle(LittleEndian(n, width) + rest, width) == Some((n, rest))
  {
    LittleEndianRoundTrip(n, width);
    TakeOf(LittleEndian(n, width), rest);
  }

  function Flag(b: bool): ByteString { [if b then 1 else 0] }

  function ReadFlag(s: ByteString): Option<(bool, ByteString)> {
    if s == [] || s[0] > 1 then None else Some((s[0] == 1, s[1..]))
  }

  lemma FlagReads(b: bool, rest: ByteString)
    ensures ReadFlag(Flag(b) + rest) == Some((b, rest))
  {
  }

  // ------------------------------------------------------------------------- GUIDs

  type Guid = g: ByteString | |g| == 16 witness seq(16, _ => 0)

  /** The mixed-endian layout of .NET: the first three fields of section 4.1.2 of RFC 4122
      little-endian, the last eight bytes as they stand. */
  function GuidBytes(g: Guid): (r: Guid) {
    LittleEndian(FromBigEndian(g[0..4]), 4) + LittleEndian(FromBigEndian(g[4..6]), 2)
    + LittleEndian(FromBigEndian(g[6..8]), 2) + g[8..16]
  }

  function Reverse(s: ByteString): (r: ByteString)
    ensures |r| == |s| && forall i :: 0 <= i < |s| ==> r[i] == s[|s| - 1 - i]
  {
    if s == [] then [] else [s[|s| - 1]] + Reverse(s[..|s| - 1])
  }

  lemma {:induction false} SwapEndian(s: ByteString)
    ensures LittleEndian(FromBigEndian(s), |s|) == Reverse(s)
  {
    if s != [] { SwapEndian(s[..|s| - 1]); }
  }

  lemma ReverseTwice(s: ByteString)
    ensures Reverse(Reverse(s)) == s
  {
  }

  lemma GuidReversed(g: Guid)
    ensures GuidBytes(g) == Reverse(g[0..4]) + Reverse(g[4..6]) + Reverse(g[6..8]) + g[8..16]
  {
    SwapEndian(g[0..4]);
    SwapEndian(g[4..6]);
    SwapEndian(g[6..8]);
  }

  /** The shuffle reverses three fields, so it undoes itself. */
  lemma GuidInvolution(g: Guid)
    ensures GuidBytes(GuidBytes(g)) == g
  {
    GuidReversed(g);
    GuidReversed(GuidBytes(g));
    GuidFields(Reverse(g[0..4]), Reverse(g[4..6]), Reverse(g[6..8]), g[8..16]);
    ReverseTwice(g[0..4]);
    ReverseTwice(g[4..6]);
    ReverseTwice(g[6..8]);
    GuidRecomposed(g);
  }

  lemma GuidRecomposed(g: ByteString)
    requires |g| == 16
    ensures g[0..4] + g[4..6] + g[6..8] + g[8..16] == g
  {
    assert g[0..4] + g[4..6] == g[0..6];
    assert g[0..6] + g[6..8] == g[0..8];
    assert g[0..8] + g[8..16] == g;
  }

  lemma GuidFields(a: ByteString, b: ByteString, c: ByteString, d: ByteString)
    requires |a| == 4 && |b| == 2 && |c| == 2 && |d| == 8
    ensures var m := a + b + c + d; m[0..4] == a && m[4..6] == b && m[6..8] == c && m[8..16] == d
  {
  }

  function ReadGuid(s: ByteString): Option<(Guid, ByteString)> {
    var (field, rest) :- Take(s, 16);
    Some((GuidBytes(field), rest))
  }

  lemma GuidReads(g: Guid, rest: ByteString)
    ensures ReadGuid(GuidBytes(g) + rest) == Some((g, rest))
  {
    TakeOf(GuidBytes(g), rest);
    GuidInvolution(g);
  }

  // ------------------------------------------------------------------------- lists

  type Writer<!T> = T -> ByteString
  type Reader<T> = ByteString -> Option<(T, ByteString)>

  function Concat<T>(xs: seq<T>, write: Writer<T>): ByteString {
    if xs == [] then [] else write(xs[0]) + Concat(xs[1..], write)
  }

  function ReadMany<T>(s: ByteString, n: nat, read: Reader<T>): Option<(seq<T>, ByteString)>
    decreases n
  {
    if n == 0 then Some(([], s))
    else
      var (x, s1) :- read(s);
      var (xs, rest) :- ReadMany(s1, n - 1, read);
      Some(([x] + xs, rest))
  }

  /** Whatever follows, `read` recovers what `write` wrote: the encoding is a prefix code. */
  ghost predicate Inverts<T(!new)>(write: Writer<T>, read: Reader<T>, ok: T -> bool) {
    forall x, rest :: ok(x) ==> read(write(x) + rest) == Some((x, rest))
  }

  lemma {:induction false} ManyRead<T(!new)>(xs: seq<T>, write: Writer<T>, read: Reader<T>, ok: T -> bool, rest: ByteString)
    requires Inverts(write, read, ok) && forall x :: x in xs ==> ok(x)
    ensures ReadMany(Concat(xs, write) + rest, |xs|, read) == Some((xs, rest))
  {
    if xs == [] {
      assert Concat(xs, write) + rest == rest;
    } else {
      assert Concat(xs, write) + rest == write(xs[0]) + (Concat(xs[1..], write) + rest);
      ManyRead(xs[1..], write, read, ok, rest);
      assert [xs[0]] + xs[1..] == xs;
    }
  }

  lemma {:induction false} ConcatOneMore<T>(xs: seq<T>, x: T, write: Writer<T>)
    ensures Concat(xs + [x], write) == Concat(xs, write) + write(x)
  {
    if xs == [] {
      assert Concat([x], write) == write(x) + Concat([], write);
      assert [] + [x] == [x];
    } else {
      assert (xs + [x])[1..] == xs[1..] + [x];
      ConcatOneMore(xs[1..], x, write);
    }
  }

  // --------------------------------------------------------------------- deck templates

  datatype Card = Card(guid: Guid, count: nat, reserve: bool, extended: bool, foil: bool, gems: seq<nat>)

  function GemList(gems: seq<nat>): ByteString { Varint(|gems|) + Concat(gems, Varint) }

  function CardBytes(c: Card): ByteString {
    GuidBytes(c.guid) + Varint(c.count) + Flag(c.reserve) + Flag(c.extended) + Flag(c.foil) + GemList(c.gems)
  }

  function ReadGems(s: ByteString): Option<(seq<nat>, ByteString)> {
    var (n, s1) :- ReadVarint(s);
    ReadMany(s1, n, ReadVarint)
  }

  function ReadCard(s: ByteString): Option<(Card, ByteString)> {
    var (guid, s1) :- ReadGuid(s);
    var (count, s2) :- ReadVarint(s1);
    var (reserve, s3) :- ReadFlag(s2);
    var (extended, s4) :- ReadFlag(s3);
    var (foil, s5) :- ReadFlag(s4);
    var (gems, rest) :- ReadGems(s5);
    Some((Card(guid, count, reserve, extended, foil, gems), rest))
  }

  lemma GemsRead(gems: seq<nat>, rest: ByteString)
    ensures ReadGems(GemList(gems) + rest) == Some((gems, rest))
  {
    assert GemList(gems) + rest == Varint(|gems|) + (Concat(gems, Varint) + rest);
    VarintRoundTrip(|gems|, Concat(gems, Varint) + rest);
    VarintsInvert();
    ManyRead(gems, Varint, ReadVarint, (n: nat) => true, rest);
  }

  lemma CardReads(c: Card, rest: ByteString)
    ensures ReadCard(CardBytes(c) + rest) == Some((c, rest))
  {
    var s5 := GemList(c.gems) + rest;
    var s4 := Flag(c.foil) + s5;
    var s3 := Flag(c.extended) + s4;
    var s2 := Flag(c.reserve) + s3;
    var s1 := Varint(c.count) + s2;
    Regroup6(GuidBytes(c.guid), Varint(c.count), Flag(c.reserve), Flag(c.extended), Flag(c.foil), GemList(c.gems), rest);
    GuidReads(c.guid, s1);
    VarintRoundTrip(c.count, s2);
    FlagReads(c.reserve, s3);
    FlagReads(c.extended, s4);
    FlagReads(c.foil, s5);
    GemsRead(c.gems, rest);
  }

  lemma VarintsInvert()
    ensures Inverts(Varint, ReadVarint, (n: nat) => true)
  {
    forall n: nat, rest ensures ReadVarint(Varint(n) + rest) == Some((n, rest)) { VarintRoundTrip(n, rest); }
  }

  datatype Pair = Pair(key: ByteString, value: ByteString)

  function PairBytes(p: Pair): ByteString { CString(p.key) + CString(p.value) }

  function ReadPair(s: ByteString): Option<(Pair, ByteString)> {
    var (key, s1) :- ReadCString(s);
    var (value, rest) :- ReadCString(s1);
    Some((Pair(key, value), rest))
  }

  lemma PairReads(p: Pair, rest: ByteString)
    ensures ReadPair(PairBytes(p) + rest) == Some((p, rest))
  {
    assert PairBytes(p) + rest == CString(p.key) + (CString(p.value) + rest);
    CStringRoundTrip(p.key, CString(p.value) + rest);
    CStringRoundTrip(p.value, rest);
  }

  datatype Template = Template(name: ByteString, champ: Guid, sleeve: Guid, cards: seq<Card>, extended: seq<Pair>)

  function CardList(cards: seq<Card>): ByteString { Varint(|cards|) + Concat(cards, CardBytes) }

  function PairList(pairs: seq<Pair>): ByteString { Varint(|pairs|) + Concat(pairs, PairBytes) }

  /** ProfileDeckTemplate; the second count is that of equipment, always none. */
  function TemplateBytes(t: Template): ByteString {
    CString(t.name) + GuidBytes(t.champ) + GuidBytes(t.sleeve) + Varint(0) + CardList(t.cards) + PairList(t.extended)
  }

  function ReadTemplate(s: ByteString): Option<(Template, ByteString)> {
    var (name, s1) :- ReadCString(s);
    var (champ, s2) :- ReadGuid(s1);
    var (sleeve, s3) :- ReadGuid(s2);
    var (equipment, s4) :- ReadVarint(s3);
    var (n, s5) :- ReadVarint(s4);
    var (cards, s6) :- ReadMany(s5, n, ReadCard);
    var (m, s7) :- ReadVarint(s6);
    var (extended, rest) :- ReadMany(s7, m, ReadPair);
    if equipment == 0 then Some((Template(name, champ, sleeve, cards, extended), rest)) else None
  }

  lemma CardListReads(cards: seq<Card>, rest: ByteString)
    ensures CardList(cards) + rest == Varint(|cards|) + (Concat(cards, CardBytes) + rest)
    ensures ReadVarint(CardList(cards) + rest) == Some((|cards|, Concat(cards, CardBytes) + rest))
    ensures ReadMany(Concat(cards, CardBytes) + rest, |cards|, ReadCard) == Some((cards, rest))
  {
    forall c: Card, r ensures ReadCard(CardBytes(c) + r) == Some((c, r)) { CardReads(c, r); }
    VarintRoundTrip(|cards|, Concat(cards, CardBytes) + rest);
    ManyRead(cards, CardBytes, ReadCard, (c: Card) => true, rest);
  }

  lemma PairListReads(pairs: seq<Pair>, rest: ByteString)
    ensures ReadVarint(PairList(pairs) + rest) == Some((|pairs|, Concat(pairs, PairBytes) + rest))
    ensures ReadMany(Concat(pairs, PairBytes) + rest, |pairs|, ReadPair) == Some((pairs, rest))
  {
    forall p: Pair, r ensures ReadPair(PairBytes(p) + r) == Some((p, r)) { PairReads(p, r); }
    assert PairList(pairs) + rest == Varint(|pairs|) + (Concat(pairs, PairBytes) + rest);
    VarintRoundTrip(|pairs|, Concat(pairs, PairBytes) + rest);
    ManyRead(pairs, PairBytes, ReadPair, (p: Pair) => true, rest);
  }

  lemma TemplateReads(t: Template, rest: ByteString)
    ensures ReadTemplate(TemplateBytes(t) + rest) == Some((t, rest))
  {
    var s6 := PairList(t.extended) + rest;
    var s4 := CardList(t.cards) + s6;
    var s3 := Varint(0) + s4;
    var s2 := GuidBytes(t.sleeve) + s3;
    var s1 := GuidBytes(t.champ) + s2;
    Regroup6(CString(t.name), GuidBytes(t.champ), GuidBytes(t.sleeve), Varint(0), CardList(t.cards), PairList(t.extended), rest);
    CStringRoundTrip(t.name, s1);
    GuidReads(t.champ, s2);
    GuidReads(t.sleeve, s3);
    VarintRoundTrip(0, s4);
    CardListReads(t.cards, s6);
    PairListReads(t.extended, rest);
  }

  // ------------------------------------------------------------------------------ decks

  datatype Deck = Deck(template: Template, gameboard: Guid, id: nat, coin: ByteString)

  const Int32Limit: nat := 0x8000_0000

  predicate DeckFits(d: Deck) {
    |TemplateBytes(d.template)| < Int32Limit && d.id < Pow256(8)
  }

  /** The fixed fields between id and coin: lock, lock holder, PvE champion, personality. */
  function Unlocked(): ByteString { Int32(0) + Varint(0) + Varint(0) + Varint(0) }

  /** What follows the template: gameboard, id, fixed fields, coin. */
  function TailBytes(d: Deck): ByteString {
    GuidBytes(d.gameboard) + LittleEndian(d.id, 8) + Unlocked() + CString(d.coin)
  }

  /** The template is framed by its length. */
  function DeckBytes(d: Deck): ByteString {
    Int32(|TemplateBytes(d.template)|) + TemplateBytes(d.template) + TailBytes(d)
  }

  function ReadTail(s: ByteString, template: Template): Option<(Deck, ByteString)> {
    var (gameboard, s3) :- ReadGuid(s);
    var (id, s4) :- ReadLittle(s3, 8);
    var (fixed, s5) :- Take(s4, |Unlocked()|);
    var (coin, rest) :- ReadCString(s5);
    if fixed == Unlocked() then Some((Deck(template, gameboard, id, coin), rest)) else None
  }

  function ReadDeck(s: ByteString): Option<(Deck, ByteString)> {
    var (length, s1) :- ReadLittle(s, 4);
    var (bytes, s2) :- Take(s1, length);
    var (template, left) :- ReadTemplate(bytes);
    if left == [] then ReadTail(s2, template) else None
  }

  lemma Int32Fits(n: nat)
    requires n < Int32Limit
    ensures n < Pow256(4)
  {
    assert Pow256(4) == 256 * (256 * (256 * (256 * Pow256(0))));
  }

  lemma FramedTemplateReads(template: Template, rest: ByteString)
    requires |TemplateBytes(template)| < Int32Limit
    ensures
      var t := TemplateBytes(template);
      && ReadLittle(Int32(|t|) + (t + rest), 4) == Some((|t|, t + rest))
      && Take(t + rest, |t|) == Some((t, rest))
      && ReadTemplate(t) == Some((template, []))
  {
    var t := TemplateBytes(template);
    Int32Fits(|t|);
    LittleReads(|t|, 4, t + rest);
    TakeOf(t, rest);
    TemplateReads(template, []);
    assert t + [] == t;
  }

  lemma TailReads(d: Deck, rest: ByteString)
    requires DeckFits(d)
    ensures ReadTail(TailBytes(d) + rest, d.template) == Some((d, rest))
  {
    var s5 := CString(d.coin) + rest;
    var s4 := Unlocked() + s5;
    var s3 := LittleEndian(d.id, 8) + s4;
    Regroup4(GuidBytes(d.gameboard), LittleEndian(d.id, 8), Unlocked(), CString(d.coin), rest);
    GuidReads(d.gameboard, s3);
    LittleReads(d.id, 8, s4);
    TakeOf(Unlocked(), s5);
    CStringRoundTrip(d.coin, rest);
  }

  lemma DeckReads(d: Deck, rest: ByteString)
    requires DeckFits(d)
    ensures ReadDeck(DeckBytes(d) + rest) == Some((d, rest))
  {
    var t := TemplateBytes(d.template);
    Associate(Int32(|t|) + t, TailBytes(d), rest);
    Associate(Int32(|t|), t, TailBytes(d) + rest);
    FramedTemplateReads(d.template, TailBytes(d) + rest);
    TailReads(d, rest);
  }

  // ------------------------------------------------------------------------ card groups

  /** The owned copies of one card: template, extended-art flag, instance ids. */
  datatype Group = Group(guid: Guid, extended: bool, ids: seq<nat>)

  predicate AtMost(x: nat, y: nat) { x <= y }

  predicate Ascending(ids: seq<nat>, prev: nat) {
    ids == [] || (prev <= ids[0] && Ascending(ids[1..], ids[0]))
  }

  function DeltaBytes(ids: seq<nat>, prev: nat): ByteString
    requires Ascending(ids, prev)
  {
    if ids == [] then [] else Varint(ids[0] - prev) + DeltaBytes(ids[1..], ids[0])
  }

  function ReadDeltas(s: ByteString, n: nat, prev: nat): Option<(seq<nat>, ByteString)>
    decreases n
  {
    if n == 0 then Some(([], s))
    else
      var (delta, s1) :- ReadVarint(s);
      var (ids, rest) :- ReadDeltas(s1, n - 1, prev + delta);
      Some(([prev + delta] + ids, rest))
  }

  lemma DeltaStep(delta: nat, n: nat, prev: nat, s: ByteString, ids: seq<nat>, rest: ByteString)
    requires ReadDeltas(s, n, prev + delta) == Some((ids, rest))
    ensures ReadDeltas(Varint(delta) + s, n + 1, prev) == Some(([prev + delta] + ids, rest))
  {
    VarintRoundTrip(delta, s);
  }

  lemma {:induction false} DeltasRead(ids: seq<nat>, prev: nat, rest: ByteString)
    requires Ascending(ids, prev)
    ensures ReadDeltas(DeltaBytes(ids, prev) + rest, |ids|, prev) == Some((ids, rest))
  {
    if ids == [] {
      assert DeltaBytes(ids, prev) + rest == rest;
    } else {
      var tail := DeltaBytes(ids[1..], ids[0]) + rest;
      Associate(Varint(ids[0] - prev), DeltaBytes(ids[1..], ids[0]), rest);
      assert [ids[0]] + ids[1..] == ids;
      DeltasRead(ids[1..], ids[0], rest);
      DeltaStep(ids[0] - prev, |ids| - 1, prev, tail, ids[1..], rest);
    }
  }

  lemma {:induction false} SortedAscends(ids: seq<nat>, prev: nat)
    requires SortedBy(ids, AtMost) && (ids == [] || prev <= ids[0])
    ensures Ascending(ids, prev)
  {
    if |ids| > 1 {
      assert AtMost(ids[0], ids[1]);
      SortedAscends(ids[1..], ids[0]);
    }
  }

  function SortedIds(ids: seq<nat>): (r: seq<nat>)
    ensures multiset(r) == multiset(ids) && |r| == |ids| && Ascending(r, 0)
  {
    SortSorted(ids, AtMost);
    SameMembers(ids, Sort(ids, AtMost));
    SortedAscends(Sort(ids, AtMost), 0);
    Sort(ids, AtMost)
  }

  const Escrow: ByteString := [78, 79, 78, 69]

  /** The fixed fields after the extended flag: escrow `NONE` with its length, and NoTrade. */
  function NoEscrow(): ByteString { Int32(4) + Escrow + [0] }

  predicate GroupFits(g: Group) { |g.ids| < Int32Limit }

  function GroupBytes(g: Group): ByteString {
    GuidBytes(g.guid) + Flag(g.extended) + NoEscrow() + Int32(|g.ids|) + DeltaBytes(SortedIds(g.ids), 0)
  }

  function ReadGroup(s: ByteString): Option<(Group, ByteString)> {
    var (guid, s1) :- ReadGuid(s);
    var (extended, s2) :- ReadFlag(s1);
    var (fixed, s3) :- Take(s2, |NoEscrow()|);
    var (n, s4) :- ReadLittle(s3, 4);
    var (ids, rest) :- ReadDeltas(s4, n, 0);
    if fixed == NoEscrow() then Some((Group(guid, extended, ids), rest)) else None
  }

  /** What a reader sees of a group: the same ids, in ascending order. */
  function Canonical(g: Group): (r: Group)
    ensures multiset(r.ids) == multiset(g.ids)
  {
    g.(ids := SortedIds(g.ids))
  }

  lemma GroupReads(g: Group, rest: ByteString)
    requires GroupFits(g)
    ensures ReadGroup(GroupBytes(g) + rest) == Some((Canonical(g), rest))
  {
    var ids := SortedIds(g.ids);
    var s4 := DeltaBytes(ids, 0) + rest;
    var s3 := Int32(|g.ids|) + s4;
    var s2 := NoEscrow() + s3;
    var s1 := Flag(g.extended) + s2;
    assert GroupBytes(g) + rest == GuidBytes(g.guid) + s1;
    GuidReads(g.guid, s1);
    FlagReads(g.extended, s2);
    TakeOf(NoEscrow(), s3);
    Int32Fits(|g.ids|);
    LittleReads(|g.ids|, 4, s4);
    DeltasRead(ids, 0, rest);
  }

  // ------------------------------------------------------------------------ the payload

  datatype Payload = Payload(decks: seq<Deck>, groups: seq<Group>)

  predicate Fits(p: Payload) {
    && |p.decks| < Int32Limit && |p.groups| < Int32Limit
    && (forall d :: d in p.decks ==> DeckFits(d))
    && (forall g :: g in p.groups ==> GroupFits(g))
  }

  function DeckList(decks: seq<Deck>): ByteString { Int32(|decks|) + Concat(decks, DeckBytes) }

  function GroupList(groups: seq<Group>): ByteString { Int32(|groups|) + Concat(groups, GroupBytes) }

  /** Version 1, the decks, the groups. */
  function PayloadBytes(p: Payload): ByteString { Int32(1) + DeckList(p.decks) + GroupList(p.groups) }

  function ReadList<T>(s: ByteString, read: Reader<T>): Option<(seq<T>, ByteString)> {
    var (n, s1) :- ReadLittle(s, 4);
    ReadMany(s1, n, read)
  }

  function Decode(s: ByteString): Option<Payload> {
    var (version, s1) :- ReadLittle(s, 4);
    var (decks, s2) :- ReadList(s1, ReadDeck);
    var (groups, rest) :- ReadList(s2, ReadGroup);
    if version == 1 && rest == [] then Some(Payload(decks, groups)) else None
  }

  function CanonicalGroups(groups: seq<Group>): (r: seq<Group>)
    ensures |r| == |groups| && forall i :: 0 <= i < |groups| ==> r[i] == Canonical(groups[i])
  {
    if groups == [] then [] else [Canonical(groups[0])] + CanonicalGroups(groups[1..])
  }

  lemma {:induction false} GroupsRead(groups: seq<Group>, rest: ByteString)
    requires forall g :: g in groups ==> GroupFits(g)
    ensures ReadMany(Concat(groups, GroupBytes) + rest, |groups|, ReadGroup) == Some((CanonicalGroups(groups), rest))
  {
    if groups == [] {
      assert Concat(groups, GroupBytes) + rest == rest;
    } else {
      var tail := Concat(groups[1..], GroupBytes) + rest;
      Associate(GroupBytes(groups[0]), Concat(groups[1..], GroupBytes), rest);
      GroupReads(groups[0], tail);
      GroupsRead(groups[1..], rest);
    }
  }

  lemma ListReads<T>(n: nat, bytes: ByteString, read: Reader<T>, xs: seq<T>, rest: ByteString)
    requires n < Int32Limit && ReadMany(bytes, n, read) == Some((xs, rest))
    ensures ReadList(Int32(n) + bytes, read) == Some((xs, rest))
  {
    Int32Fits(n);
    LittleReads(n, 4, bytes);
  }

  lemma DecksRead(decks: seq<Deck>, rest: ByteString)
    requires |decks| < Int32Limit && forall d :: d in decks ==> DeckFits(d)
    ensures ReadList(DeckList(decks) + rest, ReadDeck) == Some((decks, rest))
  {
    Associate(Int32(|decks|), Concat(decks, DeckBytes), rest);
    forall d: Deck, r | DeckFits(d) ensures ReadDeck(DeckBytes(d) + r) == Some((d, r)) { DeckReads(d, r); }
    ManyRead(decks, DeckBytes, ReadDeck, DeckFits, rest);
    ListReads(|decks|, Concat(decks, DeckBytes) + rest, ReadDeck, decks, rest);
  }

  lemma GroupListReads(groups: seq<Group>)
    requires |groups| < Int32Limit && forall g :: g in groups ==> GroupFits(g)
    ensures ReadList(GroupList(groups), ReadGroup) == Some((CanonicalGroups(groups), []))
  {
    GroupsRead(groups, []);
    assert Concat(groups, GroupBytes) + [] == Concat(groups, GroupBytes);
    ListReads(|groups|, Concat(groups, GroupBytes), ReadGroup, CanonicalGroups(groups), []);
  }

  lemma DecodeSteps(s: ByteString, s1: ByteString, decks: seq<Deck>, s2: ByteString, groups: seq<Group>)
    requires ReadLittle(s, 4) == Some((1, s1))
    requires ReadList(s1, ReadDeck) == Some((decks, s2))
    requires ReadList(s2, ReadGroup) == Some((groups, []))
    ensures Decode(s) == Some(Payload(decks, groups))
  {
  }

  /** Round trip: the decks come back as they were, the groups with their ids in order. */
  lemma DecodeEncode(p: Payload)
    requires Fits(p)
    ensures Decode(PayloadBytes(p)) == Some(Payload(p.decks, CanonicalGroups(p.groups)))
  {
    var decks, groups := DeckList(p.decks), GroupList(p.groups);
    Associate(Int32(1), decks, groups);
    Int32Fits(1);
    LittleReads(1, 4, decks + groups);
    DecksRead(p.decks, groups);
    GroupListReads(p.groups);
    DecodeSteps(PayloadBytes(p), decks + groups, p.decks, groups, CanonicalGroups(p.groups));
  }
}
