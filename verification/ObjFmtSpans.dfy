/** The size table: slot `i` holds the length of the stretch of bytes whose header carries
    `i`, and the stretches are nested or disjoint, in slot order. */
module ObjFmtSpans {
  import opened Bytes
  import opened ObjFmtTree
  import opened ObjFmtReader

  /** A field written: the state it found and its tree. */
  datatype Write = Write(before: State, node: Node)
  {
    function Slot(): nat { |before.sizes| }

    function Offset(): nat { |before.buf| }

    function Bytes(): ByteString { Written(before, Emit(before, node)) }
  }

  /** A field and all fields nested in it, in slot order. */
  function Writes(s: State, n: Node): seq<Write>
    decreases n, 1
  {
    [Write(s, n)] + PayloadWrites(Open(s, n.name, n.typ, Props(n.payload)), n.payload)
  }

  function PayloadWrites(s: State, p: Payload): seq<Write>
    decreases p, 0
  {
    match p
    case Struct(_, props) => AllWrites(s, props)
    case Items(declared, items) => AllWrites(Append(s, Decimal(declared) + [Sep]), items)
    case _ => []
  }

  function AllWrites(s: State, ns: seq<Node>): seq<Write>
    decreases ns, 0
  {
    if ns == [] then [] else
      var front := ns[..|ns| - 1];
      AllWrites(s, front) + Writes(EmitAll(s, front), ns[|ns| - 1])
  }

  function Offsets(ws: seq<Write>): (r: seq<nat>)
    ensures |r| == |ws| && forall i :: 0 <= i < |ws| ==> r[i] == ws[i].Offset()
  {
    seq(|ws|, i requires 0 <= i < |ws| => ws[i].Offset())
  }

  lemma OffsetsJoined(a: seq<Write>, b: seq<Write>)
    ensures Offsets(a + b) == Offsets(a) + Offsets(b)
  {
  }

  function End(r: State, slot: nat, start: nat): nat
    requires slot < |r.sizes|
  {
    start + r.sizes[slot]
  }

  /** Which bytes form the field of a given slot. */
  type Fields = (ByteString, nat) -> bool

  /** Exactly one field, carrying that slot number, by the strict reader. */
  predicate ReadsField(s: ByteString, slot: nat, t: Tables) {
    var r := ReadNode(s, slot, t);
    r.Some? && r.value.1 == []
  }

  function FieldsOf(t: Tables): Fields {
    (s: ByteString, slot: nat) => ReadsField(s, slot, t)
  }

  /** The stretch of slot `slot` is exactly one field with that slot number. */
  predicate SpanReads(r: State, slot: nat, start: nat, ok: Fields) {
    slot < |r.sizes| && End(r, slot, start) <= |r.buf| && ok(r.buf[start..End(r, slot, start)], slot)
  }

  /** Later slots start later, and lie inside or behind. */
  predicate InOrder(r: State, slot: nat, start: nat, slot': nat, start': nat)
    requires slot < |r.sizes| && slot' < |r.sizes|
  {
    start < start' && (End(r, slot, start) <= start' || End(r, slot', start') <= End(r, slot, start))
  }

  /** `starts` locates every slot `r` has beyond `s`. */
  ghost predicate AllSpans(s: State, r: State, starts: seq<nat>, ok: Fields) {
    && |s.sizes| + |starts| == |r.sizes|
    && (forall i :: 0 <= i < |starts| ==> |s.buf| <= starts[i] && SpanReads(r, |s.sizes| + i, starts[i], ok))
    && (forall i, j :: 0 <= i < j < |starts| ==> InOrder(r, |s.sizes| + i, starts[i], |s.sizes| + j, starts[j]))
  }

  ghost predicate NonEmptyFields(ok: Fields) {
    forall slot :: !ok([], slot)
  }

  lemma SpansPersist(s: State, r: State, later: State, starts: seq<nat>, ok: Fields, i: nat)
    requires AllSpans(s, r, starts, ok) && Continues(r, later) && i < |starts|
    ensures SpanReads(later, |s.sizes| + i, starts[i], ok)
    ensures later.sizes[|s.sizes| + i] == r.sizes[|s.sizes| + i]
  {
    var slot := |s.sizes| + i;
    assert later.sizes[..|r.sizes|][slot] == r.sizes[slot];
    assert SpanReads(r, slot, starts[i], ok);
    assert later.buf[starts[i]..End(r, slot, starts[i])] == r.buf[starts[i]..End(r, slot, starts[i])];
  }

  lemma OrderPersists(s: State, m: State, r: State, x: seq<nat>, ok: Fields, i: nat, j: nat)
    requires AllSpans(s, m, x, ok) && Continues(m, r) && i < j < |x|
    ensures InOrder(r, |s.sizes| + i, x[i], |s.sizes| + j, x[j])
  {
    SpansPersist(s, m, r, x, ok, i);
    SpansPersist(s, m, r, x, ok, j);
    assert InOrder(m, |s.sizes| + i, x[i], |s.sizes| + j, x[j]);
  }

  lemma OrderAcross(s: State, m: State, r: State, x: seq<nat>, y: seq<nat>, ok: Fields, i: nat, j: nat)
    requires AllSpans(s, m, x, ok) && AllSpans(m, r, y, ok) && Continues(m, r) && NonEmptyFields(ok)
    requires i < |x| && j < |y|
    ensures InOrder(r, |s.sizes| + i, x[i], |m.sizes| + j, y[j])
  {
    SpansPersist(s, m, r, x, ok, i);
    assert SpanReads(m, |s.sizes| + i, x[i], ok);
    assert |m.buf| <= y[j] && SpanReads(r, |m.sizes| + j, y[j], ok);
    assert m.buf[x[i]..End(m, |s.sizes| + i, x[i])] != [];
  }

  /** Spans of consecutive pieces are spans of the whole. */
  lemma SpansCompose(s: State, m: State, r: State, x: seq<nat>, y: seq<nat>, ok: Fields)
    requires Continues(s, m) && Continues(m, r) && NonEmptyFields(ok)
    requires AllSpans(s, m, x, ok) && AllSpans(m, r, y, ok)
    ensures AllSpans(s, r, x + y, ok)
  {
    var z := x + y;
    forall i | 0 <= i < |z| ensures |s.buf| <= z[i] && SpanReads(r, |s.sizes| + i, z[i], ok) {
      if i < |x| { SpansPersist(s, m, r, x, ok, i); } else { assert SpanReads(r, |m.sizes| + (i - |x|), y[i - |x|], ok); }
    }
    forall i, j | 0 <= i < j < |z| ensures InOrder(r, |s.sizes| + i, z[i], |s.sizes| + j, z[j]) {
      if j < |x| {
        OrderPersists(s, m, r, x, ok, i, j);
      } else if i >= |x| {
        assert InOrder(r, |m.sizes| + (i - |x|), y[i - |x|], |m.sizes| + (j - |x|), y[j - |x|]);
      } else {
        OrderAcross(s, m, r, x, y, ok, i, j - |x|);
      }
    }
  }

  /** The stretch of an enclosing field contains all the stretches inside it. */
  lemma Enclose(s: State, o: State, p: State, inner: seq<nat>, ok: Fields)
    requires AllSpans(o, p, inner, ok)
    requires |o.sizes| == |s.sizes| + 1 <= |p.sizes| && |s.buf| < |o.buf| <= |p.buf|
    requires ok(p.buf[|s.buf|..], |s.sizes|)
    ensures AllSpans(s, Close(p, s), [|s.buf|] + inner, ok)
  {
    var r := Close(p, s);
    var z := [|s.buf|] + inner;
    assert SpanReads(r, |s.sizes|, |s.buf|, ok) by {
      assert r.buf[|s.buf|..End(r, |s.sizes|, |s.buf|)] == p.buf[|s.buf|..];
    }
    forall i | 0 <= i < |z| ensures |s.buf| <= z[i] && SpanReads(r, |s.sizes| + i, z[i], ok) {
      if i > 0 { InnerKept(s, o, p, inner, ok, i - 1); }
    }
    forall i, j | 0 <= i < j < |z| ensures InOrder(r, |s.sizes| + i, z[i], |s.sizes| + j, z[j]) {
      InnerKept(s, o, p, inner, ok, j - 1);
      if i > 0 { InnerOrder(s, o, p, inner, ok, i - 1, j - 1); }
    }
  }

  lemma InnerOrder(s: State, o: State, p: State, inner: seq<nat>, ok: Fields, i: nat, j: nat)
    requires AllSpans(o, p, inner, ok) && i < j < |inner|
    requires |o.sizes| == |s.sizes| + 1 <= |p.sizes| && |s.buf| < |o.buf| <= |p.buf|
    ensures InOrder(Close(p, s), |o.sizes| + i, inner[i], |o.sizes| + j, inner[j])
  {
    assert InOrder(p, |o.sizes| + i, inner[i], |o.sizes| + j, inner[j]);
  }

  lemma InnerKept(s: State, o: State, p: State, inner: seq<nat>, ok: Fields, i: nat)
    requires AllSpans(o, p, inner, ok) && i < |inner|
    requires |o.sizes| == |s.sizes| + 1 <= |p.sizes| && |s.buf| < |o.buf| <= |p.buf|
    ensures |o.buf| <= inner[i] && SpanReads(Close(p, s), |o.sizes| + i, inner[i], ok)
    ensures End(Close(p, s), |o.sizes| + i, inner[i]) <= |p.buf|
  {
    assert SpanReads(p, |o.sizes| + i, inner[i], ok);
  }

  // ------------------------------------------------------------------ what is written

  ghost predicate AllHold(ws: seq<Write>, ok: Fields) { forall w :: w in ws ==> ok(w.Bytes(), w.Slot()) }

  lemma {:induction false} NodeSpans(s: State, n: Node, ok: Fields)
    requires NonEmptyFields(ok) && AllHold(Writes(s, n), ok)
    ensures AllSpans(s, Emit(s, n), Offsets(Writes(s, n)), ok)
    decreases n, 1
  {
    var o := Open(s, n.name, n.typ, Props(n.payload));
    var p := EmitPayload(o, n.payload);
    var inner := PayloadWrites(o, n.payload);
    HoldSplit([Write(s, n)], inner, ok);
    PayloadSpans(o, n.payload, ok);
    WrittenField(s, n);
    Enclose(s, o, p, Offsets(inner), ok);
    OffsetsJoined([Write(s, n)], inner);
    assert Offsets([Write(s, n)]) == [|s.buf|];
  }

  lemma HoldSplit(a: seq<Write>, b: seq<Write>, ok: Fields)
    ensures AllHold(a + b, ok) <==> AllHold(a, ok) && AllHold(b, ok)
    ensures forall w :: AllHold([w], ok) <==> ok(w.Bytes(), w.Slot())
  {
  }

  lemma WrittenField(s: State, n: Node)
    ensures
      var p := EmitPayload(Open(s, n.name, n.typ, Props(n.payload)), n.payload);
      Write(s, n).Bytes() == p.buf[|s.buf|..]
  {
  }

  lemma {:induction false} PayloadSpans(o: State, p: Payload, ok: Fields)
    requires NonEmptyFields(ok) && AllHold(PayloadWrites(o, p), ok)
    ensures AllSpans(o, EmitPayload(o, p), Offsets(PayloadWrites(o, p)), ok)
    decreases p, 0
  {
    match p
    case Struct(_, props) => ForestSpansFor(o, props, ok);
    case Items(declared, items) =>
      var q := Append(o, Decimal(declared) + [Sep]);
      ForestSpansFor(q, items, ok);
      SpansWiden(o, q, EmitAll(q, items), Offsets(AllWrites(q, items)), ok);
    case _ =>
  }

  lemma SpansWiden(o: State, q: State, r: State, starts: seq<nat>, ok: Fields)
    requires o.sizes == q.sizes && |o.buf| <= |q.buf| && AllSpans(q, r, starts, ok)
    ensures AllSpans(o, r, starts, ok)
  {
  }

  /** Whatever holds of the bytes of every write holds of the stretch that the size table gives its
      slot, and the stretches are properly nested in slot order. */
  lemma {:induction false} ForestSpansFor(s: State, ns: seq<Node>, ok: Fields)
    requires NonEmptyFields(ok) && AllHold(AllWrites(s, ns), ok)
    ensures AllSpans(s, EmitAll(s, ns), Offsets(AllWrites(s, ns)), ok)
    decreases ns, 0
  {
    if ns != [] {
      var front, last := ns[..|ns| - 1], ns[|ns| - 1];
      var m := EmitAll(s, front);
      var x, y := AllWrites(s, front), Writes(m, last);
      HoldSplit(x, y, ok);
      ForestSpansFor(s, front, ok);
      NodeSpans(m, last, ok);
      SpansCompose(s, m, EmitAll(s, ns), Offsets(x), Offsets(y), ok);
      OffsetsJoined(x, y);
    }
  }

  // ------------------------------------------------------------------ exact stretches

  /** The slots of the writes are consecutive. */
  predicate Numbered(ws: seq<Write>, first: nat) {
    forall i :: 0 <= i < |ws| ==> ws[i].Slot() == first + i
  }

  /** Exactly the bytes written for that slot. */
  function Exactly(ws: seq<Write>, first: nat): Fields {
    (s: ByteString, slot: nat) => first <= slot < first + |ws| && s == ws[slot - first].Bytes()
  }

  lemma NumberedJoined(a: seq<Write>, b: seq<Write>, first: nat)
    requires Numbered(a, first) && Numbered(b, first + |a|)
    ensures Numbered(a + b, first)
  {
  }

  lemma {:induction false} NodeNumbered(s: State, n: Node)
    ensures Numbered(Writes(s, n), |s.sizes|) && |s.sizes| + |Writes(s, n)| == |Emit(s, n).sizes|
    decreases n, 1
  {
    var o := Open(s, n.name, n.typ, Props(n.payload));
    PayloadNumbered(o, n.payload);
    NumberedJoined([Write(s, n)], PayloadWrites(o, n.payload), |s.sizes|);
  }

  lemma {:induction false} PayloadNumbered(o: State, p: Payload)
    ensures Numbered(PayloadWrites(o, p), |o.sizes|) && |o.sizes| + |PayloadWrites(o, p)| == |EmitPayload(o, p).sizes|
    decreases p, 0
  {
    match p
    case Struct(_, props) => AllNumbered(o, props);
    case Items(declared, items) => AllNumbered(Append(o, Decimal(declared) + [Sep]), items);
    case _ =>
  }

  lemma {:induction false} AllNumbered(s: State, ns: seq<Node>)
    ensures Numbered(AllWrites(s, ns), |s.sizes|) && |s.sizes| + |AllWrites(s, ns)| == |EmitAll(s, ns).sizes|
    decreases ns, 0
  {
    if ns != [] {
      var front, last := ns[..|ns| - 1], ns[|ns| - 1];
      AllNumbered(s, front);
      NodeNumbered(EmitAll(s, front), last);
      NumberedJoined(AllWrites(s, front), Writes(EmitAll(s, front), last), |s.sizes|);
    }
  }

  lemma ExactlyHolds(ws: seq<Write>, first: nat)
    requires Numbered(ws, first)
    ensures AllHold(ws, Exactly(ws, first)) && NonEmptyFields(Exactly(ws, first))
  {
    forall i | 0 <= i < |ws| ensures Exactly(ws, first)(ws[i].Bytes(), ws[i].Slot()) {
      ExactlyAt(ws, first, i);
    }
    ExactlyWritten(ws, first);
  }

  lemma ExactlyAt(ws: seq<Write>, first: nat, i: nat)
    requires Numbered(ws, first) && i < |ws|
    ensures Exactly(ws, first)(ws[i].Bytes(), ws[i].Slot())
  {
  }

  lemma ExactlyWritten(ws: seq<Write>, first: nat)
    ensures NonEmptyFields(Exactly(ws, first))
  {
    forall slot: nat ensures !Exactly(ws, first)([], slot) {
      if first <= slot < first + |ws| { BytesWritten(ws[slot - first]); }
    }
  }

  lemma BytesWritten(w: Write)
    ensures w.Bytes() != []
  {
    HeaderWritten(w.before, w.node);
  }

  lemma HeaderWritten(s: State, n: Node)
    ensures |s.buf| < |Emit(s, n).buf|
  {
    assert |Open(s, n.name, n.typ, Props(n.payload)).buf| > |s.buf|;
  }

  /** Size-table invariant, for any fields at all: every slot of a written forest holds the exact
      length of its field, and the fields are properly nested in slot order. */
  lemma ForestSpans(s: State, ns: seq<Node>)
    ensures
      var ws := AllWrites(s, ns);
      Numbered(ws, |s.sizes|) && AllSpans(s, EmitAll(s, ns), Offsets(ws), Exactly(ws, |s.sizes|))
  {
    AllNumbered(s, ns);
    ExactlyHolds(AllWrites(s, ns), |s.sizes|);
    ForestSpansFor(s, ns, Exactly(AllWrites(s, ns), |s.sizes|));
  }

  // ------------------------------------------------------------------ what is read

  lemma EmittedReads(s: State, n: Node, t: Tables)
    requires WellFormed(n, t.shapes) && Agrees(t, s, Emit(s, n))
    ensures FieldsOf(t)(Write(s, n).Bytes(), |s.sizes|)
  {
    ReadEmitted(s, n, [], t);
    assert Written(s, Emit(s, n)) + [] == Written(s, Emit(s, n));
  }

  lemma EmptyReadsNothing(t: Tables)
    ensures NonEmptyFields(FieldsOf(t))
  {
  }

  lemma {:induction false} NodeReads(s: State, n: Node, t: Tables)
    requires WellFormed(n, t.shapes) && Agrees(t, s, Emit(s, n))
    ensures AllHold(Writes(s, n), FieldsOf(t))
    decreases n, 1
  {
    var o := Open(s, n.name, n.typ, Props(n.payload));
    AgreesInside(s, n, t);
    PayloadReads(o, n.payload, t);
    EmittedReads(s, n, t);
    HoldFirst(Write(s, n), PayloadWrites(o, n.payload), FieldsOf(t));
  }

  lemma HoldFirst(w: Write, ws: seq<Write>, ok: Fields)
    requires ok(w.Bytes(), w.Slot()) && AllHold(ws, ok)
    ensures AllHold([w] + ws, ok)
  {
  }

  lemma {:induction false} PayloadReads(o: State, p: Payload, t: Tables)
    requires (p.Struct? ==> AllWellFormed(p.props, t.shapes)) && (p.Items? ==> AllWellFormed(p.items, t.shapes))
    requires Agrees(t, o, EmitPayload(o, p))
    ensures AllHold(PayloadWrites(o, p), FieldsOf(t))
    decreases p, 0
  {
    match p
    case Struct(_, props) => AllRead(o, props, t);
    case Items(declared, items) => AllRead(Append(o, Decimal(declared) + [Sep]), items, t);
    case _ =>
  }

  lemma {:induction false} AllRead(s: State, ns: seq<Node>, t: Tables)
    requires AllWellFormed(ns, t.shapes) && Agrees(t, s, EmitAll(s, ns))
    ensures AllHold(AllWrites(s, ns), FieldsOf(t))
    decreases ns, 0
  {
    if ns != [] {
      var front, last := ns[..|ns| - 1], ns[|ns| - 1];
      AgreesFront(s, front, last, t);
      AllRead(s, front, t);
      NodeReads(EmitAll(s, front), last, t);
      HoldSplit(AllWrites(s, front), Writes(EmitAll(s, front), last), FieldsOf(t));
    }
  }

  /** Among well-formed fields each stretch is one field that the reader reads, with its slot. */
  lemma ForestReads(s: State, ns: seq<Node>, t: Tables)
    requires AllWellFormed(ns, t.shapes) && Agrees(t, s, EmitAll(s, ns))
    ensures AllSpans(s, EmitAll(s, ns), Offsets(AllWrites(s, ns)), FieldsOf(t))
  {
    EmptyReadsNothing(t);
    AllRead(s, ns, t);
    ForestSpansFor(s, ns, FieldsOf(t));
  }
}
