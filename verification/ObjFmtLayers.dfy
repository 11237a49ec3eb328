/** The size table at any moment of building: whatever calls came before, every closed slot
    holds the length of its field, and every slot still open holds nothing yet. */
module ObjFmtLayers {
  import opened ObjFmtTree
  import opened ObjFmtReader
  import opened ObjFmtSpans
  import opened ObjFmtBuilder

  predicate AllLayersWellFormed(f: Forest, shapes: Shapes)
    decreases |f.frames|
  {
    if f.frames == [] then AllWellFormed(f.fields, shapes)
    else AllWellFormed(f.Top().children, shapes) && AllLayersWellFormed(f.Below(), shapes)
  }

  /** The slots of the lists and elements still open. */
  function OpenSlots(f: Forest): set<nat>
    decreases |f.frames|
  {
    if f.frames == [] then {} else OpenSlots(f.Below()) + {|Layered(f.Below()).sizes|}
  }

  /** The writes of the slots from 1 on; what is open counts as written with what it holds so far. */
  function LayeredWrites(f: Forest): seq<Write>
    decreases |f.frames|
  {
    if f.frames == [] then AllWrites(Start(f.root), f.fields)
    else
      var outer := Layered(f.Below());
      LayeredWrites(f.Below()) + [Write(outer, f.Top().AsNode())] + AllWrites(OpenFrame(outer, f.Top()), f.Top().children)
  }

  /** The tables `t` begin with those of `r`. */
  ghost predicate Extend(t: Tables, r: State) { r.types <= t.types && r.sizes <= t.sizes }

  /** What holds for the slots from 1 on: the closed ones. */
  ghost predicate SlotsSound(r: State, open: set<nat>, starts: seq<nat>, ok: Fields) {
    && |starts| + 1 == |r.sizes|
    && (forall slot :: slot in open ==> slot < |r.sizes| && r.sizes[slot] == 0)
    && (forall i :: 0 <= i < |starts| && i + 1 !in open ==> SpanReads(r, i + 1, starts[i], ok))
    && (forall i, j :: 0 <= i < j < |starts| && i + 1 !in open && j + 1 !in open ==>
          InOrder(r, i + 1, starts[i], j + 1, starts[j]))
  }

  lemma SpanKept(r: State, later: State, slot: nat, start: nat, ok: Fields)
    requires Continues(r, later) && SpanReads(r, slot, start, ok)
    ensures SpanReads(later, slot, start, ok) && End(later, slot, start) == End(r, slot, start)
  {
    assert later.sizes[..|r.sizes|][slot] == r.sizes[slot];
    assert later.buf[start..End(r, slot, start)] == r.buf[start..End(r, slot, start)];
  }

  lemma OrderKept(outer: State, r: State, open: set<nat>, x: seq<nat>, ok: Fields, i: nat, j: nat)
    requires Continues(outer, r) && SlotsSound(outer, open, x, ok)
    requires i < j < |x| && i + 1 !in open && j + 1 !in open
    ensures InOrder(r, i + 1, x[i], j + 1, x[j])
  {
    SpanKept(outer, r, i + 1, x[i], ok);
    SpanKept(outer, r, j + 1, x[j], ok);
    assert InOrder(outer, i + 1, x[i], j + 1, x[j]);
  }

  lemma BehindAll(outer: State, s: State, r: State, open: set<nat>, x: seq<nat>, y: seq<nat>, ok: Fields, i: nat, j: nat)
    requires Continues(outer, r) && |outer.buf| <= |s.buf| && NonEmptyFields(ok)
    requires SlotsSound(outer, open, x, ok) && AllSpans(s, r, y, ok)
    requires i < |x| && i + 1 !in open && j < |y|
    ensures InOrder(r, i + 1, x[i], |s.sizes| + j, y[j])
  {
    assert SpanReads(outer, i + 1, x[i], ok);
    SpanKept(outer, r, i + 1, x[i], ok);
    assert |s.buf| <= y[j] && SpanReads(r, |s.sizes| + j, y[j], ok);
    assert outer.buf[x[i]..End(outer, i + 1, x[i])] != [];
  }

  lemma SizeKept(outer: State, r: State, i: nat)
    requires Continues(outer, r) && i < |outer.sizes|
    ensures r.sizes[i] == outer.sizes[i]
  {
    assert r.sizes[..|outer.sizes|][i] == outer.sizes[i];
  }

  /** One more layer: the slots below it, its own open slot, and the closed slots inside. */
  lemma LayerAdded(outer: State, s: State, r: State, open: set<nat>, x: seq<nat>, y: seq<nat>, ok: Fields)
    requires Continues(outer, s) && Continues(s, r) && NonEmptyFields(ok)
    requires |s.sizes| == |outer.sizes| + 1 && s.sizes[|outer.sizes|] == 0
    requires SlotsSound(outer, open, x, ok) && AllSpans(s, r, y, ok)
    ensures SlotsSound(r, open + {|outer.sizes|}, x + [|outer.buf|] + y, ok)
  {
    var z, both := x + [|outer.buf|] + y, open + {|outer.sizes|};
    forall slot | slot in both ensures slot < |r.sizes| && r.sizes[slot] == 0 {
      SizeKept(s, r, slot);
      if slot in open { SizeKept(outer, s, slot); }
    }
    forall i | 0 <= i < |z| && i + 1 !in both ensures SpanReads(r, i + 1, z[i], ok) {
      if i < |x| {
        SpanKept(outer, r, i + 1, x[i], ok);
      } else {
        assert SpanReads(r, |s.sizes| + (i - |x| - 1), y[i - |x| - 1], ok);
      }
    }
    forall i, j | 0 <= i < j < |z| && i + 1 !in both && j + 1 !in both
      ensures InOrder(r, i + 1, z[i], j + 1, z[j])
    {
      if j < |x| {
        OrderKept(outer, r, open, x, ok, i, j);
      } else if i < |x| {
        BehindAll(outer, s, r, open, x, y, ok, i, j - |x| - 1);
      } else {
        assert InOrder(r, |s.sizes| + (i - |x| - 1), y[i - |x| - 1], |s.sizes| + (j - |x| - 1), y[j - |x| - 1]);
      }
    }
  }

  lemma OpenFrameShape(outer: State, frame: Frame)
    ensures
      var s := OpenFrame(outer, frame);
      Continues(outer, s) && |s.sizes| == |outer.sizes| + 1 && s.sizes[|outer.sizes|] == 0
  {
  }

  lemma ExtendAgrees(t: Tables, s: State, r: State)
    requires Extend(t, r) && |s.sizes| <= |r.sizes|
    ensures Agrees(t, s, r)
  {
    forall i | |s.sizes| <= i < |r.sizes| ensures t.sizes[i] == r.sizes[i] {
      assert t.sizes[..|r.sizes|][i] == r.sizes[i];
    }
  }

  lemma ExtendBelow(t: Tables, outer: State, s: State, r: State)
    requires Extend(t, r) && Continues(outer, s) && Continues(s, r)
    ensures Extend(t, outer) && Continues(outer, r)
  {
    assert r.sizes[..|s.sizes|][..|outer.sizes|] == r.sizes[..|outer.sizes|];
  }

  /** `ok` holds of the bytes of every field closed so far. */
  ghost predicate ClosedHold(f: Forest, ok: Fields)
    decreases |f.frames|
  {
    if f.frames == [] then AllHold(AllWrites(Start(f.root), f.fields), ok)
    else ClosedHold(f.Below(), ok) && AllHold(AllWrites(OpenFrame(Layered(f.Below()), f.Top()), f.Top().children), ok)
  }

  lemma {:induction false} SlotsSoundFor(f: Forest, ok: Fields)
    requires NonEmptyFields(ok) && ClosedHold(f, ok)
    ensures SlotsSound(Layered(f), OpenSlots(f), Offsets(LayeredWrites(f)), ok)
    decreases |f.frames|
  {
    if f.frames == [] {
      FirstLayerSound(f, ok);
    } else {
      var below, outer := f.Below(), Layered(f.Below());
      var s := OpenFrame(outer, f.Top());
      var x, y := LayeredWrites(below), AllWrites(s, f.Top().children);
      SlotsSoundFor(below, ok);
      OpenFrameShape(outer, f.Top());
      ForestSpansFor(s, f.Top().children, ok);
      LayerAdded(outer, s, Layered(f), OpenSlots(below), Offsets(x), Offsets(y), ok);
      LayerOffsets(x, Write(outer, f.Top().AsNode()), y);
    }
  }

  lemma LayerOffsets(x: seq<Write>, w: Write, y: seq<Write>)
    ensures Offsets(x + [w] + y) == Offsets(x) + [w.Offset()] + Offsets(y)
  {
  }

  lemma FirstLayerSound(f: Forest, ok: Fields)
    requires f.frames == [] && NonEmptyFields(ok) && ClosedHold(f, ok)
    ensures SlotsSound(Layered(f), {}, Offsets(LayeredWrites(f)), ok)
  {
    var s, r, y := Start(f.root), Layered(f), Offsets(LayeredWrites(f));
    ForestSpansFor(s, f.fields, ok);
    forall i, j | 0 <= i < j < |y| ensures InOrder(r, i + 1, y[i], j + 1, y[j]) {
      assert InOrder(r, |s.sizes| + i, y[i], |s.sizes| + j, y[j]);
    }
  }

  lemma {:induction false} LayersNumbered(f: Forest)
    ensures Numbered(LayeredWrites(f), 1) && 1 + |LayeredWrites(f)| == |Layered(f).sizes|
    decreases |f.frames|
  {
    if f.frames == [] {
      AllNumbered(Start(f.root), f.fields);
    } else {
      var outer := Layered(f.Below());
      var s := OpenFrame(outer, f.Top());
      var x, w := LayeredWrites(f.Below()), [Write(outer, f.Top().AsNode())];
      LayersNumbered(f.Below());
      OpenFrameShape(outer, f.Top());
      AllNumbered(s, f.Top().children);
      NumberedJoined(x, w, 1);
      NumberedJoined(x + w, AllWrites(s, f.Top().children), 1);
    }
  }

  lemma {:induction false} WritesHold(f: Forest, ok: Fields)
    requires AllHold(LayeredWrites(f), ok)
    ensures ClosedHold(f, ok)
    decreases |f.frames|
  {
    if f.frames != [] {
      var outer := Layered(f.Below());
      var x, w := LayeredWrites(f.Below()), [Write(outer, f.Top().AsNode())];
      HoldSplit(x + w, AllWrites(OpenFrame(outer, f.Top()), f.Top().children), ok);
      HoldSplit(x, w, ok);
      WritesHold(f.Below(), ok);
    }
  }

  /** Whatever calls came before, with right or wrong counts, and whatever is still open: each
      closed slot holds the length of exactly the bytes written for it, these stretches are nested
      or disjoint in slot order, and each open slot is still 0. */
  lemma EverySlotSound(f: Forest)
    ensures
      var ws := LayeredWrites(f);
      Numbered(ws, 1) && SlotsSound(Layered(f), OpenSlots(f), Offsets(ws), Exactly(ws, 1))
  {
    LayersNumbered(f);
    ExactlyHolds(LayeredWrites(f), 1);
    WritesHold(f, Exactly(LayeredWrites(f), 1));
    SlotsSoundFor(f, Exactly(LayeredWrites(f), 1));
  }

  lemma {:induction false} ClosedRead(f: Forest, t: Tables)
    requires AllLayersWellFormed(f, t.shapes) && Extend(t, Layered(f))
    ensures ClosedHold(f, FieldsOf(t))
    decreases |f.frames|
  {
    if f.frames == [] {
      ExtendAgrees(t, Start(f.root), Layered(f));
      AllRead(Start(f.root), f.fields, t);
    } else {
      var outer := Layered(f.Below());
      var s := OpenFrame(outer, f.Top());
      OpenFrameShape(outer, f.Top());
      ExtendBelow(t, outer, s, Layered(f));
      ClosedRead(f.Below(), t);
      ExtendAgrees(t, s, Layered(f));
      AllRead(s, f.Top().children, t);
    }
  }

  /** When what is closed is well formed, each of these stretches is one field that the reader
      reads, with the number of its slot. */
  lemma EverySlotReads(f: Forest, t: Tables)
    requires AllLayersWellFormed(f, t.shapes) && Extend(t, Layered(f))
    ensures SlotsSound(Layered(f), OpenSlots(f), Offsets(LayeredWrites(f)), FieldsOf(t))
  {
    EmptyReadsNothing(t);
    ClosedRead(f, t);
    SlotsSoundFor(f, FieldsOf(t));
  }
}
