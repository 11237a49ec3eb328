/** A strict ObjFmt reader: it checks every slot number and every size against the tables,
    so what it accepts has a correct size table.  The writer is proved against it. */
module ObjFmtReader {
  import opened Bytes
  import opened Lists
  import opened Wrappers
  import opened ObjFmtTree

  datatype Tables = Tables(types: seq<ByteString>, sizes: seq<nat>, shapes: Shapes)

  /** The bytes up to the next separator, and what follows it. */
  function TakeField(s: ByteString): (r: Option<(ByteString, ByteString)>)
    ensures r.Some? ==> |r.value.1| < |s|
  {
    if s == [] then None
    else if s[0] == Sep then Some(([], s[1..]))
    else
      var (field, rest) :- TakeField(s[1..]);
      Some(([s[0]] + field, rest))
  }

  function TakeNumber(s: ByteString): (r: Option<(nat, ByteString)>)
    ensures r.Some? ==> |r.value.1| < |s|
  {
    var (field, rest) :- TakeField(s);
    var n :- FromDecimal(field);
    Some((n, rest))
  }

  datatype Header = Header(name: ByteString, slot: nat, typ: nat, props: nat)

  function ReadHeader(s: ByteString): (r: Option<(Header, ByteString)>)
    ensures r.Some? ==> |r.value.1| < |s|
  {
    var (name, s1) :- TakeField(s);
    var (slot, s2) :- TakeNumber(s1);
    var (typ, s3) :- TakeNumber(s2);
    var (props, s4) :- TakeNumber(s3);
    Some((Header(name, slot, typ, props), s4))
  }

  /** A field that must occupy slot `slot`; also returns the next slot number. */
  function ReadNode(s: ByteString, slot: nat, t: Tables): (r: Option<(Node, ByteString, nat)>)
    ensures r.Some? ==> |r.value.1| < |s|
    decreases |s|, 0, 0
  {
    var (h, body) :- ReadHeader(s);
    if h.slot != slot || h.typ >= |t.types| then None
    else
      var (payload, rest, next) :- ReadPayload(body, slot + 1, t.shapes(t.types[h.typ]), h.props, t);
      if slot < |t.sizes| && t.sizes[slot] == |s| - |rest| then
        Some((Node(h.name, t.types[h.typ], payload), rest, next))
      else None
  }

  function ReadPayload(s: ByteString, slot: nat, shape: Shape, props: nat, t: Tables): (r: Option<(Payload, ByteString, nat)>)
    ensures r.Some? ==> |r.value.1| <= |s|
    decreases |s|, 2, 0
  {
    if shape.StructShape? then
      var (ns, rest, next) :- ReadMany(s, slot, props, t);
      Some((Struct(props, ns), rest, next))
    else if props != 0 then None
    else match shape
      case IntegerShape(width) =>
        var (field, rest) :- TakeField(s);
        var raw :- FromHex(field);
        if |raw| == width then Some((Number(width, FromLittleEndian(raw)), rest, slot)) else None
      case BoolShape =>
        if s != [] && (s[0] == 48 || s[0] == 49) then Some((Flag(s[0] == 49), s[1..], slot)) else None
      case TextShape =>
        var (length, s1) :- TakeNumber(s);
        var (text, rest) :- Take(s1, length);
        Some((Text(length, text), rest, slot))
      case BlobShape =>
        var (length, s1) :- Take(s, 4);
        var (data, rest) :- Take(s1, FromBigEndian(length));
        Some((Blob(data), rest, slot))
      case ListShape =>
        var (count, s1) :- TakeNumber(s);
        var (ns, rest, next) :- ReadMany(s1, slot, count, t);
        Some((Items(count, ns), rest, next))
  }

  function ReadMany(s: ByteString, slot: nat, count: nat, t: Tables): (r: Option<(seq<Node>, ByteString, nat)>)
    ensures r.Some? ==> |r.value.1| <= |s|
    decreases |s|, 1, count
  {
    if count == 0 then Some(([], s, slot))
    else
      var (ns, s1, slot1) :- ReadMany(s, slot, count - 1, t);
      var (n, rest, next) :- ReadNode(s1, slot1, t);
      Some((ns + [n], rest, next))
  }

  // ------------------------------------------------------------ what is read is well formed

  lemma {:induction false} FieldsAreSepFree(s: ByteString)
    ensures TakeField(s).Some? ==> SepFree(TakeField(s).value.0)
  {
    if s != [] && s[0] != Sep {
      FieldsAreSepFree(s[1..]);
    }
  }

  predicate SepFreeTable(types: seq<ByteString>) { forall x :: x in types ==> SepFree(x) }

  /** The reader returns only well-formed fields, whatever the bytes: names without separators,
      numbers that fit their width, true counts, contents of the shape that the type has. */
  lemma {:induction false} ReadsWellFormed(s: ByteString, slot: nat, t: Tables)
    requires SepFreeTable(t.types)
    ensures ReadNode(s, slot, t).Some? ==> WellFormed(ReadNode(s, slot, t).value.0, t.shapes)
    decreases |s|, 0, 0
  {
    var header := ReadHeader(s);
    if header.Some? && header.value.0.slot == slot && header.value.0.typ < |t.types| {
      var (h, body) := header.value;
      FieldsAreSepFree(s);
      ReadsWellFormedPayload(body, slot + 1, h.name, t.types[h.typ], h.props, t);
    }
  }

  lemma {:induction false} ReadsWellFormedPayload(s: ByteString, slot: nat, name: ByteString, typ: ByteString, props: nat, t: Tables)
    requires SepFree(name) && SepFree(typ) && SepFreeTable(t.types)
    ensures
      var r := ReadPayload(s, slot, t.shapes(typ), props, t);
      r.Some? ==> WellFormed(Node(name, typ, r.value.0), t.shapes)
    decreases |s|, 2, 0
  {
    var shape := t.shapes(typ);
    if shape.StructShape? {
      ReadsAllWellFormed(s, slot, props, t);
    } else if shape.ListShape? {
      if TakeNumber(s).Some? {
        ReadsAllWellFormed(TakeNumber(s).value.1, slot, TakeNumber(s).value.0, t);
      }
    } else {
      ReadsWellFormedLeaf(s, slot, name, typ, props, t);
    }
  }

  lemma ReadsWellFormedLeaf(s: ByteString, slot: nat, name: ByteString, typ: ByteString, props: nat, t: Tables)
    requires SepFree(name) && SepFree(typ) && !t.shapes(typ).StructShape? && !t.shapes(typ).ListShape?
    ensures
      var r := ReadPayload(s, slot, t.shapes(typ), props, t);
      r.Some? ==> WellFormed(Node(name, typ, r.value.0), t.shapes)
  {
    match t.shapes(typ)
    case IntegerShape(width) =>
      if TakeField(s).Some? && FromHex(TakeField(s).value.0).Some? {
        LittleEndianFits(FromHex(TakeField(s).value.0).value);
      }
    case BlobShape =>
      if |s| >= 4 {
        BigEndianFits(s[..4]);
      }
    case _ =>
  }

  lemma {:induction false} ReadsAllWellFormed(s: ByteString, slot: nat, count: nat, t: Tables)
    requires SepFreeTable(t.types)
    ensures
      var r := ReadMany(s, slot, count, t);
      r.Some? ==> |r.value.0| == count && AllWellFormed(r.value.0, t.shapes)
    decreases |s|, 1, count
  {
    if count > 0 {
      ReadsAllWellFormed(s, slot, count - 1, t);
      var front := ReadMany(s, slot, count - 1, t);
      if front.Some? {
        var (ns, s1, slot1) := front.value;
        ReadsWellFormed(s1, slot1, t);
        if ReadNode(s1, slot1, t).Some? {
          OneMoreWellFormed(ns, ReadNode(s1, slot1, t).value.0, t.shapes);
        }
      }
    }
  }

  lemma OneMoreWellFormed(ns: seq<Node>, n: Node, shapes: Shapes)
    requires AllWellFormed(ns, shapes) && WellFormed(n, shapes)
    ensures AllWellFormed(ns + [n], shapes)
  {
    assert (ns + [n])[..|ns|] == ns;
  }

  // ------------------------------------------------------------ fields are prefix codes

  lemma {:induction false} TakeFieldOf(field: ByteString, rest: ByteString)
    requires SepFree(field)
    ensures TakeField(field + [Sep] + rest) == Some((field, rest))
  {
    var s := field + [Sep] + rest;
    if field == [] {
      assert s[1..] == rest;
    } else {
      assert s[1..] == field[1..] + [Sep] + rest;
      TakeFieldOf(field[1..], rest);
      assert [field[0]] + field[1..] == field;
    }
  }

  lemma TakeNumberOf(n: nat, rest: ByteString)
    ensures TakeNumber(Decimal(n) + [Sep] + rest) == Some((n, rest))
  {
    TakeFieldOf(Decimal(n), rest);
    DecimalRoundTrip(n);
  }

  lemma ReadHeaderOf(name: ByteString, slot: nat, typ: nat, props: nat, rest: ByteString)
    requires SepFree(name)
    ensures ReadHeader(HeaderBytes(name, slot, typ, props) + rest) == Some((Header(name, slot, typ, props), rest))
  {
    var s3 := Decimal(props) + [Sep] + rest;
    var s2 := Decimal(typ) + [Sep] + s3;
    var s1 := Decimal(slot) + [Sep] + s2;
    assert HeaderBytes(name, slot, typ, props) + rest == name + [Sep] + s1;
    TakeFieldOf(name, s1);
    TakeNumberOf(slot, s2);
    TakeNumberOf(typ, s3);
    TakeNumberOf(props, rest);
  }

  // -------------------------------------------------------------- reading what was written

  /** The bytes `later` has beyond `earlier`. */
  function Written(earlier: State, later: State): ByteString
    requires |earlier.buf| <= |later.buf|
  {
    later.buf[|earlier.buf|..]
  }

  /** The final tables agree with the slots and types `later` has beyond `earlier`. */
  ghost predicate Agrees(t: Tables, earlier: State, later: State) {
    && later.types <= t.types
    && |earlier.sizes| <= |later.sizes| <= |t.sizes|
    && forall i :: |earlier.sizes| <= i < |later.sizes| ==> t.sizes[i] == later.sizes[i]
  }

  lemma WrittenSplit(a: State, b: State, c: State)
    requires a.buf <= b.buf <= c.buf
    ensures Written(a, c) == Written(a, b) + Written(b, c)
  {
  }

  /** A field is its header followed by its contents. */
  lemma EmittedBytes(s: State, n: Node, rest: ByteString)
    ensures
      var o := Open(s, n.name, n.typ, Props(n.payload));
      var header := HeaderBytes(n.name, |s.sizes|, IndexOf(o.types, n.typ), Props(n.payload));
      Written(s, Emit(s, n)) + rest == header + (Written(o, EmitPayload(o, n.payload)) + rest)
  {
    var o := Open(s, n.name, n.typ, Props(n.payload));
    var p := EmitPayload(o, n.payload);
    assert Written(s, Emit(s, n)) == Written(s, p);
    WrittenSplit(s, o, p);
    assert Written(s, o) == HeaderBytes(n.name, |s.sizes|, IndexOf(o.types, n.typ), Props(n.payload));
    Associate(Written(s, o), Written(o, p), rest);
  }

  /** The tables agree with the contents of a field whenever they agree with the field. */
  lemma AgreesInside(s: State, n: Node, t: Tables)
    requires Agrees(t, s, Emit(s, n))
    ensures
      var o := Open(s, n.name, n.typ, Props(n.payload));
      Agrees(t, o, EmitPayload(o, n.payload)) && t.types[IndexOf(o.types, n.typ)] == n.typ
    ensures t.sizes[|s.sizes|] == |Written(s, Emit(s, n))|
  {
    assert t.sizes[|s.sizes|] == Emit(s, n).sizes[|s.sizes|];
  }

  lemma {:induction false} ReadEmitted(s: State, n: Node, rest: ByteString, t: Tables)
    requires WellFormed(n, t.shapes) && Agrees(t, s, Emit(s, n))
    ensures ReadNode(Written(s, Emit(s, n)) + rest, |s.sizes|, t) == Some((n, rest, |Emit(s, n).sizes|))
    decreases n, 1
  {
    var o := Open(s, n.name, n.typ, Props(n.payload));
    var body := Written(o, EmitPayload(o, n.payload)) + rest;
    EmittedBytes(s, n, rest);
    AgreesInside(s, n, t);
    ReadHeaderOf(n.name, |s.sizes|, IndexOf(o.types, n.typ), Props(n.payload), body);
    ReadEmittedPayload(o, n, rest, t);
  }

  /** Contents without nested fields are recovered whatever follows them. */
  lemma ReadLeaf(n: Node, rest: ByteString, slot: nat, t: Tables)
    requires WellFormed(n, t.shapes) && !n.payload.Struct? && !n.payload.Items?
    ensures ReadPayload(LeafBytes(n.payload) + rest, slot, t.shapes(n.typ), 0, t) == Some((n.payload, rest, slot))
  {
    var s := LeafBytes(n.payload) + rest;
    match n.payload
    case Number(width, value) =>
      var raw := LittleEndian(value, width);
      HexIsSepFree(raw);
      TakeFieldOf(Hex(raw), rest);
      HexRoundTrip(raw);
      LittleEndianRoundTrip(value, width);
    case Flag(on) =>
    case Text(_, text) =>
      assert s == Decimal(|text|) + [Sep] + (text + rest);
      TakeNumberOf(|text|, text + rest);
    case Blob(data) =>
      BigEndianRoundTrip(|data|, 4);
      assert s == BigEndian(|data|, 4) + (data + rest);
  }

  lemma {:induction false} ReadEmittedPayload(o: State, n: Node, rest: ByteString, t: Tables)
    requires WellFormed(n, t.shapes) && Agrees(t, o, EmitPayload(o, n.payload))
    ensures ReadPayload(Written(o, EmitPayload(o, n.payload)) + rest, |o.sizes|, t.shapes(n.typ), Props(n.payload), t)
         == Some((n.payload, rest, |EmitPayload(o, n.payload).sizes|))
    decreases n, 0
  {
    match n.payload
    case Struct(_, props) =>
      ReadEmittedAll(o, props, rest, t);
    case Items(_, items) => ReadEmittedItems(o, items, rest, t);
    case _ =>
      assert Written(o, Append(o, LeafBytes(n.payload))) == LeafBytes(n.payload);
      ReadLeaf(n, rest, |o.sizes|, t);
  }

  lemma {:induction false} ReadEmittedItems(o: State, items: seq<Node>, rest: ByteString, t: Tables)
    requires AllWellFormed(items, t.shapes) && Agrees(t, o, EmitAll(Append(o, Decimal(|items|) + [Sep]), items))
    ensures
      var p := EmitAll(Append(o, Decimal(|items|) + [Sep]), items);
      ReadPayload(Written(o, p) + rest, |o.sizes|, ListShape, 0, t) == Some((Items(|items|, items), rest, |p.sizes|))
    decreases items, 1
  {
    var q := Append(o, Decimal(|items|) + [Sep]);
    var p := EmitAll(q, items);
    ItemsBytes(o, q, p, |items|, rest);
    TakeNumberOf(|items|, Written(q, p) + rest);
    ReadEmittedAll(q, items, rest, t);
  }

  lemma ItemsBytes(o: State, q: State, p: State, count: nat, rest: ByteString)
    requires q == Append(o, Decimal(count) + [Sep]) && q.buf <= p.buf
    ensures Written(o, p) + rest == Decimal(count) + [Sep] + (Written(q, p) + rest)
  {
    WrittenSplit(o, q, p);
    assert Written(o, q) == Decimal(count) + [Sep];
  }

  lemma HexIsSepFree(raw: ByteString)
    ensures SepFree(Hex(raw))
  {
    assert HexValue(Sep) == None;
  }

  lemma AgreesFront(s: State, front: seq<Node>, last: Node, t: Tables)
    requires Agrees(t, s, Emit(EmitAll(s, front), last))
    ensures Agrees(t, s, EmitAll(s, front))
  {
    var m := EmitAll(s, front);
    var r := Emit(m, last);
    forall i | |s.sizes| <= i < |m.sizes| ensures t.sizes[i] == m.sizes[i] {
      assert r.sizes[..|m.sizes|][i] == m.sizes[i];
    }
  }

  lemma ReadOneMore(s: ByteString, slot: nat, t: Tables, ns: seq<Node>, s1: ByteString, slot1: nat,
                    n: Node, rest: ByteString, next: nat)
    requires ReadMany(s, slot, |ns|, t) == Some((ns, s1, slot1))
    requires ReadNode(s1, slot1, t) == Some((n, rest, next))
    ensures ReadMany(s, slot, |ns| + 1, t) == Some((ns + [n], rest, next))
  {
  }

  lemma {:induction false} ReadEmittedAll(s: State, ns: seq<Node>, rest: ByteString, t: Tables)
    requires AllWellFormed(ns, t.shapes) && Agrees(t, s, EmitAll(s, ns))
    ensures ReadMany(Written(s, EmitAll(s, ns)) + rest, |s.sizes|, |ns|, t) == Some((ns, rest, |EmitAll(s, ns).sizes|))
    decreases ns, 0
  {
    if ns == [] {
      assert Written(s, s) + rest == rest;
    } else {
      var front, last := ns[..|ns| - 1], ns[|ns| - 1];
      assert front + [last] == ns;
      var m := EmitAll(s, front);
      var r := Emit(m, last);
      WrittenSplit(s, m, r);
      Associate(Written(s, m), Written(m, r), rest);
      AgreesFront(s, front, last, t);
      ReadEmittedAll(s, front, Written(m, r) + rest, t);
      ReadEmitted(m, last, rest, t);
      ReadOneMore(Written(s, r) + rest, |s.sizes|, t, front, Written(m, r) + rest, |m.sizes|, last, rest, |r.sizes|);
    }
  }
}
