/** The streaming builder.  A ghost forest records which tree the calls so far have written
    and which lists and elements are still open; every call keeps the buffer, the size
    table and the type table equal to what that forest is written as. */
module ObjFmtBuilder {
  import opened Bytes
  import opened Wrappers
  import Lists
  import opened ObjFmtTree
  import opened ObjFmtReader
  import opened ObjFmtRoundTrip

  const Int32Type := Ascii("System.Int32")
  const UInt32Type := Ascii("System.UInt32")
  const UInt64Type := Ascii("System.UInt64")
  const BooleanType := Ascii("System.Boolean")
  const StringType := Ascii("System.String")
  const DateTimeType := Ascii("System.DateTime")
  const GuidType := Ascii("System.Guid")
  const BytesType := Ascii("System.Byte[]")
  const ResourceIdType := Ascii("Game.Shared.ResourceId")
  const UidType := Ascii("Game.Shared.UID")
  const GemType := Ascii("Game.Shared.Mechanics.EGemTypesNew")
  const UInt64ListType := Ascii("System.Collections.Generic.List`1#System.UInt64")
  const Int32ListType := Ascii("System.Collections.Generic.List`1#System.Int32")
  const ResourceIdListType := Ascii("System.Collections.Generic.List`1#Game.Shared.ResourceId")
  const GemEntryType := Ascii("System.Collections.Generic.KeyValuePair`2#System.UInt64!Game.Shared.Mechanics.EGemTypesNew")
  const StringEntryType := Ascii("System.Collections.Generic.KeyValuePair`2#System.UInt64!System.String")

  // ------------------------------------------------------------- what each call writes

  type int32 = x: int | -0x8000_0000 <= x < 0x8000_0000

  function IntNode(name: ByteString, v: int32): Node {
    Node(name, Int32Type, Number(4, Unsigned32(v)))
  }

  /** The signed number that the four bytes of a field stand for. */
  predicate IsInt(n: Node, v: int) {
    n.payload.Number? && n.payload.width == 4 && Signed32(FromLittleEndian(LittleEndian(n.payload.value, 4))) == v
  }

  lemma IntNodeIsInt(name: ByteString, v: int32)
    ensures IsInt(IntNode(name, v), v)
  {
    SignedRoundTrip(v);
  }

  /** A list of signed numbers, named by their positions. */
  ghost predicate AreInts(ns: seq<Node>, vs: seq<int>) {
    |ns| == |vs| && forall i :: 0 <= i < |vs| ==> ns[i].name == Decimal(i) && IsInt(ns[i], vs[i])
  }

  lemma {:induction false} IntNodesAreInts(vs: seq<int32>)
    ensures AreInts(IntNodes(vs), vs)
  {
    if vs != [] {
      var n := |vs| - 1;
      IntNodesAreInts(vs[..n]);
      IntNodeIsInt(Decimal(n), vs[n]);
    }
  }

  /** Whatever signed numbers a call wrote as the field `n`, `read` holds them. */
  ghost predicate HoldsNumbers(n: Node, read: Node) {
    && (forall name, v: int32 :: n == IntNode(name, v) ==> IsInt(read, v))
    && (forall name, typ, v: int32 ::
          n == EnumNode(name, typ, v) ==> read.payload.Struct? && |read.payload.props| == 1 && IsInt(read.payload.props[0], v))
    && (forall name, vs: seq<int32> :: n == IntListNode(name, vs) ==> read.payload.Items? && AreInts(read.payload.items, vs))
  }

  lemma NumbersHeld(n: Node)
    ensures HoldsNumbers(n, n)
  {
    forall name, v: int32 | n == IntNode(name, v) ensures IsInt(n, v) { IntNodeIsInt(name, v); }
    forall name, typ, v: int32 | n == EnumNode(name, typ, v) ensures IsInt(n.payload.props[0], v) {
      IntNodeIsInt(Ascii("value__"), v);
    }
    forall name, vs: seq<int32> | n == IntListNode(name, vs) ensures AreInts(n.payload.items, vs) { IntNodesAreInts(vs); }
  }

  function EnumNode(name: ByteString, typ: ByteString, v: int32): Node {
    StructNode(name, typ, [IntNode(Ascii("value__"), v)])
  }

  function IntListNode(name: ByteString, vs: seq<int32>): Node { ListNode(name, Int32ListType, IntNodes(vs)) }

  function ULongNode(name: ByteString, v: nat): Node { Node(name, UInt64Type, Number(8, v)) }

  /** A GUID is counted in characters but written in UTF-8. */
  function GuidNode(name: ByteString, guid: string): Node { Node(name, GuidType, Text(|guid|, Utf8(guid))) }

  function TextNode(name: ByteString, typ: ByteString, text: ByteString): Node { Node(name, typ, Text(|text|, text)) }

  function StructNode(name: ByteString, typ: ByteString, props: seq<Node>): Node { Node(name, typ, Struct(|props|, props)) }

  function ListNode(name: ByteString, typ: ByteString, items: seq<Node>): Node { Node(name, typ, Items(|items|, items)) }

  function ResourceIdNode(name: ByteString, guid: string): Node {
    StructNode(name, ResourceIdType, [GuidNode(Ascii("guid"), guid)])
  }

  function GemNode(name: ByteString, gem: nat): Node {
    StructNode(name, GemType, [ULongNode(Ascii("value__"), gem)])
  }

  /** A dictionary entry: a 64-bit key and a value. */
  function EntryNode(index: nat, typ: ByteString, key: nat, value: Node): Node {
    StructNode(Decimal(index), typ, [ULongNode(Ascii("key"), key), value])
  }

  function ULongNodes(values: seq<nat>): (r: seq<Node>)
    ensures |r| == |values| && forall i :: 0 <= i < |r| ==> r[i] == ULongNode(Decimal(i), values[i])
  {
    if values == [] then [] else
      var n := |values| - 1;
      ULongNodes(values[..n]) + [ULongNode(Decimal(n), values[n])]
  }

  function ResourceIdNodes(guids: seq<string>): (r: seq<Node>)
    ensures |r| == |guids| && forall i :: 0 <= i < |r| ==> r[i] == ResourceIdNode(Decimal(i), guids[i])
  {
    if guids == [] then [] else
      var n := |guids| - 1;
      ResourceIdNodes(guids[..n]) + [ResourceIdNode(Decimal(n), guids[n])]
  }

  function IntNodes(values: seq<int32>): (r: seq<Node>)
    ensures |r| == |values|
  {
    if values == [] then [] else
      var n := |values| - 1;
      IntNodes(values[..n]) + [IntNode(Decimal(n), values[n])]
  }

  lemma ULongNodeNext(s: seq<nat>, i: nat)
    requires i < |s|
    ensures ULongNodes(s[..i + 1]) == ULongNodes(s[..i]) + [ULongNode(Decimal(i), s[i])]
  {
    assert s[..i + 1][..i] == s[..i];
  }

  lemma ResourceIdNodeNext(s: seq<string>, i: nat)
    requires i < |s|
    ensures ResourceIdNodes(s[..i + 1]) == ResourceIdNodes(s[..i]) + [ResourceIdNode(Decimal(i), s[i])]
  {
    assert s[..i + 1][..i] == s[..i];
  }

  lemma IntNodeNext(s: seq<int32>, i: nat)
    requires i < |s|
    ensures IntNodes(s[..i + 1]) == IntNodes(s[..i]) + [IntNode(Decimal(i), s[i])]
  {
    assert s[..i + 1][..i] == s[..i];
  }

  // ------------------------------------------------------------- bytes on the wire

  lemma HexOne(b: byte, rest: ByteString)
    ensures Hex([b] + rest) == [HexDigit(b / 16), HexDigit(b % 16)] + Hex(rest)
  {
    assert ([b] + rest)[1..] == rest;
  }

  /** The four bytes of a number as hexadecimal text, low byte first. */
  lemma Hex4(v: nat)
    ensures LittleEndian(v, 4) == [v % 256, v / 256 % 256, v / 256 / 256 % 256, v / 256 / 256 / 256 % 256]
    ensures
      Hex(LittleEndian(v, 4)) ==
      [HexDigit(v % 256 / 16), HexDigit(v % 256 % 16), HexDigit(v / 256 % 256 / 16), HexDigit(v / 256 % 256 % 16),
       HexDigit(v / 256 / 256 % 256 / 16), HexDigit(v / 256 / 256 % 256 % 16),
       HexDigit(v / 256 / 256 / 256 % 256 / 16), HexDigit(v / 256 / 256 / 256 % 256 % 16)]
  {
    var a, b, c, d := v % 256, v / 256 % 256, v / 256 / 256 % 256, v / 256 / 256 / 256 % 256;
    assert LittleEndian(v / 256 / 256 / 256, 1) == [d];
    assert LittleEndian(v / 256 / 256, 2) == [c, d];
    assert LittleEndian(v / 256, 3) == [b, c, d];
    assert LittleEndian(v, 4) == [a, b, c, d];
    HexOne(d, []);
    HexOne(c, [d]);
    HexOne(b, [c, d]);
    HexOne(a, [b, c, d]);
    assert [a] + [b, c, d] == [a, b, c, d] && [b] + [c, d] == [b, c, d] && [c] + [d] == [c, d] && [d] + [] == [d];
  }

  /** Numbers as the recorded documents have them: 42, 100 and -1. */
  lemma RecordedNumbers()
    ensures Hex(LittleEndian(Unsigned32(42), 4)) == Ascii("2a000000")
    ensures Hex(LittleEndian(Unsigned32(100), 4)) == Ascii("64000000")
    ensures Hex(LittleEndian(Unsigned32(-1), 4)) == Ascii("ffffffff")
  {
    FortyTwo();
    Hundred();
    AllOnes();
  }

  lemma FortyTwo()
    ensures Hex(LittleEndian(Unsigned32(42), 4)) == Ascii("2a000000")
  {
    Hex4(42);
    assert Ascii("2a000000") == [50, 97, 48, 48, 48, 48, 48, 48];
  }

  lemma Hundred()
    ensures Hex(LittleEndian(Unsigned32(100), 4)) == Ascii("64000000")
  {
    Hex4(100);
    assert Ascii("64000000") == [54, 52, 48, 48, 48, 48, 48, 48];
  }

  lemma AllOnes()
    ensures Hex(LittleEndian(Unsigned32(-1), 4)) == Ascii("ffffffff")
  {
    Hex4(0xFFFF_FFFF);
    assert Ascii("ffffffff") == [102, 102, 102, 102, 102, 102, 102, 102];
  }

  /** A recorded field: `UnreadMailCount;1;1;0;05000000;` is the number 5 as the first field behind the
      root, with 16 bytes behind its name. */
  lemma RecordedField(s: State, name: ByteString)
    requires |s.sizes| == 1 && |s.types| == 1 && s.types[0] != Int32Type
    ensures Written(s, Emit(s, IntNode(name, 5))) == name + Ascii(";1;1;0;05000000;")
    ensures Emit(s, IntNode(name, 5)).sizes == s.sizes + [|name| + 16]
  {
    var n := IntNode(name, 5);
    SecondType(s.types, Int32Type);
    FirstFieldBytes(s, n);
    FiveInHex();
    RecordedBytes(name);
    var p := EmitPayload(Open(s, name, Int32Type, 0), n.payload);
    assert p.sizes == s.sizes + [0] && Emit(s, n).sizes == p.sizes[1 := |p.buf| - |s.buf|];
    assert |Emit(s, n).buf| == |s.buf| + |Written(s, Emit(s, n))|;
  }

  /** Recorded headers: `;4;3;0;` is slot 4 with type 3 and no properties, `;13;9;1;` slot 13 with type 9
      and one. */
  lemma RecordedHeaders(name: ByteString)
    ensures HeaderBytes(name, 4, 3, 0) == name + Ascii(";4;3;0;")
    ensures HeaderBytes(name, 13, 9, 1) == name + Ascii(";13;9;1;")
  {
    assert Decimal(4) == [52] && Decimal(3) == [51] && Decimal(0) == [48] && Decimal(9) == [57] && Decimal(1) == [49];
    assert Decimal(13) == [49, 51];
    assert HeaderBytes(name, 4, 3, 0) == name + [59, 52, 59, 51, 59, 48, 59];
    assert Ascii(";4;3;0;") == [59, 52, 59, 51, 59, 48, 59];
    assert HeaderBytes(name, 13, 9, 1) == name + [59, 49, 51, 59, 57, 59, 49, 59];
    assert Ascii(";13;9;1;") == [59, 49, 51, 59, 57, 59, 49, 59];
  }

  /** Recorded contents: a text behind its length, a boolean as a digit. */
  lemma RecordedLeaves()
    ensures LeafBytes(Text(5, Ascii("hello"))) == Ascii("5;hello")
    ensures LeafBytes(Flag(true)) == Ascii("1") && LeafBytes(Flag(false)) == Ascii("0")
  {
    assert Decimal(5) == [53];
    assert Ascii("5;hello") == [53, 59] + Ascii("hello");
  }

  lemma FiveInHex()
    ensures Hex(LittleEndian(Unsigned32(5), 4)) == Ascii("05000000")
  {
    Hex4(5);
    assert Ascii("05000000") == [48, 53, 48, 48, 48, 48, 48, 48];
  }

  lemma SecondType(types: seq<ByteString>, t: ByteString)
    requires |types| == 1 && types[0] != t
    ensures IndexOf(Intern(types, t), t) == 1
  {
    var more := Intern(types, t);
    assert more == [types[0], t] && more[1..] == [t];
  }

  lemma FirstFieldBytes(s: State, n: Node)
    requires n.payload.Number?
    ensures
      var o := Open(s, n.name, n.typ, 0);
      Written(s, Emit(s, n)) == HeaderBytes(n.name, |s.sizes|, IndexOf(o.types, n.typ), 0) + LeafBytes(n.payload)
  {
    var o := Open(s, n.name, n.typ, 0);
    EmittedBytes(s, n, []);
    assert Written(o, EmitPayload(o, n.payload)) == LeafBytes(n.payload);
    Lists.Unit(LeafBytes(n.payload));
    Lists.Unit(Written(s, Emit(s, n)));
  }

  lemma RecordedBytes(name: ByteString)
    requires Hex(LittleEndian(5, 4)) == Ascii("05000000")
    ensures HeaderBytes(name, 1, 1, 0) + (Hex(LittleEndian(5, 4)) + [Sep]) == name + Ascii(";1;1;0;05000000;")
  {
    assert Decimal(1) == [49] && Decimal(0) == [48];
    assert Ascii(";1;1;0;05000000;") == [59, 49, 59, 49, 59, 48, 59] + Ascii("05000000") + [59];
    assert HeaderBytes(name, 1, 1, 0) == name + [59, 49, 59, 49, 59, 48, 59];
  }

  // ----------------------------------------------------- the forest written so far

  /** A list (with its declared item count) or element (with its property count) being written. */
  datatype Frame = Frame(name: ByteString, typ: ByteString, list: bool, declared: nat, children: seq<Node>)
  {
    function AsNode(): Node {
      Node(name, typ, if list then Items(declared, children) else Struct(declared, children))
    }
  }

  datatype Forest = Forest(root: ByteString, fields: seq<Node>, frames: seq<Frame>)
  {
    function Add(n: Node): (r: Forest)
      ensures r.frames == [] <==> frames == []
      ensures frames != [] ==> r.Below() == Below() && r.Top() == Top().(children := Top().children + [n])
    {
      if frames == [] then this.(fields := fields + [n])
      else
        var top := frames[|frames| - 1];
        this.(frames := frames[..|frames| - 1] + [top.(children := top.children + [n])])
    }

    function Push(f: Frame): (r: Forest)
      ensures r.frames != [] && r.Below() == this && r.Top() == f
    {
      this.(frames := frames + [f])
    }

    function Below(): Forest
      requires frames != []
    {
      this.(frames := frames[..|frames| - 1])
    }

    function Top(): Frame
      requires frames != []
    {
      frames[|frames| - 1]
    }

    /** Closing the innermost frame makes it a field of the one below. */
    function Pop(): Forest
      requires frames != []
    {
      Below().Add(Top().AsNode())
    }
  }

  function OpenFrame(s: State, f: Frame): State {
    if f.list then Append(Open(s, f.name, f.typ, 0), Decimal(f.declared) + [Sep])
    else Open(s, f.name, f.typ, f.declared)
  }

  function Layered(f: Forest): State
    decreases |f.frames|
  {
    if f.frames == [] then EmitAll(Start(f.root), f.fields)
    else EmitAll(OpenFrame(Layered(f.Below()), f.Top()), f.Top().children)
  }

  lemma AddLayered(f: Forest, n: Node)
    ensures Layered(f.Add(n)) == Emit(Layered(f), n)
  {
    if f.frames == [] {
      EmitOneMore(Start(f.root), f.fields, n);
    } else {
      assert f.Add(n).Below() == f.Below();
      EmitOneMore(OpenFrame(Layered(f.Below()), f.Top()), f.Top().children, n);
    }
  }

  lemma EmitOneMore(s: State, ns: seq<Node>, n: Node)
    ensures EmitAll(s, ns + [n]) == Emit(EmitAll(s, ns), n)
  {
    assert (ns + [n])[..|ns|] == ns;
  }

  lemma PushLayered(f: Forest, frame: Frame)
    requires frame.children == []
    ensures Layered(f.Push(frame)) == OpenFrame(Layered(f), frame)
  {
    assert f.Push(frame).Below() == f;
  }

  /** A GUID is counted in characters: its field is well formed exactly when it is ASCII. */
  lemma GuidCounted(name: ByteString, guid: string, shapes: Shapes)
    requires SepFree(name) && shapes(GuidType) == TextShape
    ensures WellFormed(GuidNode(name, guid), shapes) <==> IsAscii(guid)
  {
    AsciiLength(guid);
    SepFreeGuidType();
  }

  lemma SepFreeGuidType()
    ensures SepFree(GuidType)
  {
    assert GuidType == [83, 121, 115, 116, 101, 109, 46, 71, 117, 105, 100];
  }

  /** Two fields in an element that declares two. */
  lemma TwoChildren(f: Forest, frame: Frame, a: Node, b: Node)
    requires !frame.list && frame.declared == 2 && frame.children == []
    ensures f.Push(frame).Add(a).Add(b).Pop() == f.Add(StructNode(frame.name, frame.typ, [a, b]))
  {
    var g := f.Push(frame).Add(a).Add(b);
    assert g.Below() == f && g.Top().children == [a, b];
  }

  /** Back-patching the slot of a completed frame turns it into a written field. */
  lemma PopLayered(f: Forest)
    requires f.frames != []
    ensures var outer, s := Layered(f.Below()), Layered(f);
            |outer.sizes| < |s.sizes| && |outer.buf| <= |s.buf|
            && Layered(f.Pop()) == Close(s, outer)
  {
    AddLayered(f.Below(), f.Top().AsNode());
  }

  lemma HeaderInPieces(buf: ByteString, name: ByteString, slot: nat, t: nat, props: nat)
    ensures buf + name + [Sep] + Decimal(slot) + [Sep] + Decimal(t) + [Sep] + Decimal(props) + [Sep]
         == buf + HeaderBytes(name, slot, t, props)
  {
    var front := name + [Sep] + Decimal(slot) + [Sep];
    Appended4(buf, name, [Sep], Decimal(slot), [Sep]);
    Appended4(buf + front, Decimal(t), [Sep], Decimal(props), [Sep]);
    Appended4(front, Decimal(t), [Sep], Decimal(props), [Sep]);
    Lists.Associate(buf, front, Decimal(t) + [Sep] + Decimal(props) + [Sep]);
  }

  /** Adding a field without nested fields: header, contents, and its slot patched. */
  lemma AddLeaf(f: Forest, n: Node)
    requires !n.payload.Struct? && !n.payload.Items?
    ensures Layered(f.Add(n)) == LeafWritten(Layered(f), n.name, n.typ, LeafBytes(n.payload))
  {
    AddLayered(f, n);
  }

  function LeafWritten(s: State, name: ByteString, typ: ByteString, bytes: ByteString): State {
    Close(Append(Open(s, name, typ, 0), bytes), s)
  }

  class Builder {
    var buf: ByteString
    var sizes: seq<nat>
    var types: seq<ByteString>
    ghost var forest: Forest

    ghost function Now(): State
      reads this
    {
      State(buf, sizes, types)
    }

    ghost predicate Valid()
      reads this
    {
      Now() == Layered(forest)
    }

    constructor (root: ByteString)
      ensures Valid() && forest == Forest(root, [], [])
    {
      types := [root];
      buf := RootHeader([48, 48]);
      sizes := [|RootHeader([48, 48])|];
      forest := Forest(root, [], []);
    }

    // -------------------------------------------------------------- internal helpers

    method W(bytes: ByteString)
      modifies this`buf
      ensures buf == old(buf) + bytes
    {
      buf := buf + bytes;
    }

    method AddType(typ: ByteString) returns (t: nat)
      modifies this`types
      ensures types == Intern(old(types), typ) && t == IndexOf(types, typ)
    {
      if typ !in types {
        types := types + [typ];
      }
      t := IndexOf(types, typ);
    }

    /** The prologue every field shares: take a slot, intern the type, write the header. */
    method Header(name: ByteString, typ: ByteString, props: nat) returns (slot: nat, start: nat)
      modifies this`buf, this`sizes, this`types
      ensures Now() == Open(old(Now()), name, typ, props)
      ensures slot == |old(sizes)| && start == |old(buf)|
    {
      ghost var before := buf;
      start := |buf|;
      slot := |sizes|;
      sizes := sizes + [0];
      var t := AddType(typ);
      W(name); W([Sep]); W(Decimal(slot)); W([Sep]);
      W(Decimal(t)); W([Sep]); W(Decimal(props)); W([Sep]);
      HeaderInPieces(before, name, slot, t, props);
    }

    /** The slot taken in `before` gets the number of bytes written since. */
    method SetSize(slot: nat, start: nat, ghost before: State)
      requires slot == |before.sizes| < |sizes| && start == |before.buf| <= |buf|
      modifies this`sizes
      ensures Now() == Close(old(Now()), before)
    {
      sizes := sizes[slot := |buf| - start];
    }

    // --------------------------------------------------------------- simple fields

    method WriteLeaf(name: ByteString, typ: ByteString, bytes: ByteString)
      modifies this`buf, this`sizes, this`types
      ensures Now() == LeafWritten(old(Now()), name, typ, bytes)
    {
      ghost var before := Now();
      var slot, start := Header(name, typ, 0);
      W(bytes);
      SetSize(slot, start, before);
    }

    /** A field without nested fields, given the bytes of its contents. */
    method Leaf(name: ByteString, typ: ByteString, bytes: ByteString, ghost contents: Payload)
      requires Valid() && !contents.Struct? && !contents.Items? && bytes == LeafBytes(contents)
      modifies this
      ensures Valid() && forest == old(forest).Add(Node(name, typ, contents))
    {
      AddLeaf(forest, Node(name, typ, contents));
      WriteLeaf(name, typ, bytes);
      forest := forest.Add(Node(name, typ, contents));
    }

    method FieldNumber(name: ByteString, typ: ByteString, width: nat, value: nat)
      requires Valid()
      modifies this
      ensures Valid() && forest == old(forest).Add(Node(name, typ, Number(width, value)))
    {
      Leaf(name, typ, Hex(LittleEndian(value, width)) + [Sep], Number(width, value));
    }

    method FieldInt(name: ByteString, value: int32)
      requires Valid()
      modifies this
      ensures Valid() && forest == old(forest).Add(IntNode(name, value))
      ensures HoldsNumbers(IntNode(name, value), IntNode(name, value))
    {
      NumbersHeld(IntNode(name, value));
      FieldNumber(name, Int32Type, 4, Unsigned32(value));
    }

    method FieldUlong(name: ByteString, value: nat)
      requires Valid() && value < Pow256(8)
      modifies this
      ensures Valid() && forest == old(forest).Add(ULongNode(name, value))
    {
      FieldNumber(name, UInt64Type, 8, value);
    }

    method FieldUint(name: ByteString, value: nat)
      requires Valid() && value < Pow256(4)
      modifies this
      ensures Valid() && forest == old(forest).Add(Node(name, UInt32Type, Number(4, value)))
    {
      FieldNumber(name, UInt32Type, 4, value);
    }

    method FieldBool(name: ByteString, value: bool)
      requires Valid()
      modifies this
      ensures Valid() && forest == old(forest).Add(Node(name, BooleanType, Flag(value)))
    {
      Leaf(name, BooleanType, [if value then 49 else 48], Flag(value));
    }

    method FieldText(name: ByteString, typ: ByteString, text: ByteString)
      requires Valid()
      modifies this
      ensures Valid() && forest == old(forest).Add(TextNode(name, typ, text))
    {
      Leaf(name, typ, Decimal(|text|) + [Sep] + text, Text(|text|, text));
    }

    method FieldStr(name: ByteString, text: ByteString)
      requires Valid()
      modifies this
      ensures Valid() && forest == old(forest).Add(TextNode(name, StringType, text))
    {
      FieldText(name, StringType, text);
    }

    method FieldDatetime(name: ByteString, text: ByteString)
      requires Valid()
      modifies this
      ensures Valid() && forest == old(forest).Add(TextNode(name, DateTimeType, text))
    {
      FieldText(name, DateTimeType, text);
    }

    method FieldGuid(name: ByteString, guid: string)
      requires Valid()
      modifies this
      ensures Valid() && forest == old(forest).Add(GuidNode(name, guid))
    {
      var text := Utf8(guid);
      Leaf(name, GuidType, Decimal(|guid|) + [Sep] + text, Text(|guid|, text));
    }

    method FieldBytes(name: ByteString, data: ByteString)
      requires Valid() && |data| < Pow256(4)
      modifies this
      ensures Valid() && forest == old(forest).Add(Node(name, BytesType, Blob(data)))
    {
      Leaf(name, BytesType, BigEndian(|data|, 4) + data, Blob(data));
    }

    // ------------------------------------------------- lists, elements and their closing

    method BeginList(name: ByteString, typ: ByteString, count: nat) returns (slot: nat, start: nat)
      requires Valid()
      modifies this
      ensures Valid() && forest == old(forest).Push(Frame(name, typ, true, count, []))
      ensures slot == |old(sizes)| && start == |old(buf)|
    {
      PushLayered(forest, Frame(name, typ, true, count, []));
      slot, start := Header(name, typ, 0);
      W(Decimal(count) + [Sep]);
      forest := forest.Push(Frame(name, typ, true, count, []));
    }

    method BeginElement(name: ByteString, typ: ByteString, props: nat) returns (slot: nat, start: nat)
      requires Valid()
      modifies this
      ensures Valid() && forest == old(forest).Push(Frame(name, typ, false, props, []))
      ensures slot == |old(sizes)| && start == |old(buf)|
    {
      PushLayered(forest, Frame(name, typ, false, props, []));
      slot, start := Header(name, typ, props);
      forest := forest.Push(Frame(name, typ, false, props, []));
    }

    /** The caller's closing step for the innermost open list or element. */
    method CloseTop(slot: nat, start: nat)
      requires Valid() && forest.frames != []
      requires slot == |Layered(forest.Below()).sizes| && start == |Layered(forest.Below()).buf|
      modifies this
      ensures Valid() && forest == old(forest).Pop()
    {
      ghost var outer, whole := Layered(forest.Below()), forest.Pop();
      PopLayered(forest);
      SetSize(slot, start, outer);
      forest := whole;
    }

    // ------------------------------------------------------------ fields of one element

    method FieldResourceId(name: ByteString, guid: string)
      requires Valid()
      modifies this
      ensures Valid() && forest == old(forest).Add(ResourceIdNode(name, guid))
    {
      var slot, start := BeginElement(name, ResourceIdType, 1);
      FieldGuid(Ascii("guid"), guid);
      CloseTop(slot, start);
    }

    method FieldEnum(name: ByteString, enumType: ByteString, value: int32)
      requires Valid()
      modifies this
      ensures Valid()
      ensures forest == old(forest).Add(EnumNode(name, enumType, value))
      ensures HoldsNumbers(EnumNode(name, enumType, value), EnumNode(name, enumType, value))
    {
      NumbersHeld(EnumNode(name, enumType, value));
      var slot, start := BeginElement(name, enumType, 1);
      FieldInt(Ascii("value__"), value);
      CloseTop(slot, start);
    }

    method FieldUid(name: ByteString, uid: nat)
      requires Valid() && uid < Pow256(8)
      modifies this
      ensures Valid()
      ensures forest == old(forest).Add(StructNode(name, UidType, [ULongNode(Ascii("m_UID64"), uid)]))
    {
      var slot, start := BeginElement(name, UidType, 1);
      FieldUlong(Ascii("m_UID64"), uid);
      CloseTop(slot, start);
    }

    // --------------------------------------------------------------- lists and entries

    method FieldUlongList(name: ByteString, values: seq<nat>)
      requires Valid() && forall v :: v in values ==> v < Pow256(8)
      modifies this
      ensures Valid() && forest == old(forest).Add(ListNode(name, UInt64ListType, ULongNodes(values)))
    {
      var slot, start := BeginList(name, UInt64ListType, |values|);
      assert values[..|values|] == values;
      for i := 0 to |values|
        invariant Valid() && forest.frames != [] && forest.Below() == old(forest)
        invariant forest.Top() == Frame(name, UInt64ListType, true, |values|, ULongNodes(values[..i]))
      {
        ULongNodeNext(values, i);
        assert values[i] in values;
        FieldUlong(Decimal(i), values[i]);
      }
      CloseTop(slot, start);
    }

    method FieldResourceIdList(name: ByteString, guids: seq<string>)
      requires Valid()
      modifies this
      ensures Valid() && forest == old(forest).Add(ListNode(name, ResourceIdListType, ResourceIdNodes(guids)))
    {
      var slot, start := BeginList(name, ResourceIdListType, |guids|);
      assert guids[..|guids|] == guids;
      for i := 0 to |guids|
        invariant Valid() && forest.frames != [] && forest.Below() == old(forest)
        invariant forest.Top() == Frame(name, ResourceIdListType, true, |guids|, ResourceIdNodes(guids[..i]))
      {
        ResourceIdNodeNext(guids, i);
        FieldResourceId(Decimal(i), guids[i]);
      }
      CloseTop(slot, start);
    }

    method IntList(name: ByteString, values: seq<int32>)
      requires Valid()
      modifies this
      ensures Valid() && forest == old(forest).Add(IntListNode(name, values))
      ensures HoldsNumbers(IntListNode(name, values), IntListNode(name, values))
    {
      NumbersHeld(IntListNode(name, values));
      var slot, start := BeginList(name, Int32ListType, |values|);
      assert values[..|values|] == values;
      for i := 0 to |values|
        invariant Valid() && forest.frames != [] && forest.Below() == old(forest)
        invariant forest.Top() == Frame(name, Int32ListType, true, |values|, IntNodes(values[..i]))
      {
        IntNodeNext(values, i);
        FieldInt(Decimal(i), values[i]);
      }
      CloseTop(slot, start);
    }

    /** The gem of a dictionary entry: an enum whose `value__` is 64 bits wide. */
    method FieldGem(name: ByteString, gem: nat)
      requires Valid() && gem < Pow256(8)
      modifies this
      ensures Valid() && forest == old(forest).Add(GemNode(name, gem))
    {
      var slot, start := BeginElement(name, GemType, 1);
      FieldUlong(Ascii("value__"), gem);
      CloseTop(slot, start);
    }

    method AddDictEntryGem(index: nat, key: nat, gem: nat)
      requires Valid() && key < Pow256(8) && gem < Pow256(8)
      modifies this
      ensures Valid()
      ensures forest == old(forest).Add(EntryNode(index, GemEntryType, key, GemNode(Ascii("value"), gem)))
    {
      var slot, start := BeginElement(Decimal(index), GemEntryType, 2);
      FieldUlong(Ascii("key"), key);
      FieldGem(Ascii("value"), gem);
      TwoChildren(old(forest), Frame(Decimal(index), GemEntryType, false, 2, []), ULongNode(Ascii("key"), key),
                  GemNode(Ascii("value"), gem));
      CloseTop(slot, start);
    }

    method AddDictEntryUint64Str(index: nat, key: nat, text: ByteString)
      requires Valid() && key < Pow256(8)
      modifies this
      ensures Valid()
      ensures forest == old(forest).Add(EntryNode(index, StringEntryType, key, TextNode(Ascii("value"), StringType, text)))
    {
      var slot, start := BeginElement(Decimal(index), StringEntryType, 2);
      FieldUlong(Ascii("key"), key);
      FieldStr(Ascii("value"), text);
      TwoChildren(old(forest), Frame(Decimal(index), StringEntryType, false, 2, []), ULongNode(Ascii("key"), key),
                  TextNode(Ascii("value"), StringType, text));
      CloseTop(slot, start);
    }

    // ------------------------------------------------------------------------ finishing

    method SetRootProps(count: nat)
      requires RootCountPos <= |buf|
      modifies this`buf
      ensures buf == SetRootCount(old(buf), count)
    {
      buf := Overwrite(buf, RootCountPos, CountDigits(count) + [Sep]);
    }

    /** Patches the data length, then writes the two tables. */
    method WriteTables() returns (out: ByteString)
      requires |sizes| > 0
      modifies this`buf, this`sizes
      ensures out == buf == Finished(old(Now()))
    {
      sizes := sizes[0 := |buf|];
      W(Join(types));
      W([NewLine]);
      ghost var before := buf;
      assert sizes[..|sizes|] == sizes;
      for i := 0 to |sizes|
        invariant sizes == old(sizes)[0 := |old(buf)|] && types == old(types)
        invariant buf == before + Join(Decimals(sizes[..i]))
      {
        TableGrows(before, sizes, i);
        if i > 0 {
          W([Sep]);
        }
        W(Decimal(sizes[i]));
      }
      out := buf;
    }

    /** When everything opened was closed and the given root count is right and has at most two
        digits, the finished bytes decode to exactly the tree the calls built, if and only if it is
        well formed. A tree that is not is decoded from no bytes at all. Every signed number that a
        call wrote is the one decoded. */
    method Finish(count: Option<nat>) returns (out: ByteString)
      requires Valid()
      modifies this
      ensures
        var d := Document(old(forest).root, old(forest).fields);
        old(forest).frames == [] && count == Some(|d.fields|) && |d.fields| <= 99 ==>
          && out == Encode(d, |d.fields|)
          && forall shapes :: Decode(out, shapes) == Some(d) <==> SepFree(d.root) && AllWellFormed(d.fields, shapes)
      ensures
        var d := Document(old(forest).root, old(forest).fields);
        forall shapes :: Decode(out, shapes) == Some(d) ==> SepFree(d.root) && AllWellFormed(d.fields, shapes)
      ensures
        var fields := old(forest).fields;
        forall shapes, i ::
          Decode(out, shapes) == Some(Document(old(forest).root, fields)) && 0 <= i < |fields| ==>
            HoldsNumbers(fields[i], Decode(out, shapes).value.fields[i])
      ensures count == None ==> out == Finished(Layered(old(forest)))
    {
      LayeredHasRoot(forest);
      forall i | 0 <= i < |forest.fields| ensures HoldsNumbers(forest.fields[i], forest.fields[i]) {
        NumbersHeld(forest.fields[i]);
      }
      ghost var d := Document(forest.root, forest.fields);
      ghost var s := Now();
      if count.Some? {
        SetRootProps(count.value);
      }
      out := WriteTables();
      forall shapes ensures Decode(out, shapes) == Some(d) ==> SepFree(d.root) && AllWellFormed(d.fields, shapes) {
        DecodesWellFormed(out, shapes);
      }
      if old(forest).frames == [] && count == Some(|d.fields|) && |d.fields| <= 99 {
        assert out == Encode(d, |d.fields|);
        forall shapes
          ensures Decode(out, shapes) == Some(d) <==> SepFree(d.root) && AllWellFormed(d.fields, shapes)
        {
          DecodeEncodeIff(d, shapes);
        }
      }
    }
  }

  lemma {:induction false} LayeredHasRoot(f: Forest)
    ensures Start(f.root).buf <= Layered(f).buf && |Layered(f).sizes| > 0
    ensures |Start(f.root).buf| == 8
    decreases |f.frames|
  {
    if f.frames != [] {
      LayeredHasRoot(f.Below());
    }
  }

  lemma TableGrows(before: ByteString, sizes: seq<nat>, i: nat)
    requires i < |sizes|
    ensures var sofar := before + Join(Decimals(sizes[..i]));
            before + Join(Decimals(sizes[..i + 1])) == (if i > 0 then sofar + [Sep] else sofar) + Decimal(sizes[i])
  {
    assert sizes[..i + 1][..i] == sizes[..i];
    JoinSnoc(Decimals(sizes[..i]), Decimal(sizes[i]));
  }

  lemma {:induction false} JoinSnoc(xs: seq<ByteString>, x: ByteString)
    ensures Join(xs + [x]) == if xs == [] then x else Join(xs) + [Sep] + x
  {
    if |xs| > 1 {
      assert (xs + [x])[1..] == xs[1..] + [x];
      JoinSnoc(xs[1..], x);
    }
  }
}
