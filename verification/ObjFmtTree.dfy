/** What an ObjFmt document is, and the bytes a tree of fields is written as. */
module ObjFmtTree {
  import opened Bytes

  const Sep: byte := 59
  const NewLine: byte := 10

  /** A field: name, .NET type name and contents. */
  datatype Node = Node(name: ByteString, typ: ByteString, payload: Payload)

  /** Contents. Texts, structures and lists are written behind a count that the caller states; it is
      part of the tree, right or wrong. */
  datatype Payload =
    | Number(width: nat, value: nat)
    | Flag(on: bool)
    | Text(length: nat, text: ByteString)
    | Blob(data: ByteString)
    | Struct(declared: nat, props: seq<Node>)
    | Items(declared: nat, items: seq<Node>)

  /** How the values of a type are laid out: what the reader knows about each type name. */
  datatype Shape = IntegerShape(width: nat) | BoolShape | TextShape | BlobShape | StructShape | ListShape

  type Shapes = ByteString -> Shape

  predicate SepFree(s: ByteString) { Sep !in s }

  predicate WellFormed(n: Node, shapes: Shapes)
    decreases n, 0
  {
    && SepFree(n.name) && SepFree(n.typ)
    && match n.payload
       case Number(width, value) => shapes(n.typ) == IntegerShape(width) && value < Pow256(width)
       case Flag(_) => shapes(n.typ) == BoolShape
       case Text(length, text) => shapes(n.typ) == TextShape && length == |text|
       case Blob(data) => shapes(n.typ) == BlobShape && |data| < Pow256(4)
       case Struct(declared, props) =>
         shapes(n.typ) == StructShape && declared == |props| && AllWellFormed(props, shapes)
       case Items(declared, items) =>
         shapes(n.typ) == ListShape && declared == |items| && AllWellFormed(items, shapes)
  }

  predicate AllWellFormed(ns: seq<Node>, shapes: Shapes)
    decreases ns, 0
  {
    ns == [] || (AllWellFormed(ns[..|ns| - 1], shapes) && WellFormed(ns[|ns| - 1], shapes))
  }

  // -------------------------------------------------------------- the writer's state

  /** Bytes written, size table (0 in a slot still open) and type table so far. */
  datatype State = State(buf: ByteString, sizes: seq<nat>, types: seq<ByteString>)

  function Intern(types: seq<ByteString>, t: ByteString): (r: seq<ByteString>)
    ensures types <= r && t in r
  {
    if t in types then types else types + [t]
  }

  function IndexOf(types: seq<ByteString>, t: ByteString): (i: nat)
    requires t in types
    ensures i < |types| && types[i] == t && t !in types[..i]
  {
    if types[0] == t then 0 else
      assert types[1..][..IndexOf(types[1..], t)] == types[1..IndexOf(types[1..], t) + 1];
      1 + IndexOf(types[1..], t)
  }

  function HeaderBytes(name: ByteString, slot: nat, typ: nat, props: nat): ByteString {
    name + [Sep] + Decimal(slot) + [Sep] + Decimal(typ) + [Sep] + Decimal(props) + [Sep]
  }

  /** A field header: `name;slot;type;properties;`, with a fresh slot and the type interned. */
  function Open(s: State, name: ByteString, typ: ByteString, props: nat): State {
    var types := Intern(s.types, typ);
    State(s.buf + HeaderBytes(name, |s.sizes|, IndexOf(types, typ), props), s.sizes + [0], types)
  }

  function Append(s: State, bytes: ByteString): State {
    s.(buf := s.buf + bytes)
  }

  /** The slot opened in `before` gets the number of bytes written since. */
  function Close(s: State, before: State): State
    requires |before.sizes| < |s.sizes| && |before.buf| <= |s.buf|
  {
    s.(sizes := s.sizes[|before.sizes| := |s.buf| - |before.buf|])
  }

  function Props(p: Payload): nat {
    if p.Struct? then p.declared else 0
  }

  /** `later` continues `earlier`: everything already written stays, tables only grow. */
  predicate Continues(earlier: State, later: State) {
    && earlier.buf <= later.buf
    && earlier.sizes <= later.sizes
    && earlier.types <= later.types
  }

  function Emit(s: State, n: Node): (r: State)
    ensures Continues(s, r) && |s.sizes| < |r.sizes|
    decreases n, 1
  {
    Close(EmitPayload(Open(s, n.name, n.typ, Props(n.payload)), n.payload), s)
  }

  /** The bytes of a field's contents when no other field is nested in it. */
  function LeafBytes(p: Payload): ByteString
    requires !p.Struct? && !p.Items?
  {
    match p
    case Number(width, value) => Hex(LittleEndian(value, width)) + [Sep]
    case Flag(on) => [if on then 49 else 48]
    case Text(length, text) => Decimal(length) + [Sep] + text
    case Blob(data) => BigEndian(|data|, 4) + data
  }

  function EmitPayload(s: State, p: Payload): (r: State)
    ensures Continues(s, r)
    decreases p, 0
  {
    match p
    case Struct(_, props) => EmitAll(s, props)
    case Items(declared, items) => EmitAll(Append(s, Decimal(declared) + [Sep]), items)
    case _ => Append(s, LeafBytes(p))
  }

  function EmitAll(s: State, ns: seq<Node>): (r: State)
    ensures Continues(s, r)
    decreases ns, 0
  {
    if ns == [] then s else Emit(EmitAll(s, ns[..|ns| - 1]), ns[|ns| - 1])
  }

  // ---------------------------------------------------------------- whole documents

  datatype Document = Document(root: ByteString, fields: seq<Node>)

  function Join(xs: seq<ByteString>): ByteString {
    if xs == [] then [] else if |xs| == 1 then xs[0] else xs[0] + [Sep] + Join(xs[1..])
  }

  function Decimals(ns: seq<nat>): (r: seq<ByteString>)
    ensures |r| == |ns| && forall i :: 0 <= i < |ns| ==> r[i] == Decimal(ns[i])
  {
    if ns == [] then [] else Decimals(ns[..|ns| - 1]) + [Decimal(ns[|ns| - 1])]
  }

  /** The root property count as it is written: padded to two digits. */
  function CountDigits(n: nat): ByteString {
    if |Decimal(n)| < 2 then [48] + Decimal(n) else Decimal(n)
  }

  /** The root header `;0;0;NN;`. */
  function RootHeader(count: ByteString): ByteString {
    [] + [Sep] + Decimal(0) + [Sep] + Decimal(0) + [Sep] + count + [Sep]
  }

  const RootCountPos: nat := 5

  /** A new builder: the root header with a placeholder count, and its slot. */
  function Start(root: ByteString): State {
    State(RootHeader([48, 48]), [|RootHeader([48, 48])|], [root])
  }

  /** Writing into the middle of a byte stream. */
  function Overwrite(buf: ByteString, pos: nat, bytes: ByteString): ByteString
    requires pos <= |buf|
  {
    buf[..pos] + bytes + (if pos + |bytes| <= |buf| then buf[pos + |bytes|..] else [])
  }

  function SetRootCount(buf: ByteString, count: nat): ByteString
    requires RootCountPos <= |buf|
  {
    Overwrite(buf, RootCountPos, CountDigits(count) + [Sep])
  }

  /** The finished document: data, type table, newline, size table with the data's length first. */
  function Finished(s: State): ByteString
    requires |s.sizes| > 0
  {
    s.buf + Join(s.types) + [NewLine] + Join(Decimals(s.sizes[0 := |s.buf|]))
  }

  function Encode(d: Document, count: nat): ByteString {
    var s := EmitAll(Start(d.root), d.fields);
    assert |Start(d.root).buf| == 8;
    Finished(s.(buf := SetRootCount(s.buf, count)))
  }
}
