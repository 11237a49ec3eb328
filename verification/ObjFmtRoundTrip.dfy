/** Decoding a finished document gives back the tree that was written. */
module ObjFmtRoundTrip {
  import opened Bytes
  import opened Wrappers
  import opened ObjFmtTree
  import opened ObjFmtReader

  function LastNewLine(s: ByteString): (r: Option<nat>)
    ensures r.Some? ==> r.value < |s|
  {
    if s == [] then None
    else if s[|s| - 1] == NewLine then Some(|s| - 1)
    else LastNewLine(s[..|s| - 1])
  }

  function Split(s: ByteString): (r: seq<ByteString>)
    ensures r != []
    decreases |s|
  {
    match TakeField(s)
    case None => [s]
    case Some((field, rest)) => [field] + Split(rest)
  }

  function Numbers(xs: seq<ByteString>): Option<seq<nat>> {
    if xs == [] then Some([]) else
      var n :- FromDecimal(xs[0]);
      var ns :- Numbers(xs[1..]);
      Some([n] + ns)
  }

  datatype Parts = Parts(data: ByteString, types: seq<ByteString>, sizes: seq<nat>)

  /** The last newline ends the type table; the first size is the length of the data. */
  function Cut(s: ByteString): Option<Parts> {
    var end :- LastNewLine(s);
    var sizes :- Numbers(Split(s[end + 1..]));
    if sizes == [] || sizes[0] > end then None
    else Some(Parts(s[..sizes[0]], Split(s[sizes[0]..end]), sizes))
  }

  function DecodeData(p: Parts, shapes: Shapes): Option<Document> {
    var (h, body) :- ReadHeader(p.data);
    if h.name != [] || h.slot != 0 || h.typ >= |p.types| then None
    else
      var (fields, rest, next) :- ReadMany(body, 1, h.props, Tables(p.types, p.sizes, shapes));
      if rest == [] && next == |p.sizes| then Some(Document(p.types[h.typ], fields)) else None
  }

  function Decode(s: ByteString, shapes: Shapes): Option<Document> {
    var parts :- Cut(s);
    DecodeData(parts, shapes)
  }

  // --------------------------------------------------------------------- the two tables

  lemma {:induction false} LastNewLineOf(a: ByteString, b: ByteString)
    requires NewLine !in b
    ensures LastNewLine(a + [NewLine] + b) == Some(|a|)
  {
    var s := a + [NewLine] + b;
    if b == [] {
      assert s[|s| - 1] == NewLine;
    } else {
      var front := b[..|b| - 1];
      assert s[..|s| - 1] == a + [NewLine] + front;
      assert s[|s| - 1] == b[|b| - 1];
      LastNewLineOf(a, front);
    }
  }

  lemma {:induction false} NoSeparator(s: ByteString)
    requires SepFree(s)
    ensures TakeField(s) == None
  {
    if s != [] { NoSeparator(s[1..]); }
  }

  lemma {:induction false} SplitJoin(xs: seq<ByteString>)
    requires xs != [] && forall x :: x in xs ==> SepFree(x)
    ensures Split(Join(xs)) == xs
  {
    if |xs| == 1 {
      NoSeparator(xs[0]);
    } else {
      TakeFieldOf(xs[0], Join(xs[1..]));
      SplitJoin(xs[1..]);
      assert [xs[0]] + xs[1..] == xs;
    }
  }

  lemma {:induction false} NumbersOf(xs: seq<ByteString>, ns: seq<nat>)
    requires |xs| == |ns| && forall i :: 0 <= i < |ns| ==> xs[i] == Decimal(ns[i])
    ensures Numbers(xs) == Some(ns)
  {
    if ns != [] {
      DecimalRoundTrip(ns[0]);
      NumbersOf(xs[1..], ns[1..]);
      assert [ns[0]] + ns[1..] == ns;
    }
  }

  lemma {:induction false} JoinedDigits(xs: seq<ByteString>)
    requires forall x :: x in xs ==> NewLine !in x
    ensures NewLine !in Join(xs)
  {
    if |xs| > 1 { JoinedDigits(xs[1..]); }
  }

  lemma SizeTableReads(sizes: seq<nat>)
    requires sizes != []
    ensures NewLine !in Join(Decimals(sizes))
    ensures Numbers(Split(Join(Decimals(sizes)))) == Some(sizes)
  {
    var xs := Decimals(sizes);
    forall x | x in xs ensures SepFree(x) && NewLine !in x {
      var i :| 0 <= i < |xs| && xs[i] == x;
      assert !IsDigit(Sep) && !IsDigit(NewLine);
    }
    JoinedDigits(xs);
    SplitJoin(xs);
    NumbersOf(xs, sizes);
  }

  lemma {:induction false} TypesStaySepFree(s: State, n: Node, shapes: Shapes)
    requires WellFormed(n, shapes) && SepFreeTable(s.types)
    ensures SepFreeTable(Emit(s, n).types)
    decreases n, 0
  {
    var o := Open(s, n.name, n.typ, Props(n.payload));
    match n.payload
    case Struct(_, props) => AllTypesStaySepFree(o, props, shapes);
    case Items(declared, items) => AllTypesStaySepFree(Append(o, Decimal(declared) + [Sep]), items, shapes);
    case _ =>
  }

  lemma {:induction false} AllTypesStaySepFree(s: State, ns: seq<Node>, shapes: Shapes)
    requires AllWellFormed(ns, shapes) && SepFreeTable(s.types)
    ensures SepFreeTable(EmitAll(s, ns).types)
    decreases ns, 0
  {
    if ns != [] {
      AllTypesStaySepFree(s, ns[..|ns| - 1], shapes);
      TypesStaySepFree(EmitAll(s, ns[..|ns| - 1]), ns[|ns| - 1], shapes);
    }
  }

  predicate DistinctTypes(s: State) {
    forall i, j :: 0 <= i < j < |s.types| ==> s.types[i] != s.types[j]
  }

  /** The type table stays free of duplicates. */
  lemma {:induction false} TypesStayDistinct(s: State, n: Node)
    requires DistinctTypes(s)
    ensures DistinctTypes(Emit(s, n))
    decreases n, 0
  {
    OpenStaysDistinct(s, n.name, n.typ, Props(n.payload));
    PayloadStaysDistinct(Open(s, n.name, n.typ, Props(n.payload)), n.payload);
  }

  lemma OpenStaysDistinct(s: State, name: ByteString, typ: ByteString, props: nat)
    requires DistinctTypes(s)
    ensures DistinctTypes(Open(s, name, typ, props))
  {
  }

  lemma {:induction false} PayloadStaysDistinct(s: State, p: Payload)
    requires DistinctTypes(s)
    ensures DistinctTypes(EmitPayload(s, p))
    decreases p, 0
  {
    match p
    case Struct(_, props) => AllTypesStayDistinct(s, props);
    case Items(declared, items) => AllTypesStayDistinct(Append(s, Decimal(declared) + [Sep]), items);
    case _ =>
  }

  lemma {:induction false} AllTypesStayDistinct(s: State, ns: seq<Node>)
    requires DistinctTypes(s)
    ensures DistinctTypes(EmitAll(s, ns))
    decreases ns, 0
  {
    if ns != [] {
      AllTypesStayDistinct(s, ns[..|ns| - 1]);
      TypesStayDistinct(EmitAll(s, ns[..|ns| - 1]), ns[|ns| - 1]);
    }
  }

  // --------------------------------------------------------------- the root property count

  lemma CountDigitsRead(n: nat)
    requires n < 100
    ensures |CountDigits(n)| == 2 && SepFree(CountDigits(n)) && FromDecimal(CountDigits(n)) == Some(n)
  {
    assert |Decimal(n)| == if n < 10 then 1 else 2;
    assert !IsDigit(Sep);
    DecimalRoundTrip(n);
  }

  /** Rewriting the root count touches only its two placeholder bytes exactly when the
      count has at most two digits; a larger count runs over the separator behind them. */
  lemma RootCountFits(buf: ByteString, count: nat)
    requires |buf| >= RootCountPos + 3 && buf[RootCountPos + 2] == Sep
    ensures
      var after := SetRootCount(buf, count);
      count <= 99 <==> |after| == |buf| && forall i :: 0 <= i < |buf| && i != RootCountPos && i != RootCountPos + 1 ==> after[i] == buf[i]
  {
    if count <= 99 {
      CountDigitsRead(count);
    } else {
      assert |Decimal(count / 10 / 10)| >= 1 && |Decimal(count / 10)| >= 2 && |Decimal(count)| >= 3;
      var c := CountDigits(count);
      assert SetRootCount(buf, count)[RootCountPos + 2] == c[2] && IsDigit(c[2]);
      assert !IsDigit(Sep);
    }
  }

  // ------------------------------------------------------------------------ round trip

  lemma RootReads(root: ByteString, s: State, count: nat)
    requires Start(root).buf <= s.buf && count < 100
    ensures
      var data := SetRootCount(s.buf, count);
      |data| == |s.buf| && ReadHeader(data) == Some((Header([], 0, 0, count), Written(Start(root), s)))
  {
    CountDigitsRead(count);
    var body := Written(Start(root), s);
    assert s.buf == RootHeader([48, 48]) + body;
    assert SetRootCount(s.buf, count) == RootHeader(CountDigits(count)) + body;
    var s1 := CountDigits(count) + [Sep] + body;
    var s2 := Decimal(0) + [Sep] + s1;
    var s3 := Decimal(0) + [Sep] + s2;
    assert RootHeader(CountDigits(count)) + body == [] + [Sep] + s3;
    TakeFieldOf([], s3);
    TakeNumberOf(0, s2);
    TakeNumberOf(0, s1);
    TakeFieldOf(CountDigits(count), body);
  }

  lemma Slices(a: ByteString, b: ByteString, c: ByteString)
    ensures
      var s := a + b + [NewLine] + c;
      s[..|a|] == a && s[|a|..|a| + |b|] == b && s[|a| + |b| + 1..] == c
  {
  }

  lemma CutOf(data: ByteString, b: ByteString, c: ByteString, types: seq<ByteString>, sizes: seq<nat>)
    requires NewLine !in c && Numbers(Split(c)) == Some(sizes) && Split(b) == types
    requires sizes != [] && sizes[0] == |data|
    ensures Cut(data + b + [NewLine] + c) == Some(Parts(data, types, sizes))
  {
    LastNewLineOf(data + b, c);
    Slices(data, b, c);
  }

  /** A finished stream, whatever its data, is cut back into data and tables. */
  lemma CutFinished(data: ByteString, types: seq<ByteString>, sizes: seq<nat>)
    requires types != [] && forall t :: t in types ==> SepFree(t)
    requires sizes != [] && sizes[0] == |data|
    ensures Cut(data + Join(types) + [NewLine] + Join(Decimals(sizes))) == Some(Parts(data, types, sizes))
  {
    SizeTableReads(sizes);
    SplitJoin(types);
    CutOf(data, Join(types), Join(Decimals(sizes)), types, sizes);
  }

  lemma DecodeDataOf(d: Document, shapes: Shapes)
    requires AllWellFormed(d.fields, shapes) && |d.fields| <= 99
    ensures
      var s := EmitAll(Start(d.root), d.fields);
      DecodeData(Parts(SetRootCount(s.buf, |d.fields|), s.types, s.sizes[0 := |s.buf|]), shapes) == Some(d)
  {
    var first := Start(d.root);
    var s := EmitAll(first, d.fields);
    var t := Tables(s.types, s.sizes[0 := |s.buf|], shapes);
    assert ReadMany(Written(first, s), 1, |d.fields|, t) == Some((d.fields, [], |s.sizes|)) by {
      ReadEmittedAll(first, d.fields, [], t);
      assert Written(first, s) + [] == Written(first, s);
    }
    assert s.types[0] == d.root;
    RootReads(d.root, s, |d.fields|);
  }

  /** Round trip: a reader that starts from the last newline recovers exactly the tree. */
  lemma DecodeEncode(d: Document, shapes: Shapes)
    requires SepFree(d.root) && AllWellFormed(d.fields, shapes)
    requires |d.fields| <= 99
    ensures Decode(Encode(d, |d.fields|), shapes) == Some(d)
  {
    var first := Start(d.root);
    var s := EmitAll(first, d.fields);
    RootReads(d.root, s, |d.fields|);
    AllTypesStaySepFree(first, d.fields, shapes);
    CutFinished(SetRootCount(s.buf, |d.fields|), s.types, s.sizes[0 := |s.buf|]);
    DecodeDataOf(d, shapes);
  }

  // ------------------------------------------------------------ and nothing else

  lemma {:induction false} SplitsSepFree(s: ByteString)
    ensures SepFreeTable(Split(s))
    decreases |s|
  {
    FieldsAreSepFree(s);
    match TakeField(s)
    case None => NoFieldNoSeparator(s);
    case Some((_, rest)) => SplitsSepFree(rest);
  }

  lemma {:induction false} NoFieldNoSeparator(s: ByteString)
    requires TakeField(s) == None
    ensures SepFree(s)
  {
    if s != [] {
      NoFieldNoSeparator(s[1..]);
    }
  }

  /** Whatever the bytes, only a well-formed document is decoded from them. */
  lemma DecodesWellFormed(s: ByteString, shapes: Shapes)
    ensures
      var d := Decode(s, shapes);
      d.Some? ==> SepFree(d.value.root) && AllWellFormed(d.value.fields, shapes)
  {
    var parts := Cut(s);
    if parts.Some? {
      SplitsSepFree(s[parts.value.sizes[0]..LastNewLine(s).value]);
      PartsDecodeWellFormed(parts.value, shapes);
    }
  }

  lemma PartsDecodeWellFormed(p: Parts, shapes: Shapes)
    requires SepFreeTable(p.types)
    ensures
      var d := DecodeData(p, shapes);
      d.Some? ==> SepFree(d.value.root) && AllWellFormed(d.value.fields, shapes)
  {
    var header := ReadHeader(p.data);
    if header.Some? {
      ReadsAllWellFormed(header.value.1, 1, header.value.0.props, Tables(p.types, p.sizes, shapes));
    }
  }

  /** A document with its own root count decodes to itself exactly when it is well formed. */
  lemma DecodeEncodeIff(d: Document, shapes: Shapes)
    requires |d.fields| <= 99
    ensures Decode(Encode(d, |d.fields|), shapes) == Some(d) <==> SepFree(d.root) && AllWellFormed(d.fields, shapes)
  {
    if SepFree(d.root) && AllWellFormed(d.fields, shapes) {
      DecodeEncode(d, shapes);
    }
    DecodesWellFormed(Encode(d, |d.fields|), shapes);
  }
}
