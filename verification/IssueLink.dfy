/** The prefilled issue link: a percent-encoded report cut to the longest prefix for which the
    whole link stays within its limit. */
module IssueLink {
  import opened Bytes
  import opened Lists
  import opened Wrappers

  const UrlLimit := 7500
  const TitleLimit := 256

  /** The fixed parts of a link: what surrounds the report, and the note behind a cut one. */
  datatype Template = Template(base: string, prefix: string, suffix: string, note: string)

  const Issue: Template :=
    Template("HTTPS://github.com" + "/IanUtley/hex-server" + "/issues/new",
             "Session diagnostics collected by the Hex server:" + "\n\n```text\n",
             "\n```",
             "\n\n" + "[diagnostics truncated to fit the issue link]")

  // ------------------------------------------------------------ encoding

  predicate Unreserved(c: char) {
    'a' <= c <= 'z' || 'A' <= c <= 'Z' || '0' <= c <= '9' || c == '_' || c == '.' || c == '-' || c == '~'
  }

  function HexDigit(n: nat): (c: char)
    requires n < 16
    ensures Unreserved(c)
  {
    "0123456789ABCDEF"[n]
  }

  predicate Inert(s: string) {
    forall i :: 0 <= i < |s| ==> Unreserved(s[i]) || s[i] == '%' || s[i] == '+'
  }

  function Percent(bytes: ByteString): (r: string)
    ensures |r| == 3 * |bytes| && Inert(r)
  {
    if bytes == [] then ""
    else PercentByte(bytes[0]) + Percent(bytes[1..])
  }

  function Quote(c: char): (r: string)
    ensures 1 <= |r| <= 12 && Inert(r)
  {
    if Unreserved(c) then [c] else if c == ' ' then "+" else Percent(Utf8Char(c))
  }

  /** Percent-encoding of the UTF-8 bytes, with a plus for a space (RFC 3986, section 2.1). */
  function Encode(s: string): (r: string)
    ensures |s| <= |r| <= 12 * |s|
  {
    if s == "" then "" else Quote(s[0]) + Encode(s[1..])
  }

  lemma EncodeCons(c: char, s: string)
    ensures Encode([c] + s) == Quote(c) + Encode(s)
  {
    assert ([c] + s)[1..] == s;
  }

  lemma FirstAndRest(s: string)
    requires s != ""
    ensures s == [s[0]] + s[1..]
  {
  }

  lemma {:induction false} EncodeJoined(a: string, b: string)
    ensures Encode(a + b) == Encode(a) + Encode(b)
  {
    if a == "" {
      Unit(b);
    } else {
      var c, rest := a[0], a[1..];
      FirstAndRest(a);
      EncodeJoined(rest, b);
      Associate([c], rest, b);
      EncodeCons(c, rest + b);
      EncodeCons(c, rest);
      Associate(Quote(c), Encode(rest), Encode(b));
    }
  }

  /** Nothing that is encoded can end its field or the link. */
  lemma {:induction false} EncodedIsInert(s: string)
    ensures Inert(Encode(s))
  {
    if s != "" {
      EncodedIsInert(s[1..]);
    }
  }

  function HexDigitValue(c: char): nat {
    if '0' <= c <= '9' then (c - '0') as int else if 'A' <= c <= 'F' then (c - 'A') as int + 10 else 0
  }

  /** What a form field stands for: the bytes behind percent signs and pluses. */
  function Decoded(s: string): ByteString {
    if s == "" then []
    else if s[0] == '%' && |s| >= 3 then [(16 * HexDigitValue(s[1]) + HexDigitValue(s[2])) % 256] + Decoded(s[3..])
    else if s[0] == '+' then [32] + Decoded(s[1..])
    else [s[0] as int % 256] + Decoded(s[1..])
  }

  lemma HexDigitReads(n: nat)
    requires n < 16
    ensures HexDigitValue(HexDigit(n)) == n
  {
  }

  /** One byte as percent-encoded. */
  function PercentByte(b: byte): (r: string)
    ensures |r| == 3 && r[0] == '%' && Inert(r)
  {
    ['%', HexDigit(b / 16), HexDigit(b % 16)]
  }

  lemma ByteDecodes(b: byte, rest: string)
    ensures Decoded(PercentByte(b) + rest) == [b] + Decoded(rest)
  {
    HexDigitReads(b / 16);
    HexDigitReads(b % 16);
    FirstThree(PercentByte(b), rest);
  }

  lemma {:induction false} PercentDecodes(bytes: ByteString, rest: string)
    ensures Decoded(Percent(bytes) + rest) == bytes + Decoded(rest)
  {
    if bytes == [] {
      Unit(rest);
      Unit(Decoded(rest));
    } else {
      var b, tail := bytes[0], bytes[1..];
      PercentDecodes(tail, rest);
      ByteDecodes(b, Percent(tail) + rest);
      Associate(PercentByte(b), Percent(tail), rest);
      Associate([b], tail, Decoded(rest));
      assert bytes == [b] + tail;
    }
  }

  lemma FirstThree(head: string, rest: string)
    requires |head| == 3 && head[0] == '%'
    ensures
      Decoded(head + rest) == [(16 * HexDigitValue(head[1]) + HexDigitValue(head[2])) % 256] + Decoded(rest)
  {
    assert (head + rest)[3..] == rest;
  }

  lemma QuoteDecodes(c: char, rest: string)
    ensures Decoded(Quote(c) + rest) == Utf8Char(c) + Decoded(rest)
  {
    if !Unreserved(c) && c != ' ' {
      PercentDecodes(Utf8Char(c), rest);
    } else {
      assert (Quote(c) + rest)[1..] == rest;
    }
  }

  /** An encoded title or body decodes to its own bytes. */
  lemma {:induction false} EncodedDecodes(s: string)
    ensures Decoded(Encode(s)) == Utf8(s)
  {
    if s != "" {
      QuoteDecodes(s[0], Encode(s[1..]));
      EncodedDecodes(s[1..]);
    }
  }

  // ------------------------------------------------------------ the fields of a link

  /** What comes before the first `c`, and what behind it. */
  function UpTo(s: string, c: char): string {
    if s == "" || s[0] == c then "" else [s[0]] + UpTo(s[1..], c)
  }

  function Behind(s: string, c: char): (r: string)
    ensures |r| <= |s| && (s != "" ==> |r| < |s|)
  {
    if s == "" then "" else if s[0] == c then s[1..] else Behind(s[1..], c)
  }

  /** The value of a form field (HTML, URL-encoded form data). */
  function Field(query: string, name: string): Option<string>
    decreases |query|
  {
    if query == "" then None
    else
      var pair := UpTo(query, '&');
      if UpTo(pair, '=') == name then Some(Behind(pair, '=')) else Field(Behind(query, '&'), name)
  }

  lemma {:induction false} SplitsAt(a: string, c: char, b: string)
    requires c !in a
    ensures UpTo(a + [c] + b, c) == a && Behind(a + [c] + b, c) == b && UpTo(a, c) == a
  {
    if a == "" {
      assert a + [c] + b == [c] + b;
    } else {
      SplitsAt(a[1..], c, b);
      assert (a + [c] + b)[1..] == a[1..] + [c] + b;
      FirstAndRest(a);
    }
  }

  lemma InertHolds(s: string, c: char)
    requires Inert(s) && (c == '&' || c == '=' || c == '?')
    ensures c !in s
  {
  }

  lemma FirstField(name: string, value: string, rest: string)
    requires '=' !in name && '&' !in name && '&' !in value
    ensures Field(name + "=" + value + "&" + rest, name) == Some(value)
    ensures forall other :: other != name ==> Field(name + "=" + value + "&" + rest, other) == Field(rest, other)
  {
    var pair := name + "=" + value;
    SplitsAt(pair, '&', rest);
    SplitsAt(name, '=', value);
    assert name + "=" + value + "&" + rest == pair + ['&'] + rest && pair == name + ['='] + value;
  }

  lemma LastField(name: string, value: string)
    requires '=' !in name && '&' !in name && '&' !in value
    ensures Field(name + "=" + value, name) == Some(value)
  {
    var pair := name + "=" + value;
    SplitsAt(pair, '&', "");
    SplitsAt(name, '=', value);
    assert pair == name + ['='] + value;
  }

  /** The text of a form field of a link. */
  predicate HasField(url: string, name: string, text: string) {
    var field := Field(Behind(url, '?'), name);
    field.Some? && FromUtf8(Decoded(field.value)) == Some(CodePoints(text))
  }

  /** The title is in the title field, the text of the issue in the body field. */
  lemma BuiltFields(t: Template, title: string, report: string)
    requires '?' !in t.base
    ensures HasField(Build(t, title, report), "title", title) && HasField(Build(t, title, report), "body", Body(t, report))
  {
    EncodedIsInert(title);
    EncodedIsInert(Body(t, report));
    QueryFields(t.base, Encode(title), Encode(Body(t, report)));
    TextReads(title);
    TextReads(Body(t, report));
  }

  lemma TextReads(text: string)
    ensures FromUtf8(Decoded(Encode(text))) == Some(CodePoints(text))
  {
    EncodedDecodes(text);
    Utf8RoundTrip(text);
  }

  lemma QueryFields(base: string, a: string, b: string)
    requires '?' !in base && Inert(a) && Inert(b)
    ensures
      var query := Behind(base + "?title=" + a + "&body=" + b, '?');
      Field(query, "title") == Some(a) && Field(query, "body") == Some(b)
  {
    InertHolds(a, '&');
    InertHolds(b, '&');
    FirstField("title", a, "body" + "=" + b);
    LastField("body", b);
    QueryOf(base, a, b);
    SplitsAt(base, '?', "title" + "=" + a + "&" + ("body" + "=" + b));
  }

  lemma QueryOf(base: string, a: string, b: string)
    ensures base + "?title=" + a + "&body=" + b == base + ['?'] + ("title" + "=" + a + "&" + ("body" + "=" + b))
  {
    assert "?title=" == ['?'] + "title" + "=";
    assert "&body=" == "&" + "body" + "=";
  }

  // ------------------------------------------------------------ fences and trailing space

  const Fence := "```"
  const Neutral := "``\U{200B}`"

  predicate StartsFence(s: string) { |s| >= 3 && s[..3] == Fence }

  /** `replace`: leftmost fences first, without overlap. */
  function Neutralized(s: string): string {
    if |s| < 3 then s
    else if StartsFence(s) then Neutral + Neutralized(s[3..])
    else [s[0]] + Neutralized(s[1..])
  }

  /** The text without a character. */
  function Dropped(s: string, c: char): string {
    if s == "" then "" else (if s[0] == c then "" else [s[0]]) + Dropped(s[1..], c)
  }

  lemma {:induction false} DroppedJoined(a: string, b: string, c: char)
    ensures Dropped(a + b, c) == Dropped(a, c) + Dropped(b, c)
  {
    if a == "" {
      Unit(b);
    } else {
      DroppedJoined(a[1..], b, c);
      assert (a + b)[1..] == a[1..] + b;
      Associate(if a[0] == c then "" else [a[0]], Dropped(a[1..], c), Dropped(b, c));
    }
  }

  /** Replacing fences changes nothing but what cannot be seen. */
  lemma {:induction false} NeutralizedKeepsText(s: string)
    ensures Dropped(Neutralized(s), '\U{200B}') == Dropped(s, '\U{200B}')
  {
    if |s| < 3 {
    } else if StartsFence(s) {
      NeutralizedKeepsText(s[3..]);
      NeutralizedFence(s);
      DroppedJoined(Neutral, Neutralized(s[3..]), '\U{200B}');
      DroppedJoined(Fence, s[3..], '\U{200B}');
      assert s == Fence + s[3..];
      NeutralIsFence();
    } else {
      NeutralizedKeepsText(s[1..]);
      NeutralizedCons(s);
      FirstAndRest(s);
      DroppedJoined([s[0]], Neutralized(s[1..]), '\U{200B}');
      DroppedJoined([s[0]], s[1..], '\U{200B}');
    }
  }

  lemma NeutralIsFence()
    ensures Dropped(Neutral, '\U{200B}') == Dropped(Fence, '\U{200B}')
  {
    assert Neutral == "`" + "`" + "\U{200B}" + "`" && Fence == "`" + "`" + "`";
    DroppedJoined("`" + "`" + "\U{200B}", "`", '\U{200B}');
    DroppedJoined("`" + "`", "\U{200B}", '\U{200B}');
    DroppedJoined("`" + "`", "`", '\U{200B}');
  }

  predicate IsSpace(c: char) {
    || '\t' <= c <= '\r' || '\U{1C}' <= c <= ' ' || c == '\U{85}' || c == '\U{A0}' || c == '\U{1680}'
    || '\U{2000}' <= c <= '\U{200A}' || c == '\U{2028}' || c == '\U{2029}' || c == '\U{202F}'
    || c == '\U{205F}' || c == '\U{3000}'
  }

  function Rstrip(s: string): (r: string)
    ensures r <= s && (r != "" ==> !IsSpace(r[|r| - 1]))
    ensures forall i :: |r| <= i < |s| ==> IsSpace(s[i])
  {
    if s != "" && IsSpace(s[|s| - 1]) then Rstrip(s[..|s| - 1]) else s
  }

  /** No fence reaches across a text that does not begin with a backtick. */
  lemma {:induction false} NeutralizedJoined(a: string, b: string)
    requires b != "" && b[0] != '`'
    ensures Neutralized(a + b) == Neutralized(a) + Neutralized(b)
  {
    if a == "" {
      Unit(b);
    } else if StartsFence(a) {
      NeutralizedJoined(a[3..], b);
      FenceStep(a, b);
    } else {
      NeutralizedJoined(a[1..], b);
      NoFence(a, b);
      assert (a + b)[1..] == a[1..] + b;
      NeutralizedCons(a);
      NeutralizedCons(a + b);
      Associate([a[0]], Neutralized(a[1..]), Neutralized(b));
    }
  }

  lemma SlicesOfJoined(a: string, b: string, n: nat)
    requires n <= |a|
    ensures (a + b)[..n] == a[..n] && (a + b)[n..] == a[n..] + b
  {
  }

  lemma NeutralizedFence(s: string)
    requires StartsFence(s)
    ensures Neutralized(s) == Neutral + Neutralized(s[3..])
  {
  }

  lemma FenceStep(a: string, b: string)
    requires StartsFence(a) && Neutralized(a[3..] + b) == Neutralized(a[3..]) + Neutralized(b)
    ensures Neutralized(a + b) == Neutralized(a) + Neutralized(b)
  {
    SlicesOfJoined(a, b, 3);
    NeutralizedFence(a);
    NeutralizedFence(a + b);
    Associate(Neutral, Neutralized(a[3..]), Neutralized(b));
  }

  lemma NoFence(a: string, b: string)
    requires a != "" && !StartsFence(a) && b != "" && b[0] != '`'
    ensures !StartsFence(a + b)
  {
    if |a| < 3 {
      assert (a + b)[|a|] == b[0];
    } else {
      assert (a + b)[..3] == a[..3];
    }
  }

  // ------------------------------------------------------------ which fences survive

  /** The backticks that a text begins with. */
  function Leading(s: string): (r: nat)
    ensures r <= |s|
  {
    if s != "" && s[0] == '`' then 1 + Leading(s[1..]) else 0
  }

  /** Whether `n` backticks stand in a row anywhere. */
  predicate HasRow(s: string, n: nat) {
    Leading(s) >= n || (s != "" && HasRow(s[1..], n))
  }

  lemma LeadingFence(s: string)
    ensures StartsFence(s) <==> Leading(s) >= 3
  {
    if |s| >= 3 {
      var a, b := s[1..], s[1..][1..];
      assert s[..3] == [s[0], a[0], b[0]];
      assert Fence == ['`', '`', '`'];
      assert StartsFence(s) <==> s[..3][0] == s[..3][1] == s[..3][2] == '`';
      assert Leading(s) >= 3 <==> s[0] == '`' && Leading(a) >= 2;
      assert Leading(a) >= 2 <==> a[0] == '`' && Leading(b) >= 1;
    }
  }

  lemma RowAfter(c: char, s: string, n: nat)
    requires n > 0
    ensures Leading([c] + s) == if c == '`' then 1 + Leading(s) else 0
    ensures HasRow([c] + s, n) <==> Leading([c] + s) >= n || HasRow(s, n)
  {
    assert ([c] + s)[1..] == s;
  }

  /** A replaced fence leaves one backtick in front of what follows. */
  lemma NeutralFirst(rest: string)
    ensures Leading(Neutral + rest) == 2
    ensures HasRow(Neutral + rest, 3) <==> Leading(rest) >= 2 || HasRow(rest, 3)
  {
    var a := ['`'] + rest;
    var b := ['\U{200B}'] + a;
    var c := ['`'] + b;
    RowAfter('`', rest, 3);
    RowAfter('\U{200B}', a, 3);
    RowAfter('`', b, 3);
    RowAfter('`', c, 3);
    NeutralPieces(rest);
  }

  lemma NeutralPieces(rest: string)
    ensures Neutral + rest == ['`'] + (['`'] + (['\U{200B}'] + (['`'] + rest)))
  {
  }

  lemma FenceFirst(rest: string)
    ensures Leading(Fence + rest) == 3 + Leading(rest)
    ensures HasRow(Fence + rest, 5) <==> Leading(rest) >= 2 || HasRow(rest, 5)
  {
    var a := ['`'] + rest;
    var b := ['`'] + a;
    RowAfter('`', rest, 5);
    RowAfter('`', a, 5);
    RowAfter('`', b, 5);
    assert Fence + rest == ['`'] + b;
  }

  /** Three backticks in a row are left exactly when the report has five in a row: the last backtick
      of a replaced fence joins the next two. They never stand first, which is what matters. */
  lemma {:induction false} FenceSurvivesIff(s: string)
    ensures HasRow(Neutralized(s), 3) <==> HasRow(s, 5)
    ensures Leading(Neutralized(s)) == if Leading(s) >= 3 then 2 else Leading(s)
  {
    LeadingFence(s);
    if s == "" {
    } else if StartsFence(s) {
      FenceSurvivesIff(s[3..]);
      NeutralizedFence(s);
      NeutralFirst(Neutralized(s[3..]));
      assert s == Fence + s[3..];
      FenceFirst(s[3..]);
    } else {
      FenceSurvivesIff(s[1..]);
      NeutralizedCons(s);
      FirstAndRest(s);
      RowAfter(s[0], s[1..], 5);
      RowAfter(s[0], Neutralized(s[1..]), 3);
    }
  }

  // ------------------------------------------------------------ the block around the report

  predicate IsLineBreak(c: char) { c == '\n' || c == '\r' }

  /** A fence at `i` with nothing but spaces before it on its line. Every fence that closes a block
      is one of these (CommonMark, section 4.5, which asks for more). */
  ghost predicate FenceOnLine(body: string, i: nat) {
    && i <= |body| && StartsFence(body[i..])
    && exists j :: j <= i && LineStartsAt(body, j, i)
  }

  /** The line of `i` starts at `j`, and only spaces come between. */
  predicate LineStartsAt(body: string, j: int, i: nat)
    requires j <= i <= |body|
  {
    0 <= j && (j == 0 || IsLineBreak(body[j - 1])) && forall k :: j <= k < i ==> body[k] == ' '
  }

  lemma NotOnLine(body: string, i: nat)
    requires 0 < i <= |body| && !IsLineBreak(body[i - 1]) && body[i - 1] != ' '
    ensures !FenceOnLine(body, i)
  {
  }

  /** A fence in a neutralized text always follows a backtick or the inserted zero-width space. */
  lemma {:induction false} FenceIsMidLine(s: string, i: nat)
    requires i <= |Neutralized(s)| && StartsFence(Neutralized(s)[i..])
    ensures 0 < i && Neutralized(s)[i - 1] in {'`', '\U{200B}'}
  {
    var n := Neutralized(s);
    assert n[0..] == n;
    FenceSurvivesIff(s);
    LeadingFence(n);
    if StartsFence(s) {
      NeutralizedFence(s);
      if i > 3 {
        assert n[i..] == Neutralized(s[3..])[i - 4..];
        FenceIsMidLine(s[3..], i - 4);
      }
    } else if s != "" && i > 0 {
      NeutralizedCons(s);
      assert n[i..] == Neutralized(s[1..])[i - 1..];
      FenceIsMidLine(s[1..], i - 1);
    }
  }

  // ------------------------------------------------------------ sizes

  lemma {:induction false} NeutralizedSize(s: string)
    ensures |Neutralized(s)| <= 2 * |s|
  {
    if |s| < 3 {
    } else if StartsFence(s) {
      NeutralizedSize(s[3..]);
    } else {
      NeutralizedSize(s[1..]);
    }
  }

  lemma NeutralizedCons(s: string)
    requires s != "" && !StartsFence(s)
    ensures Neutralized(s) == [s[0]] + Neutralized(s[1..])
  {
    FirstAndRest(s);
  }

  /** The encoded size never falls when text is added, although an added backtick can complete a
      fence and so change what stood before it. */
  lemma {:induction false} EncodedGrows(s: string, more: string)
    ensures |Encode(Neutralized(s))| <= |Encode(Neutralized(s + more))|
  {
    var t := s + more;
    if s == "" {
    } else if StartsFence(s) {
      assert t[..3] == Fence && t[3..] == s[3..] + more;
      EncodedGrows(s[3..], more);
      EncodeJoined(Neutral, Neutralized(s[3..]));
      EncodeJoined(Neutral, Neutralized(t[3..]));
    } else if StartsFence(t) {
      assert s == t[..3][..|s|] == Neutral[..|s|];
      EncodeJoined(s, Neutral[|s|..]);
      assert Neutral == s + Neutral[|s|..];
      EncodeJoined(Neutral, Neutralized(t[3..]));
    } else {
      assert t[1..] == s[1..] + more && t[0] == s[0];
      EncodedGrows(s[1..], more);
      NeutralizedCons(s);
      NeutralizedCons(t);
      EncodeCons(s[0], Neutralized(s[1..]));
      EncodeCons(t[0], Neutralized(t[1..]));
    }
  }

  // ------------------------------------------------------------ the link

  /** The text of the issue. */
  function Body(t: Template, report: string): string { t.prefix + Neutralized(report) + t.suffix }

  function Build(t: Template, title: string, report: string): string {
    t.base + "?title=" + Encode(title) + "&body=" + Encode(Body(t, report))
  }

  /** What is sent of a report cut to its first `k` characters, and the link for it. */
  function CutReport(t: Template, report: string, k: nat): string
    requires k <= |report|
  {
    Rstrip(report[..k]) + t.note
  }

  function Cut(t: Template, title: string, report: string, k: nat): string
    requires k <= |report|
  {
    Build(t, title, CutReport(t, report, k))
  }

  /** Small parts, and a note that cannot close a fence begun in the report. */
  predicate Modest(t: Template) {
    && |t.base| <= 50 && |t.prefix| <= 60 && |t.suffix| <= 4 && 0 < |t.note| <= 50
    && t.note[0] != '`'
  }

  lemma IssueIsModest()
    ensures Modest(Issue)
  {
  }

  lemma EncodeThree(a: string, b: string, c: string)
    ensures |Encode(a + b + c)| == |Encode(a)| + |Encode(b)| + |Encode(c)|
  {
    EncodeJoined(a, b);
    EncodeJoined(a + b, c);
  }

  lemma BuildSize(t: Template, title: string, report: string)
    ensures
      |Build(t, title, report)| ==
      |t.base| + 13 + |Encode(title)| + |Encode(t.prefix)| + |Encode(Neutralized(report))| + |Encode(t.suffix)|
  {
    EncodeThree(t.prefix, Neutralized(report), t.suffix);
  }

  lemma CutSize(t: Template, title: string, report: string, k: nat)
    requires Modest(t) && k <= |report|
    ensures
      |Cut(t, title, report, k)| ==
      |Build(t, title, t.note)| + |Encode(Neutralized(Rstrip(report[..k])))|
  {
    var kept := Rstrip(report[..k]);
    NeutralizedJoined(kept, t.note);
    EncodeJoined(Neutralized(kept), Neutralized(t.note));
    BuildSize(t, title, kept + t.note);
    BuildSize(t, title, t.note);
  }

  lemma RstripPrefix(s: string, k: nat)
    requires k <= |s|
    ensures Rstrip(s[..k]) <= Rstrip(s)
  {
    var r, q := Rstrip(s[..k]), Rstrip(s);
    PrefixesOf(s, k, r, q);
  }

  /** Of two prefixes, the one that ends before nothing but spaces is the longer, when the other
      does not end in a space. */
  lemma PrefixesOf(s: string, k: nat, r: string, q: string)
    requires k <= |s| && r <= s[..k] && q <= s
    requires (r != "" ==> !IsSpace(r[|r| - 1])) && forall i :: |q| <= i < |s| ==> IsSpace(s[i])
    ensures r <= q
  {
    assert r != "" ==> s[|r| - 1] == r[|r| - 1];
  }

  /** The prefix ends by opening a block, and the suffix is a fence on a line of its own. */
  predicate Encloses(t: Template) {
    && |t.prefix| >= 9 && t.prefix[|t.prefix| - 9..] == "\n```text\n"
    && t.suffix == "\n```"
  }

  lemma IssueEncloses()
    ensures Encloses(Issue)
  {
    assert Issue.prefix[|Issue.prefix| - 10..] == "\n\n```text\n";
    assert Issue.prefix[|Issue.prefix| - 9..] == Issue.prefix[|Issue.prefix| - 10..][1..];
  }

  /** The block opened by the prefix: the one fence behind it that stands on a line is the suffix. */
  ghost predicate Sealed(t: Template, report: string) {
    var body := Body(t, report);
    forall i: nat :: |t.prefix| <= i ==> (FenceOnLine(body, i) <==> i == |body| - 3)
  }

  lemma BodyFrom(prefix: string, text: string, suffix: string, i: nat)
    requires |prefix| <= i <= |prefix| + |text|
    ensures (prefix + text + suffix)[i..] == text[i - |prefix|..] + suffix
    ensures i > |prefix| ==> (prefix + text + suffix)[i - 1] == text[i - |prefix| - 1]
  {
  }

  /** Whatever the report, with any number of backticks and wherever it was cut, no line of it
      closes its block: the suffix does. */
  lemma ReportStaysInside(t: Template, report: string)
    requires Encloses(t)
    ensures Sealed(t, report)
  {
    var body, text := Body(t, report), Neutralized(report);
    forall i: nat | |t.prefix| <= i ensures FenceOnLine(body, i) <==> i == |body| - 3 {
      if i <= |t.prefix| + |text| {
        BodyFrom(t.prefix, text, t.suffix, i);
        FenceInText(report, t.suffix, i - |t.prefix|);
        if StartsFence(body[i..]) {
          NotOnLine(body, i);
        }
      } else if i == |body| - 3 {
        assert body[i..] == "```" && body[i - 1] == '\n';
        assert LineStartsAt(body, i, i);
      }
    }
  }

  lemma FenceInText(report: string, suffix: string, i: nat)
    requires i <= |Neutralized(report)| && suffix != "" && suffix[0] == '\n'
    ensures
      StartsFence(Neutralized(report)[i..] + suffix) ==>
        0 < i && Neutralized(report)[i - 1] in {'`', '\U{200B}'}
  {
    var rest := Neutralized(report)[i..];
    if StartsFence(rest + suffix) {
      if !StartsFence(rest) {
        NoFenceAcross(rest, suffix);
      } else {
        FenceIsMidLine(report, i);
      }
    }
  }

  lemma NoFenceAcross(a: string, b: string)
    requires !StartsFence(a) && b != "" && b[0] != '`'
    ensures !StartsFence(a + b)
  {
    if a == "" {
      Unit(b);
      LeadingFence(b);
    } else {
      NoFence(a, b);
    }
  }

  /** A longer prefix never gives a shorter link. */
  lemma CutGrows(t: Template, title: string, report: string, j: nat, k: nat)
    requires Modest(t) && j <= k <= |report|
    ensures |Cut(t, title, report, j)| <= |Cut(t, title, report, k)|
  {
    assert report[..k][..j] == report[..j];
    RstripPrefix(report[..k], j);
    var r, q := Rstrip(report[..j]), Rstrip(report[..k]);
    assert q == r + q[|r|..];
    EncodedGrows(r, q[|r|..]);
    CutSize(t, title, report, j);
    CutSize(t, title, report, k);
  }

  /** An empty report always fits. */
  lemma EmptyFits(t: Template, title: string, report: string)
    requires Modest(t) && |title| <= TitleLimit
    ensures |Cut(t, title, report, 0)| <= UrlLimit
  {
    CutSize(t, title, report, 0);
    BuildSize(t, title, t.note);
    NeutralizedSize(t.note);
  }

  /** The longest prefix of the report that fits. */
  ghost predicate IsLongest(t: Template, title: string, report: string, k: nat) {
    && k <= |report| && |Cut(t, title, report, k)| <= UrlLimit
    && forall j :: k < j <= |report| ==> |Cut(t, title, report, j)| > UrlLimit
  }

  /** The link never exceeds its limit, holds the whole report or the longest prefix that fits, and
      keeps what it holds inside its block. */
  method IssueUrl(title: string, report: string) returns (url: string)
    requires |title| <= TitleLimit
    ensures |url| <= UrlLimit
    ensures |Build(Issue, title, report)| <= UrlLimit ==> url == Build(Issue, title, report) && Sealed(Issue, report)
    ensures
      |Build(Issue, title, report)| > UrlLimit ==>
        exists k :: IsLongest(Issue, title, report, k) && url == Cut(Issue, title, report, k)
                    && Sealed(Issue, CutReport(Issue, report, k))
  {
    IssueEncloses();
    ReportStaysInside(Issue, report);
    url := Build(Issue, title, report);
    if |url| <= UrlLimit {
      return;
    }
    IssueIsModest();
    EmptyFits(Issue, title, report);
    var low: nat, high: nat := 0, |report|;
    while low < high
      invariant low <= high <= |report|
      invariant |Cut(Issue, title, report, low)| <= UrlLimit
      invariant forall j :: high < j <= |report| ==> |Cut(Issue, title, report, j)| > UrlLimit
    {
      var midpoint: nat := (low + high + 1) / 2;
      var candidate := Cut(Issue, title, report, midpoint);
      if |candidate| <= UrlLimit {
        low := midpoint;
      } else {
        forall j | midpoint <= j <= |report| ensures |Cut(Issue, title, report, j)| > UrlLimit {
          CutGrows(Issue, title, report, midpoint, j);
        }
        high := midpoint - 1;
      }
    }
    url := Cut(Issue, title, report, low);
    assert IsLongest(Issue, title, report, low);
    ReportStaysInside(Issue, CutReport(Issue, report, low));
  }

  // ------------------------------------------------------------ the command

  /** Exactly the spaces around a text are stripped. */
  lemma {:induction false} StripCuts(s: string) returns (i: nat, j: nat)
    ensures i <= j <= |s| && Strip(s) == s[i..j]
    ensures (forall k :: 0 <= k < i ==> IsSpace(s[k])) && (forall k :: j <= k < |s| ==> IsSpace(s[k]))
    ensures i < j ==> !IsSpace(s[i]) && !IsSpace(s[j - 1])
  {
    if s != "" && IsSpace(s[0]) {
      i, j := StripCuts(s[1..]);
      i, j := i + 1, j + 1;
    } else {
      i, j := 0, |Rstrip(s)|;
    }
  }

  function Strip(s: string): (r: string)
    ensures r == "" <==> forall i :: 0 <= i < |s| ==> IsSpace(s[i])
  {
    if s != "" && IsSpace(s[0]) then Strip(s[1..]) else Rstrip(s)
  }

  /** The title of the issue: tagged with the version, and cut when too long. */
  function IssueTitle(version: string, title: string): (r: string)
    ensures |r| <= TitleLimit
    ensures
      var full := "[" + version + "] " + title;
      if |full| <= TitleLimit then r == full
      else
        && |r| >= 3 && r[|r| - 3..] == "..." && r[..|r| - 3] <= full
        && (|r| > 3 ==> !IsSpace(r[|r| - 4])) && forall k :: |r| - 3 <= k < TitleLimit - 3 ==> IsSpace(full[k])
  {
    var full := "[" + version + "] " + title;
    if |full| > TitleLimit then Rstrip(full[..TitleLimit - 3]) + "..." else full
  }

  lemma BasePlain()
    ensures '?' !in Issue.base
  {
    assert '?' !in "HTTPS://github.com" && '?' !in "/IanUtley/hex-server" && '?' !in "/issues/new";
  }

  /** Whole or cut, the link carries the title. */
  lemma LinkHasTitle(url: string, title: string, report: string)
    requires url == Build(Issue, title, report) || exists k: nat :: k <= |report| && url == Cut(Issue, title, report, k)
    ensures HasField(url, "title", title)
  {
    BasePlain();
    BuiltFields(Issue, title, report);
    if k: nat :| k <= |report| && url == Cut(Issue, title, report, k) {
      BuiltFields(Issue, title, CutReport(Issue, report, k));
    }
  }

  datatype Reply = Usage | Link(url: string)

  /** Whatever the title and the report, the command answers with a link within the limit, or
      with the usage when the title is blank. */
  method IssueCommand(version: string, title: string, report: string) returns (reply: Reply)
    ensures reply.Usage? <==> forall i :: 0 <= i < |title| ==> IsSpace(title[i])
    ensures reply.Link? ==> |reply.url| <= UrlLimit && HasField(reply.url, "title", IssueTitle(version, Strip(title)))
    ensures
      reply.Link? ==>
        var full := IssueTitle(version, Strip(title));
        || (reply.url == Build(Issue, full, report) && Sealed(Issue, report))
        || exists k :: IsLongest(Issue, full, report, k) && reply.url == Cut(Issue, full, report, k)
                       && Sealed(Issue, CutReport(Issue, report, k))
  {
    var stripped := Strip(title);
    if stripped == "" {
      return Usage;
    }
    var url := IssueUrl(IssueTitle(version, stripped), report);
    LinkHasTitle(url, IssueTitle(version, stripped), report);
    reply := Link(url);
  }
}
