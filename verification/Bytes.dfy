/** Byte strings and the number formats the encoders use: fixed-width integers of either
    byte order, decimal text and hexadecimal text, each with the reader that inverts it. */
module Bytes {
  import opened Wrappers

  type byte = x: int | 0 <= x < 256
  type ByteString = seq<byte>

  lemma Appended4(o: ByteString, a: ByteString, b: ByteString, c: ByteString, d: ByteString)
    ensures o + a + b + c + d == o + (a + b + c + d)
  {
  }

  /** The bytes of an ASCII literal. */
  function Ascii(s: string): (r: ByteString)
    ensures |r| == |s|
  {
    seq(|s|, i requires 0 <= i < |s| => s[i] as int % 256)
  }

  // ------------------------------------------------------------ UTF-8

  function Utf8Char(c: char): (r: ByteString)
    ensures 1 <= |r| <= 4 && (|r| == 1 <==> c as int < 0x80)
  {
    var n := c as int;
    if n < 0x80 then [n]
    else if n < 0x800 then [0xC0 + n / 0x40, 0x80 + n % 0x40]
    else if n < 0x10000 then [0xE0 + n / 0x1000, 0x80 + n / 0x40 % 0x40, 0x80 + n % 0x40]
    else [0xF0 + n / 0x40000, 0x80 + n / 0x1000 % 0x40, 0x80 + n / 0x40 % 0x40, 0x80 + n % 0x40]
  }

  function Utf8(s: string): (r: ByteString)
    ensures |s| <= |r|
  {
    if s == "" then [] else Utf8Char(s[0]) + Utf8(s[1..])
  }

  /** Six more bits behind those read so far. */
  function Six(high: nat, next: nat): nat { high * 0x40 + next % 0x40 }

  /** The code points that UTF-8 bytes stand for (RFC 3629, section 3). */
  function FromUtf8(s: ByteString): Option<seq<nat>> {
    if s == [] then Some([])
    else if s[0] < 0x80 then
      var rest :- FromUtf8(s[1..]);
      Some([s[0]] + rest)
    else if 0xC0 <= s[0] < 0xE0 && |s| >= 2 then
      var rest :- FromUtf8(s[2..]);
      Some([Six(s[0] - 0xC0, s[1])] + rest)
    else if 0xE0 <= s[0] < 0xF0 && |s| >= 3 then
      var rest :- FromUtf8(s[3..]);
      Some([Six(Six(s[0] - 0xE0, s[1]), s[2])] + rest)
    else if 0xF0 <= s[0] && |s| >= 4 then
      var rest :- FromUtf8(s[4..]);
      Some([Six(Six(Six(s[0] - 0xF0, s[1]), s[2]), s[3])] + rest)
    else None
  }

  function CodePoints(s: string): (r: seq<nat>)
    ensures |r| == |s|
  {
    seq(|s|, i requires 0 <= i < |s| => s[i] as int)
  }

  lemma SixJoin(n: nat)
    ensures Six(n / 0x40, 0x80 + n % 0x40) == n
    ensures n / 0x1000 == n / 0x40 / 0x40 && n / 0x40000 == n / 0x1000 / 0x40
  {
  }

  lemma BytesRead(bytes: ByteString, rest: ByteString, points: seq<nat>)
    requires FromUtf8(rest) == Some(points) && bytes != []
    ensures |bytes| == 1 && bytes[0] < 0x80 ==> FromUtf8(bytes + rest) == Some([bytes[0]] + points)
    ensures
      |bytes| == 2 && 0xC0 <= bytes[0] < 0xE0 ==>
        FromUtf8(bytes + rest) == Some([Six(bytes[0] - 0xC0, bytes[1])] + points)
    ensures
      |bytes| == 3 && 0xE0 <= bytes[0] < 0xF0 ==>
        FromUtf8(bytes + rest) == Some([Six(Six(bytes[0] - 0xE0, bytes[1]), bytes[2])] + points)
    ensures
      |bytes| == 4 && 0xF0 <= bytes[0] ==>
        FromUtf8(bytes + rest) == Some([Six(Six(Six(bytes[0] - 0xF0, bytes[1]), bytes[2]), bytes[3])] + points)
  {
    assert (bytes + rest)[|bytes|..] == rest && forall i :: 0 <= i < |bytes| ==> (bytes + rest)[i] == bytes[i];
  }

  lemma CharReads(c: char, rest: ByteString, points: seq<nat>)
    requires FromUtf8(rest) == Some(points)
    ensures FromUtf8(Utf8Char(c) + rest) == Some([c as int] + points)
  {
    var n := c as int;
    BytesRead(Utf8Char(c), rest, points);
    SixJoin(n);
    SixJoin(n / 0x40);
    SixJoin(n / 0x1000);
  }

  /** Text survives its encoding. */
  lemma {:induction false} Utf8RoundTrip(s: string)
    ensures FromUtf8(Utf8(s)) == Some(CodePoints(s))
  {
    if s != "" {
      Utf8RoundTrip(s[1..]);
      CharReads(s[0], Utf8(s[1..]), CodePoints(s[1..]));
      assert CodePoints(s) == [s[0] as int] + CodePoints(s[1..]);
    }
  }

  predicate IsAscii(s: string) { forall c :: c in s ==> c as int < 0x80 }

  /** Only ASCII text has as many bytes as characters. */
  lemma {:induction false} AsciiLength(s: string)
    ensures |Utf8(s)| == |s| <==> IsAscii(s)
  {
    if s != "" {
      AsciiLength(s[1..]);
      assert s[0] in s && forall c :: c in s <==> c == s[0] || c in s[1..];
    }
  }

  // ------------------------------------------------------------ fixed-width integers

  function Pow256(n: nat): nat {
    if n == 0 then 1 else 256 * Pow256(n - 1)
  }

  function LittleEndian(v: nat, width: nat): (s: ByteString)
    ensures |s| == width
  {
    if width == 0 then [] else [v % 256] + LittleEndian(v / 256, width - 1)
  }

  function FromLittleEndian(s: ByteString): nat {
    if s == [] then 0 else s[0] + 256 * FromLittleEndian(s[1..])
  }

  lemma {:induction false} LittleEndianRoundTrip(v: nat, width: nat)
    requires v < Pow256(width)
    ensures FromLittleEndian(LittleEndian(v, width)) == v
  {
    if width > 0 {
      LittleEndianRoundTrip(v / 256, width - 1);
      assert LittleEndian(v, width)[1..] == LittleEndian(v / 256, width - 1);
    }
  }

  function BigEndian(v: nat, width: nat): (s: ByteString)
    ensures |s| == width
  {
    if width == 0 then [] else BigEndian(v / 256, width - 1) + [v % 256]
  }

  function FromBigEndian(s: ByteString): nat {
    if s == [] then 0 else 256 * FromBigEndian(s[..|s| - 1]) + s[|s| - 1]
  }

  lemma {:induction false} BigEndianRoundTrip(v: nat, width: nat)
    requires v < Pow256(width)
    ensures FromBigEndian(BigEndian(v, width)) == v
  {
    if width > 0 {
      BigEndianRoundTrip(v / 256, width - 1);
      assert BigEndian(v, width)[..width - 1] == BigEndian(v / 256, width - 1);
    }
  }

  lemma {:induction false} LittleEndianFits(s: ByteString)
    ensures FromLittleEndian(s) < Pow256(|s|)
  {
    if s != [] {
      LittleEndianFits(s[1..]);
    }
  }

  lemma {:induction false} BigEndianFits(s: ByteString)
    ensures FromBigEndian(s) < Pow256(|s|)
  {
    if s != [] {
      BigEndianFits(s[..|s| - 1]);
    }
  }

  /** Two's complement of a 32-bit signed value. */
  function Unsigned32(v: int): nat
    requires -0x8000_0000 <= v < 0x8000_0000
  {
    if v < 0 then v + 0x1_0000_0000 else v
  }

  /** The signed value that four bytes stand for. */
  function Signed32(n: nat): int { if n < 0x8000_0000 then n else n - 0x1_0000_0000 }

  /** The four bytes of a signed 32-bit value stand for that value. */
  lemma SignedRoundTrip(v: int)
    requires -0x8000_0000 <= v < 0x8000_0000
    ensures Unsigned32(v) < Pow256(4) && Signed32(FromLittleEndian(LittleEndian(Unsigned32(v), 4))) == v
  {
    assert Pow256(4) == 256 * (256 * (256 * (256 * Pow256(0))));
    LittleEndianRoundTrip(Unsigned32(v), 4);
  }

  // --------------------------------------------------------------- hexadecimal text

  function HexDigit(n: nat): byte
    requires n < 16
  {
    if n < 10 then 48 + n else 87 + n
  }

  function HexValue(c: byte): Option<nat> {
    if 48 <= c < 58 then Some(c - 48) else if 97 <= c < 103 then Some(c - 87) else None
  }

  function Hex(s: ByteString): (r: ByteString)
    ensures |r| == 2 * |s|
    ensures forall i :: 0 <= i < |r| ==> HexValue(r[i]).Some?
  {
    if s == [] then [] else [HexDigit(s[0] / 16), HexDigit(s[0] % 16)] + Hex(s[1..])
  }

  function FromHex(s: ByteString): Option<ByteString> {
    if s == [] then Some([])
    else if |s| == 1 then None
    else
      var high :- HexValue(s[0]);
      var low :- HexValue(s[1]);
      var rest :- FromHex(s[2..]);
      Some([16 * high + low] + rest)
  }

  lemma {:induction false} HexRoundTrip(s: ByteString)
    ensures FromHex(Hex(s)) == Some(s)
  {
    if s != [] {
      HexRoundTrip(s[1..]);
      assert Hex(s)[2..] == Hex(s[1..]);
      assert s == [s[0]] + s[1..];
    }
  }

  // -------------------------------------------------------------------- decimal text

  predicate IsDigit(c: byte) { 48 <= c < 58 }

  function Decimal(n: nat): (s: ByteString)
    ensures s != [] && forall c :: c in s ==> IsDigit(c)
  {
    if n < 10 then [48 + n] else Decimal(n / 10) + [48 + n % 10]
  }

  function FromDecimal(s: ByteString): Option<nat> {
    if s == [] then None else
      var last := s[|s| - 1];
      if !IsDigit(last) then None
      else if |s| == 1 then Some(last - 48)
      else
        var high :- FromDecimal(s[..|s| - 1]);
        Some(10 * high + (last - 48))
  }

  lemma {:induction false} DecimalRoundTrip(n: nat)
    ensures FromDecimal(Decimal(n)) == Some(n)
  {
    if n >= 10 {
      DecimalRoundTrip(n / 10);
      assert Decimal(n)[..|Decimal(n)| - 1] == Decimal(n / 10);
    }
  }

  // ------------------------------------------- reading a concatenation from the front

  function Take(s: ByteString, n: nat): (r: Option<(ByteString, ByteString)>)
    ensures r.Some? ==> |r.value.1| <= |s|
  {
    if n <= |s| then Some((s[..n], s[n..])) else None
  }

  lemma TakeOf(a: ByteString, rest: ByteString)
    ensures Take(a + rest, |a|) == Some((a, rest))
  {
  }

  lemma Regroup4(a: ByteString, b: ByteString, c: ByteString, d: ByteString, rest: ByteString)
    ensures a + b + c + d + rest == a + (b + (c + (d + rest)))
  {
  }

  lemma Regroup6(a: ByteString, b: ByteString, c: ByteString, d: ByteString, e: ByteString, f: ByteString, rest: ByteString)
    ensures a + b + c + d + e + f + rest == a + (b + (c + (d + (e + (f + rest)))))
  {
    Regroup4(a, b, c, d, e + (f + rest));
  }
}
