/** The RDMA token: 44 bytes, its integers little-endian, as 88 hex digits. */
module TokenCodec {
  import opened Basics
  import opened Numbers

  type uint16 = x: int | 0 <= x < 0x1_0000
  type uint32 = x: int | 0 <= x < 0x1_0000_0000

  const GID_LEN := 16
  const BINARY_LEN := 44
  const HEX_LEN := 88

  type Gid = s: seq<byte> | |s| == GID_LEN witness seq(GID_LEN, i => 0)

  datatype TransportType = DC | RC

  datatype RdmaToken = RdmaToken(
    qpNum: uint32, gid: Gid, rkey: uint32, remoteAddr: uint64, length: uint64,
    transport: TransportType, portNum: byte, lid: uint16)

  // ----- Little-endian integers -----

  function Pow256(n: nat): (p: nat)
    ensures p > 0
  {
    if n == 0 then 1 else 256 * Pow256(n - 1)
  }

  function LeBytes(v: nat, n: nat): (bs: seq<byte>)
    ensures |bs| == n
    decreases n
  {
    if n == 0 then [] else [v % 256] + LeBytes(v / 256, n - 1)
  }

  function LeValue(bs: seq<byte>): nat {
    if bs == [] then 0 else bs[0] + 256 * LeValue(bs[1..])
  }

  lemma {:induction false} LeValueOfBytes(v: nat, n: nat)
    requires v < Pow256(n)
    ensures LeValue(LeBytes(v, n)) == v
  {
    if n == 0 {
    } else {
      LeValueOfBytes(v / 256, n - 1);
      assert LeBytes(v, n)[1..] == LeBytes(v / 256, n - 1);
    }
  }

  lemma {:induction false} LeBytesOfValue(bs: seq<byte>)
    ensures LeValue(bs) < Pow256(|bs|)
    ensures LeBytes(LeValue(bs), |bs|) == bs
  {
    if bs == [] {
    } else {
      LeBytesOfValue(bs[1..]);
      var b, v := bs[0], LeValue(bs[1..]);
      assert (b + 256 * v) % 256 == b && (b + 256 * v) / 256 == v;
      assert bs == [b] + bs[1..];
    }
  }

  lemma {:induction false} LeValueAppend(bs: seq<byte>, b: byte)
    ensures LeValue(bs + [b]) == LeValue(bs) + b * Pow256(|bs|)
  {
    if bs == [] {
    } else {
      assert (bs + [b])[1..] == bs[1..] + [b];
      LeValueAppend(bs[1..], b);
      assert b * Pow256(|bs|) == 256 * (b * Pow256(|bs| - 1));
    }
  }

  lemma QuotientIs(v: nat, d: nat, q: nat, r: nat)
    requires d > 0 && v == d * q + r && r < d
    ensures v / d == q
  {
    var q' := v / d;
    if q' < q { Times(d, q', q); }
    if q < q' { Times(d, q, q'); }
  }

  /** Shifting by one byte and then by n is shifting by n + 1. */
  lemma DivideTwice(v: nat, d: nat)
    requires d > 0
    ensures v / 256 / d == v / (256 * d)
  {
    var q := v / 256 / d;
    var r := v / 256 - d * q;
    assert v == (256 * d) * q + (256 * r + v % 256);
    QuotientIs(v, 256 * d, q, 256 * r + v % 256);
  }

  /** Byte i of an integer's little-endian form is the integer shifted right by i bytes, cut to a
      byte. */
  lemma {:induction false} LeBytesAt(v: nat, n: nat, i: nat)
    requires i < n
    ensures LeBytes(v, n)[i] == v / Pow256(i) % 256
  {
    if i == 0 {
    } else {
      LeBytesAt(v / 256, n - 1, i - 1);
      DivideTwice(v, Pow256(i - 1));
    }
  }

  lemma Widths()
    ensures Pow256(1) == 256 && Pow256(2) == 0x1_0000
    ensures Pow256(4) == 0x1_0000_0000 && Pow256(8) == 0x1_0000_0000_0000_0000
  {
    assert Pow256(3) == 0x100_0000 && Pow256(4) == 0x1_0000_0000;
    assert Pow256(5) == 0x100_0000_0000 && Pow256(6) == 0x1_0000_0000_0000;
  }

  // ----- The writer and the reader -----

  class TokenWriter {
    const out: array<byte>
    var at: nat

    constructor (buf: array<byte>)
      ensures out == buf && at == 0
    {
      out := buf;
      at := 0;
    }

    method PutInt(value: nat, width: nat)
      requires at + width <= out.Length
      modifies this`at, out
      ensures at == old(at) + width
      ensures out[..at] == old(out[..at]) + LeBytes(value, width)
      ensures forall k :: at <= k < out.Length ==> out[k] == old(out[k])
    {
      var start := at;
      for i := 0 to width
        invariant out[..start + i] == old(out[..at]) + LeBytes(value, width)[..i]
        invariant forall k :: start + i <= k < out.Length ==> out[k] == old(out[k])
      {
        LeBytesAt(value, width, i);
        out[start + i] := value / Pow256(i) % 256;
        assert out[..start + i + 1] == out[..start + i] + [out[start + i]];
      }
      assert LeBytes(value, width)[..width] == LeBytes(value, width);
      at := start + width;
    }

    method PutBytes(bytes: seq<byte>)
      requires at + |bytes| <= out.Length
      modifies this`at, out
      ensures at == old(at) + |bytes|
      ensures out[..at] == old(out[..at]) + bytes
      ensures forall k :: at <= k < out.Length ==> out[k] == old(out[k])
    {
      var start := at;
      for i := 0 to |bytes|
        invariant out[..start + i] == old(out[..at]) + bytes[..i]
        invariant forall k :: start + i <= k < out.Length ==> out[k] == old(out[k])
      {
        out[start + i] := bytes[i];
        assert out[..start + i + 1] == out[..start + i] + [out[start + i]];
      }
      assert bytes[..|bytes|] == bytes;
      at := start + |bytes|;
    }
  }

  class TokenReader {
    const input: seq<byte>
    var at: nat

    constructor (buf: seq<byte>)
      ensures input == buf && at == 0
    {
      input := buf;
      at := 0;
    }

    /** Each byte lands above the bits read so far, so combining them is an addition. */
    method GetInt(width: nat) returns (value: nat)
      requires at + width <= |input|
      modifies this`at
      ensures at == old(at) + width
      ensures value == LeValue(input[old(at)..at]) && value < Pow256(width)
    {
      var start := at;
      value := 0;
      for i := 0 to width
        invariant value == LeValue(input[start..start + i])
      {
        LeValueAppend(input[start..start + i], input[start + i]);
        assert input[start..start + i + 1] == input[start..start + i] + [input[start + i]];
        value := value + input[start + i] * Pow256(i);
      }
      LeBytesOfValue(input[start..start + width]);
      at := start + width;
    }

    method GetBytes(n: nat) returns (bytes: seq<byte>)
      requires at + n <= |input|
      modifies this`at
      ensures at == old(at) + n
      ensures bytes == input[old(at)..at]
    {
      bytes := input[at..at + n];
      at := at + n;
    }
  }

  // ----- The binary form -----

  function TransportByte(t: TransportType): byte { if t.DC? then 0 else 1 }

  function EncodeBinary(t: RdmaToken): (bs: seq<byte>)
    ensures |bs| == BINARY_LEN
  {
    EncodeQp(t) + LeBytes(t.rkey, 4) + LeBytes(t.remoteAddr, 8) + LeBytes(t.length, 8) + LeBytes(t.portNum, 1)
    + LeBytes(t.lid, 2)
  }

  /** The fields that name the queue pair: transport, number and GID. */
  function EncodeQp(t: RdmaToken): (bs: seq<byte>)
    ensures |bs| == 21
  {
    LeBytes(TransportByte(t.transport), 1) + LeBytes(t.qpNum, 4) + t.gid
  }

  /** The value of a field of at most eight bytes. */
  function Field(bs: seq<byte>, start: nat, end: nat): (v: nat)
    requires start <= end <= |bs|
    ensures v < Pow256(end - start)
  {
    LeBytesOfValue(bs[start..end]);
    LeValue(bs[start..end])
  }

  function DecodeBinary(bs: seq<byte>): Option<RdmaToken>
    requires |bs| == BINARY_LEN
  {
    Widths();
    if bs[0] > 1 then None
    else Some(RdmaToken(
      transport := if bs[0] == 0 then DC else RC,
      qpNum := Field(bs, 1, 5), gid := bs[5..21], rkey := Field(bs, 21, 25),
      remoteAddr := Field(bs, 25, 33), length := Field(bs, 33, 41),
      portNum := Field(bs, 41, 42), lid := Field(bs, 42, 44)))
  }

  /** The wire layout: each field at its own place, with no padding. */
  lemma Layout(t: RdmaToken)
    ensures var bs := EncodeBinary(t);
      && bs[0..1] == LeBytes(TransportByte(t.transport), 1) && bs[1..5] == LeBytes(t.qpNum, 4)
      && bs[5..21] == t.gid && bs[21..25] == LeBytes(t.rkey, 4) && bs[25..33] == LeBytes(t.remoteAddr, 8)
      && bs[33..41] == LeBytes(t.length, 8) && bs[41..42] == LeBytes(t.portNum, 1)
      && bs[42..44] == LeBytes(t.lid, 2)
  {
    CutQp(LeBytes(TransportByte(t.transport), 1), LeBytes(t.qpNum, 4), t.gid);
    Cut(EncodeQp(t), LeBytes(t.rkey, 4), LeBytes(t.remoteAddr, 8), LeBytes(t.length, 8), LeBytes(t.portNum, 1),
      LeBytes(t.lid, 2));
  }

  lemma CutQp(a: seq<byte>, b: seq<byte>, c: seq<byte>)
    requires |a| == 1 && |b| == 4 && |c| == 16
    ensures var s := a + b + c; s[0..1] == a && s[1..5] == b && s[5..21] == c
  {
  }

  lemma Cut(qp: seq<byte>, a: seq<byte>, b: seq<byte>, c: seq<byte>, d: seq<byte>, e: seq<byte>)
    requires |qp| == 21 && |a| == 4 && |b| == 8 && |c| == 8 && |d| == 1 && |e| == 2
    ensures var s := qp + a + b + c + d + e;
      && s[0..1] == qp[0..1] && s[1..5] == qp[1..5] && s[5..21] == qp[5..21]
      && s[21..25] == a && s[25..33] == b && s[33..41] == c && s[41..42] == d && s[42..44] == e
  {
  }

  lemma BinaryRoundTrip(t: RdmaToken)
    ensures DecodeBinary(EncodeBinary(t)) == Some(t)
  {
    Layout(t);
    Widths();
    var bs := EncodeBinary(t);
    assert bs[0] == bs[0..1][0] == TransportByte(t.transport);
    LeValueOfBytes(t.qpNum, 4);
    LeValueOfBytes(t.rkey, 4);
    LeValueOfBytes(t.remoteAddr, 8);
    LeValueOfBytes(t.length, 8);
    LeValueOfBytes(t.portNum, 1);
    LeValueOfBytes(t.lid, 2);
  }

  lemma FieldBytes(bs: seq<byte>, start: nat, end: nat)
    requires start <= end <= |bs|
    ensures LeBytes(Field(bs, start, end), end - start) == bs[start..end]
  {
    LeBytesOfValue(bs[start..end]);
  }

  lemma Pieces(bs: seq<byte>)
    requires |bs| == BINARY_LEN
    ensures bs == bs[0..1] + bs[1..5] + bs[5..21] + bs[21..25] + bs[25..33] + bs[33..41] + bs[41..42] + bs[42..44]
  {
  }

  lemma FirstByte(bs: seq<byte>)
    requires |bs| == BINARY_LEN && bs[0] <= 1
    ensures LeBytes(TransportByte(if bs[0] == 0 then DC else RC), 1) == bs[0..1]
  {
  }

  lemma BinaryIsCanonical(bs: seq<byte>)
    requires |bs| == BINARY_LEN && DecodeBinary(bs).Some?
    ensures EncodeBinary(DecodeBinary(bs).value) == bs
  {
    FirstByte(bs);
    FieldBytes(bs, 1, 5);
    FieldBytes(bs, 21, 25);
    FieldBytes(bs, 25, 33);
    FieldBytes(bs, 33, 41);
    FieldBytes(bs, 41, 42);
    FieldBytes(bs, 42, 44);
    Pieces(bs);
  }

  // ----- Hex digits -----

  /** The two lower-case digits of a byte. */
  function ByteHex(b: byte): (s: string)
    ensures |s| == 2
  {
    [DigitChar(b / 16), DigitChar(b % 16)]
  }

  /** The digits of the bytes, two for each. */
  function Hex(bs: seq<byte>): (s: string)
    ensures |s| == 2 * |bs|
  {
    if bs == [] then "" else Hex(bs[..|bs| - 1]) + ByteHex(bs[|bs| - 1])
  }

  predicate IsHexDigit(c: char) { '0' <= c <= '9' || 'a' <= c <= 'f' || 'A' <= c <= 'F' }

  predicate AllHex(s: string) { forall i :: 0 <= i < |s| ==> IsHexDigit(s[i]) }

  lemma HexDigitIsDigit(c: char)
    ensures IsHexDigit(c) <==> IsDigit(c, 16)
    ensures IsHexDigit(c) ==> DigitChar(DigitValue(c)) == LowerChar(c)
  {
  }

  function PairByte(c: char, d: char): byte
    requires IsHexDigit(c) && IsHexDigit(d)
  {
    16 * DigitValue(c) + DigitValue(d)
  }

  /** The bytes that pairs of digits stand for. */
  function Unhex(s: string): (bs: seq<byte>)
    requires AllHex(s) && |s| % 2 == 0
    ensures 2 * |bs| == |s|
  {
    if s == "" then [] else Unhex(s[..|s| - 2]) + [PairByte(s[|s| - 2], s[|s| - 1])]
  }

  function LowerChar(c: char): char { if 'A' <= c <= 'Z' then c - 'A' + 'a' else c }

  function Lower(s: string): string {
    if s == "" then "" else Lower(s[..|s| - 1]) + [LowerChar(s[|s| - 1])]
  }

  lemma LowerAppend(s: string, c: char, d: char)
    ensures Lower(s + [c, d]) == Lower(s) + [LowerChar(c), LowerChar(d)]
  {
    var front := s + [c];
    assert (s + [c, d])[..|s| + 1] == front && front[..|s|] == s;
  }

  /** Two characters parse as a byte exactly when both are hex digits, of either case. */
  lemma ParsePair(c: char, d: char)
    ensures ParseNumber([c, d], 16, 0, 255) ==
      if IsHexDigit(c) && IsHexDigit(d) then Some(PairByte(c, d)) else None
  {
    HexDigitIsDigit(c);
    HexDigitIsDigit(d);
    var text := [c, d];
    assert text[..1] == [c] && [c][..0] == [];
    assert Value([c], 16) == DigitValue(c) && Value(text, 16) == 16 * DigitValue(c) + DigitValue(d);
    assert AllDigits(text, 16) <==> IsDigit(text[0], 16) && IsDigit(text[1], 16);
    var r := ParseNumber(text, 16, 0, 255);
    ParsesExactlyNumerals(text, 16, 0, 255, if r.Some? then r.value else 16 * DigitValue(c) + DigitValue(d));
  }

  lemma ByteHexIsHex(b: byte)
    ensures IsHexDigit(ByteHex(b)[0]) && IsHexDigit(ByteHex(b)[1])
    ensures PairByte(ByteHex(b)[0], ByteHex(b)[1]) == b
  {
  }

  /** Printing the byte that two digits stand for gives their lower-case forms. */
  lemma PairByteHex(c: char, d: char)
    requires IsHexDigit(c) && IsHexDigit(d)
    ensures ByteHex(PairByte(c, d)) == [LowerChar(c), LowerChar(d)]
  {
    HexDigitIsDigit(c);
    HexDigitIsDigit(d);
  }

  lemma HexAppend(bs: seq<byte>, b: byte)
    ensures Hex(bs + [b]) == Hex(bs) + ByteHex(b)
  {
    assert (bs + [b])[..|bs|] == bs;
  }

  lemma UnhexAppend(s: string, c: char, d: char)
    requires AllHex(s) && |s| % 2 == 0 && IsHexDigit(c) && IsHexDigit(d)
    ensures AllHex(s + [c, d]) && Unhex(s + [c, d]) == Unhex(s) + [PairByte(c, d)]
  {
    var t := s + [c, d];
    assert |t| == |s| + 2 && t[..|t| - 2] == s && t[|t| - 2] == c && t[|t| - 1] == d;
  }

  lemma UnhexByteHex(s: string, b: byte)
    requires AllHex(s) && |s| % 2 == 0
    ensures AllHex(s + ByteHex(b)) && Unhex(s + ByteHex(b)) == Unhex(s) + [b]
  {
    ByteHexIsHex(b);
    UnhexTail(s, ByteHex(b), b);
  }

  lemma UnhexTail(s: string, tail: string, b: byte)
    requires AllHex(s) && |s| % 2 == 0 && |tail| == 2
    requires IsHexDigit(tail[0]) && IsHexDigit(tail[1]) && PairByte(tail[0], tail[1]) == b
    ensures AllHex(s + tail) && Unhex(s + tail) == Unhex(s) + [b]
  {
    UnhexAppend(s, tail[0], tail[1]);
    assert tail == [tail[0], tail[1]];
  }

  lemma {:induction false} UnhexOfHex(bs: seq<byte>)
    ensures AllHex(Hex(bs)) && Unhex(Hex(bs)) == bs
  {
    if bs == [] {
    } else {
      var front, b := bs[..|bs| - 1], bs[|bs| - 1];
      UnhexOfHex(front);
      assert bs == front + [b];
      HexAppend(front, b);
      UnhexByteHex(Hex(front), b);
    }
  }

  lemma {:induction false} HexOfUnhex(s: string)
    requires AllHex(s) && |s| % 2 == 0
    ensures Hex(Unhex(s)) == Lower(s)
    decreases |s|
  {
    if s == "" {
    } else {
      var front, c, d := LastPair(s);
      HexOfUnhex(front);
      HexOfOneMore(front, c, d);
    }
  }

  lemma LastPair(s: string) returns (front: string, c: char, d: char)
    requires AllHex(s) && |s| % 2 == 0 && s != ""
    ensures s == front + [c, d] && |front| == |s| - 2 && |front| % 2 == 0
    ensures AllHex(front) && IsHexDigit(c) && IsHexDigit(d)
  {
    front, c, d := s[..|s| - 2], s[|s| - 2], s[|s| - 1];
  }

  lemma HexOfOneMore(s: string, c: char, d: char)
    requires AllHex(s) && |s| % 2 == 0 && Hex(Unhex(s)) == Lower(s) && IsHexDigit(c) && IsHexDigit(d)
    ensures AllHex(s + [c, d]) && Hex(Unhex(s + [c, d])) == Lower(s + [c, d])
  {
    UnhexAppend(s, c, d);
    HexAppend(Unhex(s), PairByte(c, d));
    PairByteHex(c, d);
    LowerAppend(s, c, d);
  }

  /** The transports on the wire: DC is 00 and RC is 01. */
  lemma TransportOnTheWire(t: RdmaToken)
    ensures EncodeHex(t)[..2] == if t.transport == DC then "00" else "01"
  {
    DecodeAfterEncode(t);
    var bs := EncodeBinary(t);
    Layout(t);
    assert bs[0] == bs[0..1][0];
    HexFirst(bs);
    assert EncodeHex(t)[..2] == ByteHex(bs[0]);
  }

  lemma {:induction false} HexFirst(bs: seq<byte>)
    requires bs != []
    ensures |Hex(bs)| >= 2 && Hex(bs)[..2] == ByteHex(bs[0])
  {
    if |bs| == 1 {
      assert Hex(bs[..0]) == "";
    } else {
      HexFirst(bs[..|bs| - 1]);
    }
  }

  lemma {:induction false} UnhexFirst(s: string)
    requires AllHex(s) && |s| % 2 == 0 && s != ""
    ensures Unhex(s)[0] == PairByte(s[0], s[1])
  {
    if |s| <= 2 {
    } else {
      UnhexFirst(s[..|s| - 2]);
    }
  }

  // ----- The token's text -----

  function EncodeHex(t: RdmaToken): (s: string)
    ensures |s| == HEX_LEN
  {
    Hex(EncodeBinary(t))
  }

  function DecodeHex(s: string): Option<RdmaToken> {
    if |s| != HEX_LEN || !AllHex(s) then None else DecodeBinary(Unhex(s))
  }

  /** Decoding an encoded token gives it back, whatever the token. */
  lemma DecodeAfterEncode(t: RdmaToken)
    ensures DecodeHex(EncodeHex(t)) == Some(t)
    ensures Lower(EncodeHex(t)) == EncodeHex(t)
  {
    UnhexOfHex(EncodeBinary(t));
    BinaryRoundTrip(t);
    HexOfUnhex(EncodeHex(t));
  }

  /** Every text that decodes is the encoding of the token it decodes to, up to its case. */
  lemma EncodeAfterDecode(s: string)
    requires DecodeHex(s).Some?
    ensures EncodeHex(DecodeHex(s).value) == Lower(s)
  {
    BinaryIsCanonical(Unhex(s));
    HexOfUnhex(s);
  }

  /** The texts that decode: 88 hex digits, of either case, whose first byte names a transport. */
  lemma DecodesExactly(s: string)
    ensures DecodeHex(s).Some? <==>
      |s| == HEX_LEN && AllHex(s) && s[0] == '0' && (s[1] == '0' || s[1] == '1')
  {
    if |s| == HEX_LEN && AllHex(s) {
      UnhexFirst(s);
    }
  }

  /** Two texts name the same token exactly when they differ in case alone. */
  lemma SameTokenIffSameLower(s: string, u: string)
    requires DecodeHex(s).Some? && DecodeHex(u).Some?
    ensures DecodeHex(s) == DecodeHex(u) <==> Lower(s) == Lower(u)
  {
    EncodeAfterDecode(s);
    EncodeAfterDecode(u);
    DecodeAfterEncode(DecodeHex(s).value);
    DecodeAfterEncode(DecodeHex(u).value);
  }

  // ----- The code -----

  /** The binary form, written field by field. */
  method WriteBinary(token: RdmaToken) returns (buf: seq<byte>)
    ensures buf == EncodeBinary(token)
  {
    var arr := new byte[BINARY_LEN](_ => 0);
    var out := new TokenWriter(arr);
    out.PutInt(TransportByte(token.transport), 1);
    out.PutInt(token.qpNum, 4);
    out.PutBytes(token.gid);
    assert arr[..21] == EncodeQp(token);
    out.PutInt(token.rkey, 4);
    out.PutInt(token.remoteAddr, 8);
    out.PutInt(token.length, 8);
    out.PutInt(token.portNum, 1);
    out.PutInt(token.lid, 2);
    buf := arr[..];
    assert buf == arr[..BINARY_LEN];
  }

  method WriteHex(buf: seq<byte>) returns (hex: string)
    ensures hex == Hex(buf) + ['\0']
  {
    var arr := new char[2 * |buf| + 1](_ => '\0');
    for i := 0 to |buf|
      invariant arr[..2 * i] == Hex(buf[..i])
      invariant arr[2 * |buf|] == '\0'
    {
      ghost var written := arr[..2 * i];
      var digits := ByteHex(buf[i]);
      arr[2 * i] := digits[0];
      arr[2 * i + 1] := digits[1];
      assert arr[..2 * i] == written;
      assert arr[..2 * i + 2] == written + digits;
      HexAppend(buf[..i], buf[i]);
      assert buf[..i + 1] == buf[..i] + [buf[i]];
    }
    assert buf[..|buf|] == buf;
    hex := arr[..];
    assert hex == arr[..2 * |buf|] + [arr[2 * |buf|]];
  }

  /** 88 lower-case hex digits and a NUL. */
  method EncodeRdmaTokenHex(token: RdmaToken) returns (hex: string)
    ensures hex == EncodeHex(token) + ['\0']
  {
    var buf := WriteBinary(token);
    hex := WriteHex(buf);
  }

  method ReadBinary(buf: seq<byte>) returns (r: Option<RdmaToken>)
    requires |buf| == BINARY_LEN
    ensures r == DecodeBinary(buf)
  {
    Widths();
    var reader := new TokenReader(buf);
    var transport := reader.GetInt(1);
    assert buf[0..1] == [buf[0]] && transport == buf[0];
    if transport != 0 && transport != 1 {
      return None;
    }
    var qpNum := reader.GetInt(4);
    var gid := reader.GetBytes(GID_LEN);
    var rkey := reader.GetInt(4);
    var remoteAddr := reader.GetInt(8);
    var length := reader.GetInt(8);
    var portNum := reader.GetInt(1);
    var lid := reader.GetInt(2);
    r := Some(RdmaToken(qpNum, gid, rkey, remoteAddr, length, if transport == 0 then DC else RC, portNum, lid));
  }

  method DecodeRdmaTokenHex(tokenHex: string) returns (r: Option<RdmaToken>)
    ensures r == DecodeHex(tokenHex)
  {
    if |tokenHex| != HEX_LEN {
      return None;
    }
    var buf := new byte[BINARY_LEN](_ => 0);
    for i := 0 to BINARY_LEN
      invariant AllHex(tokenHex[..2 * i])
      invariant buf[..i] == Unhex(tokenHex[..2 * i])
    {
      var c, d := tokenHex[2 * i], tokenHex[2 * i + 1];
      assert tokenHex[2 * i..2 * i + 2] == [c, d];
      ParsePair(c, d);
      var parsed := ParseNumber(tokenHex[2 * i..2 * i + 2], 16, 0, 255);
      if parsed.None? {
        return None;
      }
      buf[i] := parsed.value;
      UnhexAppend(tokenHex[..2 * i], c, d);
      assert tokenHex[..2 * (i + 1)] == tokenHex[..2 * i] + [c, d];
      assert buf[..i + 1] == buf[..i] + [buf[i]];
    }
    assert buf[..] == buf[..BINARY_LEN] && tokenHex[..HEX_LEN] == tokenHex;
    r := ReadBinary(buf[..]);
  }
}
