/** The framing of the RDMA fast path (src/rdma.rs): packet layout, decoding, and
    the hexadecimal token that travels in the send request. */
module Packet {
  import opened Primitives
  import opened Hex

  const MAGIC: Bytes := [80, 82, 68, 77, 65, 48, 48, 49]  // "PRDMA001"
  const PROTOCOL_VERSION: nat := 1
  const HEADER_LEN: nat := 40
  const TOKEN_LEN: nat := 16
  const KIND_DATA: byte := 1
  const KIND_DONE: byte := 2

  datatype Packet = Packet(kind: byte, token: Bytes, offset: u64, payload: Bytes)

  datatype PacketError = ShortHeader | BadMagic | BadVersion | LengthMismatch | PayloadTooLarge

  // ----- big-endian numbers

  function Pow256(n: nat): (r: nat)
    ensures r >= 1
  {
    if n == 0 then 1 else 256 * Pow256(n - 1)
  }

  function ToBigEndian(v: nat, n: nat): (r: Bytes)
    ensures |r| == n
  {
    if n == 0 then [] else ToBigEndian(v / 256, n - 1) + [v % 256]
  }

  function FromBigEndian(s: Bytes): (r: nat)
    ensures r < Pow256(|s|)
  {
    if s == [] then 0 else 256 * FromBigEndian(s[..|s| - 1]) + s[|s| - 1]
  }

  lemma {:induction false} BigEndianRoundTrip(v: nat, n: nat)
    requires v < Pow256(n)
    ensures FromBigEndian(ToBigEndian(v, n)) == v
  {
    if n > 0 {
      BigEndianRoundTrip(v / 256, n - 1);
      assert ToBigEndian(v, n)[..n - 1] == ToBigEndian(v / 256, n - 1);
    }
  }

  lemma {:induction false} BigEndianCanonical(s: Bytes)
    ensures ToBigEndian(FromBigEndian(s), |s|) == s
  {
    if s != [] {
      var front, last := s[..|s| - 1], s[|s| - 1];
      BigEndianCanonical(front);
      LastByte(FromBigEndian(front), last);
      assert s == front + [last];
    }
  }

  lemma LastByte(x: nat, last: byte)
    ensures (256 * x + last) / 256 == x && (256 * x + last) % 256 == last
  {
  }

  lemma WordSizes()
    ensures Pow256(2) == 0x1_0000 && Pow256(4) == U32_LIMIT && Pow256(8) == U64_LIMIT
  {
    assert Pow256(4) == U32_LIMIT;
  }

  /** The most significant byte comes first. */
  lemma FourBytes(v: u32)
    ensures ToBigEndian(v, 4) == [v / 0x100_0000, v / 0x1_0000 % 256, v / 256 % 256, v % 256]
  {
    assert ToBigEndian(v / 0x100_0000, 1) == [v / 0x100_0000];
    assert ToBigEndian(v / 0x1_0000, 2) == [v / 0x100_0000, v / 0x1_0000 % 256];
    assert ToBigEndian(v / 256, 3) == [v / 0x100_0000, v / 0x1_0000 % 256, v / 256 % 256];
  }

  // ----- layout

  function Header(p: Packet): (h: Bytes)
    requires |p.token| == TOKEN_LEN
    ensures |h| == HEADER_LEN
  {
    MAGIC + ToBigEndian(PROTOCOL_VERSION, 2) + [p.kind, 0] + p.token
    + ToBigEndian(p.offset, 8) + ToBigEndian(|p.payload|, 4)
  }

  function Encoding(p: Packet): Bytes
    requires |p.token| == TOKEN_LEN
  {
    Header(p) + p.payload
  }

  predicate Sendable(p: Packet) {
    |p.token| == TOKEN_LEN && |p.payload| < U32_LIMIT
  }

  /** Fills the packet field by field. */
  method EncodePacket(kind: byte, token: Bytes, offset: u64, payload: Bytes) returns (r: Result<Bytes, PacketError>)
    requires |token| == TOKEN_LEN
    ensures r == if |payload| < U32_LIMIT then Ok(Encoding(Packet(kind, token, offset, payload)))
                 else Err(PayloadTooLarge)
  {
    if |payload| > U32_LIMIT - 1 {
      return Err(PayloadTooLarge);
    }
    var packet := MAGIC;
    packet := packet + ToBigEndian(PROTOCOL_VERSION, 2);
    packet := packet + [kind];
    packet := packet + [0];
    packet := packet + token;
    packet := packet + ToBigEndian(offset, 8);
    packet := packet + ToBigEndian(|payload|, 4);
    assert packet == Header(Packet(kind, token, offset, payload));
    packet := packet + payload;
    r := Ok(packet);
  }

  /** The checks made on a header alone, and the payload length it announces. */
  function PayloadLen(header: Bytes): Result<nat, PacketError> {
    if |header| < HEADER_LEN then Err(ShortHeader)
    else if header[..8] != MAGIC then Err(BadMagic)
    else if FromBigEndian(header[8..10]) != PROTOCOL_VERSION then Err(BadVersion)
    else Ok(FromBigEndian(header[36..40]))
  }

  function DecodePacket(buf: Bytes): (r: Result<Packet, PacketError>)
    ensures r.Ok? ==> |r.value.token| == TOKEN_LEN
  {
    if |buf| < HEADER_LEN then Err(ShortHeader)
    else if buf[..8] != MAGIC then Err(BadMagic)
    else if FromBigEndian(buf[8..10]) != PROTOCOL_VERSION then Err(BadVersion)
    else if HEADER_LEN + FromBigEndian(buf[36..40]) != |buf| then Err(LengthMismatch)
    else
      WordSizes();
      Ok(Packet(buf[10], buf[12..28], FromBigEndian(buf[28..36]), buf[40..]))
  }

  lemma HeaderFields(p: Packet, rest: Bytes)
    requires Sendable(p)
    ensures var buf := Header(p) + rest;
            && buf[..40] == Header(p) && buf[40..] == rest
            && buf[..8] == MAGIC && buf[8..10] == ToBigEndian(PROTOCOL_VERSION, 2)
            && buf[10] == p.kind && buf[11] == 0 && buf[12..28] == p.token
            && buf[28..36] == ToBigEndian(p.offset, 8)
            && buf[36..40] == ToBigEndian(|p.payload|, 4)
  {
  }

  lemma HeaderNumbers(p: Packet)
    requires Sendable(p)
    ensures FromBigEndian(ToBigEndian(PROTOCOL_VERSION, 2)) == PROTOCOL_VERSION
    ensures FromBigEndian(ToBigEndian(p.offset, 8)) == p.offset
    ensures FromBigEndian(ToBigEndian(|p.payload|, 4)) == |p.payload|
  {
    WordSizes();
    BigEndianRoundTrip(PROTOCOL_VERSION, 2);
    BigEndianRoundTrip(p.offset, 8);
    BigEndianRoundTrip(|p.payload|, 4);
  }

  lemma PacketRoundTrip(p: Packet)
    requires Sendable(p)
    ensures DecodePacket(Encoding(p)) == Ok(p)
  {
    HeaderFields(p, p.payload);
    HeaderNumbers(p);
  }

  /** What decodes is an encoding, except that the reserved byte is not read. */
  lemma DecodeOnlyEncodings(buf: Bytes)
    requires DecodePacket(buf).Ok?
    ensures Sendable(DecodePacket(buf).value)
    ensures buf[11 := 0] == Encoding(DecodePacket(buf).value)
  {
    WordSizes();
    var p := DecodePacket(buf).value;
    BigEndianCanonical(buf[8..10]);
    BigEndianCanonical(buf[28..36]);
    BigEndianCanonical(buf[36..40]);
    var h := buf[..8] + buf[8..10] + [buf[10], 0] + buf[12..28] + buf[28..36] + buf[36..40];
    assert h == Header(p);
    assert buf[11 := 0] == h + buf[40..];
  }

  // ----- the token in the send request

  function HexOf(bytes: Bytes): (r: string)
    ensures |r| == 2 * |bytes|
  {
    if bytes == [] then ""
    else HexOf(bytes[..|bytes| - 1]) + [DigitChar(bytes[|bytes| - 1] / 16), DigitChar(bytes[|bytes| - 1] % 16)]
  }

  method HexEncode(bytes: Bytes) returns (out: string)
    ensures out == HexOf(bytes)
  {
    out := "";
    for k := 0 to |bytes|
      invariant out == HexOf(bytes[..k])
    {
      assert bytes[..k + 1][..k] == bytes[..k];
      out := out + [DigitChar(bytes[k] / 16)];
      out := out + [DigitChar(bytes[k] % 16)];
      assert out == HexOf(bytes[..k]) + [DigitChar(bytes[k] / 16), DigitChar(bytes[k] % 16)];
    }
    assert bytes[..|bytes|] == bytes;
  }

  /** The inverse of `HexEncode` on 16-byte tokens, up to the case of the text. */
  method HexDecode16(value: string) returns (r: Option<Bytes>)
    ensures r.Some? ==> |r.value| == TOKEN_LEN
    ensures forall token: Bytes | |token| == TOKEN_LEN :: r == Some(token) <==> HexOf(token) == Lower(value)
  {
    if |value| != 32 {
      return None;
    }
    var out: Bytes := [];
    for k := 0 to 16
      invariant |out| == k && HexOf(out) == Lower(value)[..2 * k]
    {
      var hi, lo := Nibble(value[2 * k]), Nibble(value[2 * k + 1]);
      if hi.None? || lo.None? {
        forall token: Bytes | |token| == TOKEN_LEN
          ensures HexOf(token) != Lower(value)
        {
          HexPair(token, k);
          NibbleDigit(token[k] / 16, value[2 * k]);
          NibbleDigit(token[k] % 16, value[2 * k + 1]);
        }
        return None;
      }
      var b: byte := hi.value * 16 + lo.value;
      HexPush(out, b, value, k);
      out := out + [b];
    }
    assert Lower(value)[..32] == Lower(value);
    r := Some(out);
    forall token: Bytes | |token| == TOKEN_LEN && HexOf(token) == Lower(value)
      ensures token == out
    {
      HexInjective(token, out);
    }
  }

  lemma HexPush(out: Bytes, b: byte, value: string, k: nat)
    requires |out| == k && |value| == 32 && k < 16 && HexOf(out) == Lower(value)[..2 * k]
    requires Nibble(value[2 * k]) == Some(b / 16) && Nibble(value[2 * k + 1]) == Some(b % 16)
    ensures HexOf(out + [b]) == Lower(value)[..2 * (k + 1)]
  {
    NibbleDigit(b / 16, value[2 * k]);
    NibbleDigit(b % 16, value[2 * k + 1]);
    assert (out + [b])[..k] == out;
    assert Lower(value)[..2 * (k + 1)]
        == Lower(value)[..2 * k] + [Lower(value)[2 * k], Lower(value)[2 * k + 1]];
  }

  lemma {:induction false} HexPair(token: Bytes, k: nat)
    requires k < |token|
    ensures HexOf(token)[2 * k] == DigitChar(token[k] / 16)
    ensures HexOf(token)[2 * k + 1] == DigitChar(token[k] % 16)
    decreases |token|
  {
    if k < |token| - 1 {
      HexPair(token[..|token| - 1], k);
    }
  }

  /** The token printed by one side is the token parsed by the other. */
  lemma {:induction false} HexInjective(a: Bytes, b: Bytes)
    requires |a| == |b| && HexOf(a) == HexOf(b)
    ensures a == b
  {
    forall k | 0 <= k < |a|
      ensures a[k] == b[k]
    {
      HexPair(a, k);
      HexPair(b, k);
      NibbleDigit(a[k] / 16, DigitChar(a[k] / 16));
      NibbleDigit(b[k] / 16, DigitChar(b[k] / 16));
      NibbleDigit(a[k] % 16, DigitChar(a[k] % 16));
      NibbleDigit(b[k] % 16, DigitChar(b[k] % 16));
    }
  }
}
