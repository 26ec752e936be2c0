/**
 * Framing of the MySQL Client/Server Protocol as far as the router needs it:
 * the 4-byte packet header (3-byte little-endian payload length, then the
 * sequence id), the ERR_Packet the router synthesises, and the fake
 * handshake-response packet it sends for a blocked client host.
 */
module Packet {
  import opened Wrappers

  const HeaderLength: nat := 4
  /** The largest payload length a 3-byte length field can carry. */
  const MaxPayloadLength: nat := 0xFF_FFFF
  /** First payload byte of an ERR_Packet. */
  const ErrMarker: byte := 0xff

  datatype Header = Header(payloadLength: nat, seqId: byte)

  /** Low byte of `n`. */
  function Lo(n: nat): (r: byte)
  {
    (n % 256) as byte
  }

  /** The header bytes; a length beyond 24 bits keeps only its low 24 bits. */
  function EncodeHeader(h: Header): (r: seq<byte>)
    ensures |r| == HeaderLength && r[3] == h.seqId
  {
    [Lo(h.payloadLength), Lo(h.payloadLength / 256), Lo(h.payloadLength / 65536), h.seqId]
  }

  /** Reads a header; fails when fewer than four bytes are available. */
  function DecodeHeader(buf: seq<byte>): (r: Option<Header>)
    ensures r.Some? <==> |buf| >= HeaderLength
    ensures r.Some? ==> r.value.payloadLength <= MaxPayloadLength && r.value.seqId == buf[3]
  {
    if |buf| < HeaderLength then None
    else Some(Header(buf[0] as nat + 256 * buf[1] as nat + 65536 * buf[2] as nat, buf[3]))
  }

  /** Decoding what was encoded gives the header back, whatever follows it. */
  lemma HeaderRoundTrip(h: Header, rest: seq<byte>)
    requires h.payloadLength <= MaxPayloadLength
    ensures DecodeHeader(EncodeHeader(h) + rest) == Some(h)
  {
    var n := h.payloadLength;
    var b := EncodeHeader(h) + rest;
    assert b[0] as nat == n % 256 && b[1] as nat == (n / 256) % 256 && b[2] as nat == (n / 65536) % 256;
    DigitsLemma(n);
  }

  /** Splitting a 24-bit number into three base-256 digits and back. */
  lemma DigitsLemma(n: nat)
    requires n <= MaxPayloadLength
    ensures n % 256 + 256 * ((n / 256) % 256) + 65536 * ((n / 65536) % 256) == n
  {
    var q := n / 256;
    assert n == 256 * q + n % 256;
    assert q == 256 * (q / 256) + q % 256;
    assert q / 256 == n / 65536;
    assert n / 65536 < 256;
  }

  /** Encoding what was decoded gives the first four bytes back. */
  lemma HeaderBytesRoundTrip(buf: seq<byte>)
    requires |buf| >= HeaderLength
    ensures EncodeHeader(DecodeHeader(buf).value) == buf[..HeaderLength]
  {
    var n := DecodeHeader(buf).value.payloadLength;
    var b0, b1, b2 := buf[0] as nat, buf[1] as nat, buf[2] as nat;
    assert n == b0 + 256 * (b1 + 256 * b2);
    assert n % 256 == b0;
    assert n / 256 == b1 + 256 * b2;
    assert (n / 256) % 256 == b1;
    assert n / 65536 == (n / 256) / 256 == b2;
  }

  /** A packet on the wire: header, then payload. */
  function Frame(seqId: byte, payload: seq<byte>): (r: seq<byte>)
  {
    EncodeHeader(Header(|payload|, seqId)) + payload
  }

  /** The header of a framed packet names its sequence id and payload length. */
  lemma FrameHeader(seqId: byte, payload: seq<byte>)
    requires |payload| <= MaxPayloadLength
    ensures DecodeHeader(Frame(seqId, payload)) == Some(Header(|payload|, seqId))
    ensures |Frame(seqId, payload)| == HeaderLength + |payload|
    ensures Frame(seqId, payload)[HeaderLength..] == payload
  {
    HeaderRoundTrip(Header(|payload|, seqId), payload);
  }

  /** The bytes of an ASCII string (`std::string` holds bytes). */
  function Bytes(s: string): (r: seq<byte>)
    ensures |r| == |s|
  {
    seq(|s|, i requires 0 <= i < |s| => Lo(s[i] as nat))
  }

  /**
   * The router's ERR_Packet (client protocol 4.1 layout): marker 0xff,
   * 2-byte little-endian error code, '#', SQL state, message.
   */
  datatype ErrorPacket = ErrorPacket(seqId: byte, code: nat, message: string, sqlState: string)

  function ErrorPayload(e: ErrorPacket): (r: seq<byte>)
  {
    [ErrMarker, Lo(e.code), Lo(e.code / 256), Lo('#' as nat)] + Bytes(e.sqlState) + Bytes(e.message)
  }

  function ErrorPacketBytes(e: ErrorPacket): (r: seq<byte>)
  {
    Frame(e.seqId, ErrorPayload(e))
  }

  /** True when `buf` starts with a packet whose payload is an ERR_Packet. */
  predicate IsErrorPacket(buf: seq<byte>)
  {
    |buf| > HeaderLength && buf[HeaderLength] == ErrMarker
  }

  /**
   * An error packet is recognised as one, and its header carries its
   * sequence id and a payload length of 4 + |SQL state| + |message|.
   */
  lemma ErrorPacketFraming(e: ErrorPacket)
    requires 4 + |e.sqlState| + |e.message| <= MaxPayloadLength
    ensures IsErrorPacket(ErrorPacketBytes(e))
    ensures DecodeHeader(ErrorPacketBytes(e)) == Some(Header(4 + |e.sqlState| + |e.message|, e.seqId))
    ensures |ErrorPacketBytes(e)| == HeaderLength + 4 + |e.sqlState| + |e.message|
  {
    FrameHeader(e.seqId, ErrorPayload(e));
  }

  /**
   * The fake handshake-response packet of a blocked client host. Only the
   * NUL-terminated user name, the length-prefixed auth response and the
   * NUL-terminated database name are laid out; the password is not sent.
   */
  datatype HandshakeResponsePacket =
    HandshakeResponsePacket(seqId: byte, authResponse: seq<byte>, username: string, password: string, database: string)

  function HandshakeResponsePayload(p: HandshakeResponsePacket): (r: seq<byte>)
  {
    Bytes(p.username) + [0, Lo(|p.authResponse|)] + p.authResponse + Bytes(p.database) + [0]
  }

  function HandshakeResponseBytes(p: HandshakeResponsePacket): (r: seq<byte>)
  {
    Frame(p.seqId, HandshakeResponsePayload(p))
  }

  /** The packet `on_block_client_host` sends: sequence 1, user ROUTER, database fake_router_login. */
  const FakeHandshakeResponse := HandshakeResponsePacket(1, [], "ROUTER", "", "fake_router_login")

  /** The fake response is a well-framed packet with sequence id 1. */
  lemma FakeHandshakeResponseFraming()
    ensures DecodeHeader(HandshakeResponseBytes(FakeHandshakeResponse)) ==
      Some(Header(|HandshakeResponsePayload(FakeHandshakeResponse)|, 1))
  {
    FrameHeader(1, HandshakeResponsePayload(FakeHandshakeResponse));
  }
}
