/**
 The wire format both ends share: a frame is the length of a header in four bytes, the header, the length
 of a body in four bytes, and the body. Lengths are little-endian.
 */
module Frames {
  import opened Base
  import opened Varints
  import opened HeaderCodec

  const MAGIC_NUM: Uint64 := 0x30F8CA9B
  const VERSION: Int32 := 1
  const REQUEST: Int32 := 1
  const RESPONSE: Int32 := 2

  /** Lengths from here on cannot be used as a read limit. */
  const LIMIT_MAX: nat := 0x7FFF_FFFF

  function Len32(n: nat): (r: Bytes)
    ensures |r| == 4
  {
    [n % 256, n / 0x100 % 256, n / 0x1_0000 % 256, n / 0x100_0000 % 256]
  }

  function Value32(b: Bytes): (n: nat)
    requires |b| == 4
    ensures n < TWO_32
  {
    (b[0] as int) + 0x100 * (b[1] as int) + 0x1_0000 * (b[2] as int) + 0x100_0000 * (b[3] as int)
  }

  lemma Len32RoundTrip(n: nat)
    requires n < TWO_32
    ensures Value32(Len32(n)) == n
  {
    var a, b, c := n / 0x100, n / 0x1_0000, n / 0x100_0000;
    assert a / 0x100 == b && b / 0x100 == c && c < 256;
  }

  /** Lengths are little-endian: the first byte is the lowest, on both sides. */
  lemma LittleEndian(n: nat, b: Bytes)
    requires n < TWO_32 && |b| == 4
    ensures var l := Len32(n);
      n == (l[0] as int) + 0x100 * ((l[1] as int) + 0x100 * ((l[2] as int) + 0x100 * (l[3] as int)))
    ensures Value32(b) == (b[0] as int) + 0x100 * ((b[1] as int) + 0x100 * ((b[2] as int) + 0x100 * (b[3] as int)))
    ensures Len32(Value32(b)) == b
  {
    Len32RoundTrip(n);
    var v := Value32(b);
    assert v / 0x100 == (b[1] as int) + 0x100 * ((b[2] as int) + 0x100 * (b[3] as int));
    assert v / 0x1_0000 == (b[2] as int) + 0x100 * (b[3] as int);
    assert v / 0x100_0000 == b[3];
  }

  function Frame(h: Header, body: Bytes): Bytes {
    Len32(|Serialize(h)|) + (Serialize(h) + (Len32(|body|) + body))
  }

  lemma FrameLength(h: Header, body: Bytes)
    ensures |Frame(h, body)| == 8 + |Serialize(h)| + |body|
  {
    hide Serialize;
  }

  /** A header and body that fit the format. */
  predicate Fits(h: Header, body: Bytes) {
    GoodNames(h) && |Serialize(h)| < LIMIT_MAX && |body| < LIMIT_MAX
  }

  /** The header `CallMethod` writes, client/client_channel.cpp:173-178. */
  function CallHeader(id: Int64, service: Bytes, method_: Bytes): Header {
    Header(MAGIC_NUM, VERSION, REQUEST, id, Some(service), Some(method_))
  }

  /** The header of a response, server/rpc_server.cpp:133-137. */
  function ResponseHeader(id: Int64): Header {
    Header(MAGIC_NUM, VERSION, RESPONSE, id, None, None)
  }

  lemma ResponseHeaderFits(id: Int64)
    ensures GoodNames(ResponseHeader(id)) && |Serialize(ResponseHeader(id))| < 64
  {
    SizeIsLength(MAGIC_NUM);
    SizeIsLength(1);
    SizeIsLength(2);
    SizeIsLength(ToUnsigned(id));
  }

  // ---------------------------------------------------------------- a receive loop between two reads

  /** Where a receive coroutine stands: the next thing it needs from the read buffer. */
  datatype Phase =
    | WantHeaderLen
    | WantHeader(len: nat)
    | WantBodyLen(header: Header)
    | WantBody(header: Header, len: nat)
    | Stopped(why: Reason)

  datatype Reason = BadHeader | BadMagic | BadVersion | NoService | NoMethod | BadBody | LongLength

  /** The bytes the phase waits for. */
  function Needed(phase: Phase): nat {
    match phase
    case WantHeaderLen => 4
    case WantHeader(len) => len
    case WantBodyLen(_) => 4
    case WantBody(_, len) => len
    case Stopped(_) => 0
  }

  /** Bytes to come, `r`, are what is left of the frame of `h` and `body`, and then `rest`. */
  ghost predicate InFrame(phase: Phase, r: Bytes, h: Header, body: Bytes, rest: Bytes) {
    match phase
    case WantHeaderLen => r == Frame(h, body) + rest
    case WantHeader(len) => len == |Serialize(h)| && r == Serialize(h) + (Len32(|body|) + (body + rest))
    case WantBodyLen(header) => header == h && r == Len32(|body|) + (body + rest)
    case WantBody(header, len) => header == h && len == |body| && r == body + rest
    case Stopped(_) => false
  }

  /** The bytes a phase in a frame waits for are the next ones of the frame, and what follows fits the next phase. */
  lemma InFrameTake(phase: Phase, r: Bytes, h: Header, body: Bytes, rest: Bytes)
    requires InFrame(phase, r, h, body, rest) && Fits(h, body)
    ensures Needed(phase) <= |r| && !phase.Stopped?
    ensures phase.WantBodyLen? || phase.WantBody? ==> phase.header == h
    ensures var taken, left := r[..Needed(phase)], r[Needed(phase)..];
      && (phase.WantHeaderLen? ==> Value32(taken) == |Serialize(h)| && InFrame(WantHeader(|Serialize(h)|), left, h, body, rest))
      && (phase.WantHeader? ==> Parse(taken) == Some(h) && InFrame(WantBodyLen(h), left, h, body, rest))
      && (phase.WantBodyLen? ==> Value32(taken) == |body| && InFrame(WantBody(h, |body|), left, h, body, rest))
      && (phase.WantBody? ==> taken == body && left == rest)
  {
    hide Serialize, Parse;
    match phase
    case WantHeaderLen =>
      Len32RoundTrip(|Serialize(h)|);
      FrameParts(h, body, rest);
      Split(Len32(|Serialize(h)|), Serialize(h) + (Len32(|body|) + (body + rest)));
    case WantHeader(len) =>
      ParseInvertsSerialize(h);
      Split(Serialize(h), Len32(|body|) + (body + rest));
    case WantBodyLen(header) =>
      Len32RoundTrip(|body|);
      Split(Len32(|body|), body + rest);
    case WantBody(header, len) =>
      Split(body, rest);
  }

  lemma Split(a: Bytes, b: Bytes)
    ensures (a + b)[..|a|] == a && (a + b)[|a|..] == b
  {
  }

  lemma FrameParts(h: Header, body: Bytes, rest: Bytes)
    ensures Frame(h, body) + rest == Len32(|Serialize(h)|) + (Serialize(h) + (Len32(|body|) + (body + rest)))
  {
    hide Serialize, Len32;
    var a, b, c := Len32(|Serialize(h)|), Serialize(h), Len32(|body|);
    Assoc(c, body, rest);
    Assoc(b, c + body, rest);
    Assoc(a, b + (c + body), rest);
  }
}
