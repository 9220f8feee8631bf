/** The wire protocol (protocol/framing.py): length-prefixed frames over a byte stream. */
module Framing {
  import opened Base

  type Byte = b: int | 0 <= b < 256
  type Bytes = seq<Byte>

  const LengthPrefixSize := 4
  const TypeSize := 1
  const DefaultMaxFrameSize := 1024 * 1024

  datatype Result<+T> = Ok(value: T) | Err(error: Error)

  datatype Error =
    | ConnectionClosed                              // the peer closed before or inside a frame
    | FrameTooLarge(declared: nat, max: nat)
    | DeclaredTooSmall(declared: nat)               // FrameError: no room for the type byte
    | UnknownType(code: Byte)                       // FrameError
    | BadPayload                                    // the decoder of orjson raises
    | Overflow                                      // struct.pack raises: no uint32 holds the length

  // ---- The length prefix -------------------------------------------------------------------------

  /** struct.pack(">I", n) */
  function PackLength(n: nat): (b: Bytes)
    requires n < 0x1_0000_0000
    ensures |b| == LengthPrefixSize
  {
    [n / 0x100_0000, n / 0x1_0000 % 0x100, n / 0x100 % 0x100, n % 0x100]
  }

  /** struct.unpack(">I", b) */
  function UnpackLength(b: Bytes): (n: nat)
    requires |b| == LengthPrefixSize
    ensures n < 0x1_0000_0000
  {
    b[0] as int * 0x100_0000 + b[1] as int * 0x1_0000 + b[2] as int * 0x100 + b[3]
  }

  lemma LengthRoundTrip(n: nat)
    requires n < 0x1_0000_0000
    ensures UnpackLength(PackLength(n)) == n
  {
    var high3, high2, high1 := n / 0x100, n / 0x1_0000, n / 0x100_0000;
    assert high3 / 0x100 == high2;
    assert high2 / 0x100 == high1;
  }

  /** The prefix is canonical: every four bytes are the packing of the number they stand for. */
  lemma LengthIsCanonical(b: Bytes)
    requires |b| == LengthPrefixSize
    ensures PackLength(UnpackLength(b)) == b
  {
    var n := UnpackLength(b);
    assert n / 0x100_0000 == b[0];
    assert n / 0x1_0000 == b[0] as int * 0x100 + b[1];
    assert n / 0x100 == b[0] as int * 0x1_0000 + b[1] as int * 0x100 + b[2];
  }

  // ---- Message types -----------------------------------------------------------------------------

  datatype MessageType =
    | HELLO | HELLO_ACK | PING | PONG | MESSAGE | ACK | ERROR | NODE_ANNOUNCE | NODE_STATUS
    | SESSION_BIND | DISCONNECT | JOIN_ROOM | ROOM_JOINED | PEER_HELLO | RELAY | SESSION_QUERY
    | SESSION_STATE | REGISTER | REGISTER_ACK | LOGIN | LOGIN_ACK | GET_ROOMS | ROOMS_LIST

  function Code(t: MessageType): Byte {
    match t
    case HELLO => 0x01
    case HELLO_ACK => 0x02
    case PING => 0x03
    case PONG => 0x04
    case MESSAGE => 0x05
    case ACK => 0x06
    case ERROR => 0x07
    case NODE_ANNOUNCE => 0x08
    case NODE_STATUS => 0x09
    case SESSION_BIND => 0x0A
    case DISCONNECT => 0x0B
    case JOIN_ROOM => 0x0C
    case ROOM_JOINED => 0x0D
    case PEER_HELLO => 0x0E
    case RELAY => 0x0F
    case SESSION_QUERY => 0x10
    case SESSION_STATE => 0x11
    case REGISTER => 0x12
    case REGISTER_ACK => 0x13
    case LOGIN => 0x14
    case LOGIN_ACK => 0x15
    case GET_ROOMS => 0x16
    case ROOMS_LIST => 0x17
  }

  const AllTypes: seq<MessageType> :=
    [HELLO, HELLO_ACK, PING, PONG, MESSAGE, ACK, ERROR, NODE_ANNOUNCE, NODE_STATUS, SESSION_BIND, DISCONNECT,
     JOIN_ROOM, ROOM_JOINED, PEER_HELLO, RELAY, SESSION_QUERY, SESSION_STATE, REGISTER, REGISTER_ACK, LOGIN,
     LOGIN_ACK, GET_ROOMS, ROOMS_LIST]

  /** MessageType(code): the member with that value. */
  function TypeOf(code: Byte): Option<MessageType> {
    if 1 <= code <= |AllTypes| then Some(AllTypes[code - 1]) else None
  }

  lemma CodesAreUnique(t: MessageType, code: Byte)
    ensures TypeOf(code) == Some(t) <==> code == Code(t)
  {
  }

  // ---- Frames ------------------------------------------------------------------------------------

  /** orjson for payloads of type P: what is dumped is not empty and loads to the same payload. */
  datatype Json<!P> = Json(dumps: P -> Bytes, loads: Bytes -> Option<P>)

  ghost predicate JsonOk<P(!new)>(j: Json<P>) {
    forall p :: j.dumps(p) != [] && j.loads(j.dumps(p)) == Some(p)
  }

  datatype Frame<P> = Frame(msgType: MessageType, payload: Option<P>)

  function Body<P>(j: Json<P>, f: Frame<P>): (b: Bytes)
    ensures |b| >= TypeSize
  {
    [Code(f.msgType)] + if f.payload.Some? then j.dumps(f.payload.value) else []
  }

  /** encode_frame */
  function EncodeFrame<P>(j: Json<P>, f: Frame<P>): Result<Bytes> {
    var body := Body(j, f);
    if |body| < 0x1_0000_0000 then Ok(PackLength(|body|) + body) else Err(Overflow)
  }

  /** decode_frame_body, on a raw frame as read_raw_frame returns it */
  function DecodeFrameBody<P>(j: Json<P>, raw: Bytes): Result<Frame<P>>
    requires |raw| >= LengthPrefixSize + TypeSize
  {
    var body := raw[LengthPrefixSize..];
    match TypeOf(body[0])
    case None => Err(UnknownType(body[0]))
    case Some(t) =>
      if body[TypeSize..] == [] then Ok(Frame(t, None))
      else
        match j.loads(body[TypeSize..])
        case None => Err(BadPayload)
        case Some(p) => Ok(Frame(t, Some(p)))
  }

  /** The outcome of one read from what the peer sends before closing; `rest` is left unread. */
  datatype Read<+T> = Read(result: Result<T>, rest: Bytes)

  /** readexactly(n): all or nothing of the next n bytes; what is missing can never come. */
  function ReadExactly(stream: Bytes, n: nat): Read<Bytes> {
    if |stream| < n then Read(Err(ConnectionClosed), []) else Read(Ok(stream[..n]), stream[n..])
  }

  /** read_raw_frame */
  function ReadRawFrame(stream: Bytes, max: nat): (r: Read<Bytes>)
    ensures r.result.Ok? ==> |r.result.value| >= LengthPrefixSize + TypeSize
  {
    var prefix := ReadExactly(stream, LengthPrefixSize);
    if prefix.result.Err? then Read(prefix.result, prefix.rest)
    else
      var declared := UnpackLength(prefix.result.value);
      if declared < TypeSize then Read(Err(DeclaredTooSmall(declared)), prefix.rest)
      else if declared > max then Read(Err(FrameTooLarge(declared, max)), prefix.rest)
      else
        var body := ReadExactly(prefix.rest, declared);
        if body.result.Err? then body
        else Read(Ok(prefix.result.value + body.result.value), body.rest)
  }

  /** read_frame */
  function ReadFrame<P>(j: Json<P>, stream: Bytes, max: nat): Read<Frame<P>> {
    var raw := ReadRawFrame(stream, max);
    match raw.result
    case Err(e) => Read(Err(e), raw.rest)
    case Ok(bytes) => Read(DecodeFrameBody(j, bytes), raw.rest)
  }

  // ---- What reading gives ---------------------------------------------------------------------------

  lemma DecodeEncode<P(!new)>(j: Json<P>, f: Frame<P>)
    requires JsonOk(j) && EncodeFrame(j, f).Ok?
    ensures var raw := EncodeFrame(j, f).value;
      |raw| >= LengthPrefixSize + TypeSize && DecodeFrameBody(j, raw) == Ok(f)
  {
    var raw, body := EncodeFrame(j, f).value, Body(j, f);
    assert raw[LengthPrefixSize..] == body;
    CodesAreUnique(f.msgType, body[0]);
    if f.payload.Some? {
      assert body[TypeSize..] == j.dumps(f.payload.value);
    }
  }

  /** A raw read is exact in every case: what was read and what is left are the stream, the frame is
      the prefix and the declared number of bytes; and each error has its one cause. */
  lemma RawReadIsExact(stream: Bytes, max: nat)
    ensures var r := ReadRawFrame(stream, max);
      if |stream| < LengthPrefixSize then r == Read(Err(ConnectionClosed), [])
      else
        var declared := UnpackLength(stream[..LengthPrefixSize]);
        && (r.result.Ok? <==> TypeSize <= declared <= max && |stream| >= LengthPrefixSize + declared)
        && (r.result.Ok? ==> r.result.value + r.rest == stream && |r.result.value| == LengthPrefixSize + declared)
        && (r.result == Err(ConnectionClosed) <==>
            TypeSize <= declared <= max && |stream| < LengthPrefixSize + declared)
        && (r.result.Err? && r.result.error != ConnectionClosed ==> r.rest == stream[LengthPrefixSize..])
        && (r.result == Err(FrameTooLarge(declared, max)) <==> declared > max && declared >= TypeSize)
        && (r.result == Err(DeclaredTooSmall(declared)) <==> declared < TypeSize)
  {
    if |stream| >= LengthPrefixSize {
      var declared := UnpackLength(stream[..LengthPrefixSize]);
      if TypeSize <= declared <= max && |stream| >= LengthPrefixSize + declared {
        var after := stream[LengthPrefixSize..];
        assert stream == stream[..LengthPrefixSize] + after;
        assert after == after[..declared] + after[declared..];
        ConcatAssociates(stream[..LengthPrefixSize], after[..declared], after[declared..]);
      }
    }
  }

  /** Reading from an encoding followed by anything gives that encoding, byte for byte. */
  lemma ReadEncoded<P>(j: Json<P>, f: Frame<P>, max: nat, rest: Bytes)
    requires EncodeFrame(j, f).Ok? && |Body(j, f)| <= max
    ensures ReadRawFrame(EncodeFrame(j, f).value + rest, max) == Read(Ok(EncodeFrame(j, f).value), rest)
  {
    var body := Body(j, f);
    var prefix := PackLength(|body|);
    var stream := (prefix + body) + rest;
    LengthRoundTrip(|body|);
    ConcatAssociates(prefix, body, rest);
    assert stream[..LengthPrefixSize] == prefix && stream[LengthPrefixSize..] == body + rest;
    assert (body + rest)[..|body|] == body && (body + rest)[|body|..] == rest;
  }

  /** A frame too large for the reader is refused by its prefix alone, without its body being read. */
  lemma OversizedIsRefused<P>(j: Json<P>, f: Frame<P>, max: nat, rest: Bytes)
    requires EncodeFrame(j, f).Ok? && |Body(j, f)| > max
    ensures ReadRawFrame(EncodeFrame(j, f).value + rest, max)
        == Read(Err(FrameTooLarge(|Body(j, f)|, max)), Body(j, f) + rest)
  {
    var body := Body(j, f);
    var prefix := PackLength(|body|);
    LengthRoundTrip(|body|);
    ConcatAssociates(prefix, body, rest);
    var stream := prefix + (body + rest);
    assert stream[..LengthPrefixSize] == prefix && stream[LengthPrefixSize..] == body + rest;
  }

  /** A connection closed inside a frame, or before its first byte, gives ConnectionClosed, never a
      frame: whatever proper prefix of the encoding arrived. */
  lemma CutFrameIsClosed<P>(j: Json<P>, f: Frame<P>, max: nat, k: nat)
    requires EncodeFrame(j, f).Ok? && |Body(j, f)| <= max && k < |EncodeFrame(j, f).value|
    ensures ReadRawFrame(EncodeFrame(j, f).value[..k], max).result == Err(ConnectionClosed)
    ensures ReadFrame(j, EncodeFrame(j, f).value[..k], max).result == Err(ConnectionClosed)
  {
    var body := Body(j, f);
    var prefix := PackLength(|body|);
    LengthRoundTrip(|body|);
    var stream := (prefix + body)[..k];
    if k >= LengthPrefixSize {
      assert stream[..LengthPrefixSize] == prefix;
    }
    RawReadIsExact(stream, max);
  }

  // ---- Streams of frames ---------------------------------------------------------------------------

  ghost predicate Sendable<P>(j: Json<P>, fs: seq<Frame<P>>, max: nat) {
    forall i :: 0 <= i < |fs| ==> EncodeFrame(j, fs[i]).Ok? && |Body(j, fs[i])| <= max
  }

  /** The bytes of all the frames, one after the other. */
  function Encoded<P>(j: Json<P>, fs: seq<Frame<P>>): Bytes
    requires forall i :: 0 <= i < |fs| ==> EncodeFrame(j, fs[i]).Ok?
  {
    if fs == [] then [] else EncodeFrame(j, fs[0]).value + Encoded(j, fs[1..])
  }

  /** What repeated reading gives: the raw frames up to the first error, which ends the reading. */
  datatype Transcript = Transcript(raws: seq<Bytes>, end: Error)

  function ReadAll(stream: Bytes, max: nat): Transcript
    decreases |stream|
  {
    RawReadIsExact(stream, max);
    var r := ReadRawFrame(stream, max);
    match r.result
    case Err(e) => Transcript([], e)
    case Ok(raw) =>
      var later := ReadAll(r.rest, max);
      Transcript([raw] + later.raws, later.end)
  }

  /** The stream round trip: from the concatenated encodings of any frames within the limit,
      followed by any proper prefix of another, repeated reading gives exactly those frames, each
      raw frame identical to its encoding and decoding to its type and payload, then
      ConnectionClosed. */
  lemma {:induction false} StreamRoundTrip<P(!new)>(j: Json<P>, fs: seq<Frame<P>>, last: Frame<P>, k: nat, max: nat)
    requires JsonOk(j) && Sendable(j, fs, max)
    requires EncodeFrame(j, last).Ok? && |Body(j, last)| <= max && k < |EncodeFrame(j, last).value|
    ensures var t := ReadAll(Encoded(j, fs) + EncodeFrame(j, last).value[..k], max);
      && t.end == ConnectionClosed && |t.raws| == |fs|
      && forall i :: 0 <= i < |fs| ==>
           && Ok(t.raws[i]) == EncodeFrame(j, fs[i])
           && |t.raws[i]| >= LengthPrefixSize + TypeSize && DecodeFrameBody(j, t.raws[i]) == Ok(fs[i])
  {
    var cut := EncodeFrame(j, last).value[..k];
    if fs == [] {
      assert Encoded(j, fs) + cut == cut;
      CutFrameIsClosed(j, last, max, k);
    } else {
      var first := EncodeFrame(j, fs[0]).value;
      ConcatAssociates(first, Encoded(j, fs[1..]), cut);
      ReadEncoded(j, fs[0], max, Encoded(j, fs[1..]) + cut);
      DecodeEncode(j, fs[0]);
      StreamRoundTrip(j, fs[1..], last, k, max);
    }
  }

  /** Different lists of frames have different encodings: the wire format is unambiguous. */
  lemma EncodingIsInjective<P(!new)>(j: Json<P>, fs: seq<Frame<P>>, gs: seq<Frame<P>>, max: nat)
    requires JsonOk(j) && Sendable(j, fs, max) && Sendable(j, gs, max) && max >= TypeSize
    requires Encoded(j, fs) == Encoded(j, gs)
    ensures fs == gs
  {
    var ping: Frame<P> := Frame(PING, None);
    StreamRoundTrip(j, fs, ping, 0, max);
    StreamRoundTrip(j, gs, ping, 0, max);
  }

  // ---- Reader and writer ------------------------------------------------------------------------------

  /** The receiving side: `incoming` is all that the peer will still send before closing. */
  class StreamReader {
    var incoming: Bytes

    constructor (sent: Bytes)
      ensures incoming == sent
    {
      incoming := sent;
    }

    method TakeExactly(n: nat) returns (r: Result<Bytes>)
      modifies this
      ensures Read(r, incoming) == ReadExactly(old(incoming), n)
    {
      if |incoming| < n {
        incoming := [];
        return Err(ConnectionClosed);
      }
      r := Ok(incoming[..n]);
      incoming := incoming[n..];
    }

    /** read_raw_frame */
    method TakeRawFrame(max: nat) returns (r: Result<Bytes>)
      modifies this
      ensures Read(r, incoming) == ReadRawFrame(old(incoming), max)
    {
      var prefix := TakeExactly(LengthPrefixSize);
      if prefix.Err? {
        return prefix;
      }
      var declared := UnpackLength(prefix.value);
      if declared < TypeSize {
        return Err(DeclaredTooSmall(declared));
      }
      if declared > max {
        return Err(FrameTooLarge(declared, max));
      }
      var body := TakeExactly(declared);
      if body.Err? {
        return body;
      }
      r := Ok(prefix.value + body.value);
    }

    /** read_frame */
    method TakeFrame<P>(j: Json<P>, max: nat) returns (r: Result<Frame<P>>)
      modifies this
      ensures Read(r, incoming) == ReadFrame(j, old(incoming), max)
    {
      var raw := TakeRawFrame(max);
      match raw
      case Err(e) => r := Err(e);
      case Ok(bytes) => r := DecodeFrameBody(j, bytes);
    }
  }

  /** The sending side: `sent` is all that was written. */
  class StreamWriter {
    var sent: Bytes

    constructor ()
      ensures sent == []
    {
      sent := [];
    }

    /** write_frame; nothing is written if the frame cannot be encoded. */
    method WriteFrame<P>(j: Json<P>, f: Frame<P>) returns (r: Result<()>)
      modifies this
      ensures r.Ok? <==> EncodeFrame(j, f).Ok?
      ensures sent == if r.Ok? then old(sent) + EncodeFrame(j, f).value else old(sent)
    {
      var bytes := EncodeFrame(j, f);
      if bytes.Err? {
        return Err(bytes.error);
      }
      sent := sent + bytes.value;
      r := Ok(());
    }
  }
}
