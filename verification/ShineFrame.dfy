/** The fourteen Shine frames and their RESP2 form (src/proto/shine_frame.cpp). */
module ShineFrames {
  import opened Octets
  import opened BigEndian
  import Decimal
  import Resp2

  const DATA_MAGIC: Byte := 0xD1

  datatype ShineFrame =
    | Hello(version: Bytes, features: Bytes)
    | Auth(password: Bytes)
    | Okay
    | Failure(code: Bytes, message: Bytes)
    | New(sid: U64, addrBlob: Bytes, window: U32)
    | Ack(sid: U64)
    | Close(sid: U64, reason: Bytes)
    | Reset(sid: U64)
    | Window(sid: U64, delta: U32)
    | Ping(nonce: U64)
    | Pong(nonce: U64)
    | Data(sid: U64, payload: Bytes)
    | NewUdp(sid: U64)
    | UdpData(sid: U64, addrBlob: Bytes, payload: Bytes)

  datatype DecodeError = BadDataHeader | EmptyArray | TooFewArguments | BadSid | BadU32 | UnknownCommand

  const HELLO: Bytes := [72, 69, 76, 76, 79]
  const AUTH: Bytes := [65, 85, 84, 72]
  const OK: Bytes := [79, 75]
  const ERR: Bytes := [69, 82, 82]
  const NEW: Bytes := [78, 69, 87]
  const ACK: Bytes := [65, 67, 75]
  const CLOSE: Bytes := [67, 76, 79, 83, 69]
  const RESET: Bytes := [82, 69, 83, 69, 84]
  const WINDOW: Bytes := [87, 73, 78, 68, 79, 87]
  const PING: Bytes := [80, 73, 78, 71]
  const PONG: Bytes := [80, 79, 78, 71]
  const NEW_UDP: Bytes := [78, 69, 87, 95, 85, 68, 80]
  const UDP_DATA: Bytes := [85, 68, 80, 95, 68, 65, 84, 65]

  type Decoded = Result<ShineFrame, DecodeError>

  // ---------------- decoding ----------------

  function Decode(rf: Resp2.Frame): Decoded {
    match rf
    case Bulk(body) => DecodeData(body)
    case Array(args) => if args == [] then Err(EmptyArray) else DecodeCommand(args)
  }

  function DecodeData(body: Bytes): Decoded {
    if |body| < 1 + 8 || body[0] != DATA_MAGIC then Err(BadDataHeader)
    else Ok(Data(DecodeU64(body[1..9]).value, body[9..]))
  }

  /** The DATA branch of `decodeShineFrame`, with the loop that folds the id. */
  method DecodeDataFrame(body: Bytes) returns (r: Decoded)
    ensures r == DecodeData(body)
  {
    if |body| < 1 + 8 || body[0] != DATA_MAGIC {
      return Err(BadDataHeader);
    }
    var sid := ReadU64BE(body[1..9]);
    return Ok(Data(sid.value, body[9..]));
  }

  /** `decodeShineFrame`. */
  method DecodeFrame(rf: Resp2.Frame) returns (r: Decoded)
    ensures r == Decode(rf)
  {
    match rf {
      case Bulk(body) => r := DecodeDataFrame(body);
      case Array(args) =>
        if args == [] {
          return Err(EmptyArray);
        }
        return DecodeCommand(args);
    }
  }

  function DecodeCommand(args: seq<Bytes>): Decoded
    requires args != []
  {
    var cmd, n := args[0], |args|;
    if cmd == HELLO then (if n < 3 then Err(TooFewArguments) else Ok(Hello(args[1], args[2])))
    else if cmd == AUTH then (if n < 2 then Err(TooFewArguments) else Ok(Auth(args[1])))
    else if cmd == OK then Ok(Okay)
    else if cmd == ERR then (if n < 3 then Err(TooFewArguments) else Ok(Failure(args[1], args[2])))
    else if cmd == NEW then (if n < 4 then Err(TooFewArguments) else DecodeNew(args[1], args[2], args[3]))
    else if cmd == ACK then DecodeSid(args, (sid: U64) => Ack(sid))
    else if cmd == CLOSE then DecodeSid(args, (sid: U64) => Close(sid, if n >= 3 then args[2] else []))
    else if cmd == RESET then DecodeSid(args, (sid: U64) => Reset(sid))
    else if cmd == WINDOW then (if n < 3 then Err(TooFewArguments) else DecodeWindow(args[1], args[2]))
    else if cmd == PING then DecodeSid(args, (nonce: U64) => Ping(nonce))
    else if cmd == PONG then DecodeSid(args, (nonce: U64) => Pong(nonce))
    else if cmd == NEW_UDP then DecodeSid(args, (sid: U64) => NewUdp(sid))
    else if cmd == UDP_DATA then
      (if n < 4 then Err(TooFewArguments) else DecodeSid(args, (sid: U64) => UdpData(sid, args[2], args[3])))
    else Err(UnknownCommand)
  }

  /** The commands whose only checked argument is an eight-byte integer. */
  function DecodeSid(args: seq<Bytes>, make: U64 -> ShineFrame): Decoded {
    if |args| < 2 then Err(TooFewArguments)
    else
      match DecodeU64(args[1])
      case None => Err(BadSid)
      case Some(sid) => Ok(make(sid))
  }

  function DecodeNew(sid: Bytes, addrBlob: Bytes, window: Bytes): Decoded {
    match (DecodeU64(sid), DecodeU32(window))
    case (None, _) => Err(BadSid)
    case (_, None) => Err(BadU32)
    case (Some(s), Some(w)) => Ok(New(s, addrBlob, w))
  }

  function DecodeWindow(sid: Bytes, delta: Bytes): Decoded {
    match (DecodeU64(sid), DecodeU32(delta))
    case (None, _) => Err(BadSid)
    case (_, None) => Err(BadU32)
    case (Some(s), Some(d)) => Ok(Window(s, d))
  }

  // ---------------- encoding ----------------

  /** The RESP2 value that each encoder writes. */
  function Encoded(f: ShineFrame): Resp2.Frame {
    match f
    case Hello(version, features) => Resp2.Array([HELLO, version, features])
    case Auth(password) => Resp2.Array([AUTH, password])
    case Okay => Resp2.Array([OK])
    case Failure(code, message) => Resp2.Array([ERR, code, message])
    case New(sid, addrBlob, window) => Resp2.Array([NEW, ToBE(sid, 8), addrBlob, ToBE(window, 4)])
    case Ack(sid) => Resp2.Array([ACK, ToBE(sid, 8)])
    case Close(sid, reason) => Resp2.Array([CLOSE, ToBE(sid, 8), reason])
    case Reset(sid) => Resp2.Array([RESET, ToBE(sid, 8)])
    case Window(sid, delta) => Resp2.Array([WINDOW, ToBE(sid, 8), ToBE(delta, 4)])
    case Ping(nonce) => Resp2.Array([PING, ToBE(nonce, 8)])
    case Pong(nonce) => Resp2.Array([PONG, ToBE(nonce, 8)])
    case Data(sid, payload) => Resp2.Bulk([DATA_MAGIC] + ToBE(sid, 8) + payload)
    case NewUdp(sid) => Resp2.Array([NEW_UDP, ToBE(sid, 8)])
    case UdpData(sid, addrBlob, payload) => Resp2.Array([UDP_DATA, ToBE(sid, 8), addrBlob, payload])
  }

  function Wire(f: ShineFrame): Bytes {
    Resp2.Wire(Encoded(f))
  }

  method EightBytes(v: U64) returns (s: Bytes)
    ensures s == ToBE(v, 8)
  {
    var b := new ByteString();
    PutU64BE(b, v);
    s := b.bytes;
    assert [] + ToBE(v, 8) == ToBE(v, 8);
  }

  method FourBytes(v: U32) returns (s: Bytes)
    ensures s == ToBE(v, 4)
  {
    var b := new ByteString();
    PutU32BE(b, v);
    s := b.bytes;
    assert [] + ToBE(v, 4) == ToBE(v, 4);
  }

  /** The `encode*` functions. */
  method Encode(out: ByteString, f: ShineFrame)
    modifies out
    ensures out.bytes == old(out.bytes) + Wire(f)
  {
    hide Resp2.ArrayWire, Resp2.BulkWire, ToBE;
    match f {
      case Hello(version, features) => Resp2.WriteArray(out, [HELLO, version, features]);
      case Auth(password) => Resp2.WriteArray(out, [AUTH, password]);
      case Okay => Resp2.WriteArray(out, [OK]);
      case Failure(code, message) => Resp2.WriteArray(out, [ERR, code, message]);
      case New(sid, addrBlob, window) =>
        var s := EightBytes(sid);
        var w := FourBytes(window);
        Resp2.WriteArray(out, [NEW, s, addrBlob, w]);
      case Ack(sid) =>
        var s := EightBytes(sid);
        Resp2.WriteArray(out, [ACK, s]);
      case Close(sid, reason) =>
        var s := EightBytes(sid);
        Resp2.WriteArray(out, [CLOSE, s, reason]);
      case Reset(sid) =>
        var s := EightBytes(sid);
        Resp2.WriteArray(out, [RESET, s]);
      case Window(sid, delta) =>
        var s := EightBytes(sid);
        var d := FourBytes(delta);
        Resp2.WriteArray(out, [WINDOW, s, d]);
      case Ping(nonce) =>
        var n := EightBytes(nonce);
        Resp2.WriteArray(out, [PING, n]);
      case Pong(nonce) =>
        var n := EightBytes(nonce);
        Resp2.WriteArray(out, [PONG, n]);
      case Data(sid, payload) => EncodeData(out, sid, payload);
      case NewUdp(sid) =>
        var s := EightBytes(sid);
        Resp2.WriteArray(out, [NEW_UDP, s]);
      case UdpData(sid, addrBlob, payload) =>
        var s := EightBytes(sid);
        Resp2.WriteArray(out, [UDP_DATA, s, addrBlob, payload]);
    }
  }

  /** DATA is framed by hand: the bulk header promises magic, sid and payload in one body. */
  method EncodeData(out: ByteString, sid: U64, payload: Bytes)
    modifies out
    ensures out.bytes == old(out.bytes) + Wire(Data(sid, payload))
  {
    hide Decimal.Print, BigEndian.ToBE;
    var bulkLen := 1 + 8 + |payload|;
    out.Append([Resp2.BULK]);
    out.Append(Decimal.Print(bulkLen));
    out.Append(CRLF);
    out.Append([DATA_MAGIC]);
    var s := EightBytes(sid);
    out.Append(s);
    out.Append(payload);
    out.Append(CRLF);
    var body := [DATA_MAGIC] + s + payload;
    assert |body| == bulkLen;
    assert out.bytes == old(out.bytes) + ([Resp2.BULK] + Decimal.Print(bulkLen) + CRLF + body + CRLF);
  }

  // ---------------- decode after encode, encode after decode ----------------

  lemma {:induction false} U64RoundTrip(v: U64)
    ensures DecodeU64(ToBE(v, 8)) == Some(v)
  {
    Widths();
    FromToBE(v, 8);
  }

  lemma {:induction false} U32RoundTrip(v: U32)
    ensures DecodeU32(ToBE(v, 4)) == Some(v)
  {
    Widths();
    FromToBE(v, 4);
  }

  lemma {:induction false} DecodeAfterEncode(f: ShineFrame)
    ensures Decode(Encoded(f)) == Ok(f)
  {
    match f {
      case Hello(_, _) | Auth(_) | Okay | Failure(_, _) =>
      case New(sid, addrBlob, window) => U64RoundTrip(sid); U32RoundTrip(window);
      case Window(sid, delta) => U64RoundTrip(sid); U32RoundTrip(delta);
      case Data(sid, payload) =>
        var body := Encoded(f).body;
        assert body[1..9] == ToBE(sid, 8) && body[9..] == payload;
        U64RoundTrip(sid);
      case Ping(nonce) => U64RoundTrip(nonce);
      case Pong(nonce) => U64RoundTrip(nonce);
      case _ => U64RoundTrip(f.sid);
    }
  }

  /** A decoded frame came from its own encoding: the RESP2 value is that encoding, give or take surplus array
      elements, and a CLOSE may leave out an empty reason. */
  lemma {:induction false} EncodeAfterDecode(rf: Resp2.Frame)
    requires Decode(rf).Ok?
    ensures var f := Decode(rf).value;
            if rf.Bulk? then Encoded(f) == rf
            else
              Encoded(f).Array? &&
              (Encoded(f).elements <= rf.elements || (f.Close? && f.reason == [] && rf.elements == [CLOSE, ToBE(f.sid, 8)]))
  {
    hide ToBE, FromBE;
    var f := Decode(rf).value;
    match rf {
      case Bulk(body) => assert [DATA_MAGIC] + body[1..9] + body[9..] == body;
      case Array(args) =>
        var es := Encoded(f).elements;
        if f.Close? && |args| < 3 {
          assert args == [CLOSE, ToBE(f.sid, 8)];
        } else {
          assert |es| <= |args| && forall i :: 0 <= i < |es| ==> es[i] == args[i];
        }
    }
  }
}
