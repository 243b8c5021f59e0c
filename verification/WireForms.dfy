/** The wire format, letter by letter: what each frame looks like on the wire, what else is accepted, and what is not
    (the "Bulk strings" and "Arrays" parts of the Redis serialization protocol specification, with Shine's commands). */
module WireForms {
  import opened Octets
  import opened BigEndian
  import opened Addresses
  import opened ShineFrames
  import opened LinkModel
  import Decimal
  import Resp2

  function Text(s: string): Bytes
    requires forall i :: 0 <= i < |s| ==> s[i] < 128 as char
  {
    seq(|s|, i requires 0 <= i < |s| => s[i] as int)
  }

  /** A bulk string. */
  function B(body: Bytes): Bytes {
    Text("$") + Decimal.Print(|body|) + Text("\r\n") + body + Text("\r\n")
  }

  // ---------------- the fourteen frames ----------------

  lemma {:induction false} BulkForm(body: Bytes)
    ensures Resp2.BulkWire(body) == B(body)
  {
    hide Decimal.Print;
    assert Text("$") == [36] && Text("\r\n") == [13, 10];
  }

  lemma {:induction false} ArrayForm(parts: seq<Bytes>)
    requires 1 <= |parts| <= 4
    ensures Resp2.ArrayWire(parts) ==
            Text("*") + [48 + |parts|] + Text("\r\n") + B(parts[0]) + (if |parts| > 1 then B(parts[1]) else []) +
            (if |parts| > 2 then B(parts[2]) else []) + (if |parts| > 3 then B(parts[3]) else [])
  {
    hide B, Resp2.BulkWire, Resp2.BulkWires;
    assert Text("*") == [42] && Text("\r\n") == [13, 10];
    assert Decimal.Print(|parts|) == [48 + |parts|];
    BulkForm(parts[0]);
    BulksCons(parts);
    if |parts| > 1 {
      BulkForm(parts[1]);
      BulksCons(parts[1..]);
      assert parts[1..][1..] == parts[2..];
    }
    if |parts| > 2 {
      BulkForm(parts[2]);
      BulksCons(parts[2..]);
      assert parts[2..][1..] == parts[3..];
    }
    if |parts| > 3 {
      BulkForm(parts[3]);
      BulksCons(parts[3..]);
    }
    BulksNone();
    assert parts[|parts|..] == [];
  }

  lemma {:induction false} BulksCons(parts: seq<Bytes>)
    requires parts != []
    ensures Resp2.BulkWires(parts) == Resp2.BulkWire(parts[0]) + Resp2.BulkWires(parts[1..])
  {
  }

  lemma {:induction false} BulksNone()
    ensures Resp2.BulkWires([]) == []
  {
  }

  lemma {:induction false} Words()
    ensures HELLO == Text("HELLO") && AUTH == Text("AUTH") && OK == Text("OK") && ERR == Text("ERR") && NEW == Text("NEW")
    ensures ACK == Text("ACK") && CLOSE == Text("CLOSE") && RESET == Text("RESET") && WINDOW == Text("WINDOW")
    ensures PING == Text("PING") && PONG == Text("PONG") && NEW_UDP == Text("NEW_UDP") && UDP_DATA == Text("UDP_DATA")
  {
  }

  /** Array frames: a count, a command word and its arguments, ids and numbers big-endian. */
  function Form(f: ShineFrame): Bytes {
    match f
    case Hello(version, features) => Text("*3\r\n") + B(Text("HELLO")) + B(version) + B(features)
    case Auth(password) => Text("*2\r\n") + B(Text("AUTH")) + B(password)
    case Okay => Text("*1\r\n") + B(Text("OK"))
    case Failure(code, message) => Text("*3\r\n") + B(Text("ERR")) + B(code) + B(message)
    case New(sid, blob, window) => Text("*4\r\n") + B(Text("NEW")) + B(ToBE(sid, 8)) + B(blob) + B(ToBE(window, 4))
    case Ack(sid) => Text("*2\r\n") + B(Text("ACK")) + B(ToBE(sid, 8))
    case Close(sid, reason) => Text("*3\r\n") + B(Text("CLOSE")) + B(ToBE(sid, 8)) + B(reason)
    case Reset(sid) => Text("*2\r\n") + B(Text("RESET")) + B(ToBE(sid, 8))
    case Window(sid, delta) => Text("*3\r\n") + B(Text("WINDOW")) + B(ToBE(sid, 8)) + B(ToBE(delta, 4))
    case Ping(nonce) => Text("*2\r\n") + B(Text("PING")) + B(ToBE(nonce, 8))
    case Pong(nonce) => Text("*2\r\n") + B(Text("PONG")) + B(ToBE(nonce, 8))
    case Data(sid, payload) => B([0xD1] + ToBE(sid, 8) + payload)
    case NewUdp(sid) => Text("*2\r\n") + B(Text("NEW_UDP")) + B(ToBE(sid, 8))
    case UdpData(sid, blob, payload) => Text("*4\r\n") + B(Text("UDP_DATA")) + B(ToBE(sid, 8)) + B(blob) + B(payload)
  }

  /** Every frame has this form on the wire. */
  lemma {:induction false} FormOnWire(f: ShineFrame)
    ensures Wire(f) == Form(f)
  {
    hide B, Resp2.ArrayWire, Resp2.BulkWire, ToBE;
    Words();
    Counts();
    var rf := Encoded(f);
    match rf {
      case Bulk(body) => BulkForm(body);
      case Array(parts) =>
        ArrayForm(parts);
        assert forall s: Bytes :: s + [] == s;
    }
  }

  lemma {:induction false} Counts()
    ensures Text("*1\r\n") == Text("*") + [49] + Text("\r\n") && Text("*2\r\n") == Text("*") + [50] + Text("\r\n")
    ensures Text("*3\r\n") == Text("*") + [51] + Text("\r\n") && Text("*4\r\n") == Text("*") + [52] + Text("\r\n")
  {
  }

  /** Numbers as they appear in headers. */
  lemma {:induction false} Numerals()
    ensures Decimal.Print(0) == Text("0") && Decimal.Print(14) == Text("14") && Decimal.Print(262144) == Text("262144")
  {
    assert Decimal.Print(26) == [50] + [54];
    assert Decimal.Print(262) == Decimal.Print(26) + [50];
    assert Decimal.Print(2621) == Decimal.Print(262) + [49];
    assert Decimal.Print(26214) == Decimal.Print(2621) + [52];
    assert Decimal.Print(262144) == Decimal.Print(26214) + [52];
  }

  /** The handshake's two fixed messages. */
  lemma {:induction false} Greetings()
    ensures GREETING == Hello(Text("1"), Text("mux,flow")) && REFUSAL == Failure(Text("AUTH"), Text("bad password"))
  {
  }

  /** Addresses: a tag, a length, the bytes, and the port big-endian. */
  lemma {:induction false} AddressForm(a: Address)
    ensures ToBinary(a) ==
            match a {
              case IPv4(ip, port) => [1, 4] + ip + [port / 256, port % 256]
              case IPv6(ip, port) => [2, 16] + ip + [port / 256, port % 256]
              case Domain(domain, port) =>
                var cut := if |domain| > 255 then domain[..255] else domain; [3, |cut|] + cut + [port / 256, port % 256]
            }
  {
    assert ToBE(a.port, 2) == ToBE(a.port / 256, 1) + [a.port % 256];
    assert ToBE(a.port / 256, 1) == ToBE(0, 0) + [a.port / 256];
    if a.Domain? {
      assert a.domain[..|a.domain|] == a.domain;
    }
  }

  /** Surplus arguments are ignored. */
  lemma {:induction false} SurplusIgnored(f: ShineFrame, more: seq<Bytes>)
    requires Encoded(f).Array?
    ensures Decode(Resp2.Array(Encoded(f).elements + more)) == Ok(f)
  {
    hide ToBE, FromBE;
    match f {
      case New(sid, blob, window) =>
        U64RoundTrip(sid);
        U32RoundTrip(window);
      case Window(sid, delta) =>
        U64RoundTrip(sid);
        U32RoundTrip(delta);
      case Ping(nonce) => U64RoundTrip(nonce);
      case Pong(nonce) => U64RoundTrip(nonce);
      case Ack(sid) => U64RoundTrip(sid);
      case Close(sid, _) => U64RoundTrip(sid);
      case Reset(sid) => U64RoundTrip(sid);
      case NewUdp(sid) => U64RoundTrip(sid);
      case UdpData(sid, _, _) => U64RoundTrip(sid);
      case _ =>
    }
  }

  /** A CLOSE without a reason has an empty one. */
  lemma {:induction false} ShortClose(sid: U64)
    ensures Decode(Resp2.Array([CLOSE, ToBE(sid, 8)])) == Ok(Close(sid, []))
  {
    hide ToBE, FromBE;
    U64RoundTrip(sid);
  }

  /** The values that decode to a frame are exactly its own encoding, that with surplus arguments, and for a CLOSE with an
      empty reason the one that leaves it out. */
  lemma {:induction false} DecodeExactly(rf: Resp2.Frame, f: ShineFrame)
    ensures Decode(rf) == Ok(f) <==>
            rf == Encoded(f) || (rf.Array? && Encoded(f).Array? && Encoded(f).elements <= rf.elements) ||
            (f.Close? && f.reason == [] && rf == Resp2.Array([CLOSE, ToBE(f.sid, 8)]))
  {
    hide Decode, Encoded, ToBE, FromBE;
    if Decode(rf) == Ok(f) {
      EncodeAfterDecode(rf);
    }
    DecodeAfterEncode(f);
    if rf.Array? && Encoded(f).Array? && Encoded(f).elements <= rf.elements {
      var es := Encoded(f).elements;
      SurplusIgnored(f, rf.elements[|es|..]);
      assert es + rf.elements[|es|..] == rf.elements;
    }
    if f.Close? {
      ShortClose(f.sid);
    }
  }
}
