/** Target addresses and their binary form inside NEW and UDP_DATA frames (src/transport/address.cpp). */
module Addresses {
  import opened Octets
  import opened BigEndian
  import opened Bits

  /** The source stores a type tag, 16 bytes, a domain and a port; only the part that the tag selects is kept here. */
  datatype RawAddress =
    | IPv4(ip: Bytes, port: U16)
    | IPv6(ip: Bytes, port: U16)
    | Domain(domain: Bytes, port: U16)

  type Address = a: RawAddress | (a.IPv4? ==> |a.ip| == 4) && (a.IPv6? ==> |a.ip| == 16) witness Domain([], 0)

  datatype AddressError = TooShort | Truncated | BadIPv4Length | BadIPv6Length | EmptyDomain | UnknownType

  const MAX_DOMAIN: nat := 255

  function ToBinary(a: Address): Bytes {
    match a
    case IPv4(ip, port) => [1, 4] + ip + ToBE(port, 2)
    case IPv6(ip, port) => [2, 16] + ip + ToBE(port, 2)
    case Domain(domain, port) =>
      var len := Min(|domain|, MAX_DOMAIN);
      [3, len] + domain[..len] + ToBE(port, 2)
  }

  function ParseBinary(blob: Bytes): Result<Address, AddressError> {
    if |blob| < 4 then Err(TooShort)
    else
      var len: nat := blob[1];
      if |blob| < 2 + len + 2 then Err(Truncated)
      else
        var port: U16 := PortAt(blob, 2 + len);
        var body := blob[2..2 + len];
        match blob[0]
        case 1 => if len != 4 then Err(BadIPv4Length) else Ok(IPv4(body, port))
        case 2 => if len != 16 then Err(BadIPv6Length) else Ok(IPv6(body, port))
        case 3 => if len == 0 then Err(EmptyDomain) else Ok(Domain(body, port))
        case _ => Err(UnknownType)
  }

  function PortAt(blob: Bytes, off: nat): (p: U16)
    requires off + 2 <= |blob|
    ensures ToBE(p, 2) == blob[off..off + 2]
  {
    var hi: int, lo: int := blob[off], blob[off + 1];
    assert ToBE(hi * 256 + lo, 2) == ToBE(hi, 1) + [blob[off + 1]] == blob[off..off + 2];
    hi * 256 + lo
  }

  /** The addresses that the wire format can carry. */
  predicate Carried(a: Address) {
    a.Domain? ==> 1 <= |a.domain| <= MAX_DOMAIN
  }

  /** What the far end sees: long domains are cut, empty ones are refused. */
  function Received(a: Address): Result<Address, AddressError> {
    match a
    case Domain(domain, port) =>
      if domain == [] then Err(EmptyDomain) else Ok(Domain(domain[..Min(|domain|, MAX_DOMAIN)], port))
    case _ => Ok(a)
  }

  /** Parsing a printed address, whatever follows it. */
  lemma {:induction false} ParseAfterPrint(a: Address, tail: Bytes)
    ensures ParseBinary(ToBinary(a) + tail) == Received(a)
  {
    hide ToBE, FromBE, Pow2;
    var blob := ToBinary(a) + tail;
    var body := if a.Domain? then a.domain[..Min(|a.domain|, MAX_DOMAIN)] else a.ip;
    var len := |body|;
    assert blob[1] == len;
    assert blob[2..2 + len] == body;
    assert blob[2 + len..2 + len + 2] == ToBE(a.port, 2);
    Widths();
    FromToBE(a.port, 2);
    FromToBE(PortAt(blob, 2 + len), 2);
  }

  /** The round trip holds for exactly the carried addresses. */
  lemma {:induction false} RoundTripExactly(a: Address)
    ensures ParseBinary(ToBinary(a)) == Ok(a) <==> Carried(a)
  {
    ParseAfterPrint(a, []);
    assert ToBinary(a) + [] == ToBinary(a);
    if a.Domain? && |a.domain| <= MAX_DOMAIN {
      assert a.domain[..|a.domain|] == a.domain;
    }
  }

  /** Nothing but a printed address parses: the accepted blob starts with the printed form of what was read. */
  lemma {:induction false} PrintAfterParse(blob: Bytes)
    requires ParseBinary(blob).Ok?
    ensures var a := ParseBinary(blob).value; Carried(a) && ToBinary(a) <= blob
  {
    var len: nat := blob[1];
    var a := ParseBinary(blob).value;
    if a.Domain? {
      assert a.domain[..len] == a.domain;
    }
    assert ToBinary(a) == [blob[0], blob[1]] + blob[2..2 + len] + blob[2 + len..2 + len + 2];
    assert ToBinary(a) == blob[..len + 4];
  }
}
