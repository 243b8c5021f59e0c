/** Bytes, fixed-width unsigned integers and the small result types that the rest of the model shares. */
module Octets {

  type Byte = x: int | 0 <= x < 256
  type Bytes = seq<Byte>

  const U16_LIMIT := 0x1_0000
  const U32_LIMIT := 0x1_0000_0000
  const U64_LIMIT := 0x1_0000_0000_0000_0000

  type U16 = x: int | 0 <= x < U16_LIMIT
  type U32 = x: int | 0 <= x < U32_LIMIT
  type U64 = x: int | 0 <= x < U64_LIMIT

  const CR: Byte := 13
  const LF: Byte := 10
  const CRLF: Bytes := [CR, LF]

  datatype Option<+T> = None | Some(value: T)

  datatype Result<+T, +E> = Ok(value: T) | Err(error: E)

  function Min(a: nat, b: nat): nat {
    if a <= b then a else b
  }

  /** The concatenation of a list of byte strings. */
  function Flatten(parts: seq<Bytes>): Bytes {
    if parts == [] then [] else parts[0] + Flatten(parts[1..])
  }

  lemma {:induction false} FlattenAppend(a: seq<Bytes>, b: seq<Bytes>)
    ensures Flatten(a + b) == Flatten(a) + Flatten(b)
  {
    if a == [] {
      assert a + b == b;
    } else {
      assert (a + b)[1..] == a[1..] + b;
      FlattenAppend(a[1..], b);
    }
  }

  lemma FlattenSnoc(a: seq<Bytes>, x: Bytes)
    ensures Flatten(a + [x]) == Flatten(a) + x
  {
    FlattenAppend(a, [x]);
    assert Flatten([x]) == x + Flatten([]);
  }

  /** A growing `std::string&` that encoders append to. */
  class ByteString {
    var bytes: Bytes

    constructor ()
      ensures bytes == []
    {
      bytes := [];
    }

    method Append(more: Bytes)
      modifies this
      ensures bytes == old(bytes) + more
    {
      bytes := bytes + more;
    }
  }
}
