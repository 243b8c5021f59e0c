/** Fixed-size big-endian integers (src/proto/shine_frame.cpp, src/transport/address.cpp). */
module BigEndian {
  import opened Octets
  import opened Bits

  /** The number that a byte string spells, most significant byte first. */
  function FromBE(s: Bytes): nat {
    if s == [] then 0 else FromBE(s[..|s| - 1]) * 256 + s[|s| - 1]
  }

  /** The low `n` bytes of `v`, most significant first. */
  function ToBE(v: nat, n: nat): (s: Bytes)
    ensures |s| == n
  {
    if n == 0 then [] else ToBE(v / 256, n - 1) + [v % 256]
  }

  lemma {:induction false} ToFromBE(s: Bytes)
    ensures ToBE(FromBE(s), |s|) == s
  {
    if s != [] {
      ToFromBE(s[..|s| - 1]);
    }
  }

  lemma {:induction false} FromToBE(v: nat, n: nat)
    requires v < Pow2(8 * n)
    ensures FromBE(ToBE(v, n)) == v
  {
    if n > 0 {
      Pow2Byte(8 * (n - 1));
      FromToBE(v / 256, n - 1);
      assert ToBE(v, n)[..n - 1] == ToBE(v / 256, n - 1);
    }
  }

  lemma {:induction false} FromBEBound(s: Bytes)
    ensures FromBE(s) < Pow2(8 * |s|)
  {
    if s != [] {
      FromBEBound(s[..|s| - 1]);
      Pow2Byte(8 * (|s| - 1));
    }
  }

  lemma {:induction false} FromBEInjective(a: Bytes, b: Bytes)
    requires |a| == |b|
    ensures FromBE(a) == FromBE(b) <==> a == b
  {
    ToFromBE(a);
    ToFromBE(b);
  }

  /** Every byte of the encoding is the matching shift-and-mask. */
  lemma {:induction false} ToBEAt(v: nat, n: nat, i: nat)
    requires i < n
    ensures ToBE(v, n)[i] == Shr(v, 8 * (n - 1 - i)) % 256
  {
    if i < n - 1 {
      ToBEAt(v / 256, n - 1, i);
      ShrAdd(v, 8, 8 * (n - 2 - i));
      ShrByte(v);
    }
  }

  lemma {:induction false} Widths()
    ensures Pow2(8) == 256 && Pow2(16) == U16_LIMIT && Pow2(32) == U32_LIMIT && Pow2(64) == U64_LIMIT
  {
    hide Pow2;
    Pow2Zero();
    Pow2Byte(0);
    Pow2Byte(8);
    Pow2Byte(16);
    Pow2Byte(24);
    Pow2Byte(32);
    Pow2Byte(40);
    Pow2Byte(48);
    Pow2Byte(56);
  }

  method PutU32BE(out: ByteString, v: U32)
    modifies out
    ensures out.bytes == old(out.bytes) + ToBE(v, 4)
  {
    var b: Bytes := [Shr(v, 24) % 256, Shr(v, 16) % 256, Shr(v, 8) % 256, v % 256];
    forall i | 0 <= i < 4 ensures b[i] == ToBE(v, 4)[i] {
      ToBEAt(v, 4, i);
    }
    assert b == ToBE(v, 4);
    out.Append(b);
  }

  method PutU64BE(out: ByteString, v: U64)
    modifies out
    ensures out.bytes == old(out.bytes) + ToBE(v, 8)
  {
    var b: Bytes := [];
    for i := 0 to 8
      invariant |b| == i && out.bytes == old(out.bytes)
      invariant forall j :: 0 <= j < i ==> b[j] == ToBE(v, 8)[j]
    {
      ToBEAt(v, 8, i);
      b := b + [Shr(v, 56 - 8 * i) % 256];
    }
    assert |ToBE(v, 8)| == 8;
    assert b == ToBE(v, 8);
    out.Append(b);
  }

  /** The number that exactly eight bytes spell. */
  function DecodeU64(s: Bytes): (v: Option<U64>)
    ensures v.Some? <==> |s| == 8
    ensures v.Some? ==> ToBE(v.value, 8) == s
  {
    Widths();
    FromBEBound(s);
    ToFromBE(s);
    if |s| != 8 then None else Some(FromBE(s))
  }

  /** The number that exactly four bytes spell. */
  function DecodeU32(s: Bytes): (v: Option<U32>)
    ensures v.Some? <==> |s| == 4
    ensures v.Some? ==> ToBE(v.value, 4) == s
  {
    Widths();
    FromBEBound(s);
    ToFromBE(s);
    if |s| != 4 then None else Some(FromBE(s))
  }

  method ReadU64BE(s: Bytes) returns (v: Option<U64>)
    ensures v == DecodeU64(s)
  {
    hide Pow2;
    if |s| != 8 {
      return None;
    }
    var acc: U64 := 0;
    Widths();
    for i := 0 to 8
      invariant acc == FromBE(s[..i])
    {
      assert s[..i + 1][..i] == s[..i];
      FromBEBound(s[..i]);
      Pow2Monotone(8 * i, 56);
      FromBEBound(s[..i + 1]);
      Pow2Monotone(8 * (i + 1), 64);
      acc := acc * 256 + s[i];
    }
    assert s[..8] == s;
    ToFromBE(s);
    return Some(acc);
  }

  method ReadU32BE(s: Bytes) returns (v: Option<U32>)
    ensures v == DecodeU32(s)
  {
    if |s| != 4 {
      return None;
    }
    var b0: int, b1: int, b2: int, b3: int := s[0], s[1], s[2], s[3];
    assert s[..3][..2] == s[..2] && s[..2][..1] == s[..1] && s[..1][..0] == [];
    assert FromBE(s[..1]) == b0;
    assert FromBE(s[..2]) == b0 * 0x100 + b1;
    assert FromBE(s[..3]) == b0 * 0x10000 + b1 * 0x100 + b2;
    ToFromBE(s);
    return Some(b0 * 0x1000000 + b1 * 0x10000 + b2 * 0x100 + b3);
  }
}
