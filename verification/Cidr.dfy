/** CIDR blocks three ways: bit by bit (section 3.1 of RFC 4632), as the byte-and-mask compare of a plain rule
    (src/route/router.cpp), and as the integer interval of the GeoIP index (src/route/geo_matcher.cpp). */
module Cidrs {
  import opened Octets
  import opened Bits
  import opened BigEndian
  import Decimal

  datatype Cidr = Cidr(ip: Bytes, prefix: nat)

  datatype Range = Range(start: nat, end: nat)

  /** An address is 4 or 16 bytes, and a prefix does not exceed its bits. */
  predicate Legal(c: Cidr) {
    (|c.ip| == 4 || |c.ip| == 16) && c.prefix <= 8 * |c.ip|
  }

  // ---------------- the reference: bits, most significant first ----------------

  function Bit(s: Bytes, i: nat): nat
    requires i < 8 * |s|
  {
    Shr(s[i / 8], 7 - i % 8) % 2
  }

  /** The block holds the addresses of its family whose leading `prefix` bits are the network's. */
  ghost predicate Contains(c: Cidr, addr: Bytes)
    requires Legal(c)
  {
    |c.ip| == |addr| && forall i :: 0 <= i < c.prefix ==> Bit(c.ip, i) == Bit(addr, i)
  }

  // ---------------- the plain rule ----------------

  /** `bitsEqual`: whole bytes by `memcmp`, then the rest of one byte under a mask. */
  predicate BitsEqual(a: Bytes, b: Bytes, prefix: nat)
    requires |a| == |b| && prefix <= 8 * |a|
  {
    var full, rem := prefix / 8, prefix % 8;
    if a[..full] != b[..full] then false
    else if rem == 0 then true
    else
      assert Pow2(8) == 256 by { Widths(); }
      And(Xor(a[full], b[full], 8), Shl(Ones(8), 8 - rem, 8), 8) == 0
  }

  // ---------------- the interval ----------------

  /** `mask`, `val & mask` and `val | ~mask`; a zero prefix is special because C leaves a full-width shift undefined. */
  function Mask(prefix: nat, width: nat): (m: nat)
    requires prefix <= width
    ensures m < Pow2(width)
  {
    MaskValue(prefix, width);
    if prefix == 0 then 0 else Shl(Ones(width), width - prefix, width)
  }

  function CidrRange(val: nat, prefix: nat, width: nat): Range
    requires prefix <= width && val < Pow2(width)
  {
    var mask := Mask(prefix, width);
    var start := And(val, mask, width);
    Range(start, Or(start, Not(mask, width), width))
  }

  predicate InRange(r: Range, x: nat) {
    r.start <= x <= r.end
  }

  lemma {:induction false} MaskValue(prefix: nat, width: nat)
    requires prefix <= width
    ensures Pow2(width - prefix) <= Pow2(width)
    ensures (if prefix == 0 then 0 else Shl(Ones(width), width - prefix, width)) == Pow2(width) - Pow2(width - prefix)
  {
    Pow2Monotone(width - prefix, width);
    assert Ones(width) == Pow2(width) - Pow2(0);
    ShlOnes(0, width - prefix, width);
  }

  /** The interval holds exactly the numbers with the same high `prefix` bits. */
  lemma {:induction false} RangeIsPrefix(val: nat, prefix: nat, width: nat)
    requires prefix <= width && val < Pow2(width)
    ensures var r := CidrRange(val, prefix, width);
            r.start <= r.end < Pow2(width) &&
            forall x :: InRange(r, x) <==> Shr(x, width - prefix) == Shr(val, width - prefix)
  {
    var k := width - prefix;
    var r := CidrRange(val, prefix, width);
    MaskValue(prefix, width);
    AndMask(val, k, width);
    UpShrBelow(val, k);
    OrLowOnes(Shr(val, k), k, width);
    assert r == Range(Up(Shr(val, k), k), Up(Shr(val, k), k) + Pow2(k) - 1);
    forall x ensures InRange(r, x) <==> Shr(x, k) == Shr(val, k) {
      if x >= 0 {
        BlockIsPrefix(x, Shr(val, k), k);
      }
    }
    UpBound(Shr(val, k), k, width, val);
  }

  lemma {:induction false} UpBound(y: nat, k: nat, width: nat, v: nat)
    requires k <= width && v < Pow2(width) && Up(y, k) <= v
    ensures Up(y, k) + Pow2(k) <= Pow2(width)
  {
    if k > 0 {
      UpBound(y, k - 1, width - 1, v / 2);
    }
  }

  // ---------------- from bytes to numbers ----------------

  lemma {:induction false} ShrDropsBytes(s: Bytes, m: nat)
    requires m <= |s|
    ensures Shr(FromBE(s), 8 * m) == FromBE(s[..|s| - m])
  {
    if m == 0 {
      assert s[..|s|] == s;
    } else {
      var init := s[..|s| - 1];
      ShrByte(FromBE(s));
      assert FromBE(s) / 256 == FromBE(init);
      ShrAdd(FromBE(s), 8, 8 * (m - 1));
      ShrDropsBytes(init, m - 1);
      assert init[..|init| - (m - 1)] == s[..|s| - m];
    }
  }

  /** The high part of a number cut inside one of its bytes. */
  lemma {:induction false} ShrCutsByte(s: Bytes, full: nat, rem: nat)
    requires full < |s| && 0 < rem < 8
    ensures Shr(FromBE(s), 8 * |s| - (8 * full + rem)) == Up(FromBE(s[..full]), rem) + Shr(s[full], 8 - rem)
  {
    var m := |s| - full - 1;
    ShrAdd(FromBE(s), 8 * m, 8 - rem);
    ShrDropsBytes(s, m);
    var head := s[..full + 1];
    assert head[..full] == s[..full];
    assert FromBE(head) == FromBE(s[..full]) * 256 + s[full];
    ShrSplit(FromBE(s[..full]), s[full], 8 - rem);
  }

  lemma {:induction false} ShrSplit(hi: nat, lo: Byte, k: nat)
    requires k <= 8
    ensures Shr(hi * 256 + lo, k) == Up(hi, 8 - k) + Shr(lo, k)
  {
    UpAs(hi, 8);
    assert Up(hi, 8) == hi * 256;
    ShrSplitUp(hi, lo, k, 8);
  }

  lemma {:induction false} UpAs(v: nat, k: nat)
    ensures k == 8 ==> Up(v, k) == v * 256
  {
    if k == 8 {
      assert Up(v, 8) == 2 * Up(v, 7) == 4 * Up(v, 6) == 8 * Up(v, 5) == 16 * Up(v, 4);
      assert Up(v, 4) == 2 * Up(v, 3) == 4 * Up(v, 2) == 8 * Up(v, 1) == 16 * v;
    }
  }

  lemma {:induction false} ShrSplitUp(hi: nat, lo: nat, k: nat, n: nat)
    requires k <= n
    ensures Shr(Up(hi, n) + lo, k) == Up(hi, n - k) + Shr(lo, k)
  {
    if k > 0 {
      assert (Up(hi, n) + lo) / 2 == Up(hi, n - 1) + lo / 2;
      ShrSplitUp(hi, lo / 2, k - 1, n - 1);
    }
  }

  lemma {:induction false} UpPlusInjective(a: nat, x: nat, b: nat, y: nat, k: nat)
    requires x < Pow2(k) && y < Pow2(k)
    ensures Up(a, k) + x == Up(b, k) + y <==> a == b && x == y
  {
    if k > 0 {
      UpPlusInjective(a, x / 2, b, y / 2, k - 1);
    }
  }

  /** The byte-and-mask compare is equality of the numbers' high bits. */
  lemma {:induction false} BitsEqualIsPrefix(a: Bytes, b: Bytes, prefix: nat)
    requires |a| == |b| && prefix <= 8 * |a|
    ensures BitsEqual(a, b, prefix) <==> Shr(FromBE(a), 8 * |a| - prefix) == Shr(FromBE(b), 8 * |b| - prefix)
  {
    hide FromBE, Shr, Up, And, Xor, Shl, Pow2;
    var full, rem := prefix / 8, prefix % 8;
    FromBEInjective(a[..full], b[..full]);
    if rem == 0 {
      ShrDropsBytes(a, |a| - full);
      ShrDropsBytes(b, |b| - full);
    } else {
      Pow2Zero();
      Pow2Byte(0);
      MaskedXorComparesHighBits(a[full], b[full], 8 - rem, 8);
      CutByteAgrees(a, b, full, rem);
    }
  }

  /** A prefix that ends inside a byte agrees when the whole bytes before it and the high bits of that byte do. */
  lemma {:induction false} CutByteAgrees(a: Bytes, b: Bytes, full: nat, rem: nat)
    requires full < |a| == |b| && 0 < rem < 8
    ensures var drop := 8 * |a| - (8 * full + rem);
            Shr(FromBE(a), drop) == Shr(FromBE(b), drop) <==>
            FromBE(a[..full]) == FromBE(b[..full]) && Shr(a[full], 8 - rem) == Shr(b[full], 8 - rem)
  {
    hide FromBE, Shr, Up, Pow2;
    Pow2Zero();
    Pow2Byte(0);
    ShrCutsByte(a, full, rem);
    ShrCutsByte(b, full, rem);
    ShrBound(a[full], 8 - rem, 8);
    ShrBound(b[full], 8 - rem, 8);
    UpPlusInjective(FromBE(a[..full]), Shr(a[full], 8 - rem), FromBE(b[..full]), Shr(b[full], 8 - rem), rem);
  }

  /** Bit `i` of a number of `width` bits, counted from the top. */
  function TopBit(v: nat, width: nat, i: nat): nat
    requires i < width
  {
    Shr(v, width - 1 - i) % 2
  }

  lemma {:induction false} BitInByte(s: Bytes, full: nat, rem: nat)
    requires full < |s| && rem < 8
    ensures Shr(s[full], 7 - rem) % 2 == Shr(FromBE(s), 8 * (|s| - full - 1) + (7 - rem)) % 2
  {
    hide FromBE, Shr, Up;
    if rem == 7 {
      ShrDropsBytes(s, |s| - full - 1);
      LowBits(s[..full + 1], s[full]);
    } else {
      ShrCutsByte(s, full, rem + 1);
      UpTwice(FromBE(s[..full]), rem);
    }
  }

  lemma {:induction false} LowBits(head: Bytes, v: nat)
    requires head != []
    ensures FromBE(head) % 2 == head[|head| - 1] % 2 && Shr(v, 0) == v
  {
  }

  lemma {:induction false} UpTwice(v: nat, k: nat)
    ensures Up(v, k + 1) == 2 * Up(v, k)
  {
  }

  lemma {:induction false} BitOfNumber(s: Bytes, i: nat)
    requires i < 8 * |s|
    ensures Bit(s, i) == TopBit(FromBE(s), 8 * |s|, i)
  {
    hide FromBE, Shr;
    BitInByte(s, i / 8, i % 8);
    assert 8 * (|s| - i / 8 - 1) + (7 - i % 8) == 8 * |s| - 1 - i;
  }

  /** Two numbers agree above their low bits exactly when they agree bit by bit there. */
  lemma {:induction false} HighBits(a: nat, b: nat, p: nat, width: nat)
    requires p <= width && a < Pow2(width) && b < Pow2(width)
    ensures Shr(a, width - p) == Shr(b, width - p) <==>
            forall i :: 0 <= i < p ==> TopBit(a, width, i) == TopBit(b, width, i)
  {
    if p == 0 {
      ShrBound(a, width, width);
      ShrBound(b, width, width);
    } else {
      HighBits(a, b, p - 1, width);
      HighBitsStep(a, b, p, width);
    }
  }

  lemma {:induction false} HighBitsStep(a: nat, b: nat, p: nat, width: nat)
    requires 0 < p <= width
    ensures Shr(a, width - p) == Shr(b, width - p) <==>
            Shr(a, width - (p - 1)) == Shr(b, width - (p - 1)) && TopBit(a, width, p - 1) == TopBit(b, width, p - 1)
  {
    var k := width - p;
    ShrAdd(a, k, 1);
    ShrAdd(b, k, 1);
    assert Shr(Shr(a, k), 1) == Shr(a, k) / 2 && Shr(Shr(b, k), 1) == Shr(b, k) / 2;
  }

  lemma {:induction false} ContainsIsPrefix(c: Cidr, addr: Bytes)
    requires Legal(c) && |c.ip| == |addr|
    ensures Contains(c, addr) <==>
            Shr(FromBE(c.ip), 8 * |c.ip| - c.prefix) == Shr(FromBE(addr), 8 * |c.ip| - c.prefix)
  {
    hide TopBit, Shr, Bit;
    var a, b, width := FromBE(c.ip), FromBE(addr), 8 * |c.ip|;
    FromBEBound(c.ip);
    FromBEBound(addr);
    HighBits(a, b, c.prefix, width);
    forall i | 0 <= i < c.prefix
      ensures Bit(c.ip, i) == TopBit(a, width, i) && Bit(addr, i) == TopBit(b, width, i)
    {
      BitOfNumber(c.ip, i);
      BitOfNumber(addr, i);
    }
  }

  /** The interval that the index stores for a block. */
  function RangeOf(c: Cidr): Range
    requires Legal(c)
  {
    FromBEBound(c.ip);
    CidrRange(FromBE(c.ip), c.prefix, 8 * |c.ip|)
  }

  /** For every network, address and legal prefix length the three forms agree, over 32 and over 128 bits. */
  lemma {:induction false} ThreeFormsAgree(c: Cidr, addr: Bytes)
    requires Legal(c) && |addr| == |c.ip|
    ensures BitsEqual(c.ip, addr, c.prefix) <==> Contains(c, addr)
    ensures InRange(RangeOf(c), FromBE(addr)) <==> Contains(c, addr)
    ensures RangeOf(c).start <= RangeOf(c).end < Pow2(8 * |c.ip|)
  {
    BitsEqualIsPrefix(c.ip, addr, c.prefix);
    ContainsIsPrefix(c, addr);
    FromBEBound(c.ip);
    RangeIsPrefix(FromBE(c.ip), c.prefix, 8 * |c.ip|);
  }

  // ---------------- prefix lengths in rule text ----------------

  function Width(v6: bool): nat {
    if v6 then 128 else 32
  }

  /** `parseCidr`'s prefix, from the text after the slash if there is one. The number must fit an `int`; a negative one
      means a host route like none at all, and any other is cut to eight bits before its range is checked. */
  function PrefixLength(text: Option<Bytes>, v6: bool): Option<nat> {
    match text
    case None => Some(Width(v6))
    case Some(t) =>
      var n := Decimal.Atoi(t, Decimal.I32_LIMIT);
      if n.None? then None
      else
        var len := if n.value < 0 then Width(v6) else n.value % 256;
        if len > Width(v6) then None else Some(len)
  }

  /** What the text means: the number it spells if that is a legal length, and an error otherwise. */
  function MeantLength(text: Bytes, v6: bool): Option<nat> {
    var n := Decimal.Spelled(text);
    if n.Some? && 0 <= n.value <= Width(v6) then Some(n.value) else None
  }

  /** The texts on which the cut to eight bits, or the test for a negative number, accepts what is no length. */
  predicate Misread(text: Bytes, v6: bool) {
    var n := Decimal.Spelled(text);
    n.Some? && -Decimal.I32_LIMIT <= n.value < Decimal.I32_LIMIT &&
    (n.value < 0 || (n.value > Width(v6) && n.value % 256 <= Width(v6)))
  }

  /** A prefix is read as it is meant exactly when its text is not misread. `/264` is misread as `/8`; `/4294967304`
      does not fit an `int` and is refused. */
  lemma {:induction false} PrefixCheckExactly(text: Bytes, v6: bool)
    ensures PrefixLength(Some(text), v6) == MeantLength(text, v6) <==> !Misread(text, v6)
    ensures Misread(text, v6) ==> PrefixLength(Some(text), v6).Some? && MeantLength(text, v6).None?
    ensures PrefixLength(Some(Decimal.Print(264)), false) == Some(8)
    ensures PrefixLength(Some(Decimal.Print(4294967304)), false) == None
  {
    hide Decimal.Print, Decimal.Spelled;
    Decimal.SpelledPrint(264);
    Decimal.SpelledPrint(4294967304);
  }
}
