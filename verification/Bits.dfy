/** Unsigned machine words as natural numbers, with C's shift and bitwise operators written out bit by bit,
    so that one definition serves the 8-, 32-, 64- and 128-bit types of the program. */
module Bits {

  function Pow2(n: nat): (p: nat)
    ensures p >= 1
  {
    if n == 0 then 1 else 2 * Pow2(n - 1)
  }

  /** All ones: `~0` in a `width`-bit type. */
  function Ones(width: nat): nat {
    Pow2(width) - 1
  }

  /** `v >> k`. */
  function Shr(v: nat, k: nat): nat {
    if k == 0 then v else Shr(v / 2, k - 1)
  }

  /** `v << k` in a `width`-bit type: a bit pushed past the top is lost. */
  function Shl(v: nat, k: nat, width: nat): nat
    requires v < Pow2(width)
    decreases k
  {
    if k == 0 then v
    else Shl(if 2 * v >= Pow2(width) then 2 * v - Pow2(width) else 2 * v, k - 1, width)
  }

  function And(a: nat, b: nat, width: nat): nat {
    if width == 0 then 0
    else (if a % 2 == 1 && b % 2 == 1 then 1 else 0) + 2 * And(a / 2, b / 2, width - 1)
  }

  function Or(a: nat, b: nat, width: nat): nat {
    if width == 0 then 0
    else (if a % 2 == 1 || b % 2 == 1 then 1 else 0) + 2 * Or(a / 2, b / 2, width - 1)
  }

  function Xor(a: nat, b: nat, width: nat): nat {
    if width == 0 then 0
    else (if a % 2 != b % 2 then 1 else 0) + 2 * Xor(a / 2, b / 2, width - 1)
  }

  function Not(a: nat, width: nat): nat
    requires a < Pow2(width)
  {
    Ones(width) - a
  }

  /** `v * 2^k` by doubling. */
  function Up(v: nat, k: nat): nat {
    if k == 0 then v else 2 * Up(v, k - 1)
  }

  lemma {:induction false} ShrAdd(v: nat, j: nat, k: nat)
    ensures Shr(v, j + k) == Shr(Shr(v, j), k)
  {
    if j > 0 {
      ShrAdd(v / 2, j - 1, k);
    }
  }

  lemma {:induction false} ShrByte(v: nat)
    ensures Shr(v, 8) == v / 256
  {
    ShrNibble(v);
    ShrNibble(v / 16);
    ShrAdd(v, 4, 4);
  }

  lemma {:induction false} ShrNibble(v: nat)
    ensures Shr(v, 4) == v / 16
  {
    assert Shr(v, 4) == Shr(v / 2, 3) == Shr(v / 4, 2) == Shr(v / 8, 1) == v / 16;
  }

  lemma {:induction false} Pow2Zero()
    ensures Pow2(0) == 1
  {
  }

  lemma {:induction false} Pow2Byte(n: nat)
    ensures Pow2(n + 8) == 256 * Pow2(n)
  {
    assert Pow2(n + 8) == 2 * Pow2(n + 7) == 4 * Pow2(n + 6) == 8 * Pow2(n + 5) == 16 * Pow2(n + 4);
    assert Pow2(n + 4) == 2 * Pow2(n + 3) == 4 * Pow2(n + 2) == 8 * Pow2(n + 1) == 16 * Pow2(n);
  }

  lemma {:induction false} Pow2Monotone(k: nat, n: nat)
    requires k <= n
    ensures Pow2(k) <= Pow2(n)
  {
    if k < n {
      Pow2Monotone(k, n - 1);
    }
  }

  /** Shifting all ones leaves `2^width - 2^k`: ones above the `k` low zeros. */
  lemma {:induction false} ShlOnes(j: nat, k: nat, width: nat)
    requires j + k <= width
    ensures Pow2(j) <= Pow2(width)
    ensures Shl(Pow2(width) - Pow2(j), k, width) == Pow2(width) - Pow2(j + k)
    decreases k
  {
    Pow2Monotone(j, width);
    if k > 0 {
      Pow2Monotone(j + 1, width);
      ShlOnes(j + 1, k - 1, width);
    }
  }

  /** Masking with the shifted ones clears exactly the `k` low bits. */
  lemma {:induction false} AndMask(v: nat, k: nat, width: nat)
    requires k <= width && v < Pow2(width)
    ensures Pow2(k) <= Pow2(width)
    ensures And(v, Pow2(width) - Pow2(k), width) == Up(Shr(v, k), k)
  {
    Pow2Monotone(k, width);
    if k > 0 {
      assert (Pow2(width) - Pow2(k)) / 2 == Pow2(width - 1) - Pow2(k - 1);
      AndMask(v / 2, k - 1, width - 1);
    } else {
      AndOnes(v, width);
    }
  }

  lemma {:induction false} AndOnes(v: nat, width: nat)
    requires v < Pow2(width)
    ensures And(v, Pow2(width) - 1, width) == v
  {
    if width > 0 {
      assert (Pow2(width) - 1) / 2 == Pow2(width - 1) - 1;
      AndOnes(v / 2, width - 1);
    }
  }

  /** Or-ing with the complement of the mask sets exactly the `k` low bits. */
  lemma {:induction false} OrLowOnes(v: nat, k: nat, width: nat)
    requires k <= width && Up(v, k) < Pow2(width)
    ensures Or(Up(v, k), Pow2(k) - 1, width) == Up(v, k) + Pow2(k) - 1
  {
    hide Or;
    if k > 0 {
      OrLowOnes(v, k - 1, width - 1);
      OrOdd(Up(v, k - 1), Pow2(k - 1) - 1, width);
    } else {
      OrZero(v, width);
    }
  }

  lemma {:induction false} OrOdd(a: nat, b: nat, width: nat)
    requires width > 0
    ensures Or(2 * a, 2 * b + 1, width) == 1 + 2 * Or(a, b, width - 1)
  {
    assert (2 * a) / 2 == a && (2 * b + 1) / 2 == b;
  }

  lemma {:induction false} OrZero(v: nat, width: nat)
    requires v < Pow2(width)
    ensures Or(v, 0, width) == v
  {
    if width > 0 {
      OrZero(v / 2, width - 1);
    }
  }

  lemma {:induction false} UpShrBelow(v: nat, k: nat)
    ensures Up(Shr(v, k), k) <= v
  {
    if k > 0 {
      UpShrBelow(v / 2, k - 1);
    }
  }

  /** The aligned block of `2^k` numbers that starts at `Up(y, k)` holds exactly the numbers whose high bits are `y`. */
  lemma {:induction false} BlockIsPrefix(x: nat, y: nat, k: nat)
    ensures Up(y, k) <= x <= Up(y, k) + Pow2(k) - 1 <==> Shr(x, k) == y
  {
    if k > 0 {
      BlockIsPrefix(x / 2, y, k - 1);
    }
  }

  lemma {:induction false} ShrBound(v: nat, k: nat, width: nat)
    requires k <= width && v < Pow2(width)
    ensures Shr(v, k) < Pow2(width - k)
  {
    if k > 0 {
      ShrBound(v / 2, k - 1, width - 1);
    }
  }

  lemma {:induction false} ShrXor(a: nat, b: nat, k: nat, width: nat)
    requires k <= width
    ensures Shr(Xor(a, b, width), k) == Xor(Shr(a, k), Shr(b, k), width - k)
  {
    if k > 0 {
      assert Xor(a, b, width) / 2 == Xor(a / 2, b / 2, width - 1);
      ShrXor(a / 2, b / 2, k - 1, width - 1);
    }
  }

  lemma {:induction false} XorZero(a: nat, b: nat, width: nat)
    requires a < Pow2(width) && b < Pow2(width)
    ensures Xor(a, b, width) == 0 <==> a == b
  {
    if width > 0 {
      XorZero(a / 2, b / 2, width - 1);
    }
  }

  lemma {:induction false} XorBound(a: nat, b: nat, width: nat)
    ensures Xor(a, b, width) < Pow2(width)
  {
    if width > 0 {
      XorBound(a / 2, b / 2, width - 1);
    }
  }

  lemma {:induction false} UpZero(v: nat, k: nat)
    ensures Up(v, k) == 0 <==> v == 0
  {
    if k > 0 {
      UpZero(v, k - 1);
    }
  }

  /** `v & (~0 << k)` keeps everything above the `k` low bits. */
  lemma {:induction false} MaskHigh(v: nat, k: nat, width: nat)
    requires k <= width && v < Pow2(width)
    ensures And(v, Shl(Ones(width), k, width), width) == Up(Shr(v, k), k)
  {
    assert Ones(width) == Pow2(width) - Pow2(0);
    ShlOnes(0, k, width);
    AndMask(v, k, width);
  }

  /** The test `((a ^ b) & (~0 << k)) == 0` compares everything above the `k` low bits. */
  lemma {:induction false} MaskedXorComparesHighBits(a: nat, b: nat, k: nat, width: nat)
    requires k <= width && a < Pow2(width) && b < Pow2(width)
    ensures And(Xor(a, b, width), Shl(Ones(width), k, width), width) == 0 <==> Shr(a, k) == Shr(b, k)
  {
    var x, ha, hb := Xor(a, b, width), Shr(a, k), Shr(b, k);
    XorBound(a, b, width);
    MaskHigh(x, k, width);
    UpZero(Shr(x, k), k);
    ShrXor(a, b, k, width);
    ShrBound(a, k, width);
    ShrBound(b, k, width);
    XorZero(ha, hb, width - k);
  }
}
