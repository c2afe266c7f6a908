/**
 * Binary digits of non-negative integers, as read by the `x & (1 << m)`
 * tests and written by the `x |= (1 << m)` updates of the Marching Cubes
 * implementations.
 */
module Bits {

  /** Bit `m` of `x`, that is `(x >> m) & 1 == 1` for `x >= 0`. */
  predicate HasBit(x: int, m: nat)
    decreases m
  {
    if m == 0 then x % 2 == 1 else HasBit(x / 2, m - 1)
  }

  /** `1 << m`. */
  function Pow2(m: nat): nat
    ensures Pow2(m) >= 1
  {
    if m == 0 then 1 else 2 * Pow2(m - 1)
  }

  function Digit(b: bool): int {
    if b then 1 else 0
  }

  /**
   * The number whose binary digits, least significant first, are
   * `bs[k..]`.
   */
  function BitsFrom(bs: seq<bool>, k: nat): nat
    decreases |bs| - k
  {
    if k >= |bs| then 0 else Digit(bs[k]) + 2 * BitsFrom(bs, k + 1)
  }

  /** The number whose binary digits, least significant first, are `bs`. */
  function FromBits(bs: seq<bool>): nat {
    BitsFrom(bs, 0)
  }

  lemma {:induction false} ZeroHasNoBits(m: nat)
    ensures !HasBit(0, m)
  {
    if m > 0 {
      ZeroHasNoBits(m - 1);
    }
  }

  lemma {:induction false} BitsFromBits(bs: seq<bool>, k: nat, m: nat)
    ensures HasBit(BitsFrom(bs, k), m) == (k + m < |bs| && bs[k + m])
    decreases |bs| - k
  {
    if k >= |bs| {
      ZeroHasNoBits(m);
    } else {
      var d, y := Digit(bs[k]), BitsFrom(bs, k + 1);
      assert (d + 2 * y) % 2 == d && (d + 2 * y) / 2 == y;
      if m > 0 {
        BitsFromBits(bs, k + 1, m - 1);
      }
    }
  }

  /** Reading bit `m` of `FromBits(bs)` gives back `bs[m]`. */
  lemma FromBitsBits(bs: seq<bool>, m: nat)
    ensures HasBit(FromBits(bs), m) == (m < |bs| && bs[m])
  {
    BitsFromBits(bs, 0, m);
  }

  lemma {:induction false} BitsFromBound(bs: seq<bool>, k: nat)
    requires k <= |bs|
    ensures BitsFrom(bs, k) < Pow2(|bs| - k)
    decreases |bs| - k
  {
    if k < |bs| {
      BitsFromBound(bs, k + 1);
    }
  }

  /** A number with `n` binary digits is below `2^n`. */
  lemma FromBitsBound(bs: seq<bool>)
    ensures FromBits(bs) < Pow2(|bs|)
  {
    BitsFromBound(bs, 0);
  }

  lemma {:induction false} BitsFromSnoc(bs: seq<bool>, b: bool, k: nat)
    requires k <= |bs|
    ensures BitsFrom(bs + [b], k) == BitsFrom(bs, k) + Digit(b) * Pow2(|bs| - k)
    decreases |bs| - k
  {
    var cs := bs + [b];
    if k == |bs| {
      assert cs[k] == b;
      assert BitsFrom(cs, k + 1) == 0;
    } else {
      assert cs[k] == bs[k];
      BitsFromSnoc(bs, b, k + 1);
      assert Pow2(|bs| - k) == 2 * Pow2(|bs| - k - 1);
    }
  }

  /**
   * Appending a most significant digit adds `2^|bs|` when it is set: the
   * effect of `x |= (1 << |bs|)` on an `x` below `2^|bs|`.
   */
  lemma FromBitsSnoc(bs: seq<bool>, b: bool)
    ensures FromBits(bs + [b]) == FromBits(bs) + (if b then Pow2(|bs|) else 0)
  {
    BitsFromSnoc(bs, b, 0);
  }

  /**
   * Below `2^n`, subtracting from `2^n - 1` flips each of the `n` low
   * binary digits.
   */
  lemma {:induction false} ComplementHasBit(n: nat, x: int, m: nat)
    requires 0 <= x < Pow2(n) && m < n
    ensures HasBit(Pow2(n) - 1 - x, m) == !HasBit(x, m)
    decreases m
  {
    var p := Pow2(n - 1);
    assert Pow2(n) - 1 - x == 2 * (p - 1 - x / 2) + (1 - x % 2);
    if m > 0 {
      ComplementHasBit(n - 1, x / 2, m - 1);
    }
  }

  lemma {:induction false} BitsFromConst(bs: seq<bool>, b: bool, k: nat)
    requires k <= |bs|
    requires forall m | k <= m < |bs| :: bs[m] == b
    ensures BitsFrom(bs, k) == if b then Pow2(|bs| - k) - 1 else 0
    decreases |bs| - k
  {
    if k < |bs| {
      BitsFromConst(bs, b, k + 1);
    }
  }

  /** `n` equal digits: all clear reads as 0, all set as `2^n - 1`. */
  lemma FromBitsConst(bs: seq<bool>, b: bool)
    requires forall m | 0 <= m < |bs| :: bs[m] == b
    ensures FromBits(bs) == if b then Pow2(|bs|) - 1 else 0
  {
    BitsFromConst(bs, b, 0);
  }
}
