/** Rounding an offset up to an alignment with masks: `(x + (a - 1)) & !(a - 1)` in 64-bit arithmetic. */
module Alignment {
  import opened Arithmetic
  import opened Word64
  import opened PagePools

  const WORD_BITS: nat := 64

  /** `a - 1`, wrapping at zero. */
  function Pred(a: nat, bits: nat): (r: nat)
    requires a < Pow2(bits)
    ensures r < Pow2(bits)
  {
    if a == 0 then Pow2(bits) - 1 else a - 1
  }

  function Wrapped(x: nat, bits: nat): (r: nat)
    requires x < 2 * Pow2(bits)
    ensures r < Pow2(bits)
  {
    if x >= Pow2(bits) then x - Pow2(bits) else x
  }

  /** `(x + (a - 1)) & !(a - 1)`, for words of `bits` bits. */
  function MaskUp(x: nat, a: nat, bits: nat): nat
    requires x < Pow2(bits) && a < Pow2(bits)
  {
    And(Wrapped(x + Pred(a, bits), bits), Not(Pred(a, bits), bits))
  }

  function Mul(q: nat, a: nat): nat {
    q * a
  }

  /** `r` is the least multiple of `a` that is not below `x`. */
  ghost predicate LeastAligned(x: nat, a: nat, r: nat) {
    a > 0 && x <= r < x + a && exists q: nat :: r == Mul(q, a)
  }

  ghost predicate IsPow2(a: nat) {
    exists k: nat :: a == Pow2(k)
  }

  /** Bits 0 to `k - 1` cleared. */
  function Cleared(x: nat, k: nat): nat {
    if k == 0 then x else 2 * Cleared(x / 2, k - 1)
  }

  lemma {:induction false} AndOnes(x: nat, bits: nat)
    requires x < Pow2(bits)
    ensures And(x, Pow2(bits) - 1) == x
  {
    if x > 0 {
      assert (Pow2(bits) - 1) / 2 == Pow2(bits - 1) - 1;
      AndOnes(x / 2, bits - 1);
    }
  }

  lemma {:induction false} AndEven(x: nat, m: nat, m': nat)
    requires m == 2 * m'
    ensures And(x, m) == 2 * And(x / 2, m')
  {
  }

  lemma {:induction false} MaskClears(x: nat, k: nat, bits: nat)
    requires x < Pow2(bits) && k <= bits
    ensures Pow2(k) - 1 < Pow2(bits) && And(x, Not(Pow2(k) - 1, bits)) == Cleared(x, k)
  {
    if k < bits {
      Pow2Monotone(k, bits);
    }
    if k == 0 {
      AndOnes(x, bits);
    } else {
      MaskClears(x / 2, k - 1, bits - 1);
      AndEven(x, Not(Pow2(k) - 1, bits), Not(Pow2(k - 1) - 1, bits - 1));
    }
  }

  lemma {:induction false} ClearedIsMultiple(x: nat, k: nat)
    ensures exists q: nat :: Cleared(x, k) == Mul(q, Pow2(k))
    ensures x < Cleared(x, k) + Pow2(k) && Cleared(x, k) <= x
  {
    if k == 0 {
      assert Cleared(x, k) == Mul(x, Pow2(k));
    } else {
      ClearedIsMultiple(x / 2, k - 1);
      var q: nat :| Cleared(x / 2, k - 1) == Mul(q, Pow2(k - 1));
      assert Cleared(x, k) == Mul(q, Pow2(k));
    }
  }

  lemma {:induction false} NoMultipleBelow(a: nat, r: nat, q: nat)
    requires 0 < r < a
    ensures r != Mul(q, a)
  {
    if q > 0 {
      assert Mul(q, a) == Mul(q - 1, a) + a;
    }
  }

  /** With an alignment that is a power of two the mask rounds up. */
  lemma {:induction false} PowerAligns(x: nat, k: nat, bits: nat)
    requires k < bits && x + Pow2(k) <= Pow2(bits) && x < Pow2(bits) && Pow2(k) < Pow2(bits)
    ensures LeastAligned(x, Pow2(k), MaskUp(x, Pow2(k), bits))
  {
    var y := x + (Pow2(k) - 1);
    MaskClears(y, k, bits);
    ClearedIsMultiple(y, k);
  }

  /** `a & !(a - 1)` is the lowest set bit. */
  lemma {:induction false} LowestBit(a: nat, bits: nat)
    requires 0 < a < Pow2(bits)
    ensures IsPow2(And(a, Not(a - 1, bits)))
  {
    var m := Not(a - 1, bits);
    if a % 2 == 1 {
      Disjoint(a / 2, bits - 1);
      assert m / 2 == Not(a / 2, bits - 1) && m % 2 == 1;
      assert And(a, m) == Pow2(0);
    } else {
      LowestBit(a / 2, bits - 1);
      assert m == 2 * Not(a / 2 - 1, bits - 1);
      var k: nat :| And(a / 2, Not(a / 2 - 1, bits - 1)) == Pow2(k);
      assert And(a, m) == Pow2(k + 1);
    }
  }

  lemma {:induction false} Disjoint(a: nat, bits: nat)
    requires a < Pow2(bits)
    ensures And(a, Not(a, bits)) == 0
  {
    if a > 0 {
      Disjoint(a / 2, bits - 1);
      assert Not(a, bits) / 2 == Not(a / 2, bits - 1);
    }
  }

  /** Any other alignment fails at offset 1: the result is the lowest set bit of the alignment. */
  lemma {:induction false} OthersMisalign(a: nat, bits: nat)
    requires a < Pow2(bits) && bits > 0 && !IsPow2(a)
    ensures 1 < Pow2(bits) && !LeastAligned(1, a, MaskUp(1, a, bits))
  {
    if a > 0 {
      LowestBit(a, bits);
      var r := And(a, Not(a - 1, bits));
      assert Wrapped(1 + Pred(a, bits), bits) == a;
      assert MaskUp(1, a, bits) == r;
      var k: nat :| r == Pow2(k);
      forall q: nat ensures r != Mul(q, a) {
        NoMultipleBelow(a, r, q);
      }
    }
  }

  ghost predicate AlignsAll(a: nat, bits: nat)
    requires a < Pow2(bits)
  {
    forall x: nat | x + a <= Pow2(bits) && x < Pow2(bits) :: LeastAligned(x, a, MaskUp(x, a, bits))
  }

  /** The mask computes the least aligned offset, for every offset, exactly for powers of two. */
  lemma {:induction false} AlignsIffPowerOfTwo(a: nat, bits: nat)
    requires a < Pow2(bits) && bits > 0
    ensures AlignsAll(a, bits) <==> IsPow2(a)
  {
    if IsPow2(a) {
      var k: nat :| a == Pow2(k);
      if k >= bits {
        PowBelow(bits, k);
      }
      forall x: nat | x + a <= Pow2(bits) && x < Pow2(bits) ensures LeastAligned(x, a, MaskUp(x, a, bits)) {
        PowerAligns(x, k, bits);
      }
    } else {
      OthersMisalign(a, bits);
    }
  }

  /** Unless `a` is a power of two, `a` and `a - 1` share a bit. */
  lemma {:induction false} SharedBit(a: nat) returns (i: nat)
    requires a > 0 && !IsPow2(a)
    ensures Bit(a, i) && Bit(a - 1, i)
  {
    if a % 2 == 1 {
      assert a != Pow2(0);
      i := TrailingZeros(a / 2) + 1;
    } else {
      forall k: nat ensures a / 2 != Pow2(k) {
        assert a != Pow2(k + 1);
      }
      i := SharedBit(a / 2);
      assert (a - 1) / 2 == a / 2 - 1;
      i := i + 1;
    }
  }

  /** A multiple of `a` that shares a bit with `a - 1` is moved by the mask, though it is aligned. */
  lemma {:induction false} MultipleMoved(x: nat, q: nat, a: nat, bits: nat, i: nat)
    requires a > 0 && x == Mul(q, a) && x + a <= Pow2(bits) && x < Pow2(bits) && a < Pow2(bits)
    requires Bit(x, i) && Bit(a - 1, i)
    ensures !LeastAligned(x, a, MaskUp(x, a, bits))
  {
    var y, r := Wrapped(x + Pred(a, bits), bits), MaskUp(x, a, bits);
    BitAnd(y, Not(a - 1, bits), i);
    BitNot(a - 1, bits, i);
    assert r != x;
    if LeastAligned(x, a, r) {
      var p: nat :| r == Mul(p, a);
      MultiplesApart(q, p, a);
    }
  }

  lemma {:induction false} MultiplesApart(q: nat, p: nat, a: nat)
    requires Mul(q, a) <= Mul(p, a) < Mul(q, a) + a
    ensures p == q
  {
    if p < q {
      MulLe(p + 1, q, a);
      MulAdd(p, 1, a);
    } else if q < p {
      MulLe(q + 1, p, a);
      MulAdd(q, 1, a);
    }
  }

  /** Adding a multiple of a power of two leaves the bits below it. */
  lemma {:induction false} LowBitsStay(a: nat, c: nat, k: nat, i: nat)
    requires i < k
    ensures Bit(a + Mul(c, Pow2(k)), i) == Bit(a, i)
  {
    var h := Mul(c, Pow2(k - 1));
    assert Mul(c, Pow2(k)) == 2 * h;
    if i > 0 {
      LowBitsStay(a / 2, c, k - 1, i - 1);
      assert (a + 2 * h) / 2 == a / 2 + h;
    }
  }

  lemma {:induction false} PowBelow(i: nat, j: nat)
    requires i <= j
    ensures Pow2(i) <= Pow2(j)
  {
    if i < j {
      Pow2Monotone(i, j);
    }
  }

  lemma {:induction false} LeastAlignedUnique(x: nat, r: nat, r': nat)
    requires LeastAligned(x, 64, r) && LeastAligned(x, 64, r')
    ensures r == r'
  {
    var q: nat :| r == Mul(q, 64);
    var q': nat :| r' == Mul(q', 64);
  }

  /** The page stride and the padded row width are rounded with the same mask. */
  lemma {:induction false} RoundUp64IsMask(x: nat, bits: nat)
    requires bits == WORD_BITS && x + 64 <= Pow2(bits)
    ensures x < Pow2(bits) && 64 < Pow2(bits) && MaskUp(x, 64, bits) == RoundUp64(x)
  {
    var k := 6;
    assert Pow2(k) == 64;
    PowBelow(k + 1, bits);
    PowerAligns(x, k, bits);
    assert RoundUp64(x) == Mul((x + 63) / 64, 64);
    LeastAlignedUnique(x, MaskUp(x, 64, bits), RoundUp64(x));
  }
}
