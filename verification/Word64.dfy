/** Unsigned 64-bit words as natural numbers, with the bit operations the engine applies to them.
    Bit 0 is the least significant bit. */
module Word64 {
  function Pow2(k: nat): (p: nat)
    ensures p > 0
  {
    if k == 0 then 1 else 2 * Pow2(k - 1)
  }

  type u64 = w: nat | w < Pow2(64) witness 0

  type u32 = n: nat | n < 0x1_0000_0000

  type u8 = b: nat | b < 256

  predicate Bit(w: nat, i: nat) {
    if i == 0 then w % 2 == 1 else Bit(w / 2, i - 1)
  }

  function And(x: nat, y: nat): (r: nat)
    ensures r <= x
  {
    if x == 0 then 0 else (x % 2) * (y % 2) + 2 * And(x / 2, y / 2)
  }

  function Or(x: nat, y: nat): (r: nat)
    decreases x + y
  {
    if x == 0 then y
    else if y == 0 then x
    else (if x % 2 == 1 || y % 2 == 1 then 1 else 0) + 2 * Or(x / 2, y / 2)
  }

  /** The `n`-bit complement `!x`. */
  function Not(x: nat, n: nat): (r: nat)
    requires x < Pow2(n)
    ensures r < Pow2(n)
  {
    Pow2(n) - 1 - x
  }

  function TrailingZeros(w: nat): (i: nat)
    requires w > 0
    ensures Bit(w, i)
    ensures forall j | 0 <= j < i :: !Bit(w, j)
  {
    if w % 2 == 1 then 0
    else
      var i := 1 + TrailingZeros(w / 2);
      assert forall j | 0 < j < i :: Bit(w, j) == Bit(w / 2, j - 1);
      i
  }

  lemma {:induction false} Pow2Monotone(i: nat, j: nat)
    requires i < j
    ensures 2 * Pow2(i) <= Pow2(j)
  {
    if i + 1 < j {
      Pow2Monotone(i, j - 1);
    }
  }

  /** Only the low `n` bits of a word below 2^n can be set. */
  lemma {:induction false} BitBelow(w: nat, n: nat, i: nat)
    requires w < Pow2(n)
    requires Bit(w, i)
    ensures i < n
  {
    if n == 0 {
      BitZero(i);
    } else if i > 0 {
      BitBelow(w / 2, n - 1, i - 1);
    }
  }

  lemma {:induction false} BitZero(i: nat)
    ensures !Bit(0, i)
  {
    if i > 0 {
      BitZero(i - 1);
    }
  }

  lemma {:induction false} BitAnd(x: nat, y: nat, i: nat)
    ensures Bit(And(x, y), i) <==> Bit(x, i) && Bit(y, i)
  {
    if x == 0 {
      BitZero(i);
    } else if i > 0 {
      BitAnd(x / 2, y / 2, i - 1);
    }
  }

  lemma {:induction false} BitOr(x: nat, y: nat, i: nat)
    ensures Bit(Or(x, y), i) <==> Bit(x, i) || Bit(y, i)
    decreases i
  {
    if x == 0 || y == 0 {
      BitZero(i);
    } else if i > 0 {
      BitOr(x / 2, y / 2, i - 1);
    }
  }

  lemma {:induction false} OrBelow(x: nat, y: nat, n: nat)
    requires x < Pow2(n) && y < Pow2(n)
    ensures Or(x, y) < Pow2(n)
    decreases n
  {
    if x != 0 && y != 0 {
      OrBelow(x / 2, y / 2, n - 1);
    }
  }

  lemma {:induction false} BitNot(x: nat, n: nat, i: nat)
    requires x < Pow2(n)
    ensures Bit(Not(x, n), i) <==> i < n && !Bit(x, i)
  {
    if n == 0 {
      BitZero(i);
    } else if i > 0 {
      assert Not(x, n) / 2 == Not(x / 2, n - 1);
      BitNot(x / 2, n - 1, i - 1);
    }
  }

  lemma {:induction false} BitPow2(k: nat, i: nat)
    ensures Bit(Pow2(k), i) <==> i == k
  {
    if k == 0 {
      if i > 0 {
        BitZero(i - 1);
      }
    } else if i > 0 {
      BitPow2(k - 1, i - 1);
    }
  }

  /** `(1 << n) - 1` has exactly the low `n` bits set. */
  lemma {:induction false} BitOnes(n: nat, i: nat)
    ensures Bit(Pow2(n) - 1, i) <==> i < n
  {
    BitZero(i);
    BitNot(0, n, i);
  }

  /** `w & !(1 << b)`. */
  function ClearBit(w: u64, b: nat): (r: u64)
    requires b < 64
    ensures forall i: nat :: Bit(r, i) <==> i != b && Bit(w, i)
  {
    Pow2Monotone(b, 64);
    assert forall i: nat :: Bit(And(w, Not(Pow2(b), 64)), i) <==> i != b && Bit(w, i) by {
      forall i: nat ensures Bit(And(w, Not(Pow2(b), 64)), i) <==> i != b && Bit(w, i) {
        BitAnd(w, Not(Pow2(b), 64), i);
        BitNot(Pow2(b), 64, i);
        BitPow2(b, i);
        if Bit(w, i) { BitBelow(w, 64, i); }
      }
    }
    And(w, Not(Pow2(b), 64))
  }

  /** `w | (1 << b)`. */
  function SetBit(w: u64, b: nat): (r: u64)
    requires b < 64
    ensures forall i: nat :: Bit(r, i) <==> i == b || Bit(w, i)
  {
    Pow2Monotone(b, 64);
    OrBelow(w, Pow2(b), 64);
    assert forall i: nat :: Bit(Or(w, Pow2(b)), i) <==> i == b || Bit(w, i) by {
      forall i: nat ensures Bit(Or(w, Pow2(b)), i) <==> i == b || Bit(w, i) {
        BitOr(w, Pow2(b), i);
        BitPow2(b, i);
      }
    }
    Or(w, Pow2(b))
  }
}
