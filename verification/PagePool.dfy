/** The physical KV page pool: a slab of pages and a bit-packed free list. */
module PagePools {
  import opened Word64
  import opened Wrappers

  const PAGE_TOKENS: nat := 16

  type i8 = x: int | -128 <= x < 128 witness 0

  /** The smallest multiple of 64 that is at least `x`; what `(x + 63) & !63` computes. */
  function RoundUp64(x: nat): (r: nat)
    ensures x <= r < x + 64 && r % 64 == 0
  {
    (x + 63) / 64 * 64
  }

  /** Word `i` of a free list in which all of `total` pages are free. */
  function FreshWord(total: nat, i: nat): u64 {
    var remaining := if total < i * 64 then 0 else total - i * 64;
    if remaining >= 64 then Pow2(64) - 1
    else
      Pow2Monotone(remaining, 64);
      Pow2(remaining) - 1
  }

  lemma FreshWordBits(total: nat, i: nat, b: nat)
    requires b < 64
    ensures Bit(FreshWord(total, i), b) <==> i * 64 + b < total
  {
    var remaining := if total < i * 64 then 0 else total - i * 64;
    BitOnes(if remaining >= 64 then 64 else remaining, b);
  }

  /** Page `p` is bit `p % 64` of word `p / 64`. */
  predicate FreeAt(bits: seq<u64>, p: nat)
    requires p < |bits| * 64
  {
    Bit(bits[p / 64], p % 64)
  }

  /** One bit for each page, and every bit from `total` on clear. */
  ghost predicate TailClear(bits: seq<u64>, total: nat) {
    && |bits| == (total + 63) / 64
    && forall p: nat | total <= p < |bits| * 64 :: !FreeAt(bits, p)
  }

  /** The pages whose free bit is set. */
  ghost function FreePages(bits: seq<u64>, total: nat): set<nat>
    requires |bits| == (total + 63) / 64
  {
    set p: nat | p < total && FreeAt(bits, p)
  }

  lemma FreshBitsAllFree(bits: seq<u64>, total: nat)
    requires |bits| == (total + 63) / 64
    requires forall i | 0 <= i < |bits| :: bits[i] == FreshWord(total, i)
    ensures TailClear(bits, total)
    ensures forall p: nat | p < total :: p in FreePages(bits, total)
  {
    forall p: nat | p < |bits| * 64 ensures FreeAt(bits, p) <==> p < total {
      FreshWordBits(total, p / 64, p % 64);
    }
  }

  /** With every word below `i` zero, clearing the lowest set bit of word `i` takes the least free page. */
  lemma ClearLowest(bits: seq<u64>, total: nat, i: nat)
    requires TailClear(bits, total) && i < |bits|
    requires bits[i] != 0 && forall j | 0 <= j < i :: bits[j] == 0
    ensures var b := TrailingZeros(bits[i]); var p := i * 64 + b;
            && b < 64
            && p in FreePages(bits, total)
            && (forall q | q in FreePages(bits, total) :: p <= q)
            && TailClear(bits[i := ClearBit(bits[i], b)], total)
            && FreePages(bits[i := ClearBit(bits[i], b)], total) == FreePages(bits, total) - {p}
  {
    var b := TrailingZeros(bits[i]);
    BitBelow(bits[i], 64, b);
    var p := i * 64 + b;
    assert p / 64 == i && p % 64 == b;
    assert FreeAt(bits, p);
    var bits' := bits[i := ClearBit(bits[i], b)];
    forall q: nat | q < |bits| * 64
      ensures FreeAt(bits', q) <==> FreeAt(bits, q) && q != p
      ensures FreeAt(bits, q) ==> p <= q
    {
      ClearAt(bits, i, b, q);
      if FreeAt(bits, q) {
        if q / 64 < i { BitZero(q % 64); }
      }
    }
  }

  lemma ClearAt(bits: seq<u64>, i: nat, b: nat, q: nat)
    requires i < |bits| && b < 64 && q < |bits| * 64
    ensures FreeAt(bits[i := ClearBit(bits[i], b)], q) <==> FreeAt(bits, q) && q != i * 64 + b
  {
    assert q == q / 64 * 64 + q % 64;
  }

  lemma SetAt(bits: seq<u64>, total: nat, p: nat)
    requires TailClear(bits, total) && p < total
    ensures var bits' := bits[p / 64 := SetBit(bits[p / 64], p % 64)];
            && TailClear(bits', total)
            && FreePages(bits', total) == FreePages(bits, total) + {p}
  {
    var bits' := bits[p / 64 := SetBit(bits[p / 64], p % 64)];
    forall q: nat | q < |bits| * 64
      ensures FreeAt(bits', q) <==> FreeAt(bits, q) || q == p
    {
      assert q == q / 64 * 64 + q % 64;
    }
  }

  lemma NoneFree(bits: seq<u64>, total: nat)
    requires |bits| == (total + 63) / 64
    requires forall j | 0 <= j < |bits| :: bits[j] == 0
    ensures FreePages(bits, total) == {}
  {
    forall p: nat | p < total ensures !FreeAt(bits, p) {
      BitZero(p % 64);
    }
  }

  class PagePool {
    const slab: array<i8>
    const pageStride: nat
    const totalPages: nat
    const freeBitmap: array<u64>
    ghost var free: set<nat>  // the pages whose free bit is set

    ghost predicate Valid()
      reads this, freeBitmap
    {
      && slab.Length == pageStride * totalPages
      && TailClear(freeBitmap[..], totalPages)
      && free == FreePages(freeBitmap[..], totalPages)
    }

    constructor (numHeads: nat, headDim: nat, pages: nat)
      ensures Valid() && fresh(slab) && fresh(freeBitmap)
      ensures totalPages == pages && pageStride == RoundUp64(2 * PAGE_TOKENS * numHeads * headDim)
      ensures pageStride == (32 * numHeads * headDim + 63) / 64 * 64
      ensures forall p: nat :: p in free <==> p < pages
      ensures forall a | 0 <= a < slab.Length :: slab[a] == 0
    {
      pageStride := RoundUp64(2 * PAGE_TOKENS * numHeads * headDim);
      totalPages := pages;
      slab := new i8[RoundUp64(2 * PAGE_TOKENS * numHeads * headDim) * pages](_ => 0);
      freeBitmap := new u64[(pages + 63) / 64](_ => 0);
      new;
      var i := 0;
      while i < freeBitmap.Length
        invariant i <= freeBitmap.Length
        invariant forall a | 0 <= a < slab.Length :: slab[a] == 0
        invariant forall j | 0 <= j < i :: freeBitmap[j] == FreshWord(pages, j)
        modifies freeBitmap
      {
        freeBitmap[i] := FreshWord(pages, i);
        i := i + 1;
      }
      FreshBitsAllFree(freeBitmap[..], pages);
      free := FreePages(freeBitmap[..], pages);
    }

    /** Takes the lowest free page, if there is one. */
    method AllocPage() returns (r: Option<nat>)
      requires Valid()
      modifies `free, freeBitmap
      ensures Valid()
      ensures r.None? <==> old(free) == {}
      ensures r.None? ==> freeBitmap[..] == old(freeBitmap[..])
      ensures r.Some? ==> r.value < totalPages && r.value in old(free) && forall p | p in old(free) :: r.value <= p
      ensures r.Some? ==> free == old(free) - {r.value}
    {
      ghost var bits := freeBitmap[..];
      var wordIdx := 0;
      while wordIdx < freeBitmap.Length
        invariant wordIdx <= freeBitmap.Length
        invariant freeBitmap[..] == bits
        invariant forall j | 0 <= j < wordIdx :: bits[j] == 0
      {
        var word := freeBitmap[wordIdx];
        if word != 0 {
          ClearLowest(bits, totalPages, wordIdx);
          var bitIdx := TrailingZeros(word);
          freeBitmap[wordIdx] := ClearBit(word, bitIdx);
          assert freeBitmap[..] == bits[wordIdx := ClearBit(word, bitIdx)];
          var page := wordIdx * 64 + bitIdx;
          free := free - {page};
          if page < totalPages {
            return Some(page);
          }
          assert false;
          return None;
        }
        wordIdx := wordIdx + 1;
      }
      NoneFree(bits, totalPages);
      return None;
    }

    method FreePage(page: nat)
      requires Valid() && page < totalPages
      modifies `free, freeBitmap
      ensures Valid()
      ensures free == old(free) + {page}
    {
      SetAt(freeBitmap[..], totalPages, page);
      ghost var bits := freeBitmap[..];
      freeBitmap[page / 64] := SetBit(freeBitmap[page / 64], page % 64);
      assert freeBitmap[..] == bits[page / 64 := SetBit(bits[page / 64], page % 64)];
      free := free + {page};
    }
  }
}
