/** Where the K and V vectors of a token lie in the slab: for the engine, which writes them, and for the
    attention kernel, which reads them with its own head count and its own idea of where V starts. */
module KvLayout {
  import opened Arithmetic
  import opened PagePools

  /** What the writer knows: K/V heads, their dimension, bytes per page, pages. */
  datatype Geometry = Geometry(headsKv: nat, headDim: nat, pageStride: nat, pages: nat) {
    /** Bytes of K, or of V, for one token. */
    function Width(): nat {
      headsKv * headDim
    }

    /** As the pool is built. */
    predicate Valid() {
      headsKv > 0 && headDim > 0 && pageStride == RoundUp64(2 * PAGE_TOKENS * Width())
    }

    function SlabLen(): nat {
      pageStride * pages
    }
  }

  /** The writer's address of byte `j` of the K vector (or the V vector) of a token. */
  function WriteAddr(g: Geometry, page: nat, isV: bool, slot: nat, j: nat): nat {
    page * g.pageStride + (if isV then g.pageStride / 2 else 0) + slot * g.Width() + j
  }

  /** The reader's address of element `d` of head `head`, for `heads` heads. */
  function ReadAddr(g: Geometry, heads: nat, page: nat, isV: bool, slot: nat, head: nat, d: nat): nat {
    page * g.pageStride + (if isV then PAGE_TOKENS * (heads * g.headDim) else 0)
      + slot * (heads * g.headDim) + head * g.headDim + d
  }

  /** Element `d` of head `head` within a token's vector. */
  function HeadOffset(g: Geometry, head: nat, d: nat): nat {
    head * g.headDim + d
  }

  // ---------- arithmetic ----------

  lemma {:induction false} StrideFacts(g: Geometry)
    requires g.Valid()
    ensures g.pageStride % 64 == 0
    ensures g.pageStride / 2 >= PAGE_TOKENS * g.Width()
    ensures g.pageStride / 2 == PAGE_TOKENS * g.Width() <==> g.Width() % 2 == 0
  {
    var w := g.Width();
    if w % 2 == 0 {
      assert 2 * PAGE_TOKENS * w == 64 * (w / 2);
    } else {
      assert 2 * PAGE_TOKENS * w == 64 * (w / 2) + 32;
    }
  }

  /** A slot and a byte within it fit in the half of a page. */
  lemma {:induction false} SlotFits(w: nat, slot: nat, j: nat)
    requires slot < PAGE_TOKENS && j < w
    ensures slot * w + j < PAGE_TOKENS * w
  {
    MulLe(slot + 1, PAGE_TOKENS, w);
    MulAdd(slot, 1, w);
  }

  // ---------- the writer ----------

  /** The writer stays inside the page. */
  lemma {:induction false} WriteInPage(g: Geometry, page: nat, isV: bool, slot: nat, j: nat)
    requires g.Valid() && slot < PAGE_TOKENS && j < g.Width()
    ensures page * g.pageStride <= WriteAddr(g, page, isV, slot, j) < page * g.pageStride + g.pageStride
  {
    OffsetFits(g, isV, slot, j);
  }

  /** A page below `pages` is inside the slab. */
  lemma {:induction false} PageInSlab(g: Geometry, page: nat)
    requires page < g.pages
    ensures page * g.pageStride + g.pageStride <= g.SlabLen()
  {
    MulLe(page + 1, g.pages, g.pageStride);
    MulAdd(page, 1, g.pageStride);
  }

  lemma {:induction false} HalfAndRest(h: nat, v1: bool, x1: nat, v2: bool, x2: nat)
    requires x1 < h && x2 < h
    requires (if v1 then h else 0) + x1 == (if v2 then h else 0) + x2
    ensures v1 == v2 && x1 == x2
  {
  }

  /** Byte `j` of slot `slot`, from the start of the section. */
  function SlotByte(w: nat, slot: nat, j: nat): nat {
    slot * w + j
  }

  /** The address within the page. */
  function Offset(g: Geometry, isV: bool, slot: nat, j: nat): nat {
    (if isV then g.pageStride / 2 else 0) + SlotByte(g.Width(), slot, j)
  }

  lemma {:induction false} OffsetFits(g: Geometry, isV: bool, slot: nat, j: nat)
    requires g.Valid() && slot < PAGE_TOKENS && j < g.Width()
    ensures Offset(g, isV, slot, j) < g.pageStride
    ensures SlotByte(g.Width(), slot, j) < g.pageStride / 2
  {
    StrideFacts(g);
    SlotFits(g.Width(), slot, j);
  }

  lemma {:induction false} SlotByteInjective(w: nat, s1: nat, j1: nat, s2: nat, j2: nat)
    requires j1 < w && j2 < w && SlotByte(w, s1, j1) == SlotByte(w, s2, j2)
    ensures s1 == s2 && j1 == j2
  {
    Digits(s1, j1, s2, j2, w);
  }

  lemma {:induction false} OffsetInjective(h: nat, w: nat, v1: bool, s1: nat, j1: nat, v2: bool, s2: nat, j2: nat)
    requires j1 < w && j2 < w && SlotByte(w, s1, j1) < h && SlotByte(w, s2, j2) < h
    requires (if v1 then h else 0) + SlotByte(w, s1, j1) == (if v2 then h else 0) + SlotByte(w, s2, j2)
    ensures v1 == v2 && s1 == s2 && j1 == j2
  {
    HalfAndRest(h, v1, SlotByte(w, s1, j1), v2, SlotByte(w, s2, j2));
    SlotByteInjective(w, s1, j1, s2, j2);
  }

  lemma {:induction false} AddrSplits(g: Geometry, page: nat, isV: bool, slot: nat, j: nat)
    ensures WriteAddr(g, page, isV, slot, j) == page * g.pageStride + Offset(g, isV, slot, j)
  {
  }

  /** No two cells (page, K or V, slot, byte) share an address, whatever the head count and dimension. */
  lemma {:induction false} WriteInjective(g: Geometry, p1: nat, v1: bool, s1: nat, j1: nat, p2: nat, v2: bool, s2: nat,
                                          j2: nat)
    requires g.Valid()
    requires s1 < PAGE_TOKENS && s2 < PAGE_TOKENS && j1 < g.Width() && j2 < g.Width()
    requires WriteAddr(g, p1, v1, s1, j1) == WriteAddr(g, p2, v2, s2, j2)
    ensures p1 == p2 && v1 == v2 && s1 == s2 && j1 == j2
  {
    OffsetFits(g, v1, s1, j1);
    OffsetFits(g, v2, s2, j2);
    AddrSplits(g, p1, v1, s1, j1);
    AddrSplits(g, p2, v2, s2, j2);
    Digits(p1, Offset(g, v1, s1, j1), p2, Offset(g, v2, s2, j2), g.pageStride);
    OffsetInjective(g.pageStride / 2, g.Width(), v1, s1, j1, v2, s2, j2);
  }

  /** Heads and dimensions name each byte of a token once. */
  lemma {:induction false} HeadOffsetInjective(g: Geometry, h1: nat, d1: nat, h2: nat, d2: nat)
    requires d1 < g.headDim && d2 < g.headDim && HeadOffset(g, h1, d1) == HeadOffset(g, h2, d2)
    ensures h1 == h2 && d1 == d2
  {
    Digits(h1, d1, h2, d2, g.headDim);
  }

  lemma {:induction false} HeadOffsetFits(g: Geometry, head: nat, d: nat)
    requires head < g.headsKv && d < g.headDim
    ensures HeadOffset(g, head, d) < g.Width()
  {
    MulLe(head + 1, g.headsKv, g.headDim);
    MulAdd(head, 1, g.headDim);
  }

  // ---------- the reader ----------

  /** Reader and writer mean the same cell. */
  ghost predicate Agree(g: Geometry, heads: nat, page: nat, slot: nat, head: nat, d: nat) {
    && ReadAddr(g, heads, page, false, slot, head, d) == WriteAddr(g, page, false, slot, HeadOffset(g, head, d))
    && ReadAddr(g, heads, page, true, slot, head, d) == WriteAddr(g, page, true, slot, HeadOffset(g, head, d))
  }

  ghost predicate AgreeEverywhere(g: Geometry, heads: nat) {
    forall page: nat, slot: nat, head: nat, d: nat |
      slot < PAGE_TOKENS && head < g.headsKv && d < g.headDim :: Agree(g, heads, page, slot, head, d)
  }

  predicate Compatible(g: Geometry, heads: nat) {
    heads == g.headsKv && g.Width() % 2 == 0
  }

  lemma {:induction false} CompatibleAgrees(g: Geometry, heads: nat, page: nat, slot: nat, head: nat, d: nat)
    requires g.Valid() && Compatible(g, heads)
    ensures Agree(g, heads, page, slot, head, d)
  {
    StrideFacts(g);
  }

  /** Attention reads back what the engine wrote exactly when it is given the K/V head count and a token's
      vector has an even number of bytes. */
  lemma {:induction false} AgreeIffCompatible(g: Geometry, heads: nat)
    requires g.Valid()
    ensures AgreeEverywhere(g, heads) <==> Compatible(g, heads)
  {
    if Compatible(g, heads) {
      forall page: nat, slot: nat, head: nat, d: nat
        | slot < PAGE_TOKENS && head < g.headsKv && d < g.headDim
        ensures Agree(g, heads, page, slot, head, d)
      {
        CompatibleAgrees(g, heads, page, slot, head, d);
      }
    } else {
      StrideFacts(g);
      assert HeadOffset(g, 0, 0) == 0;
      if heads != g.headsKv {
        if heads * g.headDim == g.headsKv * g.headDim {
          Digits(heads, 0, g.headsKv, 0, g.headDim);
        }
        assert !Agree(g, heads, 0, 1, 0, 0);
      } else {
        assert !Agree(g, heads, 0, 0, 0, 0);
      }
    }
  }

  /** The reader stays inside the page, for every slot, head and dimension. */
  ghost predicate ReadsInPage(g: Geometry, heads: nat) {
    forall page: nat, isV: bool, slot: nat, head: nat, d: nat |
      slot < PAGE_TOKENS && head < heads && d < g.headDim ::
        ReadAddr(g, heads, page, isV, slot, head, d) < page * g.pageStride + g.pageStride
  }

  lemma {:induction false} ReadBelow(g: Geometry, heads: nat, page: nat, isV: bool, slot: nat, head: nat, d: nat)
    requires slot < PAGE_TOKENS && head < heads && d < g.headDim
    ensures ReadAddr(g, heads, page, isV, slot, head, d) < page * g.pageStride + 2 * PAGE_TOKENS * (heads * g.headDim)
  {
    MulLe(head + 1, heads, g.headDim);
    MulAdd(head, 1, g.headDim);
    SlotFits(heads * g.headDim, slot, head * g.headDim + d);
  }

  /** Attention never leaves the pages of its block table exactly when both sections for its head count fit
      in a page. With more query heads than K/V heads they do not. */
  lemma {:induction false} ReadsInPageIff(g: Geometry, heads: nat)
    requires g.Valid() && heads > 0
    ensures ReadsInPage(g, heads) <==> 2 * PAGE_TOKENS * (heads * g.headDim) <= g.pageStride
  {
    if 2 * PAGE_TOKENS * (heads * g.headDim) <= g.pageStride {
      forall page: nat, isV: bool, slot: nat, head: nat, d: nat
        | slot < PAGE_TOKENS && head < heads && d < g.headDim
        ensures ReadAddr(g, heads, page, isV, slot, head, d) < page * g.pageStride + g.pageStride
      {
        ReadBelow(g, heads, page, isV, slot, head, d);
      }
    } else {
      MulAdd(heads - 1, 1, g.headDim);
      var r := heads * g.headDim;
      assert ReadAddr(g, heads, 0, true, 15, heads - 1, g.headDim - 1) == 16 * r + 15 * r + (r - 1);
    }
  }

  /** More query heads than K/V heads: reads leave the page, except that with one-byte heads a page of an odd
      number of them is padded by one more. */
  lemma {:induction false} GroupedHeadsLeavePage(g: Geometry, heads: nat)
    requires g.Valid() && heads > g.headsKv
    ensures !ReadsInPage(g, heads) <==> g.headDim > 1 || heads > g.headsKv + g.headsKv % 2
  {
    ReadsInPageIff(g, heads);
    if g.headDim == 1 {
      NarrowHeads(heads, g.headsKv);
    } else {
      MulLe(g.headsKv + 1, heads, g.headDim);
      MulAdd(g.headsKv, 1, g.headDim);
      WideHeads(heads * g.headDim, g.Width());
    }
  }

  lemma {:induction false} NarrowHeads(heads: nat, headsKv: nat)
    requires heads > headsKv
    ensures 2 * PAGE_TOKENS * heads <= RoundUp64(2 * PAGE_TOKENS * headsKv) <==> heads <= headsKv + headsKv % 2
  {
  }

  lemma {:induction false} WideHeads(width: nat, widthKv: nat)
    requires width >= widthKv + 2
    ensures 2 * PAGE_TOKENS * width > RoundUp64(2 * PAGE_TOKENS * widthKv)
  {
  }
}
