/** Attention over paged memory: what the kernel reads for a resident sequence, and what other sequences can do
    to it. */
module AttentionMemory {
  import opened Arithmetic
  import opened PagePools
  import opened Conservation
  import opened KvLayout
  import opened PagedMemory
  import opened FlashAttention

  /** The cache of one head of sequence `i`, as it is handed to attention. */
  function CacheOf(g: Geometry, m: Memory, i: nat, heads: nat, head: nat): Cache
    requires i < |m.s.active|
  {
    Cache(g, m.slab, m.s.active[i].blockTable, heads, head)
  }

  /** Positions 0 to `numTokens`, all that attention is asked for, are in the slab, for any head count whose two
      sections fit in a page. */
  lemma {:induction false} AllReadable(g: Geometry, m: Memory, i: nat, heads: nat, head: nat, n: nat)
    requires MemoryOk(g, m) && i < |m.s.active| && HasRoom(m.s.active[i]) && n <= m.s.active[i].numTokens + 1
    requires head < heads && 2 * PAGE_TOKENS * (heads * g.headDim) <= g.pageStride
    ensures Readable(CacheOf(g, m, i, heads, head), n)
  {
    var c := CacheOf(g, m, i, heads, head);
    forall p: nat | p < n ensures ReadableAt(c, p) {
      PageKnown(g, m, i, p);
      forall isV: bool, d: nat | d < g.headDim ensures InSlab(c, p, isV, d) {
        var page := c.blockTable[p / PAGE_TOKENS];
        ReadBelow(g, heads, page, isV, p % PAGE_TOKENS, head, d);
        PageInSlab(g, page);
      }
    }
  }

  lemma {:induction false} PageKnown(g: Geometry, m: Memory, i: nat, p: nat)
    requires MemoryOk(g, m) && i < |m.s.active| && HasRoom(m.s.active[i]) && p <= m.s.active[i].numTokens
    ensures p / PAGE_TOKENS < |m.s.active[i].blockTable| && m.s.active[i].PhysicalPage(p) < g.pages
  {
    var q := m.s.active[i];
    assert IsResident(q);
    BlockBelow(p, q.numTokens);
    Exclusive(m.s, g.pages, i, q.PhysicalPage(p));
  }

  lemma {:induction false} BlockBelow(p: nat, n: nat)
    requires p <= n
    ensures p / PAGE_TOKENS <= n / PAGE_TOKENS
  {
  }

  /** With the writer's head count both sections fit in a page. */
  lemma {:induction false} SectionsFit(g: Geometry, heads: nat)
    requires g.Valid() && Compatible(g, heads)
    ensures 2 * PAGE_TOKENS * (heads * g.headDim) <= g.pageStride
  {
    StrideFacts(g);
  }

  /** At every position the sequence has written since its admission, attention sees exactly the codes written. */
  lemma {:induction false} AttentionSeesLog(g: Geometry, m: Memory, i: nat, heads: nat, head: nat, p: nat, isV: bool,
                                            d: nat)
    requires MemoryOk(g, m) && Compatible(g, heads) && head < heads && d < g.headDim
    requires i < |m.s.active| && HasRoom(m.s.active[i]) && p in LogOf(m.logs, m.s.active[i])
    ensures ReadableAt(CacheOf(g, m, i, heads, head), p)
    ensures var t := LogOf(m.logs, m.s.active[i])[p];
            && |t.k| == |t.v| == g.Width() && HeadOffset(g, head, d) < g.Width()
            && Element(CacheOf(g, m, i, heads, head), p, isV, d)
              == (if isV then t.v else t.k)[HeadOffset(g, head, d)] as real
  {
    var q := m.s.active[i];
    assert RemembersAll(g, m.slab, q, LogOf(m.logs, q));
    assert Remembers(g, m.slab, q, p, LogOf(m.logs, q)[p]);
    SectionsFit(g, heads);
    AllReadable(g, m, i, heads, head, q.numTokens + 1);
    assert ReadableAt(CacheOf(g, m, i, heads, head), p);
    ReadsLogged(g, heads, m, i, p, isV, head, d);
  }

  /** `x` is `scale` times the sum of the products of `q` and the codes from `base` on. */
  ghost predicate IsHeadScore(q: seq<real>, codes: seq<i8>, base: nat, scale: real, x: real) {
    exists xs: seq<real> ::
      && |xs| == |q| && x == scale * SumReals(xs)
      && forall d: nat | d < |q| :: base + d < |codes| && xs[d] == q[d] * codes[base + d] as real
  }

  /** `row` has the codes from `base` on. */
  ghost predicate IsHeadValue(row: seq<real>, codes: seq<i8>, base: nat) {
    forall d: nat | d < |row| :: base + d < |codes| && row[d] == codes[base + d] as real
  }

  /** Attention sees `t` at position `p`, its head beginning at `base` in each vector. */
  ghost predicate Sees(c: Cache, p: nat, t: Token, base: nat) {
    ReadableAt(c, p) && forall isV: bool, d: nat | d < c.g.headDim :: SeesCode(c, p, isV, d, t, base)
  }

  ghost predicate SeesCode(c: Cache, p: nat, isV: bool, d: nat, t: Token, base: nat) {
    && p / PAGE_TOKENS < |c.blockTable| && InSlab(c, p, isV, d)
    && base + d < |t.k| == |t.v|
    && Element(c, p, isV, d) == (if isV then t.v else t.k)[base + d] as real
  }

  lemma {:induction false} LogSeenAt(g: Geometry, m: Memory, i: nat, heads: nat, head: nat, p: nat, base: nat,
                                     isV: bool, d: nat)
    requires MemoryOk(g, m) && Compatible(g, heads) && head < heads && d < g.headDim
    requires HeadOffset(g, head, d) == base + d
    requires i < |m.s.active| && HasRoom(m.s.active[i]) && p in LogOf(m.logs, m.s.active[i])
    ensures SeesCode(CacheOf(g, m, i, heads, head), p, isV, d, LogOf(m.logs, m.s.active[i])[p], base)
  {
    AttentionSeesLog(g, m, i, heads, head, p, isV, d);
    assert InSlab(CacheOf(g, m, i, heads, head), p, isV, d);
  }

  lemma {:induction false} LogSeen(g: Geometry, m: Memory, i: nat, heads: nat, head: nat, p: nat, base: nat)
    requires MemoryOk(g, m) && Compatible(g, heads) && head < heads && base == head * g.headDim
    requires i < |m.s.active| && HasRoom(m.s.active[i]) && p in LogOf(m.logs, m.s.active[i])
    ensures Sees(CacheOf(g, m, i, heads, head), p, LogOf(m.logs, m.s.active[i])[p], base)
  {
    var c, t := CacheOf(g, m, i, heads, head), LogOf(m.logs, m.s.active[i])[p];
    assert g.Valid();
    AttentionSeesLog(g, m, i, heads, head, p, false, 0);
    forall isV: bool, d: nat | d < g.headDim ensures SeesCode(c, p, isV, d, t, base) {
      LogSeenAt(g, m, i, heads, head, p, base, isV, d);
    }
  }

  lemma {:induction false} SeenScore(c: Cache, p: nat, t: Token, base: nat, q: seq<real>, scale: real)
    requires Sees(c, p, t, base) && |q| == c.g.headDim
    ensures IsHeadScore(q, t.k, base, scale, ScoreOf(c, q, p, scale))
  {
    var xs := Products(c, q, p);
    forall d: nat | d < |q| ensures base + d < |t.k| && xs[d] == q[d] * t.k[base + d] as real {
      assert SeesCode(c, p, false, d, t, base);
    }
    DotIsSum(c, q, p, |q|);
    assert xs[..|q|] == xs;
    assert ScoreOf(c, q, p, scale) == scale * SumReals(xs);
  }

  lemma {:induction false} SeenValue(c: Cache, p: nat, t: Token, base: nat)
    requires Sees(c, p, t, base)
    ensures IsHeadValue(ValueRow(c, p), t.v, base)
  {
    forall d: nat | d < c.g.headDim ensures base + d < |t.v| && ValueRow(c, p)[d] == t.v[base + d] as real {
      assert SeesCode(c, p, true, d, t, base);
    }
  }

  /** At those positions the score is the scaled dot product of the query with the K codes written, and the values
      are the V codes written. */
  lemma {:induction false} ScoreSeesLog(g: Geometry, m: Memory, i: nat, heads: nat, head: nat, p: nat, q: seq<real>,
                                        scale: real, base: nat)
    requires MemoryOk(g, m) && Compatible(g, heads) && head < heads && |q| == g.headDim && base == head * g.headDim
    requires i < |m.s.active| && HasRoom(m.s.active[i]) && p in LogOf(m.logs, m.s.active[i])
    ensures ReadableAt(CacheOf(g, m, i, heads, head), p)
    ensures var c, t := CacheOf(g, m, i, heads, head), LogOf(m.logs, m.s.active[i])[p];
            IsHeadScore(q, t.k, base, scale, ScoreOf(c, q, p, scale)) && IsHeadValue(ValueRow(c, p), t.v, base)
  {
    var c, t := CacheOf(g, m, i, heads, head), LogOf(m.logs, m.s.active[i])[p];
    LogSeen(g, m, i, heads, head, p, base);
    SeenScore(c, p, t, base, q, scale);
    SeenValue(c, p, t, base);
  }

  // ---------- other sequences ----------

  /** A write by sequence `j` does not change what sequence `i` reads at any position, written or not. */
  lemma {:induction false} WriteElsewhereUnseen(g: Geometry, m: Memory, i: nat, j: nat, t: Token, heads: nat, head: nat,
                                                p: nat, isV: bool, d: nat)
    requires MemoryOk(g, m) && Compatible(g, heads) && head < heads && d < g.headDim
    requires i < |m.s.active| && HasRoom(m.s.active[i]) && p <= m.s.active[i].numTokens
    requires CanWrite(g, m, j, t) && i != j
    ensures ReadableAt(CacheOf(g, m, i, heads, head), p)
        && ReadableAt(CacheOf(g, Writing(g, m, j, t), i, heads, head), p)
    ensures Element(CacheOf(g, Writing(g, m, j, t), i, heads, head), p, isV, d)
        == Element(CacheOf(g, m, i, heads, head), p, isV, d)
  {
    var m' := Writing(g, m, j, t);
    var q, r := m.s.active[i], m.s.active[j];
    var at := r.numTokens;
    WriteKeeps(g, m, j, t);
    SectionsFit(g, heads);
    AllReadable(g, m, i, heads, head, p + 1);
    AllReadable(g, m', i, heads, head, p + 1);
    assert ReadableAt(CacheOf(g, m, i, heads, head), p) && ReadableAt(CacheOf(g, m', i, heads, head), p);
    PageKnown(g, m, i, p);
    var page, slot, b := q.PhysicalPage(p), q.SlotInPage(p), HeadOffset(g, head, d);
    HeadOffsetFits(g, head, d);
    CompatibleAgrees(g, heads, page, slot, head, d);
    if r.PhysicalPage(at) == page && r.SlotInPage(at) == slot {
      PlacesDiffer(m.s, g.pages, j, at, i, p);
    }
    WriteTokenCell(g, m.slab, r.PhysicalPage(at), r.SlotInPage(at), t, page, isV, slot, b);
  }

  /** Two caches hold the same at position `p`. */
  ghost predicate SameAt(c: Cache, c': Cache, p: nat) {
    && c.g.headDim == c'.g.headDim && ReadableAt(c, p) && ReadableAt(c', p)
    && forall isV: bool, d: nat | d < c.g.headDim :: SameElement(c, c', p, isV, d)
  }

  ghost predicate SameElement(c: Cache, c': Cache, p: nat, isV: bool, d: nat)
    requires ReadableAt(c, p) && ReadableAt(c', p) && d < c.g.headDim && d < c'.g.headDim
  {
    assert InSlab(c, p, isV, d) && InSlab(c', p, isV, d);
    Element(c', p, isV, d) == Element(c, p, isV, d)
  }

  lemma {:induction false} SameKeys(c: Cache, c': Cache, q: seq<real>, p: nat, n: nat)
    requires SameAt(c, c', p) && n <= c.g.headDim == |q|
    ensures DotKey(c', q, p, n) == DotKey(c, q, p, n)
  {
    if n > 0 {
      SameKeys(c, c', q, p, n - 1);
      assert SameElement(c, c', p, false, n - 1);
    }
  }

  lemma {:induction false} SameValues(c: Cache, c': Cache, p: nat)
    requires SameAt(c, c', p)
    ensures ValueRow(c', p) == ValueRow(c, p)
  {
    forall d: nat | d < c.g.headDim ensures ValueRow(c', p)[d] == ValueRow(c, p)[d] {
      assert SameElement(c, c', p, true, d);
    }
  }

  /** So it changes neither the scores nor the values of another sequence's attention. */
  lemma {:induction false} AttentionUndisturbed(g: Geometry, m: Memory, i: nat, j: nat, t: Token, heads: nat, head: nat,
                                                q: seq<real>, scale: real, n: nat)
    requires MemoryOk(g, m) && Compatible(g, heads) && head < heads && |q| == g.headDim
    requires i < |m.s.active| && HasRoom(m.s.active[i]) && n <= m.s.active[i].numTokens + 1
    requires CanWrite(g, m, j, t) && i != j
    ensures var c, c' := CacheOf(g, m, i, heads, head), CacheOf(g, Writing(g, m, j, t), i, heads, head);
            && Readable(c, n) && Readable(c', n)
            && ScoresOf(c', q, scale, n) == ScoresOf(c, q, scale, n)
            && ValueRows(c', n) == ValueRows(c, n)
  {
    var m' := Writing(g, m, j, t);
    var c, c' := CacheOf(g, m, i, heads, head), CacheOf(g, m', i, heads, head);
    WriteKeeps(g, m, j, t);
    SectionsFit(g, heads);
    AllReadable(g, m, i, heads, head, n);
    AllReadable(g, m', i, heads, head, n);
    forall p: nat | p < n
      ensures ReadableAt(c, p) && ReadableAt(c', p)
      ensures ScoreOf(c', q, p, scale) == ScoreOf(c, q, p, scale) && ValueRow(c', p) == ValueRow(c, p)
    {
      SamePosition(g, m, i, j, t, heads, head, q, p);
    }
    assert ScoresOf(c', q, scale, n) == ScoresOf(c, q, scale, n);
    assert ValueRows(c', n) == ValueRows(c, n);
  }

  lemma {:induction false} SamePosition(g: Geometry, m: Memory, i: nat, j: nat, t: Token, heads: nat, head: nat,
                                        q: seq<real>, p: nat)
    requires MemoryOk(g, m) && Compatible(g, heads) && head < heads && |q| == g.headDim
    requires i < |m.s.active| && HasRoom(m.s.active[i]) && p <= m.s.active[i].numTokens
    requires CanWrite(g, m, j, t) && i != j
    requires ReadableAt(CacheOf(g, m, i, heads, head), p)
        && ReadableAt(CacheOf(g, Writing(g, m, j, t), i, heads, head), p)
    ensures var c, c' := CacheOf(g, m, i, heads, head), CacheOf(g, Writing(g, m, j, t), i, heads, head);
            DotKey(c', q, p, g.headDim) == DotKey(c, q, p, g.headDim) && ValueRow(c', p) == ValueRow(c, p)
  {
    var c, c' := CacheOf(g, m, i, heads, head), CacheOf(g, Writing(g, m, j, t), i, heads, head);
    forall isV: bool, d: nat | d < g.headDim ensures SameElement(c, c', p, isV, d) {
      WriteElsewhereUnseen(g, m, i, j, t, heads, head, p, isV, d);
    }
    SameKeys(c, c', q, p, g.headDim);
    SameValues(c, c', p);
  }
}
