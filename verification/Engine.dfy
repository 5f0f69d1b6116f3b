/** The engine: one pool, one scheduler, and a step that promotes, stores K and V for every layer, chooses a
    token for every running sequence, appends, and cleans up. What the model computes is an oracle. */
module Engine {
  import opened Arithmetic
  import opened PagePools
  import opened Batching
  import opened Sampling
  import opened Conservation
  import opened Serving
  import opened Requests
  import opened KvLayout
  import opened PagedMemory
  import opened Quantiser

  /** What the transformer computes in one step: the K and V vectors of the i-th running sequence in each
      layer, and its logits. */
  datatype Oracle = Oracle(k: (nat, nat) -> seq<real>, v: (nat, nat) -> seq<real>, logits: Logits)

  ghost predicate Shaped(o: Oracle, g: Geometry) {
    forall layer: nat, i: nat :: |o.k(layer, i)| == g.Width() && |o.v(layer, i)| == g.Width()
  }

  function TokenAt(o: Oracle, layer: nat, i: nat): Token {
    Token(QuantisedAll(o.k(layer, i)), QuantisedAll(o.v(layer, i)))
  }

  /** Every running sequence's next position is on a page of the pool. */
  ghost predicate Placed(g: Geometry, active: seq<SequenceState>) {
    forall i | 0 <= i < |active| :: PlacedAt(g, active[i])
  }

  ghost predicate PlacedAt(g: Geometry, q: SequenceState) {
    HasRoom(q) && q.PhysicalPage(q.numTokens) < g.pages
  }

  /** The slab after the first `n` sequences have stored their tokens of one layer. */
  ghost function LayerSlab(g: Geometry, slab: seq<i8>, active: seq<SequenceState>, o: Oracle, layer: nat,
                           n: nat): (r: seq<i8>)
    requires g.Valid() && |slab| == g.SlabLen() && Placed(g, active) && Shaped(o, g) && n <= |active|
    ensures |r| == |slab|
    decreases n
  {
    if n == 0 then slab
    else
      var q := active[n - 1];
      WriteToken(g, LayerSlab(g, slab, active, o, layer, n - 1), q.PhysicalPage(q.numTokens),
        q.SlotInPage(q.numTokens), TokenAt(o, layer, n - 1))
  }

  /** The slab after `layers` layers; each overwrites the one before. */
  ghost function LayersSlab(g: Geometry, slab: seq<i8>, active: seq<SequenceState>, o: Oracle,
                            layers: nat): (r: seq<i8>)
    requires g.Valid() && |slab| == g.SlabLen() && Placed(g, active) && Shaped(o, g)
    ensures |r| == |slab|
    decreases layers
  {
    if layers == 0 then slab
    else LayerSlab(g, LayersSlab(g, slab, active, o, layers - 1), active, o, layers - 1, |active|)
  }

  /** With nothing running, nothing is stored. */
  ghost function StepSlab(g: Geometry, slab: seq<i8>, active: seq<SequenceState>, o: Oracle, layers: nat): (r: seq<i8>)
    requires g.Valid() && |slab| == g.SlabLen() && Placed(g, active) && Shaped(o, g)
    ensures |r| == |slab|
  {
    if active == [] then slab else LayersSlab(g, slab, active, o, layers)
  }

  lemma {:induction false} CoveredIsPlaced(g: Geometry, s: State)
    requires Conservation.WellFormed(s, g.pages) && Covered(s)
    ensures Placed(g, s.active)
  {
    forall i | 0 <= i < |s.active| ensures PlacedAt(g, s.active[i]) {
      var q := s.active[i];
      assert IsResident(q) && HasRoom(q);
      Exclusive(s, g.pages, i, q.physicalPages[q.numTokens / PAGE_TOKENS]);
    }
  }

  // ---------- what the slab holds, byte by byte ----------

  /** `codes` are the values of `x`, one signed byte each, with one scale for all. */
  ghost predicate AreCodesOf(codes: seq<i8>, x: seq<real>) {
    && |codes| == |x|
    && exists s :: IsScaleOf(x, s) && forall j | 0 <= j < |x| :: IsCodeOf(x[j], s, codes[j])
  }

  ghost predicate IsTokenOf(t: Token, k: seq<real>, v: seq<real>) {
    AreCodesOf(t.k, k) && AreCodesOf(t.v, v)
  }

  lemma {:induction false} QuantisedCodes(x: seq<real>)
    ensures AreCodesOf(QuantisedAll(x), x)
  {
    var s := Absmax(x);
    AbsmaxIsScale(x);
    forall j | 0 <= j < |x| ensures IsCodeOf(x[j], s, QuantisedAll(x)[j]) {
      QuantisedMeans(x, j);
    }
  }

  /** A token has the codes of the K vector first and of the V vector second. */
  lemma {:induction false} TokenMeans(o: Oracle, layer: nat, i: nat)
    ensures IsTokenOf(TokenAt(o, layer, i), o.k(layer, i), o.v(layer, i))
  {
    QuantisedCodes(o.k(layer, i));
    QuantisedCodes(o.v(layer, i));
  }

  /** From `base` on the slab holds the codes of `x`. */
  ghost predicate HoldsCodes(slab: seq<i8>, base: nat, x: seq<real>) {
    base + |x| <= |slab| && AreCodesOf(slab[base..base + |x|], x)
  }

  /** The slab holds K and V of `q` at its position: the page in the block table for every 16 positions, 16 tokens of
      K from its start and 16 of V from its middle, and in each the heads one after another. */
  ghost predicate HoldsVectors(g: Geometry, slab: seq<i8>, q: SequenceState, k: seq<real>, v: seq<real>) {
    && q.numTokens / 16 < |q.blockTable|
    && var base := q.blockTable[q.numTokens / 16] * g.pageStride + q.numTokens % 16 * (g.headsKv * g.headDim);
       HoldsCodes(slab, base, k) && HoldsCodes(slab, base + g.pageStride / 2, v)
  }

  /** Every sequence of the batch finds its vectors of one layer. */
  ghost predicate HoldsLayer(g: Geometry, slab: seq<i8>, active: seq<SequenceState>, o: Oracle, layer: nat) {
    forall i | 0 <= i < |active| :: HoldsVectors(g, slab, active[i], o.k(layer, i), o.v(layer, i))
  }

  /** The slab holds `t` at the current position of `q`. */
  ghost predicate HeldAt(g: Geometry, slab: seq<i8>, q: SequenceState, t: Token) {
    && g.Valid() && |slab| == g.SlabLen() && PlacedAt(g, q) && FitsToken(g, t)
    && Holds(g, slab, q.PhysicalPage(q.numTokens), q.SlotInPage(q.numTokens), t)
  }

  lemma {:induction false} SectionHeld(g: Geometry, slab: seq<i8>, page: nat, slot: nat, t: Token, isV: bool)
    requires g.Valid() && |slab| == g.SlabLen() && page < g.pages && slot < PAGE_TOKENS && FitsToken(g, t)
    requires Holds(g, slab, page, slot, t)
    ensures WriteAddr(g, page, isV, slot, 0) + g.Width() <= |slab|
    ensures slab[WriteAddr(g, page, isV, slot, 0)..WriteAddr(g, page, isV, slot, 0) + g.Width()] == if isV then t.v
        else t.k
  {
    var base := WriteAddr(g, page, isV, slot, 0);
    SectionInSlab(g, page, isV, slot);
    forall j: nat | j < g.Width() ensures slab[base + j] == if isV then t.v[j] else t.k[j] {
      assert Cell(g, slab, page, isV, slot, j) == if isV then t.v[j] else t.k[j];
      assert WriteAddr(g, page, isV, slot, j) == base + j;
    }
  }

  lemma {:induction false} SectionAt(g: Geometry, q: SequenceState, isV: bool)
    requires g.Valid() && PlacedAt(g, q)
    ensures q.numTokens / 16 < |q.blockTable|
    ensures WriteAddr(g, q.PhysicalPage(q.numTokens), isV, q.SlotInPage(q.numTokens), 0)
         == q.blockTable[q.numTokens / 16] * g.pageStride + q.numTokens % 16 * (g.headsKv * g.headDim)
            + if isV then g.pageStride / 2 else 0
  {
  }

  lemma {:induction false} SectionMeans(g: Geometry, slab: seq<i8>, q: SequenceState, t: Token, isV: bool, x: seq<real>)
    requires HeldAt(g, slab, q, t) && |x| == g.Width() && AreCodesOf(if isV then t.v else t.k, x)
    ensures HoldsCodes(slab, WriteAddr(g, q.PhysicalPage(q.numTokens), isV, q.SlotInPage(q.numTokens), 0), x)
  {
    SectionHeld(g, slab, q.PhysicalPage(q.numTokens), q.SlotInPage(q.numTokens), t, isV);
  }

  lemma {:induction false} HeldMeans(g: Geometry, slab: seq<i8>, q: SequenceState, t: Token, k: seq<real>, v: seq<real>)
    requires HeldAt(g, slab, q, t) && |k| == |v| == g.Width() && IsTokenOf(t, k, v)
    ensures HoldsVectors(g, slab, q, k, v)
  {
    SectionMeans(g, slab, q, t, false, k);
    SectionMeans(g, slab, q, t, true, v);
    SectionAt(g, q, false);
    SectionAt(g, q, true);
  }

  lemma {:induction false} TokenHeld(g: Geometry, slab: seq<i8>, q: SequenceState, o: Oracle, layer: nat, i: nat)
    requires HeldAt(g, slab, q, TokenAt(o, layer, i)) && Shaped(o, g)
    ensures HoldsVectors(g, slab, q, o.k(layer, i), o.v(layer, i))
  {
    TokenMeans(o, layer, i);
    HeldMeans(g, slab, q, TokenAt(o, layer, i), o.k(layer, i), o.v(layer, i));
  }

  // ---------- nothing is overwritten within a layer ----------

  /** No two sequences store at the same place. */
  ghost predicate PlacesApart(g: Geometry, active: seq<SequenceState>) {
    forall i, j | 0 <= i < |active| && 0 <= j < |active| && i != j :: SeparatePlaces(g, active[i], active[j])
  }

  ghost predicate SeparatePlaces(g: Geometry, q: SequenceState, r: SequenceState) {
    PlacedAt(g, q) && PlacedAt(g, r) ==>
      q.PhysicalPage(q.numTokens) != r.PhysicalPage(r.numTokens)
        || q.SlotInPage(q.numTokens) != r.SlotInPage(r.numTokens)
  }

  lemma {:induction false} BatchApart(g: Geometry, s: State)
    requires Conserved(s, g.pages) && QueuesOk(s)
    ensures PlacesApart(g, s.active)
  {
    forall i, j | 0 <= i < |s.active| && 0 <= j < |s.active| && i != j
        ensures SeparatePlaces(g, s.active[i], s.active[j]) {
      var q, r := s.active[i], s.active[j];
      if PlacedAt(g, q) && PlacedAt(g, r) && q.PhysicalPage(q.numTokens) == r.PhysicalPage(r.numTokens) {
        if q.SlotInPage(q.numTokens) == r.SlotInPage(r.numTokens) {
          PlacesDiffer(s, g.pages, i, q.numTokens, j, r.numTokens);
        }
      }
    }
  }

  /** One more write, of `r`, leaves what `q` finds, or is what it finds. */
  lemma {:induction false} WriteKeepsHeld(g: Geometry, slab: seq<i8>, q: SequenceState, t: Token, r: SequenceState,
                                          t': Token)
    requires HeldAt(g, slab, q, t) && PlacedAt(g, r) && FitsToken(g, t') && SeparatePlaces(g, q, r)
    ensures HeldAt(g, WriteToken(g, slab, r.PhysicalPage(r.numTokens), r.SlotInPage(r.numTokens), t'), q, t)
  {
    WriteElsewhere(g, slab, r.PhysicalPage(r.numTokens), r.SlotInPage(r.numTokens), t',
      q.PhysicalPage(q.numTokens), q.SlotInPage(q.numTokens), t);
  }

  lemma {:induction false} WriteIsHeld(g: Geometry, slab: seq<i8>, r: SequenceState, t: Token)
    requires g.Valid() && |slab| == g.SlabLen() && PlacedAt(g, r) && FitsToken(g, t)
    ensures HeldAt(g, WriteToken(g, slab, r.PhysicalPage(r.numTokens), r.SlotInPage(r.numTokens), t), r, t)
  {
    WriteHolds(g, slab, r.PhysicalPage(r.numTokens), r.SlotInPage(r.numTokens), t);
  }

  /** What storing a layer needs. */
  ghost predicate CanStoreLayer(g: Geometry, slab: seq<i8>, active: seq<SequenceState>, o: Oracle) {
    g.Valid() && |slab| == g.SlabLen() && Placed(g, active) && Shaped(o, g)
  }

  /** With `n + 1` sequences done. */
  lemma {:induction false} LayerHeldNext(g: Geometry, slab: seq<i8>, active: seq<SequenceState>, o: Oracle, layer: nat,
                                         n: nat, i: nat)
    requires CanStoreLayer(g, slab, active, o) && i <= n < |active| && PlacesApart(g, active)
    requires i < n ==> HeldAt(g, LayerSlab(g, slab, active, o, layer, n), active[i], TokenAt(o, layer, i))
    ensures HeldAt(g, LayerSlab(g, slab, active, o, layer, n + 1), active[i], TokenAt(o, layer, i))
  {
    var before := LayerSlab(g, slab, active, o, layer, n);
    assert PlacedAt(g, active[n]);
    if i == n {
      WriteIsHeld(g, before, active[n], TokenAt(o, layer, n));
    } else {
      assert SeparatePlaces(g, active[i], active[n]);
      WriteKeepsHeld(g, before, active[i], TokenAt(o, layer, i), active[n], TokenAt(o, layer, n));
    }
  }

  /** The slab before the first sequence, and after each. */
  ghost function LayerStages(g: Geometry, slab: seq<i8>, active: seq<SequenceState>, o: Oracle,
                             layer: nat): (slabs: seq<seq<i8>>)
    requires CanStoreLayer(g, slab, active, o)
    ensures |slabs| == |active| + 1 && forall n | 0 <= n <= |active| ::
        slabs[n] == LayerSlab(g, slab, active, o, layer, n)
  {
    seq(|active| + 1, n requires 0 <= n <= |active| => LayerSlab(g, slab, active, o, layer, n))
  }

  ghost predicate HeldThen(g: Geometry, slabs: seq<seq<i8>>, k: int, q: SequenceState, t: Token) {
    0 <= k < |slabs| - 1 ==> HeldAt(g, slabs[k], q, t) ==> HeldAt(g, slabs[k + 1], q, t)
  }

  lemma {:induction false} HeldOn(g: Geometry, slabs: seq<seq<i8>>, q: SequenceState, t: Token, first: nat, n: nat)
    requires first <= n < |slabs| && HeldAt(g, slabs[first], q, t)
    requires forall k | first <= k < n :: HeldThen(g, slabs, k, q, t)
    ensures HeldAt(g, slabs[n], q, t)
    decreases n - first
  {
    if first < n {
      assert HeldThen(g, slabs, first, q, t);
      HeldOn(g, slabs, q, t, first + 1, n);
    }
  }

  lemma {:induction false} LayerHeld(g: Geometry, slab: seq<i8>, active: seq<SequenceState>, o: Oracle, layer: nat,
                                     i: nat)
    requires CanStoreLayer(g, slab, active, o) && i < |active| && PlacesApart(g, active)
    ensures HeldAt(g, LayerStages(g, slab, active, o, layer)[|active|], active[i], TokenAt(o, layer, i))
  {
    var slabs, t := LayerStages(g, slab, active, o, layer), TokenAt(o, layer, i);
    LayerHeldNext(g, slab, active, o, layer, i, i);
    forall k | i + 1 <= k < |active| ensures HeldThen(g, slabs, k, active[i], t) {
      if HeldAt(g, slabs[k], active[i], t) {
        LayerHeldNext(g, slab, active, o, layer, k, i);
      }
    }
    HeldOn(g, slabs, active[i], t, i + 1, |active|);
  }

  /** After a layer every sequence finds its own vectors. */
  lemma {:induction false} LayerIsHeld(g: Geometry, slab: seq<i8>, active: seq<SequenceState>, o: Oracle, layer: nat)
    requires g.Valid() && |slab| == g.SlabLen() && Placed(g, active) && Shaped(o, g) && PlacesApart(g, active)
    ensures HoldsLayer(g, LayerSlab(g, slab, active, o, layer, |active|), active, o, layer)
  {
    var slab' := LayerSlab(g, slab, active, o, layer, |active|);
    forall i | 0 <= i < |active| ensures HoldsVectors(g, slab', active[i], o.k(layer, i), o.v(layer, i)) {
      LayerHeld(g, slab, active, o, layer, i);
      TokenHeld(g, slab', active[i], o, layer, i);
    }
  }

  lemma {:induction false} EachLayerIsHeld(g: Geometry, slab: seq<i8>, active: seq<SequenceState>, o: Oracle)
    requires CanStoreLayer(g, slab, active, o) && PlacesApart(g, active)
    ensures forall layer: nat :: HoldsLayer(g, LayerSlab(g, slab, active, o, layer, |active|), active, o, layer)
  {
    forall layer: nat ensures HoldsLayer(g, LayerSlab(g, slab, active, o, layer, |active|), active, o, layer) {
      LayerIsHeld(g, slab, active, o, layer);
    }
  }

  /** After all layers, those of the last. */
  lemma {:induction false} LastLayerIsHeld(g: Geometry, slab: seq<i8>, active: seq<SequenceState>, o: Oracle,
                                           layers: nat)
    requires CanStoreLayer(g, slab, active, o) && PlacesApart(g, active) && layers > 0
    ensures HoldsLayer(g, LayersSlab(g, slab, active, o, layers), active, o, layers - 1)
  {
    EachLayerIsHeld(g, LayersSlab(g, slab, active, o, layers - 1), active, o);
  }

  // ---------- and nothing else is written ----------

  /** Byte `a` is one of those for the position of `q`. */
  ghost predicate OwnByte(g: Geometry, q: SequenceState, a: nat) {
    && q.numTokens / 16 < |q.blockTable|
    && var base := q.blockTable[q.numTokens / 16] * g.pageStride + q.numTokens % 16 * (g.headsKv * g.headDim);
       || base <= a < base + g.headsKv * g.headDim
       || base + g.pageStride / 2 <= a < base + g.pageStride / 2 + g.headsKv * g.headDim
  }

  /** Bytes that belong to no sequence's position are as they were. */
  ghost predicate OthersKept(g: Geometry, slab: seq<i8>, slab': seq<i8>, active: seq<SequenceState>) {
    && |slab'| == |slab|
    && forall a | 0 <= a < |slab| && (forall i | 0 <= i < |active| :: !OwnByte(g, active[i], a)) :: slab'[a] == slab[a]
  }

  lemma {:induction false} OthersChain(g: Geometry, a: seq<i8>, b: seq<i8>, c: seq<i8>, active: seq<SequenceState>)
    ensures OthersKept(g, a, b, active) && OthersKept(g, b, c, active) ==> OthersKept(g, a, c, active)
  {
  }

  lemma {:induction false} WriteOthers(g: Geometry, slab: seq<i8>, active: seq<SequenceState>, i: nat, t: Token)
    requires g.Valid() && |slab| == g.SlabLen() && i < |active| && PlacedAt(g, active[i]) && FitsToken(g, t)
    ensures var q := active[i];
            OthersKept(g, slab, WriteToken(g, slab, q.PhysicalPage(q.numTokens), q.SlotInPage(q.numTokens), t), active)
  {
    var q := active[i];
    SectionInSlab(g, q.PhysicalPage(q.numTokens), false, q.SlotInPage(q.numTokens));
    SectionInSlab(g, q.PhysicalPage(q.numTokens), true, q.SlotInPage(q.numTokens));
  }

  lemma {:induction false} LayerOthersNext(g: Geometry, slab: seq<i8>, active: seq<SequenceState>, o: Oracle,
                                           layer: nat, n: nat)
    requires CanStoreLayer(g, slab, active, o) && n < |active|
    ensures OthersKept(g, LayerSlab(g, slab, active, o, layer, n), LayerSlab(g, slab, active, o, layer, n + 1), active)
  {
    assert PlacedAt(g, active[n]);
    WriteOthers(g, LayerSlab(g, slab, active, o, layer, n), active, n, TokenAt(o, layer, n));
  }

  ghost predicate OthersThen(g: Geometry, slabs: seq<seq<i8>>, k: int, active: seq<SequenceState>) {
    0 <= k < |slabs| - 1 ==> OthersKept(g, slabs[k], slabs[k + 1], active)
  }

  lemma {:induction false} OthersOn(g: Geometry, slabs: seq<seq<i8>>, active: seq<SequenceState>, first: nat, n: nat)
    requires first <= n < |slabs| && forall k | first <= k < n :: OthersThen(g, slabs, k, active)
    ensures OthersKept(g, slabs[first], slabs[n], active)
    decreases n - first
  {
    if first < n {
      assert OthersThen(g, slabs, first, active);
      OthersOn(g, slabs, active, first + 1, n);
      OthersChain(g, slabs[first], slabs[first + 1], slabs[n], active);
    }
  }

  lemma {:induction false} LayerOthers(g: Geometry, slab: seq<i8>, active: seq<SequenceState>, o: Oracle, layer: nat)
    requires CanStoreLayer(g, slab, active, o)
    ensures OthersKept(g, slab, LayerSlab(g, slab, active, o, layer, |active|), active)
  {
    var slabs := LayerStages(g, slab, active, o, layer);
    forall k | 0 <= k < |active| ensures OthersThen(g, slabs, k, active) {
      LayerOthersNext(g, slab, active, o, layer, k);
    }
    OthersOn(g, slabs, active, 0, |active|);
  }

  lemma {:induction false} LayersOthersNext(g: Geometry, slab: seq<i8>, active: seq<SequenceState>, o: Oracle,
                                            layers: nat)
    requires CanStoreLayer(g, slab, active, o)
    ensures OthersKept(g, LayersSlab(g, slab, active, o, layers), LayersSlab(g, slab, active, o, layers + 1), active)
  {
    LayerOthers(g, LayersSlab(g, slab, active, o, layers), active, o, layers);
  }

  /** The slab before the first layer, and after each. */
  ghost function StepStages(g: Geometry, slab: seq<i8>, active: seq<SequenceState>, o: Oracle,
                            layers: nat): (slabs: seq<seq<i8>>)
    requires CanStoreLayer(g, slab, active, o)
    ensures |slabs| == layers + 1 && forall n | 0 <= n <= layers :: slabs[n] == LayersSlab(g, slab, active, o, n)
  {
    seq(layers + 1, n requires 0 <= n <= layers => LayersSlab(g, slab, active, o, n))
  }

  lemma {:induction false} LayersOthers(g: Geometry, slab: seq<i8>, active: seq<SequenceState>, o: Oracle, layers: nat)
    requires CanStoreLayer(g, slab, active, o)
    ensures OthersKept(g, slab, LayersSlab(g, slab, active, o, layers), active)
  {
    var slabs := StepStages(g, slab, active, o, layers);
    forall k | 0 <= k < layers ensures OthersThen(g, slabs, k, active) {
      LayersOthersNext(g, slab, active, o, k);
    }
    OthersOn(g, slabs, active, 0, layers);
  }

  /** What a step leaves in the slab: the vectors of the last layer for the sequences that run in it. */
  ghost predicate StepHolds(g: Geometry, slab: seq<i8>, slab': seq<i8>, ran: seq<SequenceState>, o: Oracle,
                            layers: nat) {
    OthersKept(g, slab, slab', ran) && (layers > 0 ==> HoldsLayer(g, slab', ran, o, layers - 1))
  }

  /** What all layers leave. */
  lemma {:induction false} LayersHeld(g: Geometry, slab: seq<i8>, active: seq<SequenceState>, o: Oracle, layers: nat)
    requires CanStoreLayer(g, slab, active, o) && PlacesApart(g, active)
    ensures StepHolds(g, slab, LayersSlab(g, slab, active, o, layers), active, o, layers)
  {
    LayersOthers(g, slab, active, o, layers);
    if layers > 0 {
      LastLayerIsHeld(g, slab, active, o, layers);
    }
  }

  // ---------- what is returned ----------

  /** One output for each sequence: its id, and the greedy choice from its own logits and tokens. */
  ghost predicate GreedyOutputs(outputs: seq<Output>, active: seq<SequenceState>, logits: Logits) {
    && |outputs| == |active|
    && forall i | 0 <= i < |active| ::
         outputs[i].0 == active[i].seqId && IsGreedy(logits(i), active[i].promptTokens, outputs[i].1)
  }

  lemma {:induction false} OutputsGreedy(active: seq<SequenceState>, logits: Logits)
    ensures GreedyOutputs(Outputs(active, logits), active, logits)
  {
    forall i | 0 <= i < |active|
      ensures IsGreedy(logits(i), active[i].promptTokens, Outputs(active, logits)[i].1)
    {
      BestIsGreedy(logits(i), active[i].promptTokens);
    }
  }

  lemma {:induction false} StepIsHeld(g: Geometry, slab: seq<i8>, s: State, o: Oracle, layers: nat)
    requires g.Valid() && |slab| == g.SlabLen() && Placed(g, s.active) && Shaped(o, g)
    requires Conserved(s, g.pages) && QueuesOk(s)
    ensures StepHolds(g, slab, StepSlab(g, slab, s.active, o, layers), s.active, o, layers)
  {
    BatchApart(g, s);
    LayersHeld(g, slab, s.active, o, layers);
  }

  lemma {:induction false} StepGreedy(s: State, logits: Logits)
    requires QueuesOk(Promote(s)) && DistinctIds(Promote(s).active)
    ensures GreedyOutputs(Step(s, logits).outputs, Promote(s).active, logits)
  {
    OutputsGreedy(Promote(s).active, logits);
    StepAppends(Promote(s).active, logits);
  }

  lemma {:induction false} StrideOf(heads: nat, dim: nat)
    ensures 2 * PAGE_TOKENS * heads * dim == 2 * PAGE_TOKENS * (heads * dim)
  {
  }

  class AegisEngine {
    const pool: PagePool
    const scheduler: Scheduler
    const headsKv: nat
    const headDim: nat
    const layers: nat

    function Shape(): Geometry {
      Geometry(headsKv, headDim, pool.pageStride, pool.totalPages)
    }

    ghost predicate Valid()
      reads scheduler, pool, pool.freeBitmap
    {
      && scheduler.pagePool == pool && scheduler.Valid()
      && pool.slab as object != pool.freeBitmap
      && Shape().Valid()
      && Conservation.WellFormed(scheduler.View(), pool.totalPages) && Covered(scheduler.View())
    }

    constructor (nHeadsKv: nat, dim: nat, nLayers: nat, totalKvPages: nat)
      requires nHeadsKv > 0 && dim > 0
      ensures Valid() && headsKv == nHeadsKv && headDim == dim && layers == nLayers && pool.totalPages == totalKvPages
      ensures scheduler.View() == State(AllPages(totalKvPages), [], [])
    {
      headsKv, headDim, layers := nHeadsKv, dim, nLayers;
      var p := new PagePool(nHeadsKv, dim, totalKvPages);
      pool := p;
      var s := new Scheduler(p);
      scheduler := s;
      new;
      StrideOf(nHeadsKv, dim);
      assert pool.free == AllPages(totalKvPages);
    }

    method AddSequence(seqId: nat, promptTokens: seq<nat>, maxNewTokens: nat)
      requires Valid() && promptTokens != []
      modifies scheduler`waitingSeqs
      ensures Valid()
      ensures var req := SequenceRequest(seqId, promptTokens, maxNewTokens);
              scheduler.View() == old(scheduler.View()).(waiting := old(scheduler.waitingSeqs) + [NewSequence(req)])
    {
      SubmitKeeps(scheduler.View(), pool.totalPages, SequenceRequest(seqId, promptTokens, maxNewTokens));
      scheduler.AddRequest(SequenceRequest(seqId, promptTokens, maxNewTokens));
    }

    /** Stores one head's codes, one by one. */
    method WriteHead(base: nat, codes: seq<i8>)
      requires base + |codes| <= pool.slab.Length
      modifies pool.slab
      ensures pool.slab[..] == Splice(old(pool.slab[..]), base, codes)
    {
      ghost var before := pool.slab[..];
      var d := 0;
      while d < |codes|
        invariant d <= |codes|
        invariant pool.slab[..] == Splice(before, base, codes[..d])
      {
        pool.slab[base + d] := codes[d];
        d := d + 1;
      }
      assert codes[..d] == codes;
    }

    /** Stores one section (K or V) of a token, head by head. */
    method WriteSection(base: nat, x: seq<real>)
      requires |x| == headsKv * headDim && base + |x| <= pool.slab.Length
      modifies pool.slab
      ensures pool.slab[..] == Splice(old(pool.slab[..]), base, QuantisedAll(x))
    {
      var codes := F32ToI8Absmax(x);
      ghost var before := pool.slab[..];
      var head, n := 0, 0;
      while head < headsKv
        invariant head <= headsKv && n == head * headDim && 0 <= n <= |x|
        invariant pool.slab[..] == Splice(before, base, codes[..n])
      {
        NextHead(head, headsKv, headDim);
        WriteHead(base + n, codes[n..n + headDim]);
        SpliceAppend(before, base, codes[..n], codes[n..n + headDim]);
        assert codes[..n] + codes[n..n + headDim] == codes[..n + headDim];
        head, n := head + 1, n + headDim;
      }
      assert codes[..n] == codes;
    }

    /** Stores the K and V vectors of sequence `q` at its current position. */
    method StoreToken(q: SequenceState, k: seq<real>, v: seq<real>)
      requires Shape().Valid() && pool.slab.Length == Shape().SlabLen() && PlacedAt(Shape(), q)
      requires |k| == |v| == headsKv * headDim
      modifies pool.slab
      ensures pool.slab[..]
          == WriteToken(Shape(), old(pool.slab[..]), q.PhysicalPage(q.numTokens), q.SlotInPage(q.numTokens),
                                          Token(QuantisedAll(k), QuantisedAll(v)))
    {
      var pos := q.numTokens;
      var page, slot := q.PhysicalPage(pos), q.SlotInPage(pos);
      SectionInSlab(Shape(), page, false, slot);
      SectionInSlab(Shape(), page, true, slot);
      WriteSection(WriteAddr(Shape(), page, false, slot, 0), k);
      WriteSection(WriteAddr(Shape(), page, true, slot, 0), v);
    }

    /** Stores the tokens of one layer. */
    method StoreLayer(sequences: seq<SequenceState>, o: Oracle, layer: nat)
      requires Shape().Valid() && pool.slab.Length == Shape().SlabLen() && Placed(Shape(), sequences)
      requires Shaped(o, Shape())
      modifies pool.slab
      ensures pool.slab[..] == LayerSlab(Shape(), old(pool.slab[..]), sequences, o, layer, |sequences|)
      ensures PlacesApart(Shape(), sequences) ==> HoldsLayer(Shape(), pool.slab[..], sequences, o, layer)
      ensures OthersKept(Shape(), old(pool.slab[..]), pool.slab[..], sequences)
    {
      ghost var before := pool.slab[..];
      for i := 0 to |sequences|
        invariant pool.slab[..] == LayerSlab(Shape(), before, sequences, o, layer, i)
      {
        assert PlacedAt(Shape(), sequences[i]);
        StoreToken(sequences[i], o.k(layer, i), o.v(layer, i));
      }
      LayerOthers(Shape(), before, sequences, o, layer);
      if PlacesApart(Shape(), sequences) {
        LayerIsHeld(Shape(), before, sequences, o, layer);
      }
    }

    /** Chooses a token for each sequence. */
    method ChooseTokens(sequences: seq<SequenceState>, logits: Logits) returns (outputs: seq<Output>)
      ensures outputs == Outputs(sequences, logits) && GreedyOutputs(outputs, sequences, logits)
    {
      outputs := [];
      for i := 0 to |sequences|
        invariant |outputs| == i
        invariant forall j | 0 <= j < i ::
            outputs[j] == (sequences[j].seqId, Argmax(logits(j), sequences[j].promptTokens))
      {
        var token := ArgmaxF32(logits(i), sequences[i].promptTokens);
        outputs := outputs + [(sequences[i].seqId, token)];
      }
      OutputsGreedy(sequences, logits);
    }

    /** One forward pass over the batch: K and V of every layer are stored, and a token is chosen for each. */
    method StepBatch(sequences: seq<SequenceState>, o: Oracle) returns (outputs: seq<Output>)
      requires Shape().Valid() && pool.slab.Length == Shape().SlabLen() && Placed(Shape(), sequences)
      requires Shaped(o, Shape())
      modifies pool.slab
      ensures pool.slab[..] == LayersSlab(Shape(), old(pool.slab[..]), sequences, o, layers)
      ensures PlacesApart(Shape(), sequences)
          ==> StepHolds(Shape(), old(pool.slab[..]), pool.slab[..], sequences, o, layers)
      ensures outputs == Outputs(sequences, o.logits) && GreedyOutputs(outputs, sequences, o.logits)
    {
      ghost var before := pool.slab[..];
      for layer := 0 to layers
        invariant pool.slab[..] == LayersSlab(Shape(), before, sequences, o, layer)
      {
        StoreLayer(sequences, o, layer);
      }
      if PlacesApart(Shape(), sequences) {
        LayersHeld(Shape(), before, sequences, o, layers);
      }
      outputs := ChooseTokens(sequences, o.logits);
    }

    /** Appends each output to the first sequence with its id. */
    method ApplyAll(outputs: seq<Output>)
      requires scheduler.Valid()
      modifies scheduler`activeSeqs
      ensures scheduler.Valid()
      ensures scheduler.activeSeqs == ApplyOutputs(old(scheduler.activeSeqs), outputs, |outputs|)
    {
      ghost var before := scheduler.activeSeqs;
      for n := 0 to |outputs|
        invariant scheduler.Valid()
        invariant scheduler.activeSeqs == ApplyOutputs(before, outputs, n)
      {
        var i := Find(scheduler.activeSeqs, outputs[n].0);
        if i < |scheduler.activeSeqs| {
          scheduler.activeSeqs := scheduler.activeSeqs[i := Advanced(scheduler.activeSeqs[i], outputs[n].1)];
        }
      }
    }

    /** Keeps the outputs whose sequence has generated something. */
    method Filter(outputs: seq<Output>) returns (filtered: seq<Output>)
      ensures filtered == FilterGenerated(outputs, scheduler.activeSeqs)
    {
      filtered := [];
      for n := 0 to |outputs|
        invariant filtered + FilterGenerated(outputs[n..], scheduler.activeSeqs)
            == FilterGenerated(outputs, scheduler.activeSeqs)
      {
        assert outputs[n..][1..] == outputs[n + 1..];
        if HasGenerated(scheduler.activeSeqs, outputs[n].0) {
          filtered := filtered + [outputs[n]];
        }
      }
    }

    /** Appends the outputs, filters them, and cleans up. */
    method FinishStep(outputs: seq<Output>) returns (filtered: seq<Output>)
      requires scheduler.Valid() && scheduler.pagePool == pool
      modifies scheduler, pool`free, pool.freeBitmap
      ensures scheduler.Valid()
      ensures var after := ApplyOutputs(old(scheduler.activeSeqs), outputs, |outputs|);
              && scheduler.View() == Cleanup(old(scheduler.View()).(active := after)).s
              && filtered == FilterGenerated(outputs, after)
    {
      ApplyAll(outputs);
      filtered := Filter(outputs);
      var finished := scheduler.PostStepCleanup();
    }

    /** What the specified step leaves in the slab and returns. */
    lemma {:induction false} StepMeans(s: State, slab: seq<i8>, o: Oracle)
      requires Shape().Valid() && |slab| == Shape().SlabLen() && Shaped(o, Shape())
      requires Conservation.WellFormed(s, pool.totalPages) && Covered(s)
      ensures Placed(Shape(), Promote(s).active)
      ensures StepHolds(Shape(), slab, StepSlab(Shape(), slab, Promote(s).active, o, layers), Promote(s).active, o,
          layers)
      ensures DistinctIds(Promote(s).active) ==> GreedyOutputs(Step(s, o.logits).outputs, Promote(s).active, o.logits)
    {
      PromoteKeeps(s, pool.totalPages);
      CoveredIsPlaced(Shape(), Promote(s));
      StepIsHeld(Shape(), slab, Promote(s), o, layers);
      if DistinctIds(Promote(s).active) {
        StepGreedy(s, o.logits);
      }
    }

    /** Advances every running sequence by one token. */
    method StepForward(o: Oracle) returns (filtered: seq<Output>)
      requires Valid() && Shaped(o, Shape())
      modifies scheduler, pool`free, pool.freeBitmap, pool.slab
      ensures Valid()
      ensures scheduler.View() == Step(old(scheduler.View()), o.logits).s
      ensures filtered == Step(old(scheduler.View()), o.logits).outputs
      ensures Placed(Shape(), Promote(old(scheduler.View())).active)
      ensures pool.slab[..] == StepSlab(Shape(), old(pool.slab[..]), Promote(old(scheduler.View())).active, o, layers)
      ensures StepHolds(Shape(), old(pool.slab[..]), pool.slab[..], Promote(old(scheduler.View())).active, o, layers)
      ensures DistinctIds(Promote(old(scheduler.View())).active)
          ==> GreedyOutputs(filtered, Promote(old(scheduler.View())).active, o.logits)
    {
      ghost var s, slab := scheduler.View(), pool.slab[..];
      StepMeans(s, slab, o);
      StepKeeps(s, pool.totalPages, o.logits);
      PromoteKeeps(s, pool.totalPages);
      scheduler.PromoteWaiting();
      CoveredIsPlaced(Shape(), scheduler.View());
      if |scheduler.activeSeqs| == 0 {
        return [];
      }
      var outputs := StepBatch(scheduler.activeSeqs, o);
      assert pool.slab[..] == StepSlab(Shape(), slab, Promote(s).active, o, layers);
      filtered := FinishStep(outputs);
    }
  }

  lemma {:induction false} NextHead(head: nat, heads: nat, dim: nat)
    requires head < heads
    ensures head * dim + dim == (head + 1) * dim <= heads * dim
  {
    MulLe(head + 1, heads, dim);
    MulAdd(head, 1, dim);
  }

  lemma {:induction false} SpliceAppend(slab: seq<i8>, base: nat, a: seq<i8>, b: seq<i8>)
    requires base + |a| + |b| <= |slab|
    ensures Splice(Splice(slab, base, a), base + |a|, b) == Splice(slab, base, a + b)
  {
  }
}