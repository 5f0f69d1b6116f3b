/** Addresses in the slab carry no layer: every layer stores its K and V over those of the layer before. What the
    slab holds after a step, and when every layer still finds its own. */
module LayerCache {
  import opened Arithmetic
  import opened PagePools
  import opened Batching
  import opened Conservation
  import opened Serving
  import opened KvLayout
  import opened PagedMemory
  import opened Quantiser
  import opened Engine
  import opened EngineMemory

  /** Each running sequence finds the token of every layer. */
  ghost predicate HeldEveryLayer(g: Geometry, slab: seq<i8>, active: seq<SequenceState>, o: Oracle, layers: nat) {
    forall i, layer | 0 <= i < |active| && 0 <= layer < layers :: HeldAt(g, slab, active[i], TokenAt(o, layer, i))
  }

  lemma {:induction false} LoggedIsHeld(g: Geometry, m: Memory, i: nat, t: Token)
    requires MemoryOk(g, m) && i < |m.s.active| && PlacedAt(g, m.s.active[i])
    requires m.s.active[i].numTokens in LogOf(m.logs, m.s.active[i])
    requires LogOf(m.logs, m.s.active[i])[m.s.active[i].numTokens] == t
    ensures HeldAt(g, m.slab, m.s.active[i], t)
  {
    var q := m.s.active[i];
    assert RemembersAll(g, m.slab, q, LogOf(m.logs, q));
    assert Remembers(g, m.slab, q, q.numTokens, t);
  }

  lemma {:induction false} LastLayerStored(g: Geometry, m: Memory, o: Oracle, layers: nat, i: nat)
    requires CanStore(g, m, o) && 0 < layers && i < |m.s.active|
    ensures HeldAt(g, LayersSlab(g, m.slab, m.s.active, o, layers), m.s.active[i], TokenAt(o, layers - 1, i))
  {
    BatchRooted(m.s, g.pages);
    var m' := LayersStored(g, m, o, layers);
    LayersLog(m.logs, m.s.active, o, layers, i);
    assert PlacedAt(g, m.s.active[i]);
    LoggedIsHeld(g, m', i, TokenAt(o, layers - 1, i));
  }

  /** After a step every running sequence finds, at the position it was at, its token of the last layer. */
  lemma {:induction false} LastLayerStays(g: Geometry, m: Memory, o: Oracle, layers: nat, i: nat)
    requires Ready(g, m) && Shaped(o, g) && 0 < layers && i < |Promote(m.s).active|
    ensures HeldAt(g, StepMemory(g, m, o, layers).slab, Promote(m.s).active[i], TokenAt(o, layers - 1, i))
  {
    var m' := StepMemory(g, m, o, layers);
    PromotedOk(g, m);
    LastLayerStored(g, Promoted(m), o, layers, i);
  }

  /** In bytes: the codes of its K and V vectors of the last layer, and what no running sequence owns is as before. */
  lemma {:induction false} StepMemoryHolds(g: Geometry, m: Memory, o: Oracle, layers: nat)
    requires Ready(g, m) && Shaped(o, g)
    ensures StepHolds(g, m.slab, StepMemory(g, m, o, layers).slab, Promote(m.s).active, o, layers)
  {
    PromoteKeeps(m.s, g.pages);
    CoveredIsPlaced(g, Promote(m.s));
    StepIsHeld(g, m.slab, Promote(m.s), o, layers);
  }

  // ---------- two layers ----------

  function Flat(g: Geometry, v: real): (x: seq<real>)
    ensures |x| == g.Width() && forall j | 0 <= j < |x| :: x[j] == v
  {
    seq(g.Width(), _ => v)
  }

  /** Zeros in the first layer and ones in the others. */
  function Stark(g: Geometry): Oracle {
    Oracle((layer: nat, i: nat) => Flat(g, if layer == 0 then 0.0 else 1.0),
           (layer: nat, i: nat) => Flat(g, if layer == 0 then 0.0 else 1.0),
           (i: nat) => [])
  }

  lemma {:induction false} StarkShaped(g: Geometry)
    ensures Shaped(Stark(g), g)
  {
    forall layer: nat, i: nat
      ensures |Stark(g).k(layer, i)| == g.Width() && |Stark(g).v(layer, i)| == g.Width()
    {
      assert Stark(g).k(layer, i) == Flat(g, if layer == 0 then 0.0 else 1.0) == Stark(g).v(layer, i);
    }
  }

  lemma {:induction false} FlatCode(g: Geometry, v: real)
    requires g.Valid() && (v == 0.0 || v == 1.0)
    ensures |QuantisedAll(Flat(g, v))| == g.Width() > 0
    ensures QuantisedAll(Flat(g, v))[0] == if v == 0.0 then 0 else 127
  {
    var x := Flat(g, v);
    var s := Absmax(x);
    assert x[0] == v;
    QuantisedError(x, 0);
    if v == 1.0 {
      assert s == MIN_SCALE || s == 1.0;
      ExtremeUsesFullRange(v, s);
    } else {
      assert Times(v, 127.0 / s) == 0.0;
    }
  }

  lemma {:induction false} HeldOnce(g: Geometry, slab: seq<i8>, q: SequenceState, t: Token, t': Token)
    requires HeldAt(g, slab, q, t) && HeldAt(g, slab, q, t') && g.Width() > 0
    ensures t.k[0] == t'.k[0]
  {
    var page, slot := q.PhysicalPage(q.numTokens), q.SlotInPage(q.numTokens);
    assert Cell(g, slab, page, false, slot, 0) == t.k[0];
    assert Cell(g, slab, page, false, slot, 0) == t'.k[0];
  }

  lemma {:induction false} StarkOverwrites(g: Geometry, slab: seq<i8>, active: seq<SequenceState>, layers: nat)
    requires g.Valid() && active != [] && 1 < layers
    requires HeldAt(g, slab, active[0], TokenAt(Stark(g), layers - 1, 0))
    ensures !HeldEveryLayer(g, slab, active, Stark(g), layers)
  {
    FlatCode(g, 0.0);
    FlatCode(g, 1.0);
    if HeldEveryLayer(g, slab, active, Stark(g), layers) {
      assert HeldAt(g, slab, active[0], TokenAt(Stark(g), 0, 0));
      HeldOnce(g, slab, active[0], TokenAt(Stark(g), 0, 0), TokenAt(Stark(g), layers - 1, 0));
    }
  }

  /** Whatever the transformer computes, each layer still finds its own tokens after the step. */
  ghost predicate KeepsEveryLayer(g: Geometry, m: Memory, layers: nat)
    requires Ready(g, m)
  {
    forall o | Shaped(o, g) :: HeldEveryLayer(g, StepMemory(g, m, o, layers).slab, Promote(m.s).active, o, layers)
  }

  /** The token of the last layer is held for every running sequence. */
  ghost predicate HeldLastLayer(g: Geometry, slab: seq<i8>, active: seq<SequenceState>, o: Oracle, layers: nat) {
    layers > 0 ==> forall i | 0 <= i < |active| :: HeldAt(g, slab, active[i], TokenAt(o, layers - 1, i))
  }

  lemma {:induction false} LastLayerKept(g: Geometry, m: Memory, o: Oracle, layers: nat)
    requires Ready(g, m) && Shaped(o, g)
    ensures HeldLastLayer(g, StepMemory(g, m, o, layers).slab, Promote(m.s).active, o, layers)
  {
    if layers > 0 {
      forall i | 0 <= i < |Promote(m.s).active|
        ensures HeldAt(g, StepMemory(g, m, o, layers).slab, Promote(m.s).active[i], TokenAt(o, layers - 1, i))
      {
        LastLayerStays(g, m, o, layers, i);
      }
    }
  }

  lemma {:induction false} LastIsEvery(g: Geometry, slab: seq<i8>, active: seq<SequenceState>, o: Oracle, layers: nat)
    requires layers <= 1 && HeldLastLayer(g, slab, active, o, layers)
    ensures HeldEveryLayer(g, slab, active, o, layers)
  {
    forall i, layer | 0 <= i < |active| && 0 <= layer < layers
        ensures HeldAt(g, slab, active[i], TokenAt(o, layer, i)) {
      assert layer == layers - 1;
    }
  }

  /** A step with something running keeps the tokens of every layer exactly when there is at most one layer. */
  lemma {:induction false} LayersKeptIffOne(g: Geometry, m: Memory, layers: nat)
    requires Ready(g, m) && Promote(m.s).active != []
    ensures KeepsEveryLayer(g, m, layers) <==> layers <= 1
  {
    if layers <= 1 {
      forall o | Shaped(o, g)
        ensures HeldEveryLayer(g, StepMemory(g, m, o, layers).slab, Promote(m.s).active, o, layers)
      {
        LastLayerKept(g, m, o, layers);
        LastIsEvery(g, StepMemory(g, m, o, layers).slab, Promote(m.s).active, o, layers);
      }
    } else {
      StarkShaped(g);
      LastLayerStays(g, m, Stark(g), layers, 0);
      StarkOverwrites(g, StepMemory(g, m, Stark(g), layers).slab, Promote(m.s).active, layers);
    }
  }
}
