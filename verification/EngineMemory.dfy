/** The engine's step, taken apart into memory events: admissions, stores layer by layer, appended tokens and
    sweeps. What every event keeps, every step keeps. */
module EngineMemory {
  import opened PagePools
  import opened Batching
  import opened Sampling
  import opened Conservation
  import opened Serving
  import opened KvLayout
  import opened PagedMemory
  import opened Engine

  ghost function Promoted(m: Memory): (m': Memory)
    ensures m'.s == Promote(m.s) && m'.slab == m.slab
    decreases |m.s.waiting|
  {
    if CanAdmit(m.s) then Promoted(Admitting(m)) else m
  }

  lemma {:induction false} PromotedOk(g: Geometry, m: Memory)
    requires MemoryOk(g, m)
    ensures MemoryOk(g, Promoted(m))
    decreases |m.s.waiting|
  {
    if CanAdmit(m.s) {
      AdmitKeeps(g, m);
      PromotedOk(g, Admitting(m));
    }
  }

  lemma {:induction false} ShapedFits(g: Geometry, o: Oracle, layer: nat, i: nat)
    requires Shaped(o, g)
    ensures FitsToken(g, TokenAt(o, layer, i))
  {
  }

  /** What storing needs of the memory. */
  ghost predicate CanStore(g: Geometry, m: Memory, o: Oracle) {
    MemoryOk(g, m) && Placed(g, m.s.active) && Shaped(o, g)
  }

  // ---------- what is written ----------

  /** The logs once `q` has written `t` at its current position. */
  function Noted(logs: map<nat, Log>, q: SequenceState, t: Token): map<nat, Log>
    requires q.blockTable != []
  {
    logs[q.blockTable[0] := LogOf(logs, q)[q.numTokens := t]]
  }

  /** Every running sequence has a first page, and no two the same. */
  ghost predicate Rooted(active: seq<SequenceState>) {
    && (forall i | 0 <= i < |active| :: active[i].blockTable != [])
    && (forall i, j | 0 <= i < |active| && 0 <= j < |active| && i != j ::
      active[i].blockTable[0] != active[j].blockTable[0])
  }

  lemma {:induction false} BatchRooted(s: State, total: nat)
    requires Conserved(s, total) && QueuesOk(s)
    ensures Rooted(s.active)
  {
    forall i | 0 <= i < |s.active| ensures s.active[i].blockTable != [] {
      assert IsResident(s.active[i]);
    }
    forall i, j | 0 <= i < |s.active| && 0 <= j < |s.active| && i != j
      ensures s.active[i].blockTable[0] != s.active[j].blockTable[0]
    {
      FirstPagesDiffer(s, total, i, j);
    }
  }

  /** The logs after the first `n` sequences have written their tokens of one layer. */
  ghost function LayerLogs(logs: map<nat, Log>, active: seq<SequenceState>, o: Oracle, layer: nat,
                           n: nat): map<nat, Log>
    requires Rooted(active) && n <= |active|
    decreases n
  {
    if n == 0 then logs else Noted(LayerLogs(logs, active, o, layer, n - 1), active[n - 1], TokenAt(o, layer, n - 1))
  }

  /** The logs after `layers` layers. */
  ghost function LayersLogs(logs: map<nat, Log>, active: seq<SequenceState>, o: Oracle, layers: nat): map<nat, Log>
    requires Rooted(active)
    decreases layers
  {
    if layers == 0 then logs
    else LayerLogs(LayersLogs(logs, active, o, layers - 1), active, o, layers - 1, |active|)
  }

  /** Between two sets of logs, sequence `q` has written `t` at its current position, and nothing else. */
  ghost predicate Wrote(logs: map<nat, Log>, logs': map<nat, Log>, q: SequenceState, t: Token) {
    LogOf(logs', q) == LogOf(logs, q)[q.numTokens := t]
  }

  ghost predicate SameLog(logs: map<nat, Log>, logs': map<nat, Log>, q: SequenceState) {
    LogOf(logs', q) == LogOf(logs, q)
  }

  lemma {:induction false} NotedLog(logs: map<nat, Log>, active: seq<SequenceState>, i: nat, t: Token, j: nat)
    requires Rooted(active) && i < |active| && j < |active|
    ensures if i == j then Wrote(logs, Noted(logs, active[i], t), active[j], t)
        else SameLog(logs, Noted(logs, active[i], t), active[j])
  {
  }

  /** One write after another at the same position. */
  lemma {:induction false} WroteTwice(logs: map<nat, Log>, logs': map<nat, Log>, logs'': map<nat, Log>,
                                      q: SequenceState, t: Token, t': Token)
    ensures SameLog(logs, logs', q) && SameLog(logs', logs'', q) ==> SameLog(logs, logs'', q)
    ensures Wrote(logs, logs', q, t) && SameLog(logs', logs'', q) ==> Wrote(logs, logs'', q, t)
    ensures SameLog(logs, logs', q) && Wrote(logs', logs'', q, t') ==> Wrote(logs, logs'', q, t')
    ensures Wrote(logs, logs', q, t) && Wrote(logs', logs'', q, t') ==> Wrote(logs, logs'', q, t')
  {
  }

  ghost predicate LayerWrote(logs: map<nat, Log>, logs': map<nat, Log>, q: SequenceState, t: Token, written: bool) {
    if written then Wrote(logs, logs', q, t) else SameLog(logs, logs', q)
  }

  lemma {:induction false} LayerLogsNext(logs: map<nat, Log>, active: seq<SequenceState>, o: Oracle, layer: nat,
                                         prev: nat, n: nat)
    requires Rooted(active) && n == prev + 1 <= |active|
    ensures LayerLogs(logs, active, o, layer, n)
         == Noted(LayerLogs(logs, active, o, layer, prev), active[prev], TokenAt(o, layer, prev))
  {
  }

  /** After a layer, each of the first `n` sequences has written its token of that layer. */
  lemma {:induction false} LayerLog(logs: map<nat, Log>, active: seq<SequenceState>, o: Oracle, layer: nat, n: nat,
                                    j: nat)
    requires Rooted(active) && n <= |active| && j < |active|
    ensures LayerWrote(logs, LayerLogs(logs, active, o, layer, n), active[j], TokenAt(o, layer, j), j < n)
    decreases n
  {
    if n > 0 {
      var prev, t := n - 1, TokenAt(o, layer, j);
      LayerLog(logs, active, o, layer, prev, j);
      LayerLogsNext(logs, active, o, layer, prev, n);
      NotedLog(LayerLogs(logs, active, o, layer, prev), active, prev, TokenAt(o, layer, prev), j);
      WroteTwice(logs, LayerLogs(logs, active, o, layer, prev), LayerLogs(logs, active, o, layer, n), active[j], t, t);
    }
  }

  /** What `q` has written at its current position are the codes of `k` and `v`. */
  ghost predicate LoggedCodes(logs: map<nat, Log>, q: SequenceState, k: seq<real>, v: seq<real>) {
    q.numTokens in LogOf(logs, q) && IsTokenOf(LogOf(logs, q)[q.numTokens], k, v)
  }

  /** After all layers, each sequence has written its token of the last layer. */
  lemma {:induction false} LayersLog(logs: map<nat, Log>, active: seq<SequenceState>, o: Oracle, layers: nat, j: nat)
    requires Rooted(active) && 0 < layers && j < |active|
    ensures Wrote(logs, LayersLogs(logs, active, o, layers), active[j], TokenAt(o, layers - 1, j))
    ensures LoggedCodes(LayersLogs(logs, active, o, layers), active[j], o.k(layers - 1, j), o.v(layers - 1, j))
    decreases layers
  {
    TokenMeans(o, layers - 1, j);
    var before, q, t := LayersLogs(logs, active, o, layers - 1), active[j], TokenAt(o, layers - 1, j);
    LayerLog(before, active, o, layers - 1, |active|, j);
    if layers > 1 {
      LayersLog(logs, active, o, layers - 1, j);
      WroteTwice(logs, before, LayersLogs(logs, active, o, layers), q, TokenAt(o, layers - 2, j), t);
    }
  }

  // ---------- storing ----------

  /** Sequence `i` stores its token of one layer. */
  ghost function Stored(g: Geometry, m: Memory, o: Oracle, layer: nat, i: nat): (m': Memory)
    requires CanStore(g, m, o) && i < |m.s.active|
    ensures MemoryOk(g, m') && m'.s == m.s && m'.since == m.since
    ensures PlacedAt(g, m.s.active[i]) && FitsToken(g, TokenAt(o, layer, i)) && m.s.active[i].blockTable != []
    ensures var q := m.s.active[i];
            && m'.slab == WriteToken(g, m.slab, q.PhysicalPage(q.numTokens), q.SlotInPage(q.numTokens),
              TokenAt(o, layer, i))
            && m'.logs == Noted(m.logs, q, TokenAt(o, layer, i))
  {
    assert PlacedAt(g, m.s.active[i]) && IsResident(m.s.active[i]);
    ShapedFits(g, o, layer, i);
    WriteKeeps(g, m, i, TokenAt(o, layer, i));
    Writing(g, m, i, TokenAt(o, layer, i))
  }

  /** The memory after the first `n` sequences have stored their tokens of one layer. */
  ghost function LayerStored(g: Geometry, m: Memory, o: Oracle, layer: nat, n: nat): (m': Memory)
    requires CanStore(g, m, o) && Rooted(m.s.active) && n <= |m.s.active|
    ensures MemoryOk(g, m') && m'.s == m.s && m'.since == m.since
    ensures m'.slab == LayerSlab(g, m.slab, m.s.active, o, layer, n)
    ensures m'.logs == LayerLogs(m.logs, m.s.active, o, layer, n)
    decreases n
  {
    if n == 0 then m else Stored(g, LayerStored(g, m, o, layer, n - 1), o, layer, n - 1)
  }

  /** The memory after `layers` layers. */
  ghost function LayersStored(g: Geometry, m: Memory, o: Oracle, layers: nat): (m': Memory)
    requires CanStore(g, m, o) && Rooted(m.s.active)
    ensures MemoryOk(g, m') && m'.s == m.s && m'.since == m.since
    ensures m'.slab == LayersSlab(g, m.slab, m.s.active, o, layers)
    ensures m'.logs == LayersLogs(m.logs, m.s.active, o, layers)
    decreases layers
  {
    if layers == 0 then m else LayerStored(g, LayersStored(g, m, o, layers - 1), o, layers - 1, |m.s.active|)
  }

  function Applied(m: Memory, outs: seq<Output>, n: nat): (m': Memory)
    requires n <= |outs|
    ensures m' == m.(s := m.s.(active := ApplyOutputs(m.s.active, outs, n)))
    decreases n
  {
    if n == 0 then m else Applying(Applied(m, outs, n - 1), outs[n - 1])
  }

  lemma {:induction false} AppliedStaysOk(g: Geometry, m: Memory, outs: seq<Output>, n: nat)
    requires MemoryOk(g, m) && n <= |outs|
    ensures MemoryOk(g, Applied(m, outs, n))
    decreases n
  {
    if n > 0 {
      AppliedStaysOk(g, m, outs, n - 1);
      ApplyKeeps(g, Applied(m, outs, n - 1), outs[n - 1]);
    }
  }

  lemma {:induction false} SweptOk(g: Geometry, m: Memory, c: Sweep)
    requires MemoryOk(g, m) && c.s == m.s && c.i <= |c.s.active|
    ensures MemoryOk(g, m.(s := SweepAll(c).s))
    decreases |c.s.active| - c.i
  {
    if c.i < |c.s.active| {
      SweepKeeps(g, m, c.i);
      SweptOk(g, Sweeping(m, c.i), SweepStep(c));
    } else {
      assert m.(s := c.s) == m;
    }
  }

  /** Every running sequence of `p` has written its token of the last layer. */
  ghost predicate AllWrote(p: Memory, m': Memory, o: Oracle, layers: nat) {
    layers > 0 ==> forall j | 0 <= j < |p.s.active| ::
        && Wrote(p.logs, m'.logs, p.s.active[j], TokenAt(o, layers - 1, j))
        && LoggedCodes(m'.logs, p.s.active[j], o.k(layers - 1, j), o.v(layers - 1, j))
  }

  lemma {:induction false} LayersWrote(p: Memory, m': Memory, o: Oracle, layers: nat)
    requires Rooted(p.s.active) && m'.logs == LayersLogs(p.logs, p.s.active, o, layers)
    ensures AllWrote(p, m', o, layers)
  {
    if layers > 0 {
      forall j | 0 <= j < |p.s.active|
        ensures Wrote(p.logs, m'.logs, p.s.active[j], TokenAt(o, layers - 1, j))
        ensures LoggedCodes(m'.logs, p.s.active[j], o.k(layers - 1, j), o.v(layers - 1, j))
      {
        LayersLog(p.logs, p.s.active, o, layers, j);
      }
    }
  }

  /** Ready for a step. */
  ghost predicate Ready(g: Geometry, m: Memory) {
    MemoryOk(g, m) && Conservation.WellFormed(m.s, g.pages) && Covered(m.s)
  }

  /** Inside a step, when `done` layers have been stored. */
  ghost function MidStep(g: Geometry, m: Memory, o: Oracle, done: nat): (m': Memory)
    requires Ready(g, m) && Shaped(o, g)
    ensures MemoryOk(g, m') && m'.s == Promote(m.s) && m'.since == Promoted(m).since
    ensures Placed(g, Promote(m.s).active) && m'.slab == LayersSlab(g, m.slab, Promote(m.s).active, o, done)
    ensures AllWrote(Promoted(m), m', o, done)
  {
    PromoteKeeps(m.s, g.pages);
    PromotedOk(g, m);
    var p := Promoted(m);
    CoveredIsPlaced(g, p.s);
    BatchRooted(p.s, g.pages);
    var m' := LayersStored(g, p, o, done);
    LayersWrote(p, m', o, done);
    m'
  }

  /** The engine's step on queues, slab and logs: every running sequence writes one token, at its current position,
      and the slab stays in agreement with what each resident sequence wrote. */
  ghost function StepMemory(g: Geometry, m: Memory, o: Oracle, layers: nat): (m': Memory)
    requires Ready(g, m) && Shaped(o, g)
    ensures MemoryOk(g, m') && m'.s == Step(m.s, o.logits).s && m'.since == Promoted(m).since
    ensures Placed(g, Promote(m.s).active) && m'.slab == StepSlab(g, m.slab, Promote(m.s).active, o, layers)
    ensures AllWrote(Promoted(m), m', o, layers)
  {
    var w := MidStep(g, m, o, layers);
    if w.s.active == [] then
      PromotedOk(g, m);
      Promoted(m)
    else
      var outs := Outputs(w.s.active, o.logits);
      var a := Applied(w, outs, |outs|);
      AppliedStaysOk(g, w, outs, |outs|);
      SweptOk(g, a, Sweep(a.s, 0, []));
      a.(s := Cleanup(a.s).s)
  }

  /** From a ready memory, one step with some oracle or one arrival. */
  ghost predicate IsStep(g: Geometry, m: Memory, m': Memory, layers: nat) {
    Ready(g, m) ==> IsArrival(m, m') || exists o :: Shaped(o, g) && m' == StepMemory(g, m, o, layers)
  }

  lemma {:induction false} StepStaysReady(g: Geometry, m: Memory, m': Memory, layers: nat)
    requires Ready(g, m) && IsStep(g, m, m', layers)
    ensures Ready(g, m')
  {
    if IsArrival(m, m') {
      EventKeeps(g, m, m');
    } else {
      var o :| Shaped(o, g) && m' == StepMemory(g, m, o, layers);
      StepKeeps(m.s, g.pages, o.logits);
    }
  }

  /** From an empty pool, through any number of steps and arrivals, memory agrees with the logs. */
  lemma {:induction false} AlwaysReady(g: Geometry, slab: seq<i8>, ms: seq<Memory>, layers: nat, n: nat)
    requires g.Valid() && |slab| == g.SlabLen() && ms != [] && ms[0] == Empty(g, slab)
    requires forall k | 0 < k < |ms| :: IsStep(g, ms[k - 1], ms[k], layers)
    requires n < |ms|
    ensures Ready(g, ms[n])
  {
    if n > 0 {
      AlwaysReady(g, slab, ms, layers, n - 1);
      StepStaysReady(g, ms[n - 1], ms[n], layers);
    }
  }
}
