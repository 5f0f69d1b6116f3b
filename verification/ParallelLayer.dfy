/** The parallel map of one layer, on the engine's own work: each worker stores the K and V codes of its token and
    then loads what attention reads. Whatever the interleaving, the slab ends as the sequential loop leaves it. */
module ParallelLayer {
  import opened Arithmetic
  import opened PagePools
  import opened Batching
  import opened Conservation
  import opened KvLayout
  import opened PagedMemory
  import opened Engine
  import opened ParallelStep

  // ---------- the work of one sequence ----------

  function SectionStores(base: nat, codes: seq<i8>): (stores: seq<Store>)
    ensures |stores| == |codes| && forall j | 0 <= j < |codes| :: stores[j] == Store(base + j, codes[j])
  {
    seq(|codes|, j requires 0 <= j < |codes| => Store(base + j, codes[j]))
  }

  /** The K section of the token, and then its V section. */
  function TokenStores(g: Geometry, q: SequenceState, t: Token): seq<Store>
    requires HasRoom(q)
  {
    var page, slot := q.PhysicalPage(q.numTokens), q.SlotInPage(q.numTokens);
    SectionStores(WriteAddr(g, page, false, slot, 0), t.k) + SectionStores(WriteAddr(g, page, true, slot, 0), t.v)
  }

  /** One element that attention reads. The heads run in parallel, so the order of the reads is left open. */
  datatype Read = Read(pos: nat, isV: bool, head: nat, d: nat)

  ghost predicate IsRead(g: Geometry, heads: nat, q: SequenceState, r: Read) {
    r.pos <= q.numTokens && r.head < heads && r.d < g.headDim
  }

  lemma {:induction false} BlockKnown(q: SequenceState, pos: nat)
    requires HasRoom(q) && pos <= q.numTokens
    ensures pos / PAGE_TOKENS < |q.blockTable|
  {
  }

  ghost function AddrOf(g: Geometry, heads: nat, q: SequenceState, r: Read): nat
    requires HasRoom(q) && IsRead(g, heads, q, r)
  {
    BlockKnown(q, r.pos);
    ReadAddr(g, heads, q.PhysicalPage(r.pos), r.isV, q.SlotInPage(r.pos), r.head, r.d)
  }

  ghost function LoadsOf(g: Geometry, heads: nat, q: SequenceState, rs: seq<Read>): (loads: seq<nat>)
    requires HasRoom(q) && forall k | 0 <= k < |rs| :: IsRead(g, heads, q, rs[k])
    ensures |loads| == |rs| && forall k | 0 <= k < |rs| :: loads[k] == AddrOf(g, heads, q, rs[k])
  {
    seq(|rs|, k requires 0 <= k < |rs| => AddrOf(g, heads, q, rs[k]))
  }

  ghost function LayerTask(g: Geometry, heads: nat, q: SequenceState, t: Token, rs: seq<Read>): Task
    requires HasRoom(q) && forall k | 0 <= k < |rs| :: IsRead(g, heads, q, rs[k])
  {
    Task(TokenStores(g, q, t), LoadsOf(g, heads, q, rs))
  }

  lemma {:induction false} LayerTaskOwn(g: Geometry, heads: nat, q: SequenceState, t: Token, rs: seq<Read>)
    requires HasRoom(q) && FitsToken(g, t) && forall k | 0 <= k < |rs| :: IsRead(g, heads, q, rs[k])
    ensures IsLayerTask(g, heads, q, LayerTask(g, heads, q, t, rs))
  {
    var task := LayerTask(g, heads, q, t, rs);
    var page, slot := q.PhysicalPage(q.numTokens), q.SlotInPage(q.numTokens);
    forall k | 0 <= k < |task.stores| ensures IsOwnStore(g, q, task.stores[k].addr) {
      if k < |t.k| {
        assert task.stores[k].addr == WriteAddr(g, page, false, slot, k);
      } else {
        assert task.stores[k].addr == WriteAddr(g, page, true, slot, k - |t.k|);
      }
    }
    forall k | 0 <= k < |task.loads| ensures IsOwnLoad(g, heads, q, task.loads[k]) {
      var r := rs[k];
      BlockKnown(q, r.pos);
      assert task.loads[k] == ReadAddr(g, heads, q.PhysicalPage(r.pos), r.isV, q.SlotInPage(r.pos), r.head, r.d);
    }
  }

  /** Every load lies in the slab. */
  ghost predicate StaysInSlab(g: Geometry, heads: nat, q: SequenceState, rs: seq<Read>) {
    HasRoom(q) && forall k | 0 <= k < |rs| :: IsRead(g, heads, q, rs[k]) && AddrOf(g, heads, q, rs[k]) < g.SlabLen()
  }

  /** So does every store, since it is on a page of the sequence. */
  lemma {:induction false} LayerTaskWithin(g: Geometry, heads: nat, s: State, i: nat, t: Task)
    requires g.Valid() && Conserved(s, g.pages) && QueuesOk(s) && i < |s.active|
        && IsLayerTask(g, heads, s.active[i], t)
    requires forall k | 0 <= k < |t.loads| :: t.loads[k] < g.SlabLen()
    ensures t.Within(g.SlabLen())
  {
    assert IsResident(s.active[i]);
    forall k | 0 <= k < |t.stores| ensures t.stores[k].addr < g.SlabLen() {
      assert t.Writes(t.stores[k].addr);
      WritesOwnPages(g, heads, s.active[i], t, t.stores[k].addr);
      OwnPageInSlab(g, s, i, t.stores[k].addr);
    }
  }

  lemma {:induction false} OwnPageInSlab(g: Geometry, s: State, i: nat, a: nat)
    requires g.Valid() && Conserved(s, g.pages) && i < |s.active| && OnPageOf(g, s.active[i], a)
    ensures a < g.SlabLen()
  {
    var p :| p in s.active[i].physicalPages && InPage(g, p, a);
    Exclusive(s, g.pages, i, p);
    PageInSlab(g, p);
  }

  /** When the sections fit in a page, every load does too. */
  lemma {:induction false} FittingReadsStay(g: Geometry, heads: nat, s: State, i: nat, rs: seq<Read>)
    requires g.Valid() && FitsPage(g, heads) && Conserved(s, g.pages) && QueuesOk(s)
    requires i < |s.active| && PlacedAt(g, s.active[i]) && AreReadsOf(g, heads, s.active[i], rs)
    ensures StaysInSlab(g, heads, s.active[i], rs)
  {
    var q := s.active[i];
    assert IsResident(q);
    forall k | 0 <= k < |rs| ensures AddrOf(g, heads, q, rs[k]) < g.SlabLen() {
      var r := rs[k];
      BlockKnown(q, r.pos);
      ReadStays(g, heads, q.PhysicalPage(r.pos), r.isV, q.SlotInPage(r.pos), r.head, r.d);
      assert OnPageOf(g, q, AddrOf(g, heads, q, r)) by {
        assert q.PhysicalPage(r.pos) in q.physicalPages && InPage(g, q.PhysicalPage(r.pos), AddrOf(g, heads, q, r));
      }
      OwnPageInSlab(g, s, i, AddrOf(g, heads, q, r));
    }
  }

  // ---------- one worker alone ----------

  lemma {:induction false} SpliceMore(slab: seq<i8>, base: nat, codes: seq<i8>, n: nat)
    requires 0 < n <= |codes| && base + |codes| <= |slab|
    ensures Splice(slab, base, codes[..n - 1])[base + (n - 1) := codes[n - 1]] == Splice(slab, base, codes[..n])
  {
  }

  /** The first `n` stores of a task that begin a section. */
  lemma {:induction false} AloneSection(slab: seq<i8>, t: Task, from: nat, base: nat, codes: seq<i8>, n: nat)
    requires t.Within(|slab|) && from + |codes| <= |t.stores| && n <= |codes| && base + |codes| <= |slab|
    requires t.stores[from..from + |codes|] == SectionStores(base, codes)
    ensures Alone(slab, t, from + n).slab == Splice(Alone(slab, t, from).slab, base, codes[..n])
    decreases n
  {
    if n > 0 {
      AloneSection(slab, t, from, base, codes, n - 1);
      assert t.stores[from + (n - 1)] == t.stores[from..from + |codes|][n - 1];
      SpliceMore(Alone(slab, t, from).slab, base, codes, n);
    }
  }

  lemma {:induction false} AloneWhole(slab: seq<i8>, t: Task, from: nat, base: nat, codes: seq<i8>, to: nat)
    requires t.Within(|slab|) && to == from + |codes| <= |t.stores| && base + |codes| <= |slab|
    requires t.stores[from..to] == SectionStores(base, codes)
    ensures Alone(slab, t, to).slab == Splice(Alone(slab, t, from).slab, base, codes)
  {
    AloneSection(slab, t, from, base, codes, |codes|);
    assert codes[..|codes|] == codes;
  }

  lemma {:induction false} AloneSections(slab: seq<i8>, t: Task, kBase: nat, k: seq<i8>, vBase: nat, v: seq<i8>)
    requires t.Within(|slab|) && kBase + |k| <= |slab| && vBase + |v| <= |slab|
    requires t.stores == SectionStores(kBase, k) + SectionStores(vBase, v)
    ensures Alone(slab, t, |t.stores|).slab == Splice(Splice(slab, kBase, k), vBase, v)
  {
    var zero := 0;
    assert t.stores[zero..|k|] == SectionStores(kBase, k);
    assert t.stores[|k|..|t.stores|] == SectionStores(vBase, v);
    AloneWhole(slab, t, zero, kBase, k, |k|);
    AloneWhole(slab, t, |k|, vBase, v, |t.stores|);
  }

  /** The stores of a worker alone are the write of its token. */
  lemma {:induction false} AloneStores(g: Geometry, heads: nat, slab: seq<i8>, q: SequenceState, t: Token,
                                       rs: seq<Read>)
    requires g.Valid() && |slab| == g.SlabLen() && PlacedAt(g, q) && FitsToken(g, t)
    requires forall k | 0 <= k < |rs| :: IsRead(g, heads, q, rs[k])
    requires LayerTask(g, heads, q, t, rs).Within(|slab|)
    ensures var task := LayerTask(g, heads, q, t, rs);
            Alone(slab, task, |task.stores|).slab
              == WriteToken(g, slab, q.PhysicalPage(q.numTokens), q.SlotInPage(q.numTokens), t)
  {
    var page, slot := q.PhysicalPage(q.numTokens), q.SlotInPage(q.numTokens);
    SectionInSlab(g, page, false, slot);
    SectionInSlab(g, page, true, slot);
    AloneSections(slab, LayerTask(g, heads, q, t, rs), WriteAddr(g, page, false, slot, 0), t.k,
      WriteAddr(g, page, true, slot, 0), t.v);
  }

  /** Loads leave the slab alone and collect its bytes in order. */
  lemma {:induction false} AloneLoads(slab: seq<i8>, t: Task, n: nat)
    requires t.Within(|slab|) && n <= |t.loads|
    ensures var s := Alone(slab, t, |t.stores| + n);
            && s.slab == Alone(slab, t, |t.stores|).slab
            && |s.got| == n && forall k | 0 <= k < n :: s.got[k] == s.slab[t.loads[k]]
    decreases n
  {
    if n > 0 {
      AloneLoads(slab, t, n - 1);
    } else {
      AloneStoresLoadNothing(slab, t, |t.stores|);
    }
  }

  lemma {:induction false} LoadsKeepSlab(slab: seq<i8>, t: Task, n: nat, len: nat)
    requires t.Within(|slab|) && n == |t.stores| && len == t.Len()
    ensures Alone(slab, t, len).slab == Alone(slab, t, n).slab
  {
    AloneLoads(slab, t, |t.loads|);
  }

  lemma {:induction false} AloneStoresLoadNothing(slab: seq<i8>, t: Task, n: nat)
    requires t.Within(|slab|) && n <= |t.stores|
    ensures Alone(slab, t, n).got == []
    decreases n
  {
    if n > 0 {
      AloneStoresLoadNothing(slab, t, n - 1);
    }
  }

  // ---------- one worker after another ----------

  function Turn(i: nat, n: nat): (schedule: seq<nat>)
    ensures |schedule| == n && forall k | 0 <= k < n :: schedule[k] == i
  {
    seq(n, _ => i)
  }

  /** The first `n` workers, one after another. */
  ghost function Turns(ts: seq<Task>, n: nat): (schedule: seq<nat>)
    requires n <= |ts|
    ensures forall k | 0 <= k < |schedule| :: schedule[k] < n
    decreases n
  {
    if n == 0 then [] else Turns(ts, n - 1) + Turn(n - 1, ts[n - 1].Len())
  }

  lemma {:induction false} ExecuteAppend(ts: seq<Task>, m: Machine, a: seq<nat>, b: seq<nat>)
    requires Shape(ts, m)
    requires (forall k | 0 <= k < |a| :: a[k] < |ts|) && (forall k | 0 <= k < |b| :: b[k] < |ts|)
    ensures Execute(ts, m, a + b) == Execute(ts, Execute(ts, m, a), b)
    decreases |b|
  {
    if b == [] {
      assert a + b == a;
    } else {
      var b' := b[..|b| - 1];
      assert (a + b)[..|a + b| - 1] == a + b';
      ExecuteAppend(ts, m, a, b');
    }
  }

  /** A worker that has not begun takes `n` turns in a row. */
  lemma {:induction false} TakesTurns(ts: seq<Task>, m: Machine, i: nat, n: nat)
    requires Shape(ts, m) && i < |ts| && m.pc[i] == 0 && n <= ts[i].Len()
    ensures var m' := Execute(ts, m, Turn(i, n));
            m'.pc == m.pc[i := n] && m'.slab == Alone(m.slab, ts[i], n).slab
    decreases n
  {
    if n > 0 {
      TakesTurns(ts, m, i, n - 1);
      assert Turn(i, n)[..n - 1] == Turn(i, n - 1);
    }
  }

  ghost function AfterTurns(ts: seq<Task>, m: Machine, n: nat): (m': Machine)
    requires Shape(ts, m) && n <= |ts|
    ensures Shape(ts, m') && |m'.slab| == |m.slab|
    decreases n
  {
    if n == 0 then m else Execute(ts, AfterTurns(ts, m, n - 1), Turn(n - 1, ts[n - 1].Len()))
  }

  lemma {:induction false} NextScheduled(ts: seq<Task>, m: Machine, n: nat)
    requires Shape(ts, m) && n < |ts|
    ensures Execute(ts, m, Turns(ts, n + 1)) == Execute(ts, Execute(ts, m, Turns(ts, n)), Turn(n, ts[n].Len()))
  {
    ExecuteAppend(ts, m, Turns(ts, n), Turn(n, ts[n].Len()));
  }

  lemma {:induction false} TurnsScheduled(ts: seq<Task>, m: Machine, n: nat)
    requires Shape(ts, m) && n <= |ts|
    ensures Execute(ts, m, Turns(ts, n)) == AfterTurns(ts, m, n)
    decreases n
  {
    if n > 0 {
      TurnsScheduled(ts, m, n - 1);
      NextScheduled(ts, m, n - 1);
    }
  }

  /** The first `n` workers are done, and the others have not begun. */
  ghost predicate DoneUpTo(ts: seq<Task>, m: Machine, n: nat)
    requires Shape(ts, m)
  {
    forall i | 0 <= i < |ts| :: m.pc[i] == if i < n then ts[i].Len() else 0
  }

  lemma {:induction false} NextTurn(ts: seq<Task>, m: Machine, i: nat)
    requires Shape(ts, m) && i < |ts|
    ensures DoneUpTo(ts, m, i) ==> DoneUpTo(ts, Execute(ts, m, Turn(i, ts[i].Len())), i + 1)
    ensures DoneUpTo(ts, m, i) ==> Execute(ts, m, Turn(i, ts[i].Len())).slab == Alone(m.slab, ts[i], ts[i].Len()).slab
  {
    if DoneUpTo(ts, m, i) {
      TakesTurns(ts, m, i, ts[i].Len());
    }
  }

  lemma {:induction false} OneMoreTurn(ts: seq<Task>, m: Machine, n: nat)
    requires Shape(ts, m) && n < |ts|
    ensures DoneUpTo(ts, AfterTurns(ts, m, n), n) ==> DoneUpTo(ts, AfterTurns(ts, m, n + 1), n + 1)
  {
    NextTurn(ts, AfterTurns(ts, m, n), n);
  }

  lemma {:induction false} TurnsTaken(ts: seq<Task>, m: Machine, n: nat)
    requires Shape(ts, m) && n <= |ts|
    ensures DoneUpTo(ts, m, 0) ==> DoneUpTo(ts, AfterTurns(ts, m, n), n)
    decreases n
  {
    if n > 0 {
      TurnsTaken(ts, m, n - 1);
      OneMoreTurn(ts, m, n - 1);
    }
  }

  /** Each slab is what the next worker, alone, makes of the one before. */
  ghost predicate Stages(ts: seq<Task>, slabs: seq<seq<i8>>) {
    && |slabs| == |ts| + 1
    && forall k | 0 <= k < |ts| :: ts[k].Within(|slabs[k]|) && slabs[k + 1] == Alone(slabs[k], ts[k], ts[k].Len()).slab
  }

  lemma {:induction false} StagesInTurn(ts: seq<Task>, m: Machine, slabs: seq<seq<i8>>, n: nat)
    requires Shape(ts, m) && n <= |ts| && DoneUpTo(ts, m, 0) && Stages(ts, slabs) && slabs[0] == m.slab
    ensures forall k: nat | k <= n :: AfterTurns(ts, m, k).slab == slabs[k]
    decreases n
  {
    if n > 0 {
      StagesInTurn(ts, m, slabs, n - 1);
      TurnsTaken(ts, m, n - 1);
      NextTurn(ts, AfterTurns(ts, m, n - 1), n - 1);
    }
  }

  // ---------- the layer ----------

  ghost predicate AreReads(g: Geometry, heads: nat, active: seq<SequenceState>, rss: seq<seq<Read>>) {
    |rss| == |active| && forall i | 0 <= i < |active| :: AreReadsOf(g, heads, active[i], rss[i])
  }

  ghost predicate AreReadsOf(g: Geometry, heads: nat, q: SequenceState, rs: seq<Read>) {
    forall k | 0 <= k < |rs| :: IsRead(g, heads, q, rs[k])
  }

  /** The batch is placed, and what its workers load is in the slab. */
  ghost predicate LayerReady(g: Geometry, heads: nat, s: State, slab: seq<i8>, o: Oracle, rss: seq<seq<Read>>) {
    && g.Valid() && |slab| == g.SlabLen()
    && Conserved(s, g.pages) && QueuesOk(s) && Placed(g, s.active)
    && Shaped(o, g) && AreReads(g, heads, s.active, rss)
    && forall i | 0 <= i < |s.active| :: StaysInSlab(g, heads, s.active[i], rss[i])
  }

  ghost function TaskOf(g: Geometry, heads: nat, active: seq<SequenceState>, o: Oracle, layer: nat,
                        rss: seq<seq<Read>>, i: nat): Task
    requires Placed(g, active) && AreReads(g, heads, active, rss) && i < |active|
  {
    assert PlacedAt(g, active[i]) && AreReadsOf(g, heads, active[i], rss[i]);
    LayerTask(g, heads, active[i], TokenAt(o, layer, i), rss[i])
  }

  /** The workers of one layer. */
  ghost function LayerTasks(g: Geometry, heads: nat, active: seq<SequenceState>, o: Oracle, layer: nat,
                            rss: seq<seq<Read>>): (ts: seq<Task>)
    requires Placed(g, active) && AreReads(g, heads, active, rss)
    ensures |ts| == |active| && forall i | 0 <= i < |active| :: ts[i] == TaskOf(g, heads, active, o, layer, rss, i)
  {
    seq(|active|, i requires 0 <= i < |active| => TaskOf(g, heads, active, o, layer, rss, i))
  }

  /** The engine's workers are workers of a layer. */
  lemma {:induction false} EngineTaskOf(g: Geometry, heads: nat, s: State, slab: seq<i8>, o: Oracle, layer: nat,
                                        rss: seq<seq<Read>>, i: nat)
    requires LayerReady(g, heads, s, slab, o, rss) && i < |s.active|
    ensures var t := TaskOf(g, heads, s.active, o, layer, rss, i);
            IsLayerTask(g, heads, s.active[i], t) && t.Within(g.SlabLen())
  {
    assert PlacedAt(g, s.active[i]) && AreReadsOf(g, heads, s.active[i], rss[i])
        && StaysInSlab(g, heads, s.active[i], rss[i]);
    LayerTaskOwn(g, heads, s.active[i], TokenAt(o, layer, i), rss[i]);
    LayerTaskWithin(g, heads, s, i, TaskOf(g, heads, s.active, o, layer, rss, i));
  }

  /** They stay in the slab, their stores are apart, and they are independent if the layout is free of races. */
  lemma {:induction false} EngineTasksQualify(g: Geometry, heads: nat, s: State, slab: seq<i8>, o: Oracle, layer: nat,
                                              rss: seq<seq<Read>>)
    requires LayerReady(g, heads, s, slab, o, rss)
    ensures var ts := LayerTasks(g, heads, s.active, o, layer, rss);
            Shape(ts, Start(ts, slab)) && Apart(ts) && (RaceFree(g, heads) ==> Independent(ts))
  {
    var ts := LayerTasks(g, heads, s.active, o, layer, rss);
    forall i | 0 <= i < |ts| ensures IsLayerTask(g, heads, s.active[i], ts[i]) && ts[i].Within(g.SlabLen()) {
      assert ts[i] == TaskOf(g, heads, s.active, o, layer, rss, i);
      EngineTaskOf(g, heads, s, slab, o, layer, rss, i);
    }
    LayerStoresApart(g, heads, s, ts);
    if RaceFree(g, heads) {
      LayerTasksIndependent(g, heads, s, ts);
    }
  }

  /** Every worker, alone, does what the sequential loop does for its sequence. */
  lemma {:induction false} WorkerAlone(g: Geometry, heads: nat, slab: seq<i8>, q: SequenceState, t: Token,
                                       rs: seq<Read>)
    requires g.Valid() && |slab| == g.SlabLen() && PlacedAt(g, q) && FitsToken(g, t) && AreReadsOf(g, heads, q, rs)
    requires LayerTask(g, heads, q, t, rs).Within(|slab|)
    ensures var task := LayerTask(g, heads, q, t, rs);
            Alone(slab, task, task.Len()).slab
              == WriteToken(g, slab, q.PhysicalPage(q.numTokens), q.SlotInPage(q.numTokens), t)
  {
    var task := LayerTask(g, heads, q, t, rs);
    AloneStores(g, heads, slab, q, t, rs);
    LoadsKeepSlab(slab, task, |task.stores|, task.Len());
  }

  lemma {:induction false} LayerSlabNext(g: Geometry, heads: nat, slab: seq<i8>, active: seq<SequenceState>, o: Oracle,
                                         layer: nat, rss: seq<seq<Read>>, n: nat)
    requires CanStoreLayer(g, slab, active, o) && AreReads(g, heads, active, rss) && n < |active|
    requires TaskOf(g, heads, active, o, layer, rss, n).Within(|slab|)
    ensures var t := TaskOf(g, heads, active, o, layer, rss, n);
            LayerSlab(g, slab, active, o, layer, n + 1)
              == Alone(LayerSlab(g, slab, active, o, layer, n), t, t.Len()).slab
  {
    assert PlacedAt(g, active[n]) && AreReadsOf(g, heads, active[n], rss[n]);
    WorkerAlone(g, heads, LayerSlab(g, slab, active, o, layer, n), active[n], TokenAt(o, layer, n), rss[n]);
  }

  /** The slab of the sequential loop, after each sequence. */
  lemma {:induction false} LayerInStages(g: Geometry, heads: nat, slab: seq<i8>, active: seq<SequenceState>, o: Oracle,
                                         layer: nat, rss: seq<seq<Read>>, ts: seq<Task>)
    requires CanStoreLayer(g, slab, active, o) && AreReads(g, heads, active, rss)
    requires ts == LayerTasks(g, heads, active, o, layer, rss) && Shape(ts, Start(ts, slab))
    ensures Stages(ts, LayerStages(g, slab, active, o, layer))
  {
    var slabs := LayerStages(g, slab, active, o, layer);
    forall k | 0 <= k < |ts|
      ensures ts[k].Within(|slabs[k]|) && slabs[k + 1] == Alone(slabs[k], ts[k], ts[k].Len()).slab
    {
      assert ts[k] == TaskOf(g, heads, active, o, layer, rss, k);
      LayerSlabNext(g, heads, slab, active, o, layer, rss, k);
    }
  }

  /** One worker after another is a complete schedule, and leaves the slab as the sequential loop does. */
  lemma {:induction false} InTurn(g: Geometry, heads: nat, slab: seq<i8>, active: seq<SequenceState>, o: Oracle,
                                  layer: nat, rss: seq<seq<Read>>, ts: seq<Task>)
    requires CanStoreLayer(g, slab, active, o) && AreReads(g, heads, active, rss)
    requires ts == LayerTasks(g, heads, active, o, layer, rss) && Shape(ts, Start(ts, slab))
    ensures var m := Execute(ts, Start(ts, slab), Turns(ts, |ts|));
            Complete(ts, m) && m.slab == LayerSlab(g, slab, active, o, layer, |active|)
  {
    var m := Start(ts, slab);
    LayerInStages(g, heads, slab, active, o, layer, rss, ts);
    TurnsScheduled(ts, m, |ts|);
    TurnsTaken(ts, m, |ts|);
    StagesInTurn(ts, m, LayerStages(g, slab, active, o, layer), |ts|);
  }

  /** What a finished worker has loaded is what the final slab holds. */
  lemma {:induction false} LoadedFromFinal(ts: seq<Task>, slab: seq<i8>, m: Machine, i: nat)
    requires Shape(ts, m) && |m.slab| == |slab| && AsIfAlone(ts, slab, m) && Complete(ts, m) && i < |ts|
    ensures |m.got[i]| == |ts[i].loads| && forall k | 0 <= k < |ts[i].loads| :: m.got[i][k] == m.slab[ts[i].loads[k]]
  {
    var t := ts[i];
    AloneLoads(slab, t, |t.loads|);
    assert m.got[i] == Alone(slab, t, m.pc[i]).got;
    forall k | 0 <= k < |t.loads| ensures m.got[i][k] == m.slab[t.loads[k]] {
      assert t.Touches(t.loads[k]);
    }
  }

  /** `m` has the slab of the sequential loop, and every worker has loaded that slab's bytes at its reads. */
  ghost predicate IsLayerOutcome(g: Geometry, heads: nat, s: State, slab: seq<i8>, o: Oracle, layer: nat,
                                 rss: seq<seq<Read>>, m: Machine)
    requires LayerReady(g, heads, s, slab, o, rss)
  {
    && m.slab == LayerSlab(g, slab, s.active, o, layer, |s.active|)
    && |m.got| == |s.active|
    && forall i | 0 <= i < |s.active| :: Loaded(g, heads, m.slab, s.active[i], rss[i], m.got[i])
  }

  /** `got` is what the slab holds at each read of `q`. */
  ghost predicate Loaded(g: Geometry, heads: nat, slab: seq<i8>, q: SequenceState, rs: seq<Read>, got: seq<i8>) {
    && HasRoom(q) && |got| == |rs|
    && forall k | 0 <= k < |rs| :: LoadedAt(g, heads, slab, q, rs[k], got[k])
  }

  ghost predicate LoadedAt(g: Geometry, heads: nat, slab: seq<i8>, q: SequenceState, r: Read, b: i8) {
    && HasRoom(q) && IsRead(g, heads, q, r) && r.pos / PAGE_TOKENS < |q.blockTable|
    && AddrOf(g, heads, q, r) < |slab|
    && b == ReadCell(g, heads, slab, q, r.pos, r.isV, r.head, r.d)
  }

  lemma {:induction false} LoadedIs(g: Geometry, heads: nat, slab: seq<i8>, q: SequenceState, t: Token, rs: seq<Read>,
                                    got: seq<i8>)
    requires HasRoom(q) && AreReadsOf(g, heads, q, rs) && LayerTask(g, heads, q, t, rs).Within(|slab|) && |got| == |rs|
    requires forall k | 0 <= k < |rs| :: got[k] == slab[LayerTask(g, heads, q, t, rs).loads[k]]
    ensures Loaded(g, heads, slab, q, rs, got)
  {
    var task := LayerTask(g, heads, q, t, rs);
    forall k | 0 <= k < |rs| ensures LoadedAt(g, heads, slab, q, rs[k], got[k]) {
      BlockKnown(q, rs[k].pos);
      assert task.loads[k] == AddrOf(g, heads, q, rs[k]);
    }
  }

  /** A complete schedule of one layer's workers, from `slab`, ends in `m`. */
  ghost predicate RunsTo(g: Geometry, heads: nat, s: State, slab: seq<i8>, o: Oracle, layer: nat, rss: seq<seq<Read>>,
                         schedule: seq<nat>, m: Machine)
  {
    && LayerReady(g, heads, s, slab, o, rss)
    && var ts := LayerTasks(g, heads, s.active, o, layer, rss);
       && Shape(ts, Start(ts, slab)) && (forall k | 0 <= k < |schedule| :: schedule[k] < |ts|)
       && m == Execute(ts, Start(ts, slab), schedule) && Complete(ts, m)
  }

  /** There is one. */
  lemma {:induction false} SomeScheduleCompletes(g: Geometry, heads: nat, s: State, slab: seq<i8>, o: Oracle,
                                                 layer: nat, rss: seq<seq<Read>>)
    returns (schedule: seq<nat>, m: Machine)
    requires LayerReady(g, heads, s, slab, o, rss)
    ensures RunsTo(g, heads, s, slab, o, layer, rss, schedule, m)
  {
    var ts := LayerTasks(g, heads, s.active, o, layer, rss);
    EngineTasksQualify(g, heads, s, slab, o, layer, rss);
    InTurn(g, heads, slab, s.active, o, layer, rss, ts);
    schedule := Turns(ts, |ts|);
    m := Execute(ts, Start(ts, slab), schedule);
  }

  /** However the loads and stores of the workers interleave, a layer ends in the slab of the sequential loop,
      whatever the head count. */
  lemma {:induction false} ParallelSlab(g: Geometry, heads: nat, s: State, slab: seq<i8>, o: Oracle, layer: nat,
                                        rss: seq<seq<Read>>, schedule: seq<nat>, m: Machine)
    requires RunsTo(g, heads, s, slab, o, layer, rss, schedule, m)
    ensures m.slab == LayerSlab(g, slab, s.active, o, layer, |s.active|)
  {
    var ts := LayerTasks(g, heads, s.active, o, layer, rss);
    EngineTasksQualify(g, heads, s, slab, o, layer, rss);
    InTurn(g, heads, slab, s.active, o, layer, rss, ts);
    ScheduleKeepsSlab(ts, slab, schedule, Turns(ts, |ts|));
  }

  /** And if the layout is free of races, each worker has loaded what that slab holds at every position attention
      reads. */
  lemma {:induction false} ParallelIsSequential(g: Geometry, heads: nat, s: State, slab: seq<i8>, o: Oracle, layer: nat,
                                                rss: seq<seq<Read>>, schedule: seq<nat>, m: Machine)
    requires RunsTo(g, heads, s, slab, o, layer, rss, schedule, m) && RaceFree(g, heads)
    ensures IsLayerOutcome(g, heads, s, slab, o, layer, rss, m)
  {
    var ts := LayerTasks(g, heads, s.active, o, layer, rss);
    ParallelSlab(g, heads, s, slab, o, layer, rss, schedule, m);
    EngineTasksQualify(g, heads, s, slab, o, layer, rss);
    ExecuteAsIfAlone(ts, slab, schedule);
    forall i | 0 <= i < |s.active| ensures Loaded(g, heads, m.slab, s.active[i], rss[i], m.got[i]) {
      LoadedFromFinal(ts, slab, m, i);
      assert PlacedAt(g, s.active[i]) && AreReadsOf(g, heads, s.active[i], rss[i]);
      assert ts[i] == TaskOf(g, heads, s.active, o, layer, rss, i);
      LoadedIs(g, heads, m.slab, s.active[i], TokenAt(o, layer, i), rss[i], m.got[i]);
    }
  }

  /** One complete schedule after another, for the first `layers` layers. */
  ghost predicate LayersRun(g: Geometry, heads: nat, s: State, o: Oracle, slabs: seq<seq<i8>>) {
    slabs != [] && forall layer | 0 <= layer < |slabs| - 1 ::
      LayerRuns(g, heads, s, o, layer, slabs[layer], slabs[layer + 1])
  }

  ghost predicate LayerRuns(g: Geometry, heads: nat, s: State, o: Oracle, layer: nat, slab: seq<i8>, slab': seq<i8>) {
    exists rss, schedule, m :: RunsTo(g, heads, s, slab, o, layer, rss, schedule, m) && m.slab == slab'
  }

  /** So all layers together leave the slab as the sequential step does, whatever the interleaving in each. */
  lemma {:induction false} LayersAreSequential(g: Geometry, heads: nat, s: State, o: Oracle, slabs: seq<seq<i8>>,
                                               layers: nat)
    requires LayersRun(g, heads, s, o, slabs) && layers < |slabs| && CanStoreLayer(g, slabs[0], s.active, o)
    ensures slabs[layers] == LayersSlab(g, slabs[0], s.active, o, layers)
  {
    if layers > 0 {
      LayersAreSequential(g, heads, s, o, slabs, layers - 1);
      var layer := layers - 1;
      assert LayerRuns(g, heads, s, o, layer, slabs[layer], slabs[layer + 1]);
      var rss, schedule, m :| RunsTo(g, heads, s, slabs[layer], o, layer, rss, schedule, m)
          && m.slab == slabs[layer + 1];
      ParallelSlab(g, heads, s, slabs[layer], o, layer, rss, schedule, m);
    }
  }
}
