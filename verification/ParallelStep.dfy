/** The parallel part of a layer: every sequence stores its token and then reads its own history, all at once.
    Whatever the interleaving of single loads and stores, the outcome is the same. */
module ParallelStep {
  import opened Arithmetic
  import opened PagePools
  import opened Batching
  import opened Conservation
  import opened KvLayout

  datatype Store = Store(addr: nat, value: i8)

  /** What one worker does: its stores, and then its loads. */
  datatype Task = Task(stores: seq<Store>, loads: seq<nat>) {
    function Len(): nat {
      |stores| + |loads|
    }

    predicate Writes(a: nat) {
      exists k :: 0 <= k < |stores| && stores[k].addr == a
    }

    predicate Reads(a: nat) {
      a in loads
    }

    predicate Touches(a: nat) {
      Writes(a) || Reads(a)
    }

    predicate Within(size: nat) {
      (forall k | 0 <= k < |stores| :: stores[k].addr < size) && (forall k | 0 <= k < |loads| :: loads[k] < size)
    }
  }

  /** The slab, and for each worker how far it is and what it has loaded. */
  datatype Machine = Machine(slab: seq<i8>, pc: seq<nat>, got: seq<seq<i8>>)

  /** One worker, alone. */
  datatype Solo = Solo(slab: seq<i8>, got: seq<i8>)

  function Alone(slab: seq<i8>, t: Task, n: nat): (s: Solo)
    requires n <= t.Len() && t.Within(|slab|)
    ensures |s.slab| == |slab|
    decreases n
  {
    if n == 0 then Solo(slab, [])
    else
      var s := Alone(slab, t, n - 1);
      if n <= |t.stores| then s.(slab := s.slab[t.stores[n - 1].addr := t.stores[n - 1].value])
      else s.(got := s.got + [s.slab[t.loads[n - 1 - |t.stores|]]])
  }

  ghost predicate Shape(ts: seq<Task>, m: Machine) {
    && |m.pc| == |m.got| == |ts|
    && forall i | 0 <= i < |ts| :: m.pc[i] <= ts[i].Len() && ts[i].Within(|m.slab|)
  }

  /** Worker `i` does its next operation; a finished worker does nothing. */
  ghost function Advance(ts: seq<Task>, m: Machine, i: nat): (m': Machine)
    requires Shape(ts, m) && i < |ts|
    ensures Shape(ts, m') && |m'.slab| == |m.slab|
  {
    var t, n := ts[i], m.pc[i];
    if n == t.Len() then m
    else if n < |t.stores| then m.(slab := m.slab[t.stores[n].addr := t.stores[n].value], pc := m.pc[i := n + 1])
    else m.(pc := m.pc[i := n + 1], got := m.got[i := m.got[i] + [m.slab[t.loads[n - |t.stores|]]]])
  }

  /** The workers run in the order of `schedule`, one operation at a time. */
  ghost function Execute(ts: seq<Task>, m: Machine, schedule: seq<nat>): (m': Machine)
    requires Shape(ts, m) && forall k | 0 <= k < |schedule| :: schedule[k] < |ts|
    ensures Shape(ts, m') && |m'.slab| == |m.slab|
  {
    if schedule == [] then m
    else Advance(ts, Execute(ts, m, schedule[..|schedule| - 1]), schedule[|schedule| - 1])
  }

  function Start(ts: seq<Task>, slab: seq<i8>): Machine {
    Machine(slab, seq(|ts|, _ => 0), seq(|ts|, _ => []))
  }

  ghost predicate Complete(ts: seq<Task>, m: Machine)
    requires Shape(ts, m)
  {
    forall i | 0 <= i < |ts| :: m.pc[i] == ts[i].Len()
  }

  /** No worker writes what another touches. */
  ghost predicate Independent(ts: seq<Task>) {
    forall i, j, a | 0 <= i < |ts| && 0 <= j < |ts| && i != j && ts[i].Writes(a) :: !ts[j].Touches(a)
  }

  /** Each worker has loaded, and sees in the cells it touches, what it would alone; other cells are as they
      were. */
  ghost predicate AsIfAlone(ts: seq<Task>, slab: seq<i8>, m: Machine)
    requires Shape(ts, m) && |m.slab| == |slab|
  {
    && (forall i | 0 <= i < |ts| :: m.got[i] == Alone(slab, ts[i], m.pc[i]).got)
    && (forall i, a | 0 <= i < |ts| && 0 <= a < |slab| && ts[i].Touches(a) ::
      m.slab[a] == Alone(slab, ts[i], m.pc[i]).slab[a])
    && (forall a | 0 <= a < |slab| && (forall i | 0 <= i < |ts| :: !ts[i].Writes(a)) :: m.slab[a] == slab[a])
  }

  lemma {:induction false} AdvanceAsIfAlone(ts: seq<Task>, slab: seq<i8>, m: Machine, i: nat)
    requires Shape(ts, m) && |m.slab| == |slab| && Independent(ts) && i < |ts|
    requires AsIfAlone(ts, slab, m)
    ensures AsIfAlone(ts, slab, Advance(ts, m, i))
  {
    var t, n, m' := ts[i], m.pc[i], Advance(ts, m, i);
    if n < |t.stores| {
      var s := t.stores[n];
      assert t.Writes(s.addr);
      forall j, a | 0 <= j < |ts| && 0 <= a < |slab| && ts[j].Touches(a)
        ensures m'.slab[a] == Alone(slab, ts[j], m'.pc[j]).slab[a]
      {
        assert m.slab[a] == Alone(slab, ts[j], m.pc[j]).slab[a];
      }
    } else if n < t.Len() {
      var a := t.loads[n - |t.stores|];
      assert t.Touches(a);
      assert m.slab[a] == Alone(slab, t, n).slab[a];
      forall j, a | 0 <= j < |ts| && 0 <= a < |slab| && ts[j].Touches(a)
        ensures m'.slab[a] == Alone(slab, ts[j], m'.pc[j]).slab[a]
      {
        assert m.slab[a] == Alone(slab, ts[j], m.pc[j]).slab[a];
      }
    }
  }

  lemma {:induction false} ExecuteAsIfAlone(ts: seq<Task>, slab: seq<i8>, schedule: seq<nat>)
    requires Independent(ts) && Shape(ts, Start(ts, slab))
    requires forall k | 0 <= k < |schedule| :: schedule[k] < |ts|
    ensures AsIfAlone(ts, slab, Execute(ts, Start(ts, slab), schedule))
  {
    if schedule != [] {
      var prefix := schedule[..|schedule| - 1];
      ExecuteAsIfAlone(ts, slab, prefix);
      AdvanceAsIfAlone(ts, slab, Execute(ts, Start(ts, slab), prefix), schedule[|schedule| - 1]);
    }
  }

  lemma {:induction false} CompleteDetermined(ts: seq<Task>, slab: seq<i8>, m1: Machine, m2: Machine)
    requires Shape(ts, m1) && Shape(ts, m2) && |m1.slab| == |m2.slab| == |slab|
    requires AsIfAlone(ts, slab, m1) && AsIfAlone(ts, slab, m2) && Complete(ts, m1) && Complete(ts, m2)
    ensures m1 == m2
  {
    forall a | 0 <= a < |slab| ensures m1.slab[a] == m2.slab[a] {
      if i :| 0 <= i < |ts| && ts[i].Writes(a) {
        assert ts[i].Touches(a);
        assert m1.slab[a] == Alone(slab, ts[i], m1.pc[i]).slab[a];
        assert m2.slab[a] == Alone(slab, ts[i], m2.pc[i]).slab[a];
      }
    }
    assert m1.pc == m2.pc && m1.got == m2.got && m1.slab == m2.slab;
  }

  /** Any two complete schedules, however they interleave the workers, end in the same slab and have every
      worker load the same bytes. */
  lemma {:induction false} ScheduleDoesNotMatter(ts: seq<Task>, slab: seq<i8>, one: seq<nat>, two: seq<nat>)
    requires Independent(ts) && Shape(ts, Start(ts, slab))
    requires forall k | 0 <= k < |one| :: one[k] < |ts|
    requires forall k | 0 <= k < |two| :: two[k] < |ts|
    requires Complete(ts, Execute(ts, Start(ts, slab), one)) && Complete(ts, Execute(ts, Start(ts, slab), two))
    ensures Execute(ts, Start(ts, slab), one) == Execute(ts, Start(ts, slab), two)
  {
    ExecuteAsIfAlone(ts, slab, one);
    ExecuteAsIfAlone(ts, slab, two);
    CompleteDetermined(ts, slab, Execute(ts, Start(ts, slab), one), Execute(ts, Start(ts, slab), two));
  }

  // ---------- workers that only keep their stores apart ----------

  /** No worker writes what another writes. */
  ghost predicate Apart(ts: seq<Task>) {
    forall i, j, a | 0 <= i < |ts| && 0 <= j < |ts| && i != j && ts[i].Writes(a) :: !ts[j].Writes(a)
  }

  /** Every cell that is written holds what its one writer alone would have put there; others are as they were. */
  ghost predicate StoredAsIfAlone(ts: seq<Task>, slab: seq<i8>, m: Machine)
    requires Shape(ts, m) && |m.slab| == |slab|
  {
    && (forall i, a | 0 <= i < |ts| && 0 <= a < |slab| && ts[i].Writes(a) ::
      m.slab[a] == Alone(slab, ts[i], m.pc[i]).slab[a])
    && (forall a | 0 <= a < |slab| && (forall i | 0 <= i < |ts| :: !ts[i].Writes(a)) :: m.slab[a] == slab[a])
  }

  lemma {:induction false} AdvanceStores(ts: seq<Task>, slab: seq<i8>, m: Machine, i: nat)
    requires Shape(ts, m) && |m.slab| == |slab| && Apart(ts) && i < |ts|
    requires StoredAsIfAlone(ts, slab, m)
    ensures StoredAsIfAlone(ts, slab, Advance(ts, m, i))
  {
    var t, n, m' := ts[i], m.pc[i], Advance(ts, m, i);
    if n < |t.stores| {
      assert t.Writes(t.stores[n].addr);
    }
    forall j, a | 0 <= j < |ts| && 0 <= a < |slab| && ts[j].Writes(a)
      ensures m'.slab[a] == Alone(slab, ts[j], m'.pc[j]).slab[a]
    {
      assert m.slab[a] == Alone(slab, ts[j], m.pc[j]).slab[a];
    }
  }

  lemma {:induction false} ExecuteStores(ts: seq<Task>, slab: seq<i8>, schedule: seq<nat>)
    requires Apart(ts) && Shape(ts, Start(ts, slab))
    requires forall k | 0 <= k < |schedule| :: schedule[k] < |ts|
    ensures StoredAsIfAlone(ts, slab, Execute(ts, Start(ts, slab), schedule))
  {
    if schedule != [] {
      var prefix := schedule[..|schedule| - 1];
      ExecuteStores(ts, slab, prefix);
      AdvanceStores(ts, slab, Execute(ts, Start(ts, slab), prefix), schedule[|schedule| - 1]);
    }
  }

  lemma {:induction false} SlabDetermined(ts: seq<Task>, slab: seq<i8>, m1: Machine, m2: Machine)
    requires Shape(ts, m1) && Shape(ts, m2) && |m1.slab| == |m2.slab| == |slab|
    requires StoredAsIfAlone(ts, slab, m1) && StoredAsIfAlone(ts, slab, m2) && Complete(ts, m1) && Complete(ts, m2)
    ensures m1.slab == m2.slab
  {
    forall a | 0 <= a < |slab| ensures m1.slab[a] == m2.slab[a] {
      if i :| 0 <= i < |ts| && ts[i].Writes(a) {
        assert m1.slab[a] == Alone(slab, ts[i], m1.pc[i]).slab[a];
        assert m2.slab[a] == Alone(slab, ts[i], m2.pc[i]).slab[a];
      }
    }
  }

  /** If only the stores are apart, the schedule may change what is loaded, but not the final slab. */
  lemma {:induction false} ScheduleKeepsSlab(ts: seq<Task>, slab: seq<i8>, one: seq<nat>, two: seq<nat>)
    requires Apart(ts) && Shape(ts, Start(ts, slab))
    requires forall k | 0 <= k < |one| :: one[k] < |ts|
    requires forall k | 0 <= k < |two| :: two[k] < |ts|
    requires Complete(ts, Execute(ts, Start(ts, slab), one)) && Complete(ts, Execute(ts, Start(ts, slab), two))
    ensures Execute(ts, Start(ts, slab), one).slab == Execute(ts, Start(ts, slab), two).slab
  {
    ExecuteStores(ts, slab, one);
    ExecuteStores(ts, slab, two);
    SlabDetermined(ts, slab, Execute(ts, Start(ts, slab), one), Execute(ts, Start(ts, slab), two));
  }

  // ---------- the engine's layer ----------

  /** A worker that stores cells of the current position of `q` and loads, for `heads` heads, cells of any
      position up to it. */
  ghost predicate IsLayerTask(g: Geometry, heads: nat, q: SequenceState, t: Task) {
    && HasRoom(q)
    && (forall k | 0 <= k < |t.stores| :: IsOwnStore(g, q, t.stores[k].addr))
    && (forall k | 0 <= k < |t.loads| :: IsOwnLoad(g, heads, q, t.loads[k]))
  }

  ghost predicate IsOwnStore(g: Geometry, q: SequenceState, a: nat)
    requires HasRoom(q)
  {
    exists isV: bool, j: nat :: j < g.Width()
      && a == WriteAddr(g, q.PhysicalPage(q.numTokens), isV, q.SlotInPage(q.numTokens), j)
  }

  ghost predicate IsOwnLoad(g: Geometry, heads: nat, q: SequenceState, a: nat)
    requires HasRoom(q)
  {
    exists pos: nat, isV: bool, head: nat, d: nat :: pos <= q.numTokens && head < heads && d < g.headDim
      && pos / PAGE_TOKENS < |q.blockTable|
      && a == ReadAddr(g, heads, q.PhysicalPage(pos), isV, q.SlotInPage(pos), head, d)
  }

  /** Address `a` lies in a page of `q`. */
  ghost predicate OnPageOf(g: Geometry, q: SequenceState, a: nat) {
    exists p :: p in q.physicalPages && InPage(g, p, a)
  }

  predicate InPage(g: Geometry, p: nat, a: nat) {
    p * g.pageStride <= a < p * g.pageStride + g.pageStride
  }

  lemma {:induction false} OnePage(g: Geometry, p: nat, p': nat, a: nat)
    requires InPage(g, p, a) && InPage(g, p', a)
    ensures p == p'
  {
    Digits(p, a - p * g.pageStride, p', a - p' * g.pageStride, g.pageStride);
  }

  lemma {:induction false} StoreOnOwnPage(g: Geometry, q: SequenceState, a: nat)
    requires g.Valid() && IsResident(q) && HasRoom(q) && IsOwnStore(g, q, a)
    ensures OnPageOf(g, q, a)
  {
    var isV: bool, j: nat :| j < g.Width()
        && a == WriteAddr(g, q.PhysicalPage(q.numTokens), isV, q.SlotInPage(q.numTokens), j);
    WriteInPage(g, q.PhysicalPage(q.numTokens), isV, q.SlotInPage(q.numTokens), j);
    assert InPage(g, q.PhysicalPage(q.numTokens), a);
  }

  lemma {:induction false} ReadStays(g: Geometry, heads: nat, page: nat, isV: bool, slot: nat, head: nat, d: nat)
    requires 2 * PAGE_TOKENS * (heads * g.headDim) <= g.pageStride
    requires slot < PAGE_TOKENS && head < heads && d < g.headDim
    ensures InPage(g, page, ReadAddr(g, heads, page, isV, slot, head, d))
  {
    ReadBelow(g, heads, page, isV, slot, head, d);
  }

  lemma {:induction false} LoadOnOwnPage(g: Geometry, heads: nat, q: SequenceState, a: nat)
    requires g.Valid() && IsResident(q) && HasRoom(q) && IsOwnLoad(g, heads, q, a)
    requires 2 * PAGE_TOKENS * (heads * g.headDim) <= g.pageStride
    ensures OnPageOf(g, q, a)
  {
    var pos: nat, isV: bool, head: nat, d: nat :| pos <= q.numTokens && head < heads && d < g.headDim
      && pos / PAGE_TOKENS < |q.blockTable|
      && a == ReadAddr(g, heads, q.PhysicalPage(pos), isV, q.SlotInPage(pos), head, d);
    var page := q.PhysicalPage(pos);
    ReadStays(g, heads, page, isV, q.SlotInPage(pos), head, d);
    assert page in q.physicalPages && InPage(g, page, a);
  }

  /** Running sequences own their pages, so the stores of their workers are apart, whatever the head count. */
  lemma {:induction false} LayerStoresApart(g: Geometry, heads: nat, s: State, ts: seq<Task>)
    requires g.Valid() && Conserved(s, g.pages) && QueuesOk(s) && |ts| == |s.active|
    requires forall i | 0 <= i < |ts| :: IsLayerTask(g, heads, s.active[i], ts[i])
    ensures Apart(ts)
  {
    forall i, j, a | 0 <= i < |ts| && 0 <= j < |ts| && i != j && ts[i].Writes(a) ensures !ts[j].Writes(a) {
      WritesOwnPages(g, heads, s.active[i], ts[i], a);
      if ts[j].Writes(a) {
        WritesOwnPages(g, heads, s.active[j], ts[j], a);
        PagesNotShared(g, s, i, j, a);
      }
    }
  }

  lemma {:induction false} WritesOwnPages(g: Geometry, heads: nat, q: SequenceState, t: Task, a: nat)
    requires g.Valid() && IsResident(q) && IsLayerTask(g, heads, q, t) && t.Writes(a)
    ensures OnPageOf(g, q, a)
  {
    var k :| 0 <= k < |t.stores| && t.stores[k].addr == a;
    StoreOnOwnPage(g, q, a);
  }

  lemma {:induction false} PagesNotShared(g: Geometry, s: State, i: nat, j: nat, a: nat)
    requires Conserved(s, g.pages) && i < |s.active| && j < |s.active| && i != j
    requires OnPageOf(g, s.active[i], a)
    ensures !OnPageOf(g, s.active[j], a)
  {
    if OnPageOf(g, s.active[j], a) {
      var p :| p in s.active[i].physicalPages && InPage(g, p, a);
      var p' :| p' in s.active[j].physicalPages && InPage(g, p', a);
      OnePage(g, p, p', a);
      Exclusive(s, g.pages, i, p);
    }
  }

  /** Both sections for `heads` heads fit in a page. */
  predicate FitsPage(g: Geometry, heads: nat) {
    2 * PAGE_TOKENS * (heads * g.headDim) <= g.pageStride
  }

  /** What it takes for no worker to load what another stores: the sections fit in a page; or there is room for
      one sequence only; or for two of one page each, neither of which is ever at slot 0, and the sections reach no
      further than slot 0 of the next page. */
  predicate RaceFree(g: Geometry, heads: nat) {
    || FitsPage(g, heads)
    || g.pages <= 1
    || (g.pages == 2 && 2 * PAGE_TOKENS * (heads * g.headDim) <= g.pageStride + g.Width())
  }

  lemma {:induction false} FittingLoadsApart(g: Geometry, heads: nat, s: State, ts: seq<Task>, i: nat, j: nat, a: nat)
    requires g.Valid() && FitsPage(g, heads) && Conserved(s, g.pages) && QueuesOk(s) && |ts| == |s.active|
    requires forall k | 0 <= k < |ts| :: IsLayerTask(g, heads, s.active[k], ts[k])
    requires i < |ts| && j < |ts| && i != j && ts[i].Writes(a)
    ensures !ts[j].Touches(a)
  {
    WritesOwnPages(g, heads, s.active[i], ts[i], a);
    if ts[j].Touches(a) {
      TouchesOwnPages(g, heads, s.active[j], ts[j], a);
      PagesNotShared(g, s, i, j, a);
    }
  }

  /** Two running sequences need two pages. */
  lemma {:induction false} TwoNeedTwo(s: State, total: nat, i: nat, j: nat)
    requires Conserved(s, total) && QueuesOk(s) && i < |s.active| && j < |s.active| && i != j
    ensures total >= 2
  {
    assert IsResident(s.active[i]) && IsResident(s.active[j]);
    Exclusive(s, total, i, s.active[i].physicalPages[0]);
    Exclusive(s, total, j, s.active[j].physicalPages[0]);
  }

  /** If there are only two, each has one, and is not past it. */
  lemma {:induction false} OneEach(s: State, i: nat, j: nat)
    requires Conserved(s, 2) && QueuesOk(s) && i < |s.active| && j < |s.active| && i != j
    requires HasRoom(s.active[i])
    ensures s.active[i].blockTable != [] && s.active[i].numTokens < PAGE_TOKENS
    ensures forall k | 0 <= k < |s.active[i].blockTable| :: s.active[i].blockTable[k] == s.active[i].blockTable[0] < 2
  {
    var q, r := s.active[i], s.active[j];
    assert IsResident(q) && IsResident(r);
    Exclusive(s, 2, j, r.physicalPages[0]);
    forall k | 0 <= k < |q.blockTable| ensures q.blockTable[k] == q.blockTable[0] < 2 {
      Exclusive(s, 2, i, q.physicalPages[k]);
      Exclusive(s, 2, i, q.physicalPages[0]);
    }
    if q.numTokens >= PAGE_TOKENS {
      OnlyOnce(s, 2, i, 0, 1);
    }
  }

  lemma {:induction false} OnlyOnce(s: State, total: nat, i: nat, k: nat, k': nat)
    requires Conserved(s, total) && i < |s.active| && k < k' < |s.active[i].physicalPages|
    ensures s.active[i].physicalPages[k] != s.active[i].physicalPages[k']
  {
    var pages := s.active[i].physicalPages;
    Exclusive(s, total, i, pages[k]);
    if pages[k] == pages[k'] {
      TwoIndices(pages, k, k');
    }
  }

  /** The store is past slot 0 of the page of `i`, the loads are within reach of the page of `j`. */
  lemma {:induction false} TwoPagesApart(g: Geometry, heads: nat, s: State, ts: seq<Task>, i: nat, j: nat, a: nat)
    requires g.Valid() && g.pages == 2 && 2 * PAGE_TOKENS * (heads * g.headDim) <= g.pageStride + g.Width()
    requires Conserved(s, g.pages) && QueuesOk(s) && |ts| == |s.active|
    requires forall k | 0 <= k < |ts| :: IsLayerTask(g, heads, s.active[k], ts[k])
    requires i < |ts| && j < |ts| && i != j && ts[i].Writes(a)
    ensures a !in ts[j].loads
  {
    var q, r := s.active[i], s.active[j];
    assert IsResident(q) && IsResident(r);
    OneEach(s, i, j);
    OneEach(s, j, i);
    Exclusive(s, 2, i, q.physicalPages[0]);
    var p, p' := q.blockTable[0], r.blockTable[0];
    assert p != p';
    StoreBounds(g, q, ts[i], heads, a);
    if a in ts[j].loads {
      LoadBounds(g, r, ts[j], heads, a);
    }
  }

  lemma {:induction false} StoreBounds(g: Geometry, q: SequenceState, t: Task, heads: nat, a: nat)
    requires g.Valid() && IsResident(q) && IsLayerTask(g, heads, q, t) && t.Writes(a) && q.numTokens < PAGE_TOKENS
    ensures q.blockTable[0] * g.pageStride + g.Width() <= a < q.blockTable[0] * g.pageStride + g.pageStride
  {
    var k :| 0 <= k < |t.stores| && t.stores[k].addr == a;
    assert IsOwnStore(g, q, a);
    var isV: bool, j: nat :| j < g.Width()
        && a == WriteAddr(g, q.PhysicalPage(q.numTokens), isV, q.SlotInPage(q.numTokens), j);
    WriteInPage(g, q.PhysicalPage(q.numTokens), isV, q.SlotInPage(q.numTokens), j);
    MulLe(1, q.SlotInPage(q.numTokens), g.Width());
  }

  lemma {:induction false} LoadBounds(g: Geometry, q: SequenceState, t: Task, heads: nat, a: nat)
    requires g.Valid() && IsResident(q) && IsLayerTask(g, heads, q, t) && a in t.loads
    requires forall k | 0 <= k < |q.blockTable| :: q.blockTable[k] == q.blockTable[0]
    ensures q.blockTable[0] * g.pageStride <= a < q.blockTable[0] * g.pageStride + 2 * PAGE_TOKENS * (heads * g.headDim)
  {
    var k :| 0 <= k < |t.loads| && t.loads[k] == a;
    assert IsOwnLoad(g, heads, q, a);
    var pos: nat, isV: bool, head: nat, d: nat :| pos <= q.numTokens && head < heads && d < g.headDim
      && pos / PAGE_TOKENS < |q.blockTable|
      && a == ReadAddr(g, heads, q.PhysicalPage(pos), isV, q.SlotInPage(pos), head, d);
    var page, slot := q.PhysicalPage(pos), q.SlotInPage(pos);
    assert page == q.blockTable[0];
    ReadBounds(g, heads, page, isV, slot, head, d);
  }

  lemma {:induction false} ReadBounds(g: Geometry, heads: nat, page: nat, isV: bool, slot: nat, head: nat, d: nat)
    requires slot < PAGE_TOKENS && head < heads && d < g.headDim
    ensures page * g.pageStride <= ReadAddr(g, heads, page, isV, slot, head, d)
         < page * g.pageStride + 2 * PAGE_TOKENS * (heads * g.headDim)
  {
    ReadBelow(g, heads, page, isV, slot, head, d);
  }

  /** Under this condition the workers of every batch are independent. */
  lemma {:induction false} LayerTasksIndependent(g: Geometry, heads: nat, s: State, ts: seq<Task>)
    requires g.Valid() && RaceFree(g, heads)
    requires Conserved(s, g.pages) && QueuesOk(s) && |ts| == |s.active|
    requires forall i | 0 <= i < |ts| :: IsLayerTask(g, heads, s.active[i], ts[i])
    ensures Independent(ts)
  {
    LayerStoresApart(g, heads, s, ts);
    forall i, j, a | 0 <= i < |ts| && 0 <= j < |ts| && i != j && ts[i].Writes(a) ensures !ts[j].Touches(a) {
      if FitsPage(g, heads) {
        FittingLoadsApart(g, heads, s, ts, i, j, a);
      } else {
        TwoNeedTwo(s, g.pages, i, j);
        TwoPagesApart(g, heads, s, ts, i, j, a);
      }
    }
  }

  lemma {:induction false} TouchesOwnPages(g: Geometry, heads: nat, q: SequenceState, t: Task, a: nat)
    requires g.Valid() && FitsPage(g, heads)
    requires IsResident(q) && IsLayerTask(g, heads, q, t) && t.Touches(a)
    ensures OnPageOf(g, q, a)
  {
    if t.Writes(a) {
      WritesOwnPages(g, heads, q, t, a);
    } else {
      LoadOnOwnPage(g, heads, q, a);
    }
  }
}
