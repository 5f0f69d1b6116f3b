/** When one worker of a layer can load what another stores: exactly when the layout is not free of races, and then
    two schedules of one batch load different bytes. */
module Races {
  import opened Arithmetic
  import opened PagePools
  import opened Batching
  import opened Conservation
  import opened KvLayout
  import opened PagedMemory
  import opened Quantiser
  import opened Engine
  import opened LayerCache
  import opened ParallelStep
  import opened ParallelLayer

  // ---------- every byte up to the end of the sections is read ----------

  /** The element that attention reads at byte `x` of the first page, for a width of `w`. */
  function ReadOfByte(g: Geometry, w: nat, x: nat): Read
    requires w > 0 && g.headDim > 0
  {
    var isV := x >= PAGE_TOKENS * w;
    var y := if isV then x - PAGE_TOKENS * w else x;
    Read(y / w, isV, y % w / g.headDim, y % w % g.headDim)
  }

  lemma {:induction false} QuotientBelow(y: nat, w: nat, n: nat)
    requires w > 0 && y < n * w
    ensures y / w < n && y == y / w * w + y % w
  {
    if y / w >= n {
      MulLe(n, y / w, w);
    }
  }

  lemma {:induction false} ReadReaches(g: Geometry, heads: nat, x: nat)
    requires g.headDim > 0 && x < 2 * PAGE_TOKENS * (heads * g.headDim)
    ensures heads * g.headDim > 0
    ensures var r := ReadOfByte(g, heads * g.headDim, x);
            && r.pos < PAGE_TOKENS && r.head < heads && r.d < g.headDim
            && ReadAddr(g, heads, 0, r.isV, r.pos, r.head, r.d) == x
  {
    var w := heads * g.headDim;
    var y := if x >= PAGE_TOKENS * w then x - PAGE_TOKENS * w else x;
    QuotientBelow(y, w, PAGE_TOKENS);
    QuotientBelow(y % w, g.headDim, heads);
  }

  // ---------- two sequences ----------

  /** A running sequence of `n` tokens on the given pages. */
  function ResidentOf(id: nat, n: nat, pages: seq<nat>): SequenceState {
    SequenceState(id, seq(n, _ => 0), n, 1, pages, pages, Running, 0)
  }

  /** Which byte is raced for: the first that the second sequence stores to. */
  function RaceByte(g: Geometry): nat {
    if g.pages == 2 then g.pageStride + g.Width() else g.pageStride
  }

  /** One sequence about to fill its only page, the first of the pool; and one about to store to the next page, at
      slot 0 if there are pages enough. */
  function TwoSequences(g: Geometry): seq<SequenceState> {
    [ResidentOf(0, 15, [0]), if g.pages == 2 then ResidentOf(1, 1, [1]) else ResidentOf(1, 16, [2, 1])]
  }

  function UsedPages(g: Geometry): (used: set<nat>)
    requires g.pages >= 2
    ensures used <= AllPages(g.pages)
  {
    if g.pages == 2 then {0, 1} else {0, 1, 2}
  }

  function RaceState(g: Geometry): State
    requires g.pages >= 2
  {
    State(AllPages(g.pages) - UsedPages(g), TwoSequences(g), [])
  }

  lemma {:induction false} RaceConserved(g: Geometry)
    requires g.pages >= 2
    ensures Conserved(RaceState(g), g.pages)
  {
    var a, used := TwoSequences(g), UsedPages(g);
    assert a == [a[0]] + [a[1]];
    PagesOfAppend([a[0]], [a[1]]);
    PagesOfSingle(a[0]);
    PagesOfSingle(a[1]);
    assert PagesOf(a) == multiset(used);
    assert multiset(AllPages(g.pages) - used) + multiset(used) == multiset(AllPages(g.pages));
  }

  lemma {:induction false} RaceQueues(g: Geometry)
    requires g.pages >= 2
    ensures QueuesOk(RaceState(g)) && Placed(g, TwoSequences(g))
  {
    forall i | 0 <= i < 2 ensures IsResident(TwoSequences(g)[i]) && PlacedAt(g, TwoSequences(g)[i]) {
    }
  }

  // ---------- the batch ----------

  /** The transformer computes ones. */
  function Ones(g: Geometry): Oracle {
    Oracle((layer: nat, i: nat) => Flat(g, 1.0), (layer: nat, i: nat) => Flat(g, 1.0), (i: nat) => [])
  }

  lemma {:induction false} OnesShaped(g: Geometry)
    ensures Shaped(Ones(g), g)
  {
    forall layer: nat, i: nat ensures |Ones(g).k(layer, i)| == g.Width() && |Ones(g).v(layer, i)| == g.Width() {
      assert Ones(g).k(layer, i) == Flat(g, 1.0) == Ones(g).v(layer, i);
    }
  }

  function ZeroSlab(g: Geometry): (slab: seq<i8>)
    ensures |slab| == g.SlabLen() && forall a | 0 <= a < |slab| :: slab[a] == 0
  {
    seq(g.SlabLen(), _ => 0)
  }

  /** The first sequence reads the raced byte, the second nothing. */
  function RaceReads(g: Geometry, heads: nat): seq<seq<Read>>
    requires heads * g.headDim > 0
  {
    [[ReadOfByte(g, heads * g.headDim, RaceByte(g))], []]
  }

  /** The byte is within reach of the sections of the first page. */
  ghost predicate Racy(g: Geometry, heads: nat) {
    g.Valid() && !RaceFree(g, heads)
  }

  lemma {:induction false} RacyReach(g: Geometry, heads: nat)
    requires Racy(g, heads)
    ensures g.pages >= 2 && heads * g.headDim > 0 && RaceByte(g) < 2 * PAGE_TOKENS * (heads * g.headDim)
    ensures RaceByte(g) < g.SlabLen()
  {
    StrideFacts(g);
    SlotFits(g.Width(), 1, 0);
    assert RaceByte(g) < 2 * g.pageStride;
    MulLe(2, g.pages, g.pageStride);
  }

  lemma {:induction false} RaceReady(g: Geometry, heads: nat)
    requires Racy(g, heads)
    ensures g.pages >= 2 && heads * g.headDim > 0
    ensures LayerReady(g, heads, RaceState(g), ZeroSlab(g), Ones(g), RaceReads(g, heads))
    ensures AddrOf(g, heads, TwoSequences(g)[0], RaceReads(g, heads)[0][0]) == RaceByte(g)
  {
    RacyReach(g, heads);
    RaceConserved(g);
    RaceQueues(g);
    OnesShaped(g);
    ReadReaches(g, heads, RaceByte(g));
    var a, rss := TwoSequences(g), RaceReads(g, heads);
    assert AreReadsOf(g, heads, a[0], rss[0]) && AreReadsOf(g, heads, a[1], rss[1]);
    assert StaysInSlab(g, heads, a[0], rss[0]) && StaysInSlab(g, heads, a[1], rss[1]);
  }

  // ---------- two schedules ----------

  lemma {:induction false} TakesTurnsGot(ts: seq<Task>, m: Machine, i: nat, n: nat)
    requires Shape(ts, m) && i < |ts| && m.pc[i] == 0 && m.got[i] == [] && n <= ts[i].Len()
    ensures Execute(ts, m, Turn(i, n)).got == m.got[i := Alone(m.slab, ts[i], n).got]
    decreases n
  {
    if n > 0 {
      TakesTurnsGot(ts, m, i, n - 1);
      TakesTurns(ts, m, i, n - 1);
      assert Turn(i, n)[..n - 1] == Turn(i, n - 1);
    }
  }

  /** Worker `i` and then worker `j`. */
  function OneThenOther(ts: seq<Task>, i: nat, j: nat): seq<nat>
    requires i < |ts| && j < |ts|
  {
    Turn(i, ts[i].Len()) + Turn(j, ts[j].Len())
  }

  /** Each runs alone on the slab it finds. */
  lemma {:induction false} TwoTurns(ts: seq<Task>, slab: seq<i8>, i: nat, j: nat)
    requires |ts| == 2 && Shape(ts, Start(ts, slab)) && i < 2 && j == 1 - i
    ensures forall k | 0 <= k < |OneThenOther(ts, i, j)| :: OneThenOther(ts, i, j)[k] < 2
    ensures var m := Execute(ts, Start(ts, slab), OneThenOther(ts, i, j));
            && Complete(ts, m)
            && m.got[i] == Alone(slab, ts[i], ts[i].Len()).got
            && m.got[j] == Alone(Alone(slab, ts[i], ts[i].Len()).slab, ts[j], ts[j].Len()).got
  {
    var start := Start(ts, slab);
    var m := Execute(ts, start, Turn(i, ts[i].Len()));
    ExecuteAppend(ts, start, Turn(i, ts[i].Len()), Turn(j, ts[j].Len()));
    TakesTurns(ts, start, i, ts[i].Len());
    TakesTurnsGot(ts, start, i, ts[i].Len());
    TakesTurns(ts, m, j, ts[j].Len());
    TakesTurnsGot(ts, m, j, ts[j].Len());
  }

  lemma {:induction false} AloneUnwritten(slab: seq<i8>, t: Task, n: nat, a: nat)
    requires t.Within(|slab|) && n <= t.Len() && a < |slab| && !t.Writes(a)
    ensures Alone(slab, t, n).slab[a] == slab[a]
    decreases n
  {
    if n > 0 {
      AloneUnwritten(slab, t, n - 1, a);
      if n <= |t.stores| {
        assert t.stores[n - 1].addr != a;
      }
    }
  }

  /** A worker that loads one byte, and does not store it, loads what it finds there. */
  lemma {:induction false} LoadsWhatItFinds(slab: seq<i8>, t: Task, a: nat)
    requires t.Within(|slab|) && t.loads == [a] && !t.Writes(a)
    ensures Alone(slab, t, t.Len()).got == [slab[a]]
  {
    AloneLoads(slab, t, 1);
    AloneUnwritten(slab, t, |t.stores|, a);
  }

  lemma {:induction false} FirstLeavesByte(g: Geometry, heads: nat, t: Task)
    requires Racy(g, heads) && IsLayerTask(g, heads, TwoSequences(g)[0], t)
    ensures !t.Writes(RaceByte(g))
  {
    if t.Writes(RaceByte(g)) {
      WritesOwnPages(g, heads, TwoSequences(g)[0], t, RaceByte(g));
    }
  }

  /** The second sequence stores the code of a one at the raced byte. */
  lemma {:induction false} SecondStoresByte(g: Geometry, slab: seq<i8>, t: Token)
    requires g.Valid() && g.pages >= 2 && |slab| == g.SlabLen() && FitsToken(g, t)
    ensures var q := TwoSequences(g)[1];
            && PlacedAt(g, q) && RaceByte(g) < |slab|
            && WriteToken(g, slab, q.PhysicalPage(q.numTokens), q.SlotInPage(q.numTokens), t)[RaceByte(g)] == t.k[0]
  {
    RaceQueues(g);
    var q := TwoSequences(g)[1];
    assert PlacedAt(g, q);
    var page, slot := q.PhysicalPage(q.numTokens), q.SlotInPage(q.numTokens);
    MulLe(1, g.headsKv, g.headDim);
    WriteInPage(g, page, false, slot, 0);
    PageInSlab(g, page);
    assert WriteAddr(g, page, false, slot, 0) == RaceByte(g);
    WriteTokenCell(g, slab, page, slot, t, page, false, slot, 0);
  }

  /** The two workers. */
  ghost function RaceTasks(g: Geometry, heads: nat, layer: nat): (ts: seq<Task>)
    requires Racy(g, heads)
    ensures |ts| == 2 && Shape(ts, Start(ts, ZeroSlab(g)))
    ensures ts[0].loads == [RaceByte(g)] && !ts[0].Writes(RaceByte(g))
  {
    RaceReady(g, heads);
    var rss := RaceReads(g, heads);
    EngineTasksQualify(g, heads, RaceState(g), ZeroSlab(g), Ones(g), layer, rss);
    EngineTaskOf(g, heads, RaceState(g), ZeroSlab(g), Ones(g), layer, rss, 0);
    FirstLeavesByte(g, heads, TaskOf(g, heads, TwoSequences(g), Ones(g), layer, rss, 0));
    LayerTasks(g, heads, TwoSequences(g), Ones(g), layer, rss)
  }

  lemma {:induction false} OnesCode(g: Geometry, layer: nat, i: nat)
    requires g.Valid()
    ensures FitsToken(g, TokenAt(Ones(g), layer, i)) && g.Width() > 0 && TokenAt(Ones(g), layer, i).k[0] == 127
  {
    FlatCode(g, 1.0);
    assert Ones(g).k(layer, i) == Flat(g, 1.0) == Ones(g).v(layer, i);
  }

  /** A worker of the second sequence, alone, leaves the code of a one at the raced byte. */
  lemma {:induction false} SecondTaskAlone(g: Geometry, heads: nat, slab: seq<i8>, t: Token, task: Task)
    requires g.Valid() && g.pages >= 2 && |slab| == g.SlabLen() && FitsToken(g, t) && RaceByte(g) < |slab|
    requires HasRoom(TwoSequences(g)[1]) && task == LayerTask(g, heads, TwoSequences(g)[1], t, [])
        && task.Within(|slab|)
    ensures Alone(slab, task, task.Len()).slab[RaceByte(g)] == t.k[0]
  {
    SecondStoresByte(g, slab, t);
    WorkerAlone(g, heads, slab, TwoSequences(g)[1], t, []);
  }

  lemma {:induction false} SecondTask(g: Geometry, heads: nat, layer: nat)
    requires Racy(g, heads)
    ensures g.pages >= 2 && HasRoom(TwoSequences(g)[1])
    ensures RaceTasks(g, heads, layer)[1] == LayerTask(g, heads, TwoSequences(g)[1], TokenAt(Ones(g), layer, 1), [])
  {
    RaceReady(g, heads);
  }

  lemma {:induction false} SecondAlone(g: Geometry, heads: nat, layer: nat)
    requires Racy(g, heads)
    ensures RaceByte(g) < g.SlabLen()
    ensures var t := RaceTasks(g, heads, layer)[1]; Alone(ZeroSlab(g), t, t.Len()).slab[RaceByte(g)] == 127
  {
    RacyReach(g, heads);
    OnesCode(g, layer, 1);
    SecondTask(g, heads, layer);
    SecondTaskAlone(g, heads, ZeroSlab(g), TokenAt(Ones(g), layer, 1), RaceTasks(g, heads, layer)[1]);
  }

  /** The batch ends in `m` under `schedule`. */
  ghost predicate RaceRuns(g: Geometry, heads: nat, layer: nat, schedule: seq<nat>, m: Machine)
    requires heads * g.headDim > 0 && g.pages >= 2
  {
    RunsTo(g, heads, RaceState(g), ZeroSlab(g), Ones(g), layer, RaceReads(g, heads), schedule, m)
  }

  /** If the layout is not free of races there is a batch, and two complete schedules of its layer, one of which
      loads what was in the slab before the step, and the other what another sequence stores in it. */
  lemma {:induction false} TwoOutcomes(g: Geometry, heads: nat, layer: nat)
    returns (one: seq<nat>, two: seq<nat>, m1: Machine, m2: Machine)
    requires g.Valid() && !RaceFree(g, heads)
    ensures heads * g.headDim > 0 && g.pages >= 2
    ensures RaceRuns(g, heads, layer, one, m1) && |m1.got| == 2 && m1.got[0] == [0]
    ensures RaceRuns(g, heads, layer, two, m2) && |m2.got| == 2 && m2.got[0] == [127]
  {
    RacyReach(g, heads);
    RaceReady(g, heads);
    SecondAlone(g, heads, layer);
    var ts, slab, x := RaceTasks(g, heads, layer), ZeroSlab(g), RaceByte(g);
    one, two := OneThenOther(ts, 0, 1), OneThenOther(ts, 1, 0);
    TwoTurns(ts, slab, 0, 1);
    TwoTurns(ts, slab, 1, 0);
    m1, m2 := Execute(ts, Start(ts, slab), one), Execute(ts, Start(ts, slab), two);
    LoadsWhatItFinds(slab, ts[0], x);
    LoadsWhatItFinds(Alone(slab, ts[1], ts[1].Len()).slab, ts[0], x);
  }

  // ---------- exactly when ----------

  /** Any two complete schedules of any batch end alike. */
  ghost predicate Deterministic(g: Geometry, heads: nat) {
    forall s, slab, o, layer, rss, one, two, m1, m2 |
      RunsTo(g, heads, s, slab, o, layer, rss, one, m1) && RunsTo(g, heads, s, slab, o, layer, rss, two, m2) :: m1 == m2
  }

  lemma {:induction false} RaceFreeEndsAlike(g: Geometry, heads: nat, s: State, slab: seq<i8>, o: Oracle, layer: nat,
                                             rss: seq<seq<Read>>, one: seq<nat>, two: seq<nat>, m1: Machine,
                                               m2: Machine)
    requires RaceFree(g, heads)
    requires RunsTo(g, heads, s, slab, o, layer, rss, one, m1) && RunsTo(g, heads, s, slab, o, layer, rss, two, m2)
    ensures m1 == m2
  {
    EngineTasksQualify(g, heads, s, slab, o, layer, rss);
    ScheduleDoesNotMatter(LayerTasks(g, heads, s.active, o, layer, rss), slab, one, two);
  }

  /** What the workers of a layer load does not depend on the schedule exactly when the layout is free of races. */
  lemma {:induction false} DeterministicIffRaceFree(g: Geometry, heads: nat)
    requires g.Valid()
    ensures Deterministic(g, heads) <==> RaceFree(g, heads)
  {
    if RaceFree(g, heads) {
      forall s, slab, o, layer, rss, one, two, m1, m2 |
        RunsTo(g, heads, s, slab, o, layer, rss, one, m1) && RunsTo(g, heads, s, slab, o, layer, rss, two, m2)
        ensures m1 == m2
      {
        RaceFreeEndsAlike(g, heads, s, slab, o, layer, rss, one, two, m1, m2);
      }
    } else {
      var layer := 0;
      var one, two, m1, m2 := TwoOutcomes(g, heads, layer);
      assert m1 != m2;
    }
  }

  /** The workers of every batch, storing and loading whatever a layer may, are independent. */
  ghost predicate AlwaysIndependent(g: Geometry, heads: nat) {
    forall s, ts | AreWorkers(g, heads, s, ts) :: Independent(ts)
  }

  ghost predicate AreWorkers(g: Geometry, heads: nat, s: State, ts: seq<Task>) {
    && Conserved(s, g.pages) && QueuesOk(s) && |ts| == |s.active|
    && forall i | 0 <= i < |ts| :: IsLayerTask(g, heads, s.active[i], ts[i]) && ts[i].Within(g.SlabLen())
  }

  /** The workers of every batch are independent exactly when the layout is free of races. */
  lemma {:induction false} IndependentIffRaceFree(g: Geometry, heads: nat)
    requires g.Valid()
    ensures AlwaysIndependent(g, heads) <==> RaceFree(g, heads)
  {
    if RaceFree(g, heads) {
      forall s, ts | AreWorkers(g, heads, s, ts) ensures Independent(ts) {
        LayerTasksIndependent(g, heads, s, ts);
      }
    } else {
      var layer := 0;
      var one, two, m1, m2 := TwoOutcomes(g, heads, layer);
      var ts := RaceTasks(g, heads, layer);
      RaceWorkers(g, heads, layer);
      if Independent(ts) {
        ScheduleDoesNotMatter(ts, ZeroSlab(g), one, two);
      }
    }
  }

  lemma {:induction false} RaceWorkers(g: Geometry, heads: nat, layer: nat)
    requires Racy(g, heads)
    ensures g.pages >= 2 && AreWorkers(g, heads, RaceState(g), RaceTasks(g, heads, layer))
  {
    RaceReady(g, heads);
    var rss := RaceReads(g, heads);
    EngineTaskOf(g, heads, RaceState(g), ZeroSlab(g), Ones(g), layer, rss, 0);
    EngineTaskOf(g, heads, RaceState(g), ZeroSlab(g), Ones(g), layer, rss, 1);
  }
}
