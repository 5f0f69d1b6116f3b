/** The page pool used by any number of threads at once: single atomic loads, compare-and-swaps that may fail
    for no reason, and fetch-ors, interleaved in any way. */
module ConcurrentPool {
  import opened Word64
  import opened Wrappers
  import opened PagePools

  /** Where a thread is. `Trying` holds the word it last saw; `Returned` the result of its last call. */
  datatype Phase =
    | Idle
    | Loading(word: nat)
    | Trying(word: nat, seen: u64)
    | Returned(result: Option<nat>)

  /** `began` is the time at which the current or last call began. */
  datatype Thread = Thread(phase: Phase, held: set<nat>, began: nat)

  datatype World = World(words: seq<u64>, threads: seq<Thread>, time: nat)

  datatype Action =
    | Begin                  // call alloc_page
    | Load                   // load the word
    | Skip                   // the word is zero: on to the next
    | Swap                   // compare-and-swap succeeds
    | Miss                   // compare-and-swap fails, with or without cause
    | GiveUp                 // no word left: return None
    | Release(page: nat)     // free_page of a page the thread holds

  predicate Resting(p: Phase) {
    p.Idle? || p.Returned?
  }

  predicate Enabled(w: World, t: nat, a: Action) {
    t < |w.threads| &&
    var p := w.threads[t].phase;
    match a
    case Begin => Resting(p)
    case Load => p.Loading? && p.word < |w.words|
    case Skip => p.Trying? && p.seen == 0
    case Swap => p.Trying? && p.seen != 0 && p.word < |w.words| && w.words[p.word] == p.seen
    case Miss => p.Trying? && p.seen != 0 && p.word < |w.words|
    case GiveUp => p.Loading? && p.word >= |w.words|
    case Release(page) => Resting(p) && page in w.threads[t].held && page / 64 < |w.words|
  }

  /** The bit a successful swap clears. */
  function Taken(seen: u64): (b: nat)
    requires seen != 0
    ensures b < 64 && Bit(seen, b)
  {
    BitBelow(seen, 64, TrailingZeros(seen));
    TrailingZeros(seen)
  }

  function AfterSwap(th: Thread, total: nat): Thread
    requires th.phase.Trying? && th.phase.seen != 0
  {
    var page := th.phase.word * 64 + Taken(th.phase.seen);
    if page < total then th.(phase := Returned(Some(page)), held := th.held + {page})
    else th.(phase := Returned(None))
  }

  function Do(w: World, total: nat, t: nat, a: Action): World
    requires Enabled(w, t, a)
  {
    var th := w.threads[t];
    var words' :=
      match a
      case Swap => w.words[th.phase.word := ClearBit(th.phase.seen, Taken(th.phase.seen))]
      case Release(page) => w.words[page / 64 := SetBit(w.words[page / 64], page % 64)]
      case _ => w.words;
    var th' :=
      match a
      case Begin => th.(phase := Loading(0), began := w.time)
      case Load => th.(phase := Trying(th.phase.word, w.words[th.phase.word]))
      case Skip => th.(phase := Loading(th.phase.word + 1))
      case Swap => AfterSwap(th, total)
      case Miss => th.(phase := Trying(th.phase.word, w.words[th.phase.word]))
      case GiveUp => th.(phase := Returned(None))
      case Release(page) => th.(held := th.held - {page});
    World(words', w.threads[t := th'], w.time + 1)
  }

  // ---------- safety ----------

  ghost predicate Holds(w: World, t: nat, p: nat) {
    t < |w.threads| && p in w.threads[t].held
  }

  /** Every page is free or held, not both, and held by one thread. */
  ghost predicate Partitioned(w: World, total: nat) {
    && TailClear(w.words, total)
    && (forall t: nat, p: nat | Holds(w, t, p) :: p < total && !FreeAt(w.words, p))
    && (forall t: nat, u: nat, p: nat | Holds(w, t, p) && Holds(w, u, p) :: t == u)
    && (forall p: nat | p < total && !FreeAt(w.words, p) :: exists t: nat :: Holds(w, t, p))
  }

  /** A successful swap always finds a page of the pool, so it never returns None. */
  lemma {:induction false} SwapTakesFreePage(w: World, total: nat, t: nat)
    requires Partitioned(w, total) && Enabled(w, t, Swap)
    ensures var th := w.threads[t]; var page := th.phase.word * 64 + Taken(th.phase.seen);
            && page < total && FreeAt(w.words, page)
            && forall q: nat | q < |w.words| * 64 ::
                 FreeAt(Do(w, total, t, Swap).words, q) <==> FreeAt(w.words, q) && q != page
  {
    var th := w.threads[t];
    var i, b := th.phase.word, Taken(th.phase.seen);
    var page := i * 64 + b;
    assert page / 64 == i && page % 64 == b;
    assert FreeAt(w.words, page);
    forall q: nat | q < |w.words| * 64
      ensures FreeAt(Do(w, total, t, Swap).words, q) <==> FreeAt(w.words, q) && q != page
    {
      ClearAt(w.words, i, b, q);
    }
  }

  lemma {:induction false} ReleaseFrees(w: World, total: nat, t: nat, page: nat)
    requires Partitioned(w, total) && Enabled(w, t, Release(page))
    ensures page < total && !FreeAt(w.words, page)
    ensures forall q: nat | q < |w.words| * 64 ::
        FreeAt(Do(w, total, t, Release(page)).words, q) <==> FreeAt(w.words, q) || q == page
  {
    assert Holds(w, t, page);
    forall q: nat | q < |w.words| * 64
      ensures FreeAt(Do(w, total, t, Release(page)).words, q) <==> FreeAt(w.words, q) || q == page
    {
      assert q == q / 64 * 64 + q % 64;
    }
  }

  lemma {:induction false} SwapKeeps(w: World, total: nat, t: nat)
    requires Partitioned(w, total) && Enabled(w, t, Swap)
    ensures Partitioned(Do(w, total, t, Swap), total)
  {
    SwapTakesFreePage(w, total, t);
    var w' := Do(w, total, t, Swap);
    var page := w.threads[t].phase.word * 64 + Taken(w.threads[t].phase.seen);
    forall u: nat, p: nat ensures Holds(w', u, p) <==> Holds(w, u, p) || (u == t && p == page) {
    }
    forall p: nat | p < total && !FreeAt(w'.words, p) ensures exists u: nat :: Holds(w', u, p) {
      if p == page {
        assert Holds(w', t, p);
      } else {
        var u: nat :| Holds(w, u, p);
        assert Holds(w', u, p);
      }
    }
  }

  lemma {:induction false} ReleaseKeeps(w: World, total: nat, t: nat, page: nat)
    requires Partitioned(w, total) && Enabled(w, t, Release(page))
    ensures Partitioned(Do(w, total, t, Release(page)), total)
  {
    ReleaseFrees(w, total, t, page);
    var w' := Do(w, total, t, Release(page));
    assert Holds(w, t, page);
    forall u: nat, p: nat ensures Holds(w', u, p) <==> Holds(w, u, p) && p != page {
      if u != t {
        assert Holds(w', u, p) <==> Holds(w, u, p);
      }
    }
    forall p: nat | p < total && !FreeAt(w'.words, p) ensures exists u: nat :: Holds(w', u, p) {
      var u: nat :| Holds(w, u, p);
      assert Holds(w', u, p);
    }
  }

  /** Whatever any thread does next, the pages stay partitioned. */
  lemma {:induction false} StepKeepsPartition(w: World, total: nat, t: nat, a: Action)
    requires Partitioned(w, total) && Enabled(w, t, a)
    ensures Partitioned(Do(w, total, t, a), total)
  {
    if a.Swap? {
      SwapKeeps(w, total, t);
    } else if a.Release? {
      ReleaseKeeps(w, total, t, a.page);
    } else {
      var w' := Do(w, total, t, a);
      forall u: nat, p: nat ensures Holds(w', u, p) <==> Holds(w, u, p) {
      }
    }
  }

  /** Seen as a set of free pages, a swap removes the page it returns. */
  lemma {:induction false} SwapOnTheSet(w: World, total: nat, t: nat)
    requires Partitioned(w, total) && Enabled(w, t, Swap)
    ensures var free, w' := FreePages(w.words, total), Do(w, total, t, Swap);
            var th' := w'.threads[t];
            && th'.phase.Returned? && th'.phase.result.Some?
            && th'.phase.result.value in free
            && FreePages(w'.words, total) == free - {th'.phase.result.value}
            && th'.held == w.threads[t].held + {th'.phase.result.value}
  {
    SwapTakesFreePage(w, total, t);
  }

  /** A release adds its page, and nothing else changes the set. */
  lemma {:induction false} OthersOnTheSet(w: World, total: nat, t: nat, a: Action)
    requires Partitioned(w, total) && Enabled(w, t, a) && !a.Swap?
    ensures var free, free' := FreePages(w.words, total), FreePages(Do(w, total, t, a).words, total);
            if a.Release? then a.page !in free && free' == free + {a.page} else free' == free
  {
    if a.Release? {
      ReleaseFrees(w, total, t, a.page);
    }
  }

  // ---------- whole runs ----------

  ghost predicate IsNext(w: World, w': World, total: nat) {
    exists t: nat, a: Action :: Enabled(w, t, a) && w' == Do(w, total, t, a)
  }

  /** Every page free, no thread inside a call. */
  ghost predicate IsStart(w: World, total: nat) {
    && w.time == 0 && TailClear(w.words, total)
    && (forall p: nat | p < total :: FreeAt(w.words, p))
    && (forall t | 0 <= t < |w.threads| :: w.threads[t].phase == Idle && w.threads[t].held == {})
  }

  ghost predicate IsRun(ws: seq<World>, total: nat) {
    ws != [] && IsStart(ws[0], total) && forall k | 0 < k < |ws| :: IsNext(ws[k - 1], ws[k], total)
  }

  /** At every point of every run, free pages and held pages partition the pool. */
  lemma {:induction false} AlwaysPartitioned(ws: seq<World>, total: nat, n: nat)
    requires IsRun(ws, total) && n < |ws|
    ensures Partitioned(ws[n], total) && ws[n].time == n && |ws[n].words| == |ws[0].words|
  {
    if n > 0 {
      AlwaysPartitioned(ws, total, n - 1);
      var t: nat, a: Action :| Enabled(ws[n - 1], t, a) && ws[n] == Do(ws[n - 1], total, t, a);
      StepKeepsPartition(ws[n - 1], total, t, a);
    }
  }

  /** Word `j` had value `v` at some time from `from` to `n`. */
  ghost predicate Was(ws: seq<World>, from: nat, n: nat, j: nat, v: u64) {
    exists k :: from <= k <= n && k < |ws| && j < |ws[k].words| && ws[k].words[j] == v
  }

  /** Words below `i` were each zero at some time since the call began. */
  ghost predicate WereZero(ws: seq<World>, from: nat, n: nat, i: nat) {
    forall j: nat | j < i :: Was(ws, from, n, j, 0)
  }

  /** What a thread inside a call, or just out of one with None, has seen. */
  ghost predicate Witnessed(ws: seq<World>, n: nat, th: Thread) {
    && th.began <= n
    && match th.phase
       case Idle => true
       case Loading(i) => WereZero(ws, th.began, n, i)
       case Trying(i, seen) => WereZero(ws, th.began, n, i) && Was(ws, th.began, n, i, seen)
       case Returned(r) => true
  }

  /** The step from time `n` returns None for thread `t`. */
  ghost predicate ReturnsNone(ws: seq<World>, total: nat, n: nat, t: nat)
    requires n + 1 < |ws|
  {
    Enabled(ws[n], t, GiveUp) && ws[n + 1] == Do(ws[n], total, t, GiveUp)
  }

  lemma {:induction false} WasLater(ws: seq<World>, from: nat, n: nat, j: nat, v: u64)
    requires Was(ws, from, n, j, v)
    ensures Was(ws, from, n + 1, j, v)
  {
    var k :| from <= k <= n && k < |ws| && j < |ws[k].words| && ws[k].words[j] == v;
  }

  lemma {:induction false} WitnessLater(ws: seq<World>, n: nat, th: Thread)
    requires Witnessed(ws, n, th)
    ensures Witnessed(ws, n + 1, th)
  {
    var later := n + 1;
    if th.phase.Loading? || th.phase.Trying? {
      forall j: nat | j < th.phase.word ensures Was(ws, th.began, later, j, 0) {
        WasLater(ws, th.began, n, j, 0);
      }
    }
    if th.phase.Trying? {
      WasLater(ws, th.began, n, th.phase.word, th.phase.seen);
    }
  }

  lemma {:induction false} ActorWitnesses(ws: seq<World>, total: nat, n: nat, t: nat, a: Action)
    requires n + 1 < |ws| && ws[n].time == n && Enabled(ws[n], t, a) && ws[n + 1] == Do(ws[n], total, t, a)
    requires Witnessed(ws, n, ws[n].threads[t])
    ensures Witnessed(ws, n + 1, ws[n + 1].threads[t])
  {
    var th, th' := ws[n].threads[t], ws[n + 1].threads[t];
    WitnessLater(ws, n, th);
    if a.Load? || a.Miss? {
      assert Was(ws, th.began, n + 1, th.phase.word, ws[n].words[th.phase.word]) by {
        assert ws[n].words[th.phase.word] == ws[n].words[th.phase.word];
      }
    }
  }

  lemma {:induction false} AlwaysWitnessed(ws: seq<World>, total: nat, n: nat, t: nat)
    requires IsRun(ws, total) && n < |ws| && t < |ws[n].threads|
    ensures ws[n].threads[t].began <= n || ws[n].threads[t].phase.Idle?
    ensures !ws[n].threads[t].phase.Idle? ==> Witnessed(ws, n, ws[n].threads[t])
  {
    if n > 0 {
      AlwaysPartitioned(ws, total, n - 1);
      var u: nat, a: Action :| Enabled(ws[n - 1], u, a) && ws[n] == Do(ws[n - 1], total, u, a);
      AlwaysWitnessed(ws, total, n - 1, t);
      var th := ws[n - 1].threads[t];
      if t != u {
        if !th.phase.Idle? {
          WitnessLater(ws, n - 1, th);
        }
      } else if th.phase.Idle? {
      } else {
        ActorWitnesses(ws, total, n - 1, t, a);
      }
    }
  }

  /** A call that returns None has seen every word zero, each at some time during the call. */
  lemma {:induction false} NoneMeansEachSeenZero(ws: seq<World>, total: nat, n: nat, t: nat)
    requires IsRun(ws, total) && n + 1 < |ws| && ReturnsNone(ws, total, n, t)
    ensures forall j: nat | j < |ws[0].words| :: Was(ws, ws[n].threads[t].began, n, j, 0)
  {
    AlwaysPartitioned(ws, total, n);
    AlwaysWitnessed(ws, total, n, t);
  }

  ghost predicate IsRelease(w: World, w': World, total: nat) {
    exists t: nat, p: nat :: Enabled(w, t, Release(p)) && w' == Do(w, total, t, Release(p))
  }

  /** No page was released between times `from` and `to`. */
  ghost predicate NoRelease(ws: seq<World>, total: nat, from: nat, to: nat)
    requires to < |ws|
  {
    forall k | from < k <= to :: !IsRelease(ws[k - 1], ws[k], total)
  }

  lemma {:induction false} ZeroUnlessReleased(w: World, w': World, total: nat, j: nat)
    requires IsNext(w, w', total) && j < |w.words| && w.words[j] == 0
    ensures IsRelease(w, w', total) || (j < |w'.words| && w'.words[j] == 0)
  {
    var t: nat, a: Action :| Enabled(w, t, a) && w' == Do(w, total, t, a);
    if a.Release? {
      assert Enabled(w, t, Release(a.page)) && w' == Do(w, total, t, Release(a.page));
    }
  }

  lemma {:induction false} ZeroStays(ws: seq<World>, total: nat, k: nat, n: nat, j: nat)
    requires IsRun(ws, total) && k <= n < |ws| && j < |ws[k].words| && ws[k].words[j] == 0
    requires NoRelease(ws, total, k, n)
    ensures j < |ws[n].words| && ws[n].words[j] == 0
    decreases n
  {
    if k < n {
      ZeroStays(ws, total, k, n - 1, j);
      ZeroUnlessReleased(ws[n - 1], ws[n], total, j);
    }
  }

  /** If nothing is released while a call runs and it returns None, the pool is empty when it does. */
  lemma {:induction false} NoneIsGenuine(ws: seq<World>, total: nat, n: nat, t: nat)
    requires IsRun(ws, total) && n + 1 < |ws| && ReturnsNone(ws, total, n, t)
    requires NoRelease(ws, total, ws[n].threads[t].began, n)
    ensures |ws[n].words| == (total + 63) / 64 && FreePages(ws[n].words, total) == {}
  {
    AlwaysPartitioned(ws, total, n);
    NoneMeansEachSeenZero(ws, total, n, t);
    var from := ws[n].threads[t].began;
    forall j: nat | j < |ws[n].words| ensures ws[n].words[j] == 0 {
      assert Was(ws, from, n, j, 0);
      var k :| from <= k <= n && k < |ws| && j < |ws[k].words| && ws[k].words[j] == 0;
      ZeroStays(ws, total, k, n, j);
    }
    NoneFree(ws[n].words, total);
  }
}
