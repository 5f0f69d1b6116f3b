/** Whether a call that finds no page can be wrong: with one word of free bits the pool was empty at some instant of
    the call; with two or more there is a run in which it never was. */
module SpuriousNone {
  import opened Word64
  import opened Wrappers
  import opened PagePools
  import opened ConcurrentPool

  /** The pool was empty at some instant of the call of thread `t` that is returning at time `n`. */
  ghost predicate WasEmpty(ws: seq<World>, total: nat, n: nat, t: nat)
    requires n < |ws| && t < |ws[n].threads|
  {
    exists k :: ws[n].threads[t].began <= k <= n && EmptyAt(ws, total, k)
  }

  ghost predicate EmptyAt(ws: seq<World>, total: nat, k: nat) {
    k < |ws| && |ws[k].words| == (total + 63) / 64 && FreePages(ws[k].words, total) == {}
  }

  /** Whenever a call returns None, the pool was empty at some instant of that call. */
  ghost predicate NoneAlwaysRight(total: nat) {
    forall ws, n: nat, t: nat | IsRun(ws, total) && n + 1 < |ws| && ReturnsNone(ws, total, n, t) ::
        WasEmpty(ws, total, n, t)
  }

  lemma {:induction false} OneWordIsRight(ws: seq<World>, total: nat, n: nat, t: nat)
    requires IsRun(ws, total) && n + 1 < |ws| && ReturnsNone(ws, total, n, t) && total <= 64
    ensures WasEmpty(ws, total, n, t)
  {
    AlwaysPartitioned(ws, total, n);
    AlwaysWitnessed(ws, total, n, t);
    NoneMeansEachSeenZero(ws, total, n, t);
    var from := ws[n].threads[t].began;
    if total == 0 {
      assert EmptyAt(ws, total, n);
    } else {
      assert Was(ws, from, n, 0, 0);
      var k :| from <= k <= n && k < |ws| && 0 < |ws[k].words| && ws[k].words[0] == 0;
      AlwaysPartitioned(ws, total, k);
      NoneFree(ws[k].words, total);
      assert EmptyAt(ws, total, k);
    }
  }

  // ---------- building runs ----------

  function Last(ws: seq<World>): World
    requires ws != []
  {
    ws[|ws| - 1]
  }

  function Then(ws: seq<World>, total: nat, t: nat, a: Action): (ws': seq<World>)
    requires ws != [] && Enabled(Last(ws), t, a)
    ensures ws <= ws' && |ws'| == |ws| + 1 && Last(ws') == Do(Last(ws), total, t, a)
  {
    ws + [Do(Last(ws), total, t, a)]
  }

  lemma {:induction false} ThenRuns(ws: seq<World>, total: nat, t: nat, a: Action)
    requires IsRun(ws, total) && Enabled(Last(ws), t, a)
    ensures IsRun(Then(ws, total, t, a), total)
  {
    var ws' := Then(ws, total, t, a);
    forall k | 0 < k < |ws'| ensures IsNext(ws'[k - 1], ws'[k], total) {
      if k < |ws| {
        assert IsNext(ws[k - 1], ws[k], total);
      }
    }
  }

  /** The free bits of `w` are those of the pages from `k` on. */
  ghost predicate FreeFrom(w: World, total: nat, k: nat) {
    TailClear(w.words, total) && forall p: nat | p < total :: FreeAt(w.words, p) <==> k <= p
  }

  lemma {:induction false} NoBitsIsZero(w: u64)
    requires forall b: nat | b < 64 :: !Bit(w, b)
    ensures w == 0
  {
    if w != 0 {
      BitBelow(w, 64, TrailingZeros(w));
    }
  }

  /** A word none of whose pages is free is zero. */
  lemma {:induction false} WordZero(words: seq<u64>, i: nat)
    requires i < |words| && forall p: nat | p / 64 == i :: !FreeAt(words, p)
    ensures words[i] == 0
  {
    forall b: nat | b < 64 ensures !Bit(words[i], b) {
      var p := i * 64 + b;
      assert p / 64 == i && p % 64 == b;
      assert !FreeAt(words, p);
    }
    NoBitsIsZero(words[i]);
  }

  /** A swap takes the first free page of its word. */
  lemma {:induction false} TakesFirst(words: seq<u64>, i: nat, k: nat)
    requires i < |words| && k / 64 == i && FreeAt(words, k)
    requires forall p: nat | p / 64 == i && p < k :: !FreeAt(words, p)
    ensures words[i] != 0 && i * 64 + Taken(words[i]) == k
  {
    if words[i] == 0 {
      BitZero(k % 64);
    }
    var p := i * 64 + Taken(words[i]);
    assert p / 64 == i && p % 64 == Taken(words[i]);
    assert FreeAt(words, p);
  }

  /** Thread `t` scans over zero words up to word `i`; every world on the way has the same words. */
  lemma {:induction false} Scan(ws: seq<World>, total: nat, t: nat, i: nat) returns (ws': seq<World>)
    requires IsRun(ws, total) && t < |Last(ws).threads| && Last(ws).threads[t].phase.Loading?
    requires Last(ws).threads[t].phase.word <= i < |Last(ws).words|
    requires forall j: nat | j < i :: Last(ws).words[j] == 0
    ensures IsRun(ws', total) && ws <= ws' && |ws'| > 0
    ensures Last(ws') == World(Last(ws).words, Last(ws).threads[t := Last(ws).threads[t].(phase := Loading(i))],
        |ws'| - 1)
    ensures forall k | |ws| <= k < |ws'| :: ws'[k].words == Last(ws).words
    decreases i - Last(ws).threads[t].phase.word
  {
    AlwaysPartitioned(ws, total, |ws| - 1);
    var w := Last(ws);
    var j := w.threads[t].phase.word;
    if j == i {
      ws' := ws;
    } else {
      ThenRuns(ws, total, t, Load);
      var ws1 := Then(ws, total, t, Load);
      ThenRuns(ws1, total, t, Skip);
      var ws2 := Then(ws1, total, t, Skip);
      ws' := Scan(ws2, total, t, i);
      forall k | |ws| <= k < |ws'| ensures ws'[k].words == w.words {
        if k < |ws2| {
          assert ws'[k] == ws2[k];
        }
      }
    }
  }

  /** Thread `t` loads the word it has come to, and takes page `k`, the first free page of it. */
  lemma {:induction false} TakeAt(ws: seq<World>, total: nat, t: nat, k: nat) returns (ws': seq<World>)
    requires IsRun(ws, total) && t < |Last(ws).threads| && Last(ws).threads[t].phase == Loading(k / 64)
    requires k < total && k / 64 < |Last(ws).words| && FreeAt(Last(ws).words, k)
    requires forall p: nat | p / 64 == k / 64 && p < k :: !FreeAt(Last(ws).words, p)
    ensures IsRun(ws', total) && ws <= ws' && |ws'| == |ws| + 2 && ws'[|ws|].words == Last(ws).words
    ensures var th := Last(ws).threads[t];
            Last(ws').threads == Last(ws).threads[t := Thread(Returned(Some(k)), th.held + {k}, th.began)]
    ensures |Last(ws').words| == |Last(ws).words|
    ensures forall q: nat | q < |Last(ws).words| * 64 ::
        FreeAt(Last(ws').words, q) <==> FreeAt(Last(ws).words, q) && q != k
  {
    var words, i := Last(ws).words, k / 64;
    TakesFirst(words, i, k);
    ThenRuns(ws, total, t, Load);
    var ws1 := Then(ws, total, t, Load);
    ThenRuns(ws1, total, t, Swap);
    ws' := Then(ws1, total, t, Swap);
    forall q: nat | q < |words| * 64 ensures FreeAt(Last(ws').words, q) <==> FreeAt(words, q) && q != k {
      ClearAt(words, i, Taken(words[i]), q);
    }
  }

  // ---------- all pages but one are taken ----------

  /** Thread 1 holds the pages below `k`, the others are free, and the other two threads have done nothing. */
  ghost predicate Stage(w: World, total: nat, k: nat) {
    && |w.threads| == 3 && w.threads[0] == w.threads[2] == Thread(Idle, {}, 0)
    && Resting(w.threads[1].phase) && (forall p: nat :: p in w.threads[1].held <==> p < k)
    && FreeFrom(w, total, k)
  }

  lemma {:induction false} WordsBelowZero(w: World, total: nat, k: nat, j: nat)
    requires FreeFrom(w, total, k) && k < total && j < k / 64
    ensures j < |w.words| && w.words[j] == 0
  {
    WordZero(w.words, j);
  }

  /** Thread 1 takes one page more. */
  lemma {:induction false} TakeOne(ws: seq<World>, total: nat, k: nat) returns (ws': seq<World>)
    requires IsRun(ws, total) && Stage(Last(ws), total, k) && k < total
    ensures IsRun(ws', total) && Stage(Last(ws'), total, k + 1)
  {
    var w := Last(ws);
    forall j: nat | j < k / 64 ensures w.words[j] == 0 {
      WordsBelowZero(w, total, k, j);
    }
    ThenRuns(ws, total, 1, Begin);
    var ws1 := Scan(Then(ws, total, 1, Begin), total, 1, k / 64);
    ws' := TakeAt(ws1, total, 1, k);
  }

  function FreshWords(total: nat): (words: seq<u64>)
    ensures |words| == (total + 63) / 64 && forall i | 0 <= i < |words| :: words[i] == FreshWord(total, i)
  {
    seq((total + 63) / 64, i requires 0 <= i < (total + 63) / 64 => FreshWord(total, i))
  }

  lemma {:induction false} FreshFree(words: seq<u64>, total: nat, p: nat)
    requires |words| == (total + 63) / 64 && p < total && p in FreePages(words, total)
    ensures FreeAt(words, p)
  {
  }

  lemma {:induction false} Beginning(total: nat) returns (ws: seq<World>)
    ensures IsRun(ws, total) && Stage(Last(ws), total, 0)
  {
    var words, idle := FreshWords(total), Thread(Idle, {}, 0);
    FreshBitsAllFree(words, total);
    forall p: nat | p < total ensures FreeAt(words, p) {
      FreshFree(words, total, p);
    }
    ws := [World(words, [idle, idle, idle], 0)];
  }

  lemma {:induction false} TakeMany(total: nat, k: nat) returns (ws: seq<World>)
    requires k <= total
    ensures IsRun(ws, total) && Stage(Last(ws), total, k)
  {
    if k == 0 {
      ws := Beginning(total);
    } else {
      ws := TakeMany(total, k - 1);
      ws := TakeOne(ws, total, k - 1);
    }
  }

  // ---------- the run ----------

  /** From `from` on the pool is never empty. */
  ghost predicate NeverEmpty(ws: seq<World>, total: nat, from: nat) {
    forall k | from <= k < |ws| :: HasPage(ws[k], total)
  }

  ghost predicate HasPage(w: World, total: nat) {
    |w.words| == (total + 63) / 64 && exists p: nat :: p < total && FreeAt(w.words, p)
  }

  lemma {:induction false} NeverEmptyMore(ws: seq<World>, ws': seq<World>, total: nat, from: nat)
    requires NeverEmpty(ws, total, from) && ws <= ws'
    requires forall k | |ws| <= k < |ws'| :: HasPage(ws'[k], total)
    ensures NeverEmpty(ws', total, from)
  {
    forall k | from <= k < |ws'| ensures HasPage(ws'[k], total) {
      if k < |ws| {
        assert ws'[k] == ws[k];
      }
    }
  }

  lemma {:induction false} NotEmptyAt(ws: seq<World>, total: nat, k: nat)
    requires k < |ws| && HasPage(ws[k], total)
    ensures !EmptyAt(ws, total, k)
  {
    var p: nat :| p < total && FreeAt(ws[k].words, p);
    assert p in FreePages(ws[k].words, total);
  }

  /** Two scanners stand before the last word, which holds the only free page; all words before it were zero. */
  ghost predicate AtLastWord(w: World, total: nat, began: nat) {
    && total > 0 && FreeFrom(w, total, total - 1) && |w.threads| == 3
    && w.threads[0] == Thread(Loading((total - 1) / 64), {}, began)
    && w.threads[2].phase == Loading((total - 1) / 64)
    && Resting(w.threads[1].phase) && 0 in w.threads[1].held
  }

  lemma {:induction false} ScannersReady(total: nat) returns (ws: seq<World>, began: nat)
    requires total > 64
    ensures IsRun(ws, total) && AtLastWord(Last(ws), total, began)
    ensures began < |ws| && NeverEmpty(ws, total, began)
  {
    var last := (total - 1) / 64;
    ws := TakeMany(total, total - 1);
    var w := Last(ws);
    began := |ws| - 1;
    AlwaysPartitioned(ws, total, began);
    assert FreeAt(w.words, total - 1);
    assert HasPage(w, total);
    forall j: nat | j < last ensures w.words[j] == 0 {
      WordsBelowZero(w, total, total - 1, j);
    }
    ThenRuns(ws, total, 0, Begin);
    var ws1 := Then(ws, total, 0, Begin);
    ThenRuns(ws1, total, 2, Begin);
    var ws2 := Then(ws1, total, 2, Begin);
    NeverEmptyMore(ws, ws2, total, began);
    var ws3 := Scan(ws2, total, 0, last);
    NeverEmptyMore(ws2, ws3, total, began);
    ws := Scan(ws3, total, 2, last);
    NeverEmptyMore(ws3, ws, total, began);
  }

  lemma {:induction false} SetFirst(words: seq<u64>, total: nat, q: nat)
    requires TailClear(words, total) && 0 < total && q < |words| * 64
    ensures FreeAt(words[0 := SetBit(words[0], 0)], q) <==> FreeAt(words, q) || q == 0
  {
    assert q == q / 64 * 64 + q % 64;
  }

  /** A page is released behind both; one scanner takes the last page; the other finds the last word zero. */
  lemma {:induction false} ReleaseAndTake(ws: seq<World>, total: nat, began: nat) returns (ws': seq<World>)
    requires total > 64 && IsRun(ws, total) && AtLastWord(Last(ws), total, began)
    requires began < |ws| && NeverEmpty(ws, total, began)
    ensures IsRun(ws', total) && |Last(ws').threads| == 3 && |ws'| > began
    ensures Last(ws').threads[0] == Thread(Loading((total - 1) / 64), {}, began)
    ensures |Last(ws').words| == (total + 63) / 64 && Last(ws').words[(total - 1) / 64] == 0
    ensures NeverEmpty(ws', total, began)
  {
    var w, last := Last(ws), (total - 1) / 64;
    ThenRuns(ws, total, 1, Release(0));
    var ws1 := Then(ws, total, 1, Release(0));
    var w1 := Last(ws1);
    forall q: nat | q < |w.words| * 64 ensures FreeAt(w1.words, q) <==> FreeAt(w.words, q) || q == 0 {
      SetFirst(w.words, total, q);
    }
    assert FreeAt(w1.words, 0) && FreeAt(w1.words, total - 1);
    ws' := TakeAt(ws1, total, 2, total - 1);
    var w' := Last(ws');
    WordZero(w'.words, last);
    assert FreeAt(w'.words, 0);
    assert HasPage(w1, total) && HasPage(ws'[|ws1|], total) && HasPage(w', total);
    NeverEmptyMore(ws, ws', total, began);
  }

  /** With two words or more a call can return None though the pool never was empty while it ran. */
  lemma {:induction false} NoneCanBeWrong(total: nat) returns (ws: seq<World>, n: nat)
    requires total > 64
    ensures IsRun(ws, total) && n + 1 < |ws| && ReturnsNone(ws, total, n, 0) && !WasEmpty(ws, total, n, 0)
  {
    var start, began := ScannersReady(total);
    var ws1 := ReleaseAndTake(start, total, began);
    ThenRuns(ws1, total, 0, Load);
    var ws2 := Then(ws1, total, 0, Load);
    ThenRuns(ws2, total, 0, Skip);
    var ws3 := Then(ws2, total, 0, Skip);
    ThenRuns(ws3, total, 0, GiveUp);
    ws, n := Then(ws3, total, 0, GiveUp), |ws3| - 1;
    assert HasPage(ws1[|ws1| - 1], total);
    NeverEmptyMore(ws1, ws, total, began);
    forall k | began <= k <= n ensures !EmptyAt(ws, total, k) {
      NotEmptyAt(ws, total, k);
    }
  }

  /** A None is always right exactly for pools of one word. */
  lemma {:induction false} NoneRightIffOneWord(total: nat)
    ensures NoneAlwaysRight(total) <==> total <= 64
  {
    if total <= 64 {
      forall ws, n: nat, t: nat | IsRun(ws, total) && n + 1 < |ws| && ReturnsNone(ws, total, n, t)
        ensures WasEmpty(ws, total, n, t)
      {
        OneWordIsRight(ws, total, n, t);
      }
    } else {
      var ws, n := NoneCanBeWrong(total);
    }
  }
}
