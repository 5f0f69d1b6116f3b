/** The continuous-batching scheduler: what one pass of each of its operations does to the queues and to
    the set of free pages, and the class that does it in place. */
module Batching {
  import opened PagePools
  import opened Wrappers

  const MAX_BATCH_SIZE: nat := 16

  datatype SequenceStatus = Waiting | Running | Finished

  datatype SequenceRequest = SequenceRequest(seqId: nat, promptTokens: seq<nat>, maxNewTokens: nat)

  datatype SequenceState = SequenceState(
    seqId: nat,
    promptTokens: seq<nat>,
    numTokens: nat,
    maxNewTokens: nat,
    physicalPages: seq<nat>,
    blockTable: seq<nat>,
    status: SequenceStatus,
    generatedTokens: nat)
  {
    /** The physical page that holds logical position `pos`. */
    function PhysicalPage(pos: nat): nat
      requires pos / PAGE_TOKENS < |blockTable|
    {
      blockTable[pos / PAGE_TOKENS]
    }

    function SlotInPage(pos: nat): nat {
      pos % PAGE_TOKENS
    }

    /** Pages asked for on promotion: room for every token, and one page more. */
    function PrefetchPages(): nat {
      DivCeil(numTokens, PAGE_TOKENS) + 1
    }

    /** The sequence with `pages` mapped. */
    function Admitted(pages: seq<nat>): SequenceState {
      this.(physicalPages := pages, blockTable := pages, status := Running)
    }

    function Grown(page: nat): SequenceState {
      this.(physicalPages := physicalPages + [page], blockTable := blockTable + [page])
    }

    function Preempted(): SequenceState {
      this.(physicalPages := [], blockTable := [], status := Waiting)
    }

    predicate Exhausted() {
      generatedTokens >= maxNewTokens
    }
  }

  function DivCeil(n: nat, d: nat): nat
    requires d > 0
  {
    (n + d - 1) / d
  }

  function NewSequence(req: SequenceRequest): SequenceState {
    SequenceState(req.seqId, req.promptTokens, |req.promptTokens|, req.maxNewTokens, [], [], Waiting, 0)
  }

  /** The least element of a non-empty set. */
  ghost function Least(s: set<nat>): (m: nat)
    requires s != {}
    ensures m in s && forall x | x in s :: m <= x
  {
    var x :| x in s;
    if s == {x} then x
    else
      var rest := s - {x};
      assert s == rest + {x};
      var m := Least(rest);
      assert forall y | y in s :: y == x || y in rest;
      if x < m then x else m
  }

  /** The `n` least elements of `s`, in ascending order. */
  ghost function Take(s: set<nat>, n: nat): (pages: seq<nat>)
    requires n <= |s|
    ensures |pages| == n
    decreases n
  {
    if n == 0 then [] else [Least(s)] + Take(s - {Least(s)}, n - 1)
  }

  /** What is left of `s` without its `n` least elements. */
  ghost function Rest(s: set<nat>, n: nat): (rest: set<nat>)
    requires n <= |s|
    ensures |rest| == |s| - n
    decreases n
  {
    if n == 0 then s else Rest(s - {Least(s)}, n - 1)
  }

  /** `mapped` is the least pages of `before`, and `rest` is what is left. */
  ghost predicate Mapped(before: set<nat>, mapped: seq<nat>, rest: set<nat>) {
    |mapped| <= |before| && mapped == Take(before, |mapped|) && rest == Rest(before, |mapped|)
  }

  function Elems(pages: seq<nat>): (s: set<nat>)
    ensures forall p :: p in s <==> p in pages
  {
    set p | p in pages
  }

  lemma {:induction false} TakeNext(s: set<nat>, n: nat)
    requires n < |s|
    ensures Take(s, n + 1) == Take(s, n) + [Least(Rest(s, n))]
    ensures Rest(s, n + 1) == Rest(s, n) - {Least(Rest(s, n))}
    decreases n
  {
    if n > 0 {
      TakeNext(s - {Least(s)}, n - 1);
    }
  }

  /** Taking pages splits the set: every element is taken once or left. */
  lemma {:induction false} TakeSplits(s: set<nat>, n: nat)
    requires n <= |s|
    ensures multiset(s) == multiset(Take(s, n)) + multiset(Rest(s, n))
    decreases n
  {
    if n > 0 {
      var m := Least(s);
      TakeSplits(s - {m}, n - 1);
      SplitMore(s, m, Take(s - {m}, n - 1), Rest(s - {m}, n - 1));
    }
  }

  lemma {:induction false} SplitMore(s: set<nat>, m: nat, taken: seq<nat>, rest: set<nat>)
    requires m in s && multiset(s - {m}) == multiset(taken) + multiset(rest)
    ensures multiset(s) == multiset([m] + taken) + multiset(rest)
  {
    assert multiset(s) == multiset(s - {m}) + multiset{m};
  }

  lemma TakeRejoins(s: set<nat>, n: nat)
    requires n <= |s|
    ensures Elems(Take(s, n)) + Rest(s, n) == s
  {
    TakeSplits(s, n);
    forall p: nat ensures p in Elems(Take(s, n)) + Rest(s, n) <==> p in s {
      assert multiset(s)[p] == multiset(Take(s, n))[p] + multiset(Rest(s, n))[p];
    }
  }

  datatype State = State(free: set<nat>, active: seq<SequenceState>, waiting: seq<SequenceState>)

  /** Sequence `i` taken out of the batch. */
  function Without(qs: seq<SequenceState>, i: nat): seq<SequenceState>
    requires i < |qs|
  {
    qs[..i] + qs[i + 1..]
  }

  ghost predicate CanAdmit(s: State) {
    |s.active| < MAX_BATCH_SIZE && |s.waiting| > 0 && s.waiting[0].PrefetchPages() <= |s.free|
  }

  /** The head of the queue joins the batch, with the least free pages mapped. */
  ghost function AdmitHead(s: State): State
    requires |s.waiting| > 0 && s.waiting[0].PrefetchPages() <= |s.free|
  {
    var n := s.waiting[0].PrefetchPages();
    State(Rest(s.free, n), s.active + [s.waiting[0].Admitted(Take(s.free, n))], s.waiting[1..])
  }

  /** Promotion: heads are admitted while the batch has room and the pages are there. */
  ghost function Promote(s: State): (s': State)
    ensures |s.active| <= |s'.active|
    decreases |s.waiting|
  {
    if CanAdmit(s) then Promote(AdmitHead(s)) else s
  }

  /** The cleanup loop at index `i`, with the sequences it has retired so far. */
  datatype Sweep = Sweep(s: State, i: nat, retired: seq<SequenceState>)

  /** One iteration of the cleanup loop. */
  ghost function SweepStep(c: Sweep): (c': Sweep)
    requires c.i < |c.s.active|
    ensures c'.i <= |c'.s.active|
    ensures |c'.s.active| - c'.i < |c.s.active| - c.i
  {
    var s, i := c.s, c.i;
    var q := if s.active[i].Exhausted() then s.active[i].(status := Finished) else s.active[i];
    if q.status == Finished then
      Sweep(State(s.free + Elems(q.physicalPages), Without(s.active, i), s.waiting), i, c.retired + [q])
    else if DivCeil(q.numTokens + 1, PAGE_TOKENS) <= |q.physicalPages| then
      c.(i := i + 1)
    else if s.free != {} then
      var p := Least(s.free);
      Sweep(State(s.free - {p}, s.active[i := q.Grown(p)], s.waiting), i + 1, c.retired)
    else
      Sweep(State(s.free + Elems(q.physicalPages), Without(s.active, i), [q.Preempted()] + s.waiting), i, c.retired)
  }

  ghost function SweepAll(c: Sweep): (c': Sweep)
    requires c.i <= |c.s.active|
    decreases |c.s.active| - c.i
  {
    if c.i == |c.s.active| then c else SweepAll(SweepStep(c))
  }

  ghost function Cleanup(s: State): Sweep {
    SweepAll(Sweep(s, 0, []))
  }

  function Ids(qs: seq<SequenceState>): (ids: seq<nat>)
    ensures |ids| == |qs| && forall i | 0 <= i < |qs| :: ids[i] == qs[i].seqId
  {
    seq(|qs|, i requires 0 <= i < |qs| => qs[i].seqId)
  }

  /** The pages mapped by a batch, with multiplicity. */
  function PagesOf(qs: seq<SequenceState>): multiset<nat> {
    if qs == [] then multiset{} else multiset(qs[0].physicalPages) + PagesOf(qs[1..])
  }

  predicate Below(pages: seq<nat>, total: nat) {
    forall i | 0 <= i < |pages| :: pages[i] < total
  }

  /** Every mapped page is a page of the pool. */
  predicate InPool(active: seq<SequenceState>, total: nat) {
    forall i | 0 <= i < |active| :: Below(active[i].physicalPages, total)
  }

  class Scheduler {
    var activeSeqs: seq<SequenceState>
    var waitingSeqs: seq<SequenceState>
    const pagePool: PagePool
    const maxBatchSize: nat

    ghost predicate Valid()
      reads this, pagePool, pagePool.freeBitmap
    {
      && pagePool.Valid()
      && maxBatchSize == MAX_BATCH_SIZE
      && InPool(activeSeqs, pagePool.totalPages)
    }

    ghost function View(): State
      reads this, pagePool
    {
      State(pagePool.free, activeSeqs, waitingSeqs)
    }

    constructor (pool: PagePool)
      requires pool.Valid()
      ensures Valid() && pagePool == pool && maxBatchSize == 16
      ensures View() == State(pool.free, [], [])
    {
      activeSeqs, waitingSeqs := [], [];
      pagePool := pool;
      maxBatchSize := 16;
    }

    method AddRequest(req: SequenceRequest)
      requires Valid()
      modifies `waitingSeqs
      ensures Valid()
      ensures View() == old(View()).(waiting := old(waitingSeqs) + [NewSequence(req)])
    {
      waitingSeqs := waitingSeqs + [NewSequence(req)];
    }

    /** Maps the least free page, after those of `mapped`. */
    method MapNext(mapped: seq<nat>, ghost before: set<nat>) returns (p: Option<nat>)
      requires Valid() && Mapped(before, mapped, pagePool.free)
      modifies pagePool`free, pagePool.freeBitmap
      ensures Valid()
      ensures p.None? ==> pagePool.free == old(pagePool.free) == {}
      ensures p.Some? ==> p.value < pagePool.totalPages && Mapped(before, mapped + [p.value], pagePool.free)
    {
      ghost var rest := pagePool.free;
      p := pagePool.AllocPage();
      if p.Some? {
        assert p.value == Least(rest);
        TakeNext(before, |mapped|);
      }
    }

    /** Maps the least free pages, one by one, until there are `n` or no page is left. */
    method MapPages(n: nat) returns (mapped: seq<nat>, oom: bool)
      requires Valid()
      modifies pagePool`free, pagePool.freeBitmap
      ensures Valid() && Below(mapped, pagePool.totalPages)
      ensures Mapped(old(pagePool.free), mapped, pagePool.free)
      ensures if oom then |mapped| < n && pagePool.free == {} else |mapped| == n
    {
      ghost var before := pagePool.free;
      mapped, oom := [], false;
      while |mapped| < n && !oom
        invariant Valid() && Below(mapped, pagePool.totalPages)
        invariant |mapped| <= n && Mapped(before, mapped, pagePool.free)
        invariant oom ==> pagePool.free == {} && |mapped| < n
        decreases n - |mapped|, if oom then 0 else 1
      {
        var p := MapNext(mapped, before);
        if p.Some? {
          mapped := mapped + [p.value];
        } else {
          oom := true;
        }
      }
    }

    /** Gives every page of `pages` back to the pool. */
    method FreePages(pages: seq<nat>)
      requires Valid()
      requires Below(pages, pagePool.totalPages)
      modifies pagePool`free, pagePool.freeBitmap
      ensures Valid()
      ensures pagePool.free == old(pagePool.free) + Elems(pages)
    {
      var k := 0;
      while k < |pages|
        invariant k <= |pages|
        invariant pagePool.Valid()
        invariant pagePool.free == old(pagePool.free) + Elems(pages[..k])
      {
        pagePool.FreePage(pages[k]);
        assert pages[..k + 1] == pages[..k] + [pages[k]];
        k := k + 1;
      }
      assert pages[..k] == pages;
    }

    /** Admits the head of the queue, or leaves everything as it was. */
    method TryAdmit() returns (oom: bool)
      requires Valid() && |activeSeqs| < maxBatchSize && |waitingSeqs| > 0
      modifies this, pagePool`free, pagePool.freeBitmap
      ensures Valid() && oom == !CanAdmit(old(View()))
      ensures View() == if oom then old(View()) else AdmitHead(old(View()))
    {
      ghost var s := View();
      var q := waitingSeqs[0];
      var mapped;
      mapped, oom := MapPages(q.PrefetchPages());
      if oom {
        TakeRejoins(s.free, |mapped|);
        FreePages(mapped);
      } else {
        activeSeqs, waitingSeqs := activeSeqs + [q.Admitted(mapped)], waitingSeqs[1..];
      }
    }

    method PromoteWaiting()
      requires Valid()
      modifies this, pagePool`free, pagePool.freeBitmap
      ensures Valid()
      ensures View() == Promote(old(View()))
      ensures |old(activeSeqs)| <= 16 ==> |activeSeqs| <= 16
      ensures |activeSeqs| >= 16 || waitingSeqs == [] || (waitingSeqs[0].numTokens + 15) / 16 + 1 > |pagePool.free|
    {
      var oom := false;
      while |activeSeqs| < maxBatchSize && |waitingSeqs| > 0 && !oom
        invariant Valid()
        invariant Promote(View()) == Promote(old(View()))
        invariant oom ==> !CanAdmit(View())
        invariant |old(activeSeqs)| <= 16 ==> |activeSeqs| <= 16
        decreases |waitingSeqs|, if oom then 0 else 1
      {
        oom := TryAdmit();
      }
    }

    /** Takes sequence `i` out of the batch and gives its pages back. */
    method Evict(i: nat) returns (q: SequenceState)
      requires Valid() && i < |activeSeqs|
      modifies `activeSeqs, pagePool`free, pagePool.freeBitmap
      ensures Valid()
      ensures q == old(activeSeqs[i]) && activeSeqs == Without(old(activeSeqs), i)
      ensures pagePool.free == old(pagePool.free) + Elems(q.physicalPages)
    {
      q := activeSeqs[i];
      activeSeqs := Without(activeSeqs, i);
      FreePages(q.physicalPages);
    }

    /** Sequence `i` gets one page more, or is preempted if there is none. */
    method GrowOrPreempt(i: nat) returns (next: nat)
      requires Valid() && i < |activeSeqs|
      modifies this, pagePool`free, pagePool.freeBitmap
      ensures Valid()
      ensures var s, q := old(View()), old(activeSeqs[i]);
              if s.free != {} then
                next == i + 1 && View()
                  == State(s.free - {Least(s.free)}, s.active[i := q.Grown(Least(s.free))], s.waiting)
              else
                next == i && View() == State(s.free + Elems(q.physicalPages), Without(s.active, i),
                  [q.Preempted()] + s.waiting)
    {
      ghost var free := pagePool.free;
      var p := pagePool.AllocPage();
      match p
      case Some(page) =>
        assert page == Least(free);
        activeSeqs := activeSeqs[i := activeSeqs[i].Grown(page)];
        next := i + 1;
      case None =>
        var q := Evict(i);
        waitingSeqs := [q.Preempted()] + waitingSeqs;
        next := i;
    }

    /** One iteration of the cleanup loop. */
    method CleanOne(i: nat, ghost retired: seq<SequenceState>) returns (next: nat, finished: seq<nat>,
                    ghost retired': seq<SequenceState>)
      requires Valid() && i < |activeSeqs|
      modifies this, pagePool`free, pagePool.freeBitmap
      ensures Valid()
      ensures Sweep(View(), next, retired') == SweepStep(Sweep(old(View()), i, retired))
      ensures Ids(retired') == Ids(retired) + finished
    {
      finished, retired' := [], retired;
      if activeSeqs[i].generatedTokens >= activeSeqs[i].maxNewTokens {
        activeSeqs := activeSeqs[i := activeSeqs[i].(status := Finished)];
      }
      if activeSeqs[i].status == Finished {
        var q := Evict(i);
        next, finished, retired' := i, [q.seqId], retired + [q];
      } else if DivCeil(activeSeqs[i].numTokens + 1, PAGE_TOKENS) > |activeSeqs[i].physicalPages| {
        next := GrowOrPreempt(i);
      } else {
        next := i + 1;
      }
    }

    method PostStepCleanup() returns (finished: seq<nat>)
      requires Valid()
      modifies this, pagePool`free, pagePool.freeBitmap
      ensures Valid()
      ensures View() == Cleanup(old(View())).s
      ensures finished == Ids(Cleanup(old(View())).retired)
    {
      finished := [];
      ghost var retired := [];
      var i := 0;
      while i < |activeSeqs|
        invariant 0 <= i <= |activeSeqs|
        invariant Valid()
        invariant finished == Ids(retired)
        invariant SweepAll(Sweep(View(), i, retired)) == Cleanup(old(View()))
        decreases |activeSeqs| - i
      {
        var more;
        i, more, retired := CleanOne(i, retired);
        finished := finished + more;
      }
    }
  }
}
