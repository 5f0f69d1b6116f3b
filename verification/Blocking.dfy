/** What happens to a sequence that cannot fit: it stays in the queue, and so does everything behind it. */
module Blocking {
  import opened PagePools
  import opened Batching
  import opened Conservation
  import opened Serving
  import opened Requests
  import opened Provisioning
  import opened Draining
  import opened Histories

  lemma {:induction false} SubsetSize(a: set<nat>, b: set<nat>)
    requires a <= b
    ensures |a| <= |b|
  {
    assert b == a + (b - a);
    assert |a + (b - a)| == |a| + |b - a|;
  }

  lemma {:induction false} FreeAtMost(s: State, total: nat)
    requires Conserved(s, total)
    ensures |s.free| <= total
  {
    forall p | p in s.free ensures p in AllPages(total) {
      assert p in multiset(s.free);
      assert p in multiset(AllPages(total));
    }
    SubsetSize(s.free, AllPages(total));
    AllPagesSize(total);
  }

  /** Promotion does not get past a sequence that asks for more pages than are free. */
  lemma {:induction false} PromoteStopsBefore(s: State, j: nat)
    requires j < |s.waiting| && s.waiting[j].PrefetchPages() > |s.free|
    ensures |s.waiting| - j <= |Promote(s).waiting| <= |s.waiting|
    ensures Promote(s).waiting == s.waiting[|s.waiting| - |Promote(s).waiting|..]
    decreases |s.waiting|
  {
    PromoteOrder(s);
    if CanAdmit(s) {
      PromoteStopsBefore(AdmitHead(s), j - 1);
    }
  }

  ghost predicate EndsWith(w: seq<SequenceState>, end: seq<SequenceState>) {
    |w| >= |end| && w[|w| - |end|..] == end
  }

  lemma {:induction false} EndsWithRest(w: seq<SequenceState>, end: seq<SequenceState>, j: nat)
    requires EndsWith(w, end) && j <= |end|
    ensures EndsWith(w, end[j..])
  {
    assert w[|w| - |end[j..]|..] == w[|w| - |end|..][j..];
  }

  lemma {:induction false} SweepOnlyAddsInFront(c: Sweep)
    requires c.i <= |c.s.active|
    ensures EndsWith(SweepAll(c).s.waiting, c.s.waiting)
    decreases |c.s.active| - c.i
  {
    if c.i < |c.s.active| {
      var c', w := SweepStep(c), SweepAll(SweepStep(c)).s.waiting;
      SweepOnlyAddsInFront(c');
      if |c'.s.waiting| > |c.s.waiting| {
        EndsWithRest(w, c'.s.waiting, 1);
        assert c'.s.waiting[1..] == c.s.waiting;
      }
    }
  }

  /** So after a step the queue still ends with that sequence and those behind it. */
  lemma {:induction false} StepKeepsQueueFrom(s: State, total: nat, logits: Logits, j: nat)
    requires Conserved(s, total) && j < |s.waiting| && s.waiting[j].PrefetchPages() > total
    ensures EndsWith(Step(s, logits).s.waiting, s.waiting[j..])
  {
    FreeAtMost(s, total);
    PromoteStopsBefore(s, j);
    var p := Promote(s);
    var m := |s.waiting| - |p.waiting|;
    assert p.waiting[j - m..] == s.waiting[j..];
    if p.active == [] {
      EndsWithRest(p.waiting, p.waiting, j - m);
    } else {
      var outs := Outputs(p.active, logits);
      SweepOnlyAddsInFront(Sweep(p.(active := ApplyOutputs(p.active, outs, |outs|)), 0, []));
      EndsWithRest(Step(s, logits).s.waiting, p.waiting, j - m);
    }
  }

  ghost predicate TooLarge(queued: seq<SequenceState>, total: nat) {
    queued != [] && queued[0].PrefetchPages() > total
  }

  function NewSequences(reqs: seq<SequenceRequest>): (qs: seq<SequenceState>)
    ensures |qs| == |reqs| && forall i | 0 <= i < |reqs| :: qs[i] == NewSequence(reqs[i])
  {
    seq(|reqs|, i requires 0 <= i < |reqs| => NewSequence(reqs[i]))
  }

  /** What the queue ends with once `queued` is stuck in it: `queued`, and all that has arrived since. */
  function Stuck(queued: seq<SequenceState>, submitted: seq<SequenceRequest>, before: nat): seq<SequenceState>
    requires before <= |submitted|
  {
    queued + NewSequences(submitted[before..])
  }

  lemma {:induction false} StuckMore(queued: seq<SequenceState>, submitted: seq<SequenceRequest>, before: nat,
                                     req: SequenceRequest)
    requires before <= |submitted|
    ensures Stuck(queued, submitted + [req], before) == Stuck(queued, submitted, before) + [NewSequence(req)]
  {
    assert (submitted + [req])[before..] == submitted[before..] + [req];
  }

  lemma {:induction false} EndsWithMore(w: seq<SequenceState>, end: seq<SequenceState>, q: SequenceState)
    requires EndsWith(w, end)
    ensures EndsWith(w + [q], end + [q])
  {
  }

  lemma {:induction false} TickKeepsEnd(v: Service, logits: Logits, total: nat, end: seq<SequenceState>)
    requires Conserved(v.s, total) && TooLarge(end, total) && EndsWith(v.s.waiting, end)
    ensures EndsWith(Ticked(v, logits).s.waiting, end)
  {
    var w := v.s.waiting;
    assert w[|w| - |end|] == end[0];
    StepKeepsQueueFrom(v.s, total, logits, |w| - |end|);
  }

  /** In the queue of `v`, `queued` is stuck since there were `before` requests. */
  ghost predicate StuckIn(v: Service, queued: seq<SequenceState>, before: nat) {
    before <= |v.submitted| && EndsWith(v.s.waiting, Stuck(queued, v.submitted, before))
  }

  lemma {:induction false} SubmitKeepsStuck(v: Service, req: SequenceRequest, queued: seq<SequenceState>, before: nat)
    requires StuckIn(v, queued, before)
    ensures StuckIn(Submitted(v, req), queued, before)
  {
    StuckMore(queued, v.submitted, before, req);
    EndsWithMore(v.s.waiting, Stuck(queued, v.submitted, before), NewSequence(req));
  }

  lemma {:induction false} NextKeepsStuck(v: Service, v': Service, total: nat, queued: seq<SequenceState>, before: nat)
    ensures (IsSubmit(v, v') || IsTick(v, v')) && Conserved(v.s, total) && TooLarge(queued, total)
        && StuckIn(v, queued, before)
        ==> StuckIn(v', queued, before)
  {
    if Conserved(v.s, total) && TooLarge(queued, total) && StuckIn(v, queued, before) {
      if IsSubmit(v, v') {
        var req: SequenceRequest :| req.promptTokens != [] && !HasId(v.submitted, req.seqId) && v' == Submitted(v, req);
        SubmitKeepsStuck(v, req, queued, before);
      } else if IsTick(v, v') {
        var logits: Logits :| (forall i: nat :: |logits(i)| >= 2) && v' == Ticked(v, logits);
        TickKeepsEnd(v, logits, total, Stuck(queued, v.submitted, before));
      }
    }
  }

  lemma {:induction false} AlwaysConserved(vs: seq<Service>, total: nat, n: nat)
    requires IsHistory(vs, total) && n < |vs|
    ensures Conserved(vs[n].s, total)
  {
    AlwaysConsistent(vs, total, n);
  }

  lemma {:induction false} StaysQueuedNext(vs: seq<Service>, total: nat, queued: seq<SequenceState>, before: nat,
                                           n: nat)
    requires IsHistory(vs, total) && n + 1 < |vs|
    ensures TooLarge(queued, total) && StuckIn(vs[n], queued, before) ==> StuckIn(vs[n + 1], queued, before)
  {
    AlwaysConserved(vs, total, n);
    assert Follows(vs, n + 1);
    NextKeepsStuck(vs[n], vs[n + 1], total, queued, before);
  }

  /** In every run a queued sequence that asks for more pages than the pool has is never admitted, and blocks every
      sequence behind it: from then on the queue ends with it, those behind it, and all that arrives, in order. */
  lemma {:induction false} StaysQueued(vs: seq<Service>, total: nat, from: nat, queued: seq<SequenceState>,
                                       before: nat, n: nat)
    requires IsHistory(vs, total) && from <= n < |vs| && TooLarge(queued, total) && StuckIn(vs[from], queued, before)
    ensures StuckIn(vs[n], queued, before)
    decreases n - from
  {
    if from < n {
      StaysQueuedNext(vs, total, queued, before, from);
      StaysQueued(vs, total, from + 1, queued, before, n);
    }
  }

  // ---------- oversize prompts ----------

  /** The prompt alone asks for more pages than the pool has. */
  predicate Oversize(r: SequenceRequest, total: nat) {
    DivCeil(|r.promptTokens|, PAGE_TOKENS) + 1 > total
  }

  /** A live sequence under the id of a submitted request has that request. */
  lemma {:induction false} RequestById(qs: seq<SequenceState>, j: nat, reqs: seq<SequenceRequest>, r: nat)
    requires RequestsOf(qs) <= multiset(reqs) && Distinct(multiset(reqs))
    requires j < |qs| && r < |reqs| && qs[j].seqId == reqs[r].seqId
    ensures RequestOf(qs[j]) == reqs[r]
  {
    RequestsWithout(qs, j);
    assert RequestOf(qs[j]) in RequestsOf(qs);
    assert RequestOf(qs[j]) in multiset(reqs);
    assert SameId(multiset(reqs), RequestOf(qs[j]), reqs[r]);
  }

  /** The queue holds request `r` of those submitted, never run, behind those admitted since. */
  lemma {:induction false} FreshInQueue(v: Service, k: nat, r: nat)
    requires InOrder(v, k) && |v.admitted| <= r < |v.submitted|
    ensures var j := k + (r - |v.admitted|);
            j < |v.s.waiting| && v.s.waiting[j].seqId == v.submitted[r].seqId && v.s.waiting[j].generatedTokens == 0
  {
    var n, ids, unrun := |v.admitted|, IdsOf(v.submitted), Ids(v.s.waiting[k..]);
    assert ids[r] == unrun[r - n];
  }

  lemma {:induction false} FreshAsksFor(v: Service, total: nat, k: nat, r: nat)
    requires Consistent(v, total) && InOrder(v, k) && |v.admitted| <= r < |v.submitted|
    ensures var j := k + (r - |v.admitted|);
            j < |v.s.waiting| && v.s.waiting[j].PrefetchPages() == DivCeil(|v.submitted[r].promptTokens|, PAGE_TOKENS)
              + 1
  {
    var j := k + (r - |v.admitted|);
    FreshInQueue(v, k, r);
    var q := v.s.waiting[j];
    RequestById(v.s.waiting, j, v.submitted, r);
    assert IsIdle(q) && Original(q) == q.promptTokens;
  }

  /** Those admitted in a step are no more than those ahead of a sequence that does not fit. */
  lemma {:induction false} AdmittedBefore(v: Service, total: nat, k: nat, j: nat)
    requires Consistent(v, total) && InOrder(v, k)
    requires k <= j < |v.s.waiting| && v.s.waiting[j].PrefetchPages() > total
    ensures |FirstRuns(Promote(v.s).active[|v.s.active|..])| <= j - k
  {
    FreeAtMost(v.s, total);
    PromoteStopsBefore(v.s, j);
    AddedFromQueue(v.s);
    QueueSplits(v.s.waiting, Promote(v.s).active[|v.s.active|..], k);
  }

  lemma {:induction false} PromotionAdmitsBefore(v: Service, total: nat, k: nat, r: nat)
    requires Consistent(v, total) && InOrder(v, k)
    requires |v.admitted| <= r < |v.submitted| && Oversize(v.submitted[r], total)
    ensures |v.admitted| + |FirstRuns(Promote(v.s).active[|v.s.active|..])| <= r
  {
    FreshAsksFor(v, total, k, r);
    AdmittedBefore(v, total, k, k + (r - |v.admitted|));
  }

  lemma {:induction false} TickAdmitsBefore(v: Service, logits: Logits, total: nat, k: nat, r: nat)
    requires Consistent(v, total) && InOrder(v, k)
    requires |v.admitted| <= r < |v.submitted| && Oversize(v.submitted[r], total)
    ensures |Ticked(v, logits).admitted| <= r
  {
    PromotionAdmitsBefore(v, total, k, r);
  }

  lemma {:induction false} AdmittedOfSubmitted(v: Service, k: nat)
    requires InOrder(v, k)
    ensures |v.admitted| <= |v.submitted|
  {
    assert |IdsOf(v.submitted)| == |v.admitted| + |Ids(v.s.waiting[k..])|;
  }

  /** Admissions have stopped short of every oversize request. */
  ghost predicate StopsAtOversize(v: Service, total: nat) {
    forall r | 0 <= r < |v.submitted| && Oversize(v.submitted[r], total) :: |v.admitted| <= r
  }

  lemma {:induction false} NextStopsAtOversize(v: Service, v': Service, total: nat, k: nat)
    requires IsSubmit(v, v') || IsTick(v, v')
    ensures Consistent(v, total) && InOrder(v, k) && StopsAtOversize(v, total) ==> StopsAtOversize(v', total)
  {
    if Consistent(v, total) && InOrder(v, k) && StopsAtOversize(v, total) {
      if IsSubmit(v, v') {
        AdmittedOfSubmitted(v, k);
      } else {
        var logits: Logits :| (forall i: nat :: |logits(i)| >= 2) && v' == Ticked(v, logits);
        forall r | 0 <= r < |v'.submitted| && Oversize(v'.submitted[r], total) ensures |v'.admitted| <= r {
          TickAdmitsBefore(v, logits, total, k, r);
        }
      }
    }
  }

  /** In every run a request whose prompt does not fit the pool is never admitted, and no request submitted after
      it is. */
  lemma {:induction false} NoneAdmittedFromOversize(vs: seq<Service>, total: nat, n: nat)
    requires IsHistory(vs, total) && n < |vs|
    ensures StopsAtOversize(vs[n], total)
  {
    if n > 0 {
      AlwaysConsistent(vs, total, n - 1);
      StaysOrdered(vs, total, n - 1);
      NoneAdmittedFromOversize(vs, total, n - 1);
      var k: nat :| InOrder(vs[n - 1], k);
      assert Follows(vs, n);
      NextStopsAtOversize(vs[n - 1], vs[n], total, k);
    }
  }
}
