/** Liveness with arrivals: a request is retired within a number of steps that is known when it is submitted,
    whatever is submitted after it. Later requests can only run ahead of it once they have been admitted, and no
    more than a batch of those are ever unfinished. */
module Liveness {
  import opened Arithmetic
  import opened PagePools
  import opened Batching
  import opened Sampling
  import opened Conservation
  import opened Serving
  import opened Requests
  import opened Provisioning
  import opened Draining
  import opened Histories

  // ---------- early and late work ----------

  /** The work of the sequences named in `ids`. */
  function EarlyWork(ids: set<nat>): SequenceState -> nat {
    (q: SequenceState) => if q.seqId in ids then Work(q) else 0
  }

  function EarlyOwed(ids: set<nat>): SequenceState -> nat {
    (q: SequenceState) => if q.seqId in ids then Owed(q) else 0
  }

  /** The work of the others that have run already. */
  function LateWork(ids: set<nat>): SequenceState -> nat {
    (q: SequenceState) => if q.seqId in ids || q.generatedTokens == 0 then 0 else Work(q)
  }

  function LateOwed(ids: set<nat>): SequenceState -> nat {
    (q: SequenceState) => if q.seqId in ids || q.generatedTokens == 0 then 0 else Owed(q)
  }

  lemma {:induction false} EarlyAndLateSteady(ids: set<nat>)
    ensures Steady(EarlyWork(ids), EarlyOwed(ids)) && Steady(LateWork(ids), LateOwed(ids))
  {
  }

  function LiveSum(s: State, f: SequenceState -> nat): nat {
    Sum(s.active, f) + Sum(s.waiting, f)
  }

  // ---------- sums ----------

  lemma {:induction false} SumBelow(a: seq<SequenceState>, b: seq<SequenceState>, f: SequenceState -> nat,
                                    g: SequenceState -> nat)
    requires |a| == |b| && forall i | 0 <= i < |a| :: g(b[i]) <= f(a[i])
    ensures Sum(b, g) <= Sum(a, f)
  {
    if a != [] {
      SumBelow(a[1..], b[1..], f, g);
    }
  }

  lemma {:induction false} SumLess(a: seq<SequenceState>, b: seq<SequenceState>, f: SequenceState -> nat,
                                   g: SequenceState -> nat, i: nat)
    requires |a| == |b| && i < |a| && g(b[i]) < f(a[i])
    requires forall k | 0 <= k < |a| :: g(b[k]) <= f(a[k])
    ensures Sum(b, g) < Sum(a, f)
  {
    if i == 0 {
      SumBelow(a[1..], b[1..], f, g);
    } else {
      SumLess(a[1..], b[1..], f, g, i - 1);
    }
  }

  lemma {:induction false} SumAtMost(qs: seq<SequenceState>, f: SequenceState -> nat, most: nat)
    requires forall i | 0 <= i < |qs| :: f(qs[i]) <= most
    ensures Sum(qs, f) <= most * |qs|
  {
    if qs != [] {
      SumAtMost(qs[1..], f, most);
    }
  }

  lemma {:induction false} SumPositive(qs: seq<SequenceState>, f: SequenceState -> nat) returns (i: nat)
    requires Sum(qs, f) > 0
    ensures i < |qs| && f(qs[i]) > 0
  {
    if f(qs[0]) > 0 {
      i := 0;
    } else {
      i := SumPositive(qs[1..], f);
      i := i + 1;
    }
  }

  lemma {:induction false} SumAtLeast(qs: seq<SequenceState>, f: SequenceState -> nat, i: nat)
    requires i < |qs|
    ensures f(qs[i]) <= Sum(qs, f)
  {
    SumWithout(qs, i, f);
  }

  // ---------- one step ----------

  predicate OneFurther(q: SequenceState, q': SequenceState) {
    q'.seqId == q.seqId && q'.maxNewTokens == q.maxNewTokens && q'.generatedTokens == q.generatedTokens + 1
  }

  ghost predicate AllFurther(qs: seq<SequenceState>, after: seq<SequenceState>) {
    |after| == |qs| && forall i | 0 <= i < |qs| :: OneFurther(qs[i], after[i])
  }

  /** Everything running goes one token further. */
  lemma {:induction false} StepFurther(s: State, total: nat, logits: Logits,
                                       b: multiset<SequenceRequest>) returns (after: seq<SequenceState>)
    requires Conservation.WellFormed(s, total) && Covered(s) && Distinct(b) && LiveRequests(s) <= b
        && Promote(s).active != []
    ensures AllFurther(Promote(s).active, after) && AllRunning(after)
    ensures Step(s, logits).s == Cleanup(Promote(s).(active := after)).s
    ensures Conservation.WellFormed(Promote(s).(active := after), total) && NearlyCovered(Promote(s).(active := after))
  {
    var p := Promote(s);
    var outs := Outputs(p.active, logits);
    after := ApplyOutputs(p.active, outs, |outs|);
    PromoteKeeps(s, total);
    PromoteKeepsRequests(s);
    IdsDistinct(p.active, b);
    StepAppends(p.active, logits);
    AppliedOk(p, total, logits);
    forall i | 0 <= i < |after| ensures after[i].status == Running && OneFurther(p.active[i], after[i]) {
      assert IsResident(p.active[i]);
    }
  }

  lemma {:induction false} CleanupSum(s: State, total: nat, f: SequenceState -> nat, g: SequenceState -> nat)
    requires Conservation.WellFormed(s, total) && NearlyCovered(s) && AllRunning(s.active) && Steady(f, g)
    ensures LiveSum(Cleanup(s).s, f) == Sum(s.active, g) + Sum(s.waiting, f)
  {
    SweepKeepsSum(Sweep(s, 0, []), f, g);
    CleanupKeeps(s, total);
    var left := Cleanup(s).s.active;
    forall i | 0 <= i < |left| ensures f(left[i]) == g(left[i]) + 0 {
      assert SameProgress(left[i], left[i]);
    }
    SumShifted(left, left, f, g, 0);
  }

  /** So a step changes such a sum by what that token takes off it. */
  lemma {:induction false} StepSum(s: State, total: nat, logits: Logits, b: multiset<SequenceRequest>,
                                   f: SequenceState -> nat, g: SequenceState -> nat) returns (after: seq<SequenceState>)
    requires Conservation.WellFormed(s, total) && Covered(s) && Distinct(b) && LiveRequests(s) <= b
        && Promote(s).active != []
    requires Steady(f, g)
    ensures AllFurther(Promote(s).active, after)
    ensures LiveSum(Step(s, logits).s, f) + Sum(Promote(s).active, f) == LiveSum(s, f) + Sum(after, g)
  {
    after := StepFurther(s, total, logits, b);
    PromoteKeepsSum(s, f, g);
    CleanupSum(Promote(s).(active := after), total, f, g);
  }

  lemma {:induction false} FurtherOwes(q: SequenceState, q': SequenceState)
    requires q.generatedTokens < Budget(q.maxNewTokens) && OneFurther(q, q')
    ensures Owed(q') + 1 == Work(q)
  {
  }

  /** A step never adds early work, and takes some off if an early sequence runs. */
  lemma {:induction false} EarlyStep(s: State, total: nat, logits: Logits, b: multiset<SequenceRequest>, ids: set<nat>)
    requires Conservation.WellFormed(s, total) && Covered(s) && Distinct(b) && LiveRequests(s) <= b
    requires Promote(s).active != [] && Unfinished(Promote(s).active)
    ensures LiveSum(Step(s, logits).s, EarlyWork(ids)) <= LiveSum(s, EarlyWork(ids))
    ensures forall i | 0 <= i < |Promote(s).active| && Promote(s).active[i].seqId in ids ::
              LiveSum(Step(s, logits).s, EarlyWork(ids)) < LiveSum(s, EarlyWork(ids))
  {
    EarlyAndLateSteady(ids);
    var a := Promote(s).active;
    var after := StepSum(s, total, logits, b, EarlyWork(ids), EarlyOwed(ids));
    forall i | 0 <= i < |a|
      ensures EarlyOwed(ids)(after[i]) <= EarlyWork(ids)(a[i])
      ensures a[i].seqId in ids ==> EarlyOwed(ids)(after[i]) < EarlyWork(ids)(a[i])
    {
      FurtherOwes(a[i], after[i]);
    }
    SumBelow(a, after, EarlyWork(ids), EarlyOwed(ids));
    forall i | 0 <= i < |a| && a[i].seqId in ids ensures Sum(after, EarlyOwed(ids)) < Sum(a, EarlyWork(ids)) {
      SumLess(a, after, EarlyWork(ids), EarlyOwed(ids), i);
    }
  }

  /** A step in which only late sequences run, all of which ran before, takes some late work off. */
  lemma {:induction false} LateStep(s: State, total: nat, logits: Logits, b: multiset<SequenceRequest>, ids: set<nat>)
    requires Conservation.WellFormed(s, total) && Covered(s) && Distinct(b) && LiveRequests(s) <= b
    requires Promote(s).active != [] && Unfinished(Promote(s).active) && AllRan(Promote(s).active)
    requires forall i | 0 <= i < |Promote(s).active| :: Promote(s).active[i].seqId !in ids
    ensures LiveSum(Step(s, logits).s, LateWork(ids)) < LiveSum(s, LateWork(ids))
  {
    EarlyAndLateSteady(ids);
    var a := Promote(s).active;
    var after := StepSum(s, total, logits, b, LateWork(ids), LateOwed(ids));
    forall i | 0 <= i < |a| ensures LateOwed(ids)(after[i]) < LateWork(ids)(a[i]) {
      FurtherOwes(a[i], after[i]);
    }
    var zero := 0;
    SumLess(a, after, LateWork(ids), LateOwed(ids), zero);
  }

  // ---------- the queue ----------

  /** The ids of the requests submitted before the others. */
  function IdSet(reqs: seq<SequenceRequest>): (ids: set<nat>)
    ensures forall id :: id in ids <==> HasId(reqs, id)
  {
    if reqs == [] then {}
    else
      var n := |reqs| - 1;
      assert forall id :: HasId(reqs, id) <==> HasId(reqs[..n], id) || reqs[n].seqId == id by {
        forall id ensures HasId(reqs, id) <==> HasId(reqs[..n], id) || reqs[n].seqId == id {
          if HasId(reqs, id) {
            var i :| 0 <= i < |reqs| && reqs[i].seqId == id;
            assert i < n ==> reqs[..n][i].seqId == id;
          }
        }
      }
      IdSet(reqs[..n]) + {reqs[n].seqId}
  }

  lemma {:induction false} TwoOfOne(reqs: seq<SequenceRequest>, i: nat, j: nat)
    requires i < j < |reqs| && reqs[i] == reqs[j]
    ensures multiset(reqs)[reqs[i]] >= 2
  {
    assert reqs == reqs[..j] + reqs[j..];
    assert reqs[..j][i] == reqs[i] && reqs[j..][0] == reqs[i];
    assert reqs[i] in multiset(reqs[..j]) && reqs[i] in multiset(reqs[j..]);
  }

  /** Submitted requests have different ids. */
  lemma {:induction false} IdsOnce(reqs: seq<SequenceRequest>, i: nat, j: nat)
    requires Distinct(multiset(reqs)) && i < j < |reqs|
    ensures reqs[i].seqId != reqs[j].seqId
  {
    if reqs[i].seqId == reqs[j].seqId {
      assert SameId(multiset(reqs), reqs[i], reqs[j]);
      TwoOfOne(reqs, i, j);
    }
  }

  /** Among those never run, early requests are ahead of late ones. */
  lemma {:induction false} EarlyFirst(v: Service, early: seq<SequenceRequest>, k: nat, i: nat, j: nat)
    requires InOrder(v, k) && early <= v.submitted && Distinct(multiset(v.submitted))
    requires k <= i < j < |v.s.waiting| && HasId(early, v.s.waiting[j].seqId)
    ensures HasId(early, v.s.waiting[i].seqId)
  {
    var n, ids := |v.admitted|, IdsOf(v.submitted);
    var unrun := Ids(v.s.waiting[k..]);
    assert ids[n + (i - k)] == unrun[i - k] && ids[n + (j - k)] == unrun[j - k];
    assert v.submitted[n + (i - k)].seqId == v.s.waiting[i].seqId;
    assert v.submitted[n + (j - k)].seqId == v.s.waiting[j].seqId;
    var x :| 0 <= x < |early| && early[x].seqId == v.s.waiting[j].seqId;
    assert v.submitted[x] == early[x];
    if x < n + (j - k) {
      IdsOnce(v.submitted, x, n + (j - k));
    } else if n + (j - k) < x {
      IdsOnce(v.submitted, n + (j - k), x);
    }
    assert early[n + (i - k)] == v.submitted[n + (i - k)];
  }

  /** While an early sequence is live and none runs, all that run have run before. */
  lemma {:induction false} OnlyOldRun(v: Service, early: seq<SequenceRequest>, k: nat, j: nat)
    requires InOrder(v, k) && early <= v.submitted && Distinct(multiset(v.submitted))
    requires j < |v.s.waiting| && HasId(early, v.s.waiting[j].seqId)
    requires forall i | 0 <= i < |Promote(v.s).active| :: !HasId(early, Promote(v.s).active[i].seqId)
    ensures AllRan(Promote(v.s).active)
  {
    var a, n := Promote(v.s).active, |v.s.active|;
    PromoteOrder(v.s);
    AddedFromQueue(v.s);
    var added := a[n..];
    forall i | 0 <= i < |a| ensures a[i].generatedTokens > 0 {
      if i < n {
        assert a[..n][i] == v.s.active[i];
      } else {
        var t := i - n;
        assert a[i] == added[t];
        if k <= t {
          EarlyFirst(v, early, k, t, j);
        }
      }
    }
  }

  // ---------- how much late work there can be ----------

  ghost predicate CanServe(reqs: seq<SequenceRequest>, total: nat) {
    forall r | r in reqs :: Servable(r, total)
  }

  lemma {:induction false} WorkAtMost(qs: seq<SequenceState>, reqs: seq<SequenceRequest>, total: nat, i: nat)
    requires RequestsOf(qs) <= multiset(reqs) && CanServe(reqs, total) && i < |qs|
    ensures Work(qs[i]) <= PAGE_TOKENS * total
  {
    RequestsWithout(qs, i);
    assert RequestOf(qs[i]) in RequestsOf(qs);
    assert RequestOf(qs[i]) in multiset(reqs);
    assert Servable(RequestOf(qs[i]), total);
  }

  lemma {:induction false} LateAtMost(qs: seq<SequenceState>, reqs: seq<SequenceRequest>, total: nat, ids: set<nat>)
    requires RequestsOf(qs) <= multiset(reqs) && CanServe(reqs, total)
    ensures Sum(qs, LateWork(ids)) <= PAGE_TOKENS * total * |qs|
  {
    forall i | 0 <= i < |qs| ensures LateWork(ids)(qs[i]) <= PAGE_TOKENS * total {
      WorkAtMost(qs, reqs, total, i);
    }
    SumAtMost(qs, LateWork(ids), PAGE_TOKENS * total);
  }

  /** The most work that late sequences which have run can have together. */
  function MostLateWork(total: nat): nat {
    PAGE_TOKENS * total * MAX_BATCH_SIZE
  }

  /** In the queue only the preempted have late work. */
  lemma {:induction false} LateWaiting(w: seq<SequenceState>, k: nat, reqs: seq<SequenceRequest>, total: nat,
                                       ids: set<nat>)
    requires RunThenFresh(w, k) && RequestsOf(w) <= multiset(reqs) && CanServe(reqs, total)
    ensures Sum(w, LateWork(ids)) <= PAGE_TOKENS * total * k
  {
    assert w == w[..k] + w[k..];
    RequestsAppend(w[..k], w[k..]);
    SumAppend(w[..k], w[k..], LateWork(ids));
    LateAtMost(w[..k], reqs, total, ids);
    var none := 0;
    SumAtMost(w[k..], LateWork(ids), none);
  }

  lemma {:induction false} LiveParts(s: State, retired: seq<SequenceState>, b: multiset<SequenceRequest>)
    requires LiveRequests(s) + RequestsOf(retired) == b
    ensures RequestsOf(s.active) <= b && RequestsOf(s.waiting) <= b
  {
  }

  lemma {:induction false} BatchBound(x: nat, y: nat, m: nat, a: nat, k: nat)
    requires x <= m * a && y <= m * k && k + a <= MAX_BATCH_SIZE
    ensures x + y <= m * MAX_BATCH_SIZE
  {
    MulLeRight(m, a + k, MAX_BATCH_SIZE);
    MulAdd(a, k, m);
  }

  lemma {:induction false} LateBounded(v: Service, total: nat, k: nat, ids: set<nat>)
    requires Consistent(v, total) && InOrder(v, k) && CanServe(v.submitted, total)
    ensures LiveSum(v.s, LateWork(ids)) <= MostLateWork(total)
  {
    LiveParts(v.s, v.retired, multiset(v.submitted));
    LateAtMost(v.s.active, v.submitted, total, ids);
    LateWaiting(v.s.waiting, k, v.submitted, total, ids);
    BatchBound(Sum(v.s.active, LateWork(ids)), Sum(v.s.waiting, LateWork(ids)), PAGE_TOKENS * total, |v.s.active|, k);
  }

  // ---------- the measure ----------

  /** Early work, each unit of which outweighs all the late work there can be, and then the late work. */
  function Measure(v: Service, total: nat, ids: set<nat>): nat {
    Weighted(LiveSum(v.s, EarlyWork(ids)), MostLateWork(total), LiveSum(v.s, LateWork(ids)))
  }

  function Weighted(e: nat, most: nat, l: nat): nat {
    e * (most + 1) + l
  }

  lemma {:induction false} MeasureDrops(e: nat, e': nat, l: nat, l': nat, most: nat)
    requires e' <= e && l' <= most && (e' < e || l' < l)
    ensures Weighted(e', most, l') < Weighted(e, most, l)
  {
    if e' < e {
      MulLe(e' + 1, e, most + 1);
      MulAdd(e', 1, most + 1);
    }
  }

  /** Between any two operations of a history in which every request is servable. */
  ghost predicate InService(v: Service, total: nat, early: seq<SequenceRequest>) {
    && Consistent(v, total) && Ordered(v) && CanServe(v.submitted, total)
    && Unfinished(v.s.active) && Unfinished(v.s.waiting) && early <= v.submitted
  }

  lemma {:induction false} EarlyIsLive(v: Service, early: seq<SequenceRequest>)
    requires LiveSum(v.s, EarlyWork(IdSet(early))) > 0
    requires forall i | 0 <= i < |Promote(v.s).active| :: !HasId(early, Promote(v.s).active[i].seqId)
    ensures exists j :: 0 <= j < |v.s.waiting| && HasId(early, v.s.waiting[j].seqId)
  {
    PromoteOrder(v.s);
    if Sum(v.s.active, EarlyWork(IdSet(early))) > 0 {
      var i := SumPositive(v.s.active, EarlyWork(IdSet(early)));
      assert false;
    }
    var j := SumPositive(v.s.waiting, EarlyWork(IdSet(early)));
  }

  /** While something is live a step has something to run. */
  lemma {:induction false} SomethingRuns(v: Service, total: nat, early: seq<SequenceRequest>)
    requires InService(v, total, early) && |v.s.active| + |v.s.waiting| > 0
    ensures Promote(v.s).active != [] && Unfinished(Promote(v.s).active)
  {
    var b := multiset(v.submitted);
    forall r | r in b ensures Servable(r, total) {
      assert r in v.submitted;
    }
    PromoteRuns(v.s, total, b);
    PromoteUnfinished(v.s);
  }

  // ---------- one operation ----------

  lemma {:induction false} NothingLive(s: State, f: SequenceState -> nat)
    requires s.active == [] && s.waiting == []
    ensures LiveSum(s, f) == 0
  {
  }

  lemma {:induction false} QueuedOldRun(v: Service, early: seq<SequenceRequest>)
    requires Ordered(v) && early <= v.submitted && Distinct(multiset(v.submitted))
    requires LiveSum(v.s, EarlyWork(IdSet(early))) > 0
    requires forall i | 0 <= i < |Promote(v.s).active| :: !HasId(early, Promote(v.s).active[i].seqId)
    ensures AllRan(Promote(v.s).active)
  {
    EarlyIsLive(v, early);
    var k :| InOrder(v, k);
    var j: nat :| j < |v.s.waiting| && HasId(early, v.s.waiting[j].seqId);
    OnlyOldRun(v, early, k, j);
  }

  /** If no early sequence runs in a step, the late work drops. */
  lemma {:induction false} LateTick(v: Service, logits: Logits, total: nat, early: seq<SequenceRequest>)
    requires InService(v, total, early) && Promote(v.s).active != [] && Unfinished(Promote(v.s).active)
    requires LiveSum(v.s, EarlyWork(IdSet(early))) > 0
    requires forall i | 0 <= i < |Promote(v.s).active| :: !HasId(early, Promote(v.s).active[i].seqId)
    ensures LiveSum(Step(v.s, logits).s, LateWork(IdSet(early))) < LiveSum(v.s, LateWork(IdSet(early)))
  {
    QueuedOldRun(v, early);
    LateStep(v.s, total, logits, multiset(v.submitted), IdSet(early));
  }

  /** In a step an early sequence runs, or the late work drops. */
  lemma {:induction false} TickWorks(v: Service, logits: Logits, total: nat, early: seq<SequenceRequest>)
    requires InService(v, total, early) && LiveSum(v.s, EarlyWork(IdSet(early))) > 0
    ensures var s', ids := Step(v.s, logits).s, IdSet(early);
            && LiveSum(s', EarlyWork(ids)) <= LiveSum(v.s, EarlyWork(ids))
            && (LiveSum(s', EarlyWork(ids)) < LiveSum(v.s, EarlyWork(ids))
              || LiveSum(s', LateWork(ids)) < LiveSum(v.s, LateWork(ids)))
  {
    var a := Promote(v.s).active;
    if v.s.active == [] && v.s.waiting == [] {
      NothingLive(v.s, EarlyWork(IdSet(early)));
    }
    SomethingRuns(v, total, early);
    EarlyStep(v.s, total, logits, multiset(v.submitted), IdSet(early));
    if i :| 0 <= i < |a| && HasId(early, a[i].seqId) {
      assert a[i].seqId in IdSet(early);
    } else {
      LateTick(v, logits, total, early);
    }
  }

  lemma {:induction false} LateBoundedNow(v: Service, total: nat, ids: set<nat>)
    requires Consistent(v, total) && Ordered(v) && CanServe(v.submitted, total)
    ensures LiveSum(v.s, LateWork(ids)) <= MostLateWork(total)
  {
    var k :| InOrder(v, k);
    LateBounded(v, total, k, ids);
  }

  /** A step takes some off the measure while an early sequence is live. */
  lemma {:induction false} TickDrops(v: Service, logits: Logits, total: nat, early: seq<SequenceRequest>)
    requires InService(v, total, early) && InService(Ticked(v, logits), total, early)
    requires LiveSum(v.s, EarlyWork(IdSet(early))) > 0
    ensures Measure(Ticked(v, logits), total, IdSet(early)) < Measure(v, total, IdSet(early))
  {
    var ids, v' := IdSet(early), Ticked(v, logits);
    TickWorks(v, logits, total, early);
    LateBoundedNow(v', total, ids);
    MeasureDrops(LiveSum(v.s, EarlyWork(ids)), LiveSum(v'.s, EarlyWork(ids)), LiveSum(v.s, LateWork(ids)),
      LiveSum(v'.s, LateWork(ids)),
      MostLateWork(total));
  }

  /** Once no early sequence is live, none becomes live. */
  lemma {:induction false} TickAddsNone(v: Service, logits: Logits, total: nat, early: seq<SequenceRequest>)
    requires InService(v, total, early)
    ensures LiveSum(Ticked(v, logits).s, EarlyWork(IdSet(early))) <= LiveSum(v.s, EarlyWork(IdSet(early)))
  {
    if |v.s.active| + |v.s.waiting| > 0 {
      SomethingRuns(v, total, early);
      EarlyStep(v.s, total, logits, multiset(v.submitted), IdSet(early));
    } else {
      PromoteOrder(v.s);
    }
  }

  lemma {:induction false} PrefixIds(early: seq<SequenceRequest>, reqs: seq<SequenceRequest>, id: nat)
    requires early <= reqs
    ensures HasId(early, id) ==> HasId(reqs, id)
  {
    if i :| 0 <= i < |early| && early[i].seqId == id {
      assert reqs[i] == early[i];
    }
  }

  /** An arrival changes neither sum. */
  lemma {:induction false} SubmitKeepsMeasure(v: Service, req: SequenceRequest, total: nat, early: seq<SequenceRequest>)
    requires early <= v.submitted && !HasId(v.submitted, req.seqId)
    ensures LiveSum(Submitted(v, req).s, EarlyWork(IdSet(early))) == LiveSum(v.s, EarlyWork(IdSet(early)))
    ensures Measure(Submitted(v, req), total, IdSet(early)) == Measure(v, total, IdSet(early))
  {
    var q, ids := NewSequence(req), IdSet(early);
    PrefixIds(early, v.submitted, req.seqId);
    SumAppend(v.s.waiting, [q], EarlyWork(ids));
    SumAppend(v.s.waiting, [q], LateWork(ids));
  }

  // ---------- whole histories ----------

  lemma {:induction false} SubmittedGrows(vs: seq<Service>, total: nat, from: nat, n: nat)
    requires IsHistory(vs, total) && from <= n < |vs|
    ensures vs[from].submitted <= vs[n].submitted
  {
    if from < n {
      SubmittedGrows(vs, total, from, n - 1);
      assert Follows(vs, n);
    }
  }

  lemma {:induction false} AlwaysInService(vs: seq<Service>, total: nat, from: nat, n: nat)
    requires IsHistory(vs, total) && from <= n < |vs| && CanServe(vs[n].submitted, total)
    ensures InService(vs[n], total, vs[from].submitted)
  {
    AlwaysConsistent(vs, total, n);
    StaysOrdered(vs, total, n);
    OutputsAreTheTokens(vs, total, n);
    SubmittedGrows(vs, total, from, n);
  }

  /** The steps taken between two points of a history: what was not an arrival. */
  function Ticks(vs: seq<Service>, from: nat, n: nat): int
    requires from <= n < |vs|
  {
    (n - from) - (|vs[n].submitted| - |vs[from].submitted|)
  }

  /** Early work is gone, or the measure has dropped by the number of steps. */
  ghost predicate WorkedOff(v: Service, total: nat, ids: set<nat>, ticks: int, measure: nat) {
    LiveSum(v.s, EarlyWork(ids)) == 0 || Measure(v, total, ids) + ticks <= measure
  }

  lemma {:induction false} TickWorkedOff(v: Service, logits: Logits, total: nat, early: seq<SequenceRequest>,
                                         ticks: int, measure: nat)
    requires InService(v, total, early) && InService(Ticked(v, logits), total, early)
    requires WorkedOff(v, total, IdSet(early), ticks, measure)
    ensures WorkedOff(Ticked(v, logits), total, IdSet(early), ticks + 1, measure)
  {
    if LiveSum(v.s, EarlyWork(IdSet(early))) > 0 {
      TickDrops(v, logits, total, early);
    } else {
      TickAddsNone(v, logits, total, early);
    }
  }

  lemma {:induction false} NextWorkedOff(v: Service, v': Service, total: nat, early: seq<SequenceRequest>, ticks: int,
                                         measure: nat)
    requires IsSubmit(v, v') || IsTick(v, v')
    ensures InService(v, total, early) && InService(v', total, early)
        && WorkedOff(v, total, IdSet(early), ticks, measure)
        ==> WorkedOff(v', total, IdSet(early), ticks + 1 - (|v'.submitted| - |v.submitted|), measure)
  {
    if InService(v, total, early) && InService(v', total, early) && WorkedOff(v, total, IdSet(early), ticks, measure) {
      if IsSubmit(v, v') {
        var req: SequenceRequest :| req.promptTokens != [] && !HasId(v.submitted, req.seqId) && v' == Submitted(v, req);
        SubmitKeepsMeasure(v, req, total, early);
      } else {
        var logits: Logits :| (forall i: nat :: |logits(i)| >= 2) && v' == Ticked(v, logits);
        TickWorkedOff(v, logits, total, early, ticks, measure);
      }
    }
  }

  lemma {:induction false} CanServeBefore(reqs: seq<SequenceRequest>, reqs': seq<SequenceRequest>, total: nat)
    requires reqs <= reqs' && CanServe(reqs', total)
    ensures CanServe(reqs, total)
  {
  }

  lemma {:induction false} StaysWorkedOff(vs: seq<Service>, total: nat, from: nat, n: nat, measure: nat)
    requires IsHistory(vs, total) && from <= n < |vs| && CanServe(vs[n].submitted, total)
    requires WorkedOff(vs[from], total, IdSet(vs[from].submitted), 0, measure)
    ensures WorkedOff(vs[n], total, IdSet(vs[from].submitted), Ticks(vs, from, n), measure)
  {
    if from < n {
      SubmittedGrows(vs, total, n - 1, n);
      CanServeBefore(vs[n - 1].submitted, vs[n].submitted, total);
      StaysWorkedOff(vs, total, from, n - 1, measure);
      AlwaysInService(vs, total, from, n - 1);
      AlwaysInService(vs, total, from, n);
      assert Follows(vs, n);
      NextWorkedOff(vs[n - 1], vs[n], total, vs[from].submitted, Ticks(vs, from, n - 1), measure);
    }
  }

  // ---------- the theorem ----------

  lemma {:induction false} AllEarly(qs: seq<SequenceState>, reqs: seq<SequenceRequest>)
    requires RequestsOf(qs) <= multiset(reqs)
    ensures Sum(qs, EarlyWork(IdSet(reqs))) == Sum(qs, Work) && Sum(qs, LateWork(IdSet(reqs))) == 0
  {
    forall i | 0 <= i < |qs|
      ensures EarlyWork(IdSet(reqs))(qs[i]) == Work(qs[i]) + 0 && LateWork(IdSet(reqs))(qs[i]) <= 0
    {
      KnownId(qs, reqs, i);
    }
    SumShifted(qs, qs, EarlyWork(IdSet(reqs)), Work, 0);
    var none := 0;
    SumAtMost(qs, LateWork(IdSet(reqs)), none);
  }

  /** When the last request of interest is submitted, the measure is a bound that can be computed. */
  function StepsNeeded(s: State, total: nat): nat {
    Weighted(LiveWork(s), MostLateWork(total), 0)
  }

  lemma {:induction false} AllLiveEarly(v: Service, total: nat)
    requires Consistent(v, total)
    ensures LiveSum(v.s, EarlyWork(IdSet(v.submitted))) == LiveWork(v.s)
        && LiveSum(v.s, LateWork(IdSet(v.submitted))) == 0
  {
    LiveParts(v.s, v.retired, multiset(v.submitted));
    AllEarly(v.s.active, v.submitted);
    AllEarly(v.s.waiting, v.submitted);
  }

  lemma {:induction false} MeasureAtStart(v: Service, total: nat)
    requires Consistent(v, total)
    ensures Measure(v, total, IdSet(v.submitted)) == StepsNeeded(v.s, total)
  {
    AllLiveEarly(v, total);
  }

  lemma {:induction false} NoneOfThem(qs: seq<SequenceState>, early: seq<SequenceRequest>, r: SequenceRequest)
    requires Sum(qs, EarlyWork(IdSet(early))) == 0 && r in early
    ensures r !in RequestsOf(qs)
  {
    if r in RequestsOf(qs) {
      var i := FindRequest(qs, r);
      var k :| 0 <= k < |early| && early[k] == r;
      assert HasId(early, qs[i].seqId);
      SumAtLeast(qs, EarlyWork(IdSet(early)), i);
    }
  }

  lemma {:induction false} WorkGone(e: nat, l: nat, most: nat)
    requires Weighted(e, most, l) <= 0
    ensures e == 0
  {
    if e > 0 {
      MulLe(1, e, most + 1);
    }
  }

  lemma {:induction false} EarlyGone(v: Service, total: nat, ids: set<nat>, ticks: int, measure: nat)
    requires WorkedOff(v, total, ids, ticks, measure) && ticks >= measure
    ensures LiveSum(v.s, EarlyWork(ids)) == 0
  {
    if LiveSum(v.s, EarlyWork(ids)) != 0 {
      WorkGone(LiveSum(v.s, EarlyWork(ids)), LiveSum(v.s, LateWork(ids)), MostLateWork(total));
    }
  }

  /** With no early work left, every early request is among the retired. */
  lemma {:induction false} AllRetired(v: Service, total: nat, early: seq<SequenceRequest>)
    requires Consistent(v, total) && early <= v.submitted && LiveSum(v.s, EarlyWork(IdSet(early))) == 0
    ensures multiset(early) <= RequestsOf(v.retired)
  {
    assert v.submitted == early + v.submitted[|early|..];
    forall r ensures multiset(early)[r] <= RequestsOf(v.retired)[r] {
      if r in early {
        NoneOfThem(v.s.active, early, r);
        NoneOfThem(v.s.waiting, early, r);
        assert multiset(v.submitted)[r] == LiveRequests(v.s)[r] + RequestsOf(v.retired)[r];
      }
    }
  }

  /** When every request is servable, each is retired, with its whole budget of tokens, within `StepsNeeded`
      steps of the moment it was submitted, whatever is submitted afterwards. */
  lemma {:induction false} RetiredInTime(vs: seq<Service>, total: nat, from: nat, n: nat)
    requires IsHistory(vs, total) && from <= n < |vs| && CanServe(vs[n].submitted, total)
    requires Ticks(vs, from, n) >= StepsNeeded(vs[from].s, total)
    ensures multiset(vs[from].submitted) <= RequestsOf(vs[n].retired)
    ensures AllServed(vs[n].retired)
  {
    var early := vs[from].submitted;
    AlwaysConsistent(vs, total, from);
    MeasureAtStart(vs[from], total);
    StaysWorkedOff(vs, total, from, n, Measure(vs[from], total, IdSet(early)));
    EarlyGone(vs[n], total, IdSet(early), Ticks(vs, from, n), Measure(vs[from], total, IdSet(early)));
    AlwaysInService(vs, total, from, n);
    OutputsAreTheTokens(vs, total, n);
    AllRetired(vs[n], total, early);
  }

  /** In every history only servable requests are ever retired. */
  lemma {:induction false} OnlyServableRetired(vs: seq<Service>, total: nat, n: nat)
    requires IsHistory(vs, total) && n < |vs|
    ensures AllServable(RequestsOf(vs[n].retired), total)
  {
    AlwaysConsistent(vs, total, n);
    OutputsAreTheTokens(vs, total, n);
    RetiredServable(vs[n].retired, total);
  }

  /** So, whatever servable requests arrive later, all requests submitted by a point are retired within
      `StepsNeeded` steps from there exactly when they are all servable. */
  lemma {:induction false} RetiredIffServable(vs: seq<Service>, total: nat, from: nat, n: nat)
    requires IsHistory(vs, total) && from <= n < |vs|
    requires forall r | r in vs[n].submitted :: r in vs[from].submitted || Servable(r, total)
    requires Ticks(vs, from, n) >= StepsNeeded(vs[from].s, total)
    ensures multiset(vs[from].submitted) <= RequestsOf(vs[n].retired) <==> CanServe(vs[from].submitted, total)
  {
    var early := vs[from].submitted;
    if CanServe(early, total) {
      RetiredInTime(vs, total, from, n);
    }
    OnlyServableRetired(vs, total, n);
    if multiset(early) <= RequestsOf(vs[n].retired) {
      forall r | r in early ensures Servable(r, total) {
        assert multiset(early)[r] <= RequestsOf(vs[n].retired)[r];
      }
    }
  }
}
