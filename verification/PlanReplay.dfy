/** The plan as the controller drives it: any sequence of operations on a `SegmentPlan`
    is a sequence of the steps of `PlanRuns`, so what holds of those holds of the
    interval vectors. */
module PlanReplay {
  import opened Basics
  import opened Ranges
  import opened RangeSets
  import opened Rates
  import opened PlanView
  import opened PlanSafety
  import opened PlanRuns
  import opened Segments

  datatype Operation =
    | Claim(req: Request)
    | Receive(id: AssignId, n: nat)
    | Submit(id: AssignId, n: nat)
    | Commit(id: AssignId, range: ByteRange, now: real, alpha: real)
    | Finish(id: AssignId, range: ByteRange)
    | Abandon(id: AssignId)
    | Retry(id: AssignId, until: real, attempt: nat)
    | Release(now: real)
    | Rebalance(now: real, sqrt: real -> real)
    | Clamp(maxPiece: nat)

  /** `e` is what `op` does to the plan `v`. */
  ghost predicate IsEventOf(e: Event, op: Operation, v: View) {
    match op
    case Claim(req) => e.ClaimEvent? && e.req == req
    case Receive(id, n) => e == ReceiveEvent(id, n)
    case Submit(id, n) => e == SubmitEvent(id, n)
    case Commit(id, range, now, alpha) => e == CommitEvent(id, range, now, alpha)
    case Finish(id, range) => e == FinishEvent(id, range)
    case Abandon(id) => e == AbandonEvent(id)
    case Retry(id, until, attempt) => e == RetryEvent(id, until, attempt)
    case Release(now) => e == ReleaseEvent(now)
    case Rebalance(now, sqrt) => e.RebalanceEvent? && exists f, ids :: Flags(v.cfg, v.live, now, sqrt, f, ids, e.stragglers)
    case Clamp(maxPiece) => e == ClampEvent(maxPiece)
  }

  /** The clamp of a claim is inverted. */
  ghost predicate Panics(op: Operation, v: View) {
    op.Claim? && !(Upto(v.total) <= v.completed) && !v.CanClaim()
  }

  method VerifyThenFinish(p: SegmentPlan, id: AssignId, range: ByteRange)
    requires p.Valid()
    modifies p, p.completed, p.claimed
    ensures p.Valid() && p.Now() == VerifyFinishView(old(p.Now()), id, range)
  {
    p.OnResponseVerified(id, range);
    var _ := p.FinishVerified(id);
  }

  method AbandonThenDefer(p: SegmentPlan, id: AssignId, until: real, attempt: nat)
    requires p.Valid()
    modifies p, p.completed, p.claimed
    ensures p.Valid() && p.Now() == RetryView(old(p.Now()), id, until, attempt)
  {
    var a := p.Abandon(id);
    if a.Some? {
      p.Defer(a.value.range, until, attempt);
    }
  }

  method Rebalanced(p: SegmentPlan, now: real, sqrt: real -> real) returns (ghost e: Event)
    requires p.Valid()
    modifies p, p.completed, p.claimed
    ensures p.Valid() && e.RebalanceEvent? && p.Now() == RebalanceView(old(p.Now()), e.stragglers)
    ensures IsEventOf(e, Rebalance(now, sqrt), old(p.Now()))
  {
    var cuts;
    ghost var stragglers, f, ids;
    cuts, stragglers, f, ids := p.RebalanceStragglers(now, sqrt);
    e := RebalanceEvent(stragglers);
  }

  /** The worker's progress and the destination's hint. */
  method Report(p: SegmentPlan, op: Operation) returns (ghost e: Event)
    requires p.Valid() && (op.Receive? || op.Submit? || op.Commit? || op.Clamp?)
    modifies p
    ensures p.Valid()
    ensures IsEventOf(e, op, old(p.Now())) && Next(old(p.Now()), e, p.Now())
  {
    match op {
      case Receive(id, n) =>
        p.OnWireReceived(id, n);
        e := ReceiveEvent(id, n);
      case Submit(id, n) =>
        p.OnSubmitted(id, n);
        e := SubmitEvent(id, n);
      case Commit(id, range, now, alpha) =>
        p.OnDestinationCommitted(id, range, now, alpha);
        e := CommitEvent(id, range, now, alpha);
      case Clamp(maxPiece) =>
        p.ClampMaxPiece(maxPiece);
        e := ClampEvent(maxPiece);
    }
  }

  /** One operation is one event of the plan. */
  method Operate(p: SegmentPlan, op: Operation) returns (ghost e: Event)
    requires p.Valid() && !Panics(op, p.Now())
    modifies p, p.completed, p.claimed
    ensures p.Valid()
    ensures IsEventOf(e, op, old(p.Now())) && Next(old(p.Now()), e, p.Now())
  {
    match op {
      case Claim(req) =>
        var o := p.ClaimWith(req);
        e := ClaimEvent(req, o);
      case Finish(id, range) =>
        VerifyThenFinish(p, id, range);
        e := FinishEvent(id, range);
      case Abandon(id) =>
        var _ := p.Abandon(id);
        e := AbandonEvent(id);
      case Retry(id, until, attempt) =>
        AbandonThenDefer(p, id, until, attempt);
        e := RetryEvent(id, until, attempt);
      case Release(now) =>
        var _ := p.ReleaseDue(now);
        e := ReleaseEvent(now);
      case Rebalance(now, sqrt) =>
        e := Rebalanced(p, now, sqrt);
      case _ =>
        e := Report(p, op);
    }
  }

  method IsPanic(p: SegmentPlan, op: Operation) returns (b: bool)
    requires p.Valid()
    ensures b <==> Panics(op, p.Now())
  {
    TotalLenIsCardinality(p.completed.ranges);
    var done := p.IsComplete();
    b := op.Claim? && !done && !p.cfg.ClampOk(Minus(p.total, p.completed.covered));
  }

  /** `cuts` tells of `id` what became of its end `was`, which is `end` now. */
  predicate Told(cuts: seq<(AssignId, nat)>, id: AssignId, was: nat, end: nat) {
    && end <= was && (end < was ==> (id, end) in cuts)
    && forall k :: 0 <= k < |cuts| && cuts[k].0 == id ==> end <= cuts[k].1 < was
  }

  lemma ToldMore(cuts: seq<(AssignId, nat)>, c: (AssignId, nat), id: AssignId, was: nat, end: nat)
    requires Told(cuts, id, was, end) && (c.0 == id ==> c.1 < end)
    ensures Told(cuts + [c], id, was, if c.0 == id then c.1 else end)
  {
    assert c in cuts + [c];
    assert (id, end) in cuts ==> (id, end) in cuts + [c];
  }

  /** The cuts handed to the controller are those made: whoever ends up shorter has its final end
      among them, and whoever is among them ends up shorter. */
  lemma {:induction false} CutsAreReported(v: View, ids: seq<AssignId>, id: AssignId)
    requires Inv(v) && id in v.live
    ensures id in RebalanceView(v, ids).live
    ensures Told(RebalanceCuts(v, ids), id, v.live[id].range.end, RebalanceView(v, ids).live[id].range.end)
  {
    if ids != [] {
      var n := |ids| - 1;
      CutsAreReported(v, ids[..n], id);
      RebalanceInv(v, ids[..n]);
      OneMoreCut(RebalanceView(v, ids[..n]), RebalanceCuts(v, ids[..n]), ids[n], id, v.live[id].range.end);
    }
  }

  lemma OneMoreCut(w: View, cuts: seq<(AssignId, nat)>, cut: AssignId, id: AssignId, was: nat)
    requires Inv(w) && id in w.live && Told(cuts, id, was, w.live[id].range.end)
    ensures id in RebalanceOne(w, cut).live
    ensures var end := if cut in w.live then RebalanceEnd(w.cfg, w.pieceDuration, w.live[cut]) else None;
            Told(if end.Some? then cuts + [(cut, end.value)] else cuts, id, was, RebalanceOne(w, cut).live[id].range.end)
  {
    if cut in w.live {
      CursorInside(w.live[cut]);
      var end := RebalanceEnd(w.cfg, w.pieceDuration, w.live[cut]);
      if end.Some? { ToldMore(cuts, (cut, end.value), id, was, w.live[id].range.end); }
    }
  }

  /** The operations were taken one by one from `vs[0]`. */
  ghost predicate Traces(vs: seq<View>, es: seq<Event>, ops: seq<Operation>) {
    && IsSteps(vs, es) && |es| <= |ops|
    && forall k :: 0 <= k < |es| ==> IsEventOf(es[k], ops[k], vs[k])
  }

  lemma TraceMore(vs: seq<View>, es: seq<Event>, ops: seq<Operation>, e: Event, v: View)
    requires Traces(vs, es, ops) && |es| < |ops|
    requires IsEventOf(e, ops[|es|], vs[|es|]) && Next(vs[|es|], e, v)
    ensures Traces(vs + [v], es + [e], ops)
  {
    var vs', es' := vs + [v], es + [e];
    forall k | 0 <= k < |es'| ensures Next(vs'[k], es'[k], vs'[k + 1]) && IsEventOf(es'[k], ops[k], vs'[k]) {
      if k < |es| { assert vs'[k] == vs[k] && es'[k] == es[k] && vs'[k + 1] == vs[k + 1]; }
    }
  }

  /** Takes the operations in turn, up to a claim that panics if there is one.  The states are
      a run of the plan that ends with the normalized vectors; it is partitioned throughout
      exactly if its finishes are safe, which in-order commits guarantee. */
  method Replay(total: nat, done: seq<ByteRange>, cfg: Policy, pieceDuration: real, overlapBytes: nat, ops: seq<Operation>)
    returns (completed: seq<ByteRange>, claimed: seq<ByteRange>, final: Policy,
             live: map<AssignId, Assignment>, deferred: seq<Deferred>, taken: nat, ghost vs: seq<View>, ghost es: seq<Event>)
    requires Normalized(done) && Bytes(done) <= Upto(total)
    ensures Normalized(completed) && Normalized(claimed)
    ensures Traces(vs, es, ops) && taken == |es|
    ensures vs[0] == View(total, cfg, pieceDuration, overlapBytes, Bytes(done), Bytes(done), map[], [])
    ensures vs[taken] == View(total, final, pieceDuration, overlapBytes, Bytes(completed), Bytes(claimed), live, deferred)
    ensures taken < |ops| ==> Panics(ops[taken], vs[taken])
    ensures AlwaysPartitioned(vs) <==> SafeUpTo(vs, es, |es|)
    ensures InOrderSteps(vs, es) ==> AlwaysPartitioned(vs)
  {
    var p := new SegmentPlan(total, done, cfg, pieceDuration, overlapBytes);
    vs, es, taken := [p.Now()], [], 0;
    var panicked := false;
    while taken < |ops| && !panicked
      invariant fresh(p.completed) && fresh(p.claimed) && p.Valid()
      invariant taken == |es| && Traces(vs, es, ops) && vs[taken] == p.Now()
      invariant vs[0] == View(total, cfg, pieceDuration, overlapBytes, Bytes(done), Bytes(done), map[], [])
      invariant panicked ==> taken < |ops| && Panics(ops[taken], vs[taken])
      decreases |ops| - taken, !panicked
    {
      panicked := IsPanic(p, ops[taken]);
      if !panicked {
        ghost var e := Operate(p, ops[taken]);
        TraceMore(vs, es, ops, e, p.Now());
        vs, es, taken := vs + [p.Now()], es + [e], taken + 1;
      }
    }
    completed, claimed, final := p.completed.ranges, p.claimed.ranges, p.cfg;
    live, deferred := p.assignments, p.deferred;
    RunIsPartitioned(vs, es);
    if InOrderSteps(vs, es) { InOrderRunIsPartitioned(vs, es); }
  }
}
