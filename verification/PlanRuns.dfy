/** Whole runs of the plan: any interleaving of claims, progress, verified
    finishes, failures, retries, releases and rebalances. */
module PlanRuns {
  import opened Basics
  import opened Ranges
  import opened PlanView
  import opened PlanSafety

  /** One controller-level step.  A failed assignment is abandoned and, when it is to
      be retried, deferred in the same step; verification is followed by `finish`. */
  datatype Event =
    | ClaimEvent(req: Request, outcome: Claim)
    | ReceiveEvent(id: AssignId, n: nat)
    | SubmitEvent(id: AssignId, n: nat)
    | CommitEvent(id: AssignId, range: ByteRange, now: real, alpha: real)
    | FinishEvent(id: AssignId, range: ByteRange)
    | AbandonEvent(id: AssignId)
    | RetryEvent(id: AssignId, until: real, attempt: nat)
    | ReleaseEvent(now: real)
    | RebalanceEvent(stragglers: seq<AssignId>)
    | ClampEvent(hint: nat)

  function ReceiveView(v: View, id: AssignId, n: nat): View {
    if id !in v.live then v
    else v.(live := v.live[id := v.live[id].(wireReceived := v.live[id].wireReceived + n)])
  }

  function SubmitView(v: View, id: AssignId, n: nat): View {
    if id !in v.live then v
    else v.(live := v.live[id := v.live[id].(submitted := v.live[id].submitted + n)])
  }

  function RetryView(v: View, id: AssignId, until: real, attempt: nat): View {
    if id !in v.live then v
    else DeferView(AbandonView(v, id), v.live[id].range, until, attempt)
  }

  ghost predicate Next(v: View, e: Event, v': View) {
    match e
    case ClaimEvent(req, o) => ClaimStep(v, v', req, o)
    case ReceiveEvent(id, n) => v' == ReceiveView(v, id, n)
    case SubmitEvent(id, n) => v' == SubmitView(v, id, n)
    case CommitEvent(id, r, now, alpha) => CommitStep(v, v', id, r, now, alpha)
    case FinishEvent(id, r) => v' == VerifyFinishView(v, id, r)
    case AbandonEvent(id) => v' == AbandonView(v, id)
    case RetryEvent(id, until, attempt) => v' == RetryView(v, id, until, attempt)
    case ReleaseEvent(now) => v' == ReleaseView(v, now)
    case RebalanceEvent(ids) => v' == RebalanceView(v, ids)
    case ClampEvent(hint) => v' == v.(cfg := v.cfg.ClampedTo(hint))
  }

  /** Any steps at all, commits in any order. */
  ghost predicate IsSteps(vs: seq<View>, es: seq<Event>) {
    && |vs| == |es| + 1
    && Init(vs[0])
    && (forall i :: 0 <= i < |es| ==> Next(vs[i], es[i], vs[i + 1]))
  }

  /** The step is no finish of a worker with stray commits that matter. */
  ghost predicate SafeStep(v: View, e: Event) { e.FinishEvent? ==> SafeFinish(v, e.id) }

  ghost predicate SafeUpTo(vs: seq<View>, es: seq<Event>, n: nat)
    requires n <= |es| <= |vs|
  {
    forall k :: 0 <= k < n ==> SafeStep(vs[k], es[k])
  }

  /** Steps whose finishes are all safe. */
  ghost predicate IsRun(vs: seq<View>, es: seq<Event>) { IsSteps(vs, es) && SafeUpTo(vs, es, |es|) }

  lemma NextInv(v: View, e: Event, v': View)
    requires Inv(v) && Next(v, e, v') && SafeStep(v, e)
    ensures Inv(v')
  {
    match e
    case ClaimEvent(req, o) => ClaimInv(v, v', req, o);
    case ReceiveEvent(id, n) => if id in v.live { ReplaceInv(v, id, v'.live[id]); }
    case SubmitEvent(id, n) => if id in v.live { ReplaceInv(v, id, v'.live[id]); }
    case CommitEvent(id, r, now, alpha) => CommitInv(v, v', id, r, now, alpha);
    case FinishEvent(id, r) => VerifyFinishInv(v, id, r);
    case AbandonEvent(id) => AbandonInv(v, id);
    case RetryEvent(id, until, attempt) => if id in v.live { AbandonDeferInv(v, id, until, attempt); }
    case ReleaseEvent(now) => ReleaseInv(v, now);
    case RebalanceEvent(ids) => RebalanceInv(v, ids);
    case ClampEvent(_) =>
  }

  lemma {:induction false} StepsInv(vs: seq<View>, es: seq<Event>, n: nat)
    requires IsSteps(vs, es) && n <= |es| && SafeUpTo(vs, es, n)
    ensures Inv(vs[n])
  {
    if n == 0 {
      InitInv(vs[0]);
    } else {
      StepsInv(vs, es, n - 1);
      NextInv(vs[n - 1], es[n - 1], vs[n]);
    }
  }

  lemma RunInv(vs: seq<View>, es: seq<Event>, n: nat)
    requires IsRun(vs, es) && n < |vs|
    ensures Inv(vs[n])
  {
    StepsInv(vs, es, n);
  }

  ghost predicate AlwaysPartitioned(vs: seq<View>) { forall i :: 0 <= i < |vs| ==> Partitioned(vs[i]) }

  /** Whatever the order of the commits: in every state the completed bytes, the live
      ranges and the deferred ranges are pairwise disjoint, their union is exactly what is
      claimed, and all of it lies inside the file, exactly if every finish is safe. */
  lemma RunIsPartitioned(vs: seq<View>, es: seq<Event>)
    requires IsSteps(vs, es)
    ensures AlwaysPartitioned(vs) <==> SafeUpTo(vs, es, |es|)
  {
    if SafeUpTo(vs, es, |es|) {
      forall i | 0 <= i < |vs| ensures Partitioned(vs[i]) {
        RunInv(vs, es, i);
        InvPartitions(vs[i]);
      }
    }
    if AlwaysPartitioned(vs) {
      PartitionedIsSafe(vs, es, |es|);
    }
  }

  lemma {:induction false} PartitionedIsSafe(vs: seq<View>, es: seq<Event>, n: nat)
    requires IsSteps(vs, es) && AlwaysPartitioned(vs) && n <= |es|
    ensures SafeUpTo(vs, es, n)
  {
    if n > 0 {
      PartitionedIsSafe(vs, es, n - 1);
      StepsInv(vs, es, n - 1);
      var v, e := vs[n - 1], es[n - 1];
      assert Next(v, e, vs[n - 1 + 1]);
      if e.FinishEvent? && e.id in v.live { FinishSafeIff(v, e.id, e.range); }
    }
  }

  /** Up to its first unsafe finish any run is partitioned, and right after it is not. */
  lemma PartitionedUntilUnsafe(vs: seq<View>, es: seq<Event>, n: nat)
    requires IsSteps(vs, es) && n < |es| && SafeUpTo(vs, es, n) && !SafeStep(vs[n], es[n])
    ensures forall i :: 0 <= i <= n ==> Partitioned(vs[i])
    ensures !Partitioned(vs[n + 1])
  {
    forall i | 0 <= i <= n ensures Partitioned(vs[i]) {
      StepsInv(vs, es, i);
      InvPartitions(vs[i]);
    }
    StepsInv(vs, es, n);
    FinishSafeIff(vs[n], es[n].id, es[n].range);
  }

  // ---------------------------------------------------------------- commits in order

  ghost predicate OrderedStep(v: View, e: Event) { e.CommitEvent? ==> InOrder(v, e.id, e.range) }

  ghost predicate InOrderSteps(vs: seq<View>, es: seq<Event>) {
    IsSteps(vs, es) && forall k :: 0 <= k < |es| ==> OrderedStep(vs[k], es[k])
  }

  lemma NextOrdered(v: View, e: Event, v': View)
    requires Inv(v) && Ordered(v) && Next(v, e, v') && OrderedStep(v, e)
    ensures Inv(v') && Ordered(v')
  {
    if e.FinishEvent? { OrderedIsSafe(v, e.id); }
    NextInv(v, e, v');
    match e
    case ClaimEvent(req, o) => ClaimOrdered(v, v', req, o);
    case CommitEvent(id, r, now, alpha) => CommitOrdered(v, v', id, r, now, alpha);
    case RebalanceEvent(ids) => RebalanceOrdered(v, ids);
    case _ => OthersOrdered(v, e, v');
  }

  lemma OthersOrdered(v: View, e: Event, v': View)
    requires Ordered(v) && Next(v, e, v') && !e.ClaimEvent? && !e.CommitEvent? && !e.RebalanceEvent?
    ensures Ordered(v')
  {
    forall id | id in v'.live
      ensures id in v.live && v'.live[id].range == v.live[id].range && v'.live[id].committed == v.live[id].committed
    {
    }
  }

  lemma {:induction false} InOrderInv(vs: seq<View>, es: seq<Event>, n: nat)
    requires InOrderSteps(vs, es) && n < |vs|
    ensures Inv(vs[n]) && Ordered(vs[n])
  {
    if n == 0 {
      InitInv(vs[0]);
    } else {
      InOrderInv(vs, es, n - 1);
      assert OrderedStep(vs[n - 1], es[n - 1]);
      NextOrdered(vs[n - 1], es[n - 1], vs[n]);
    }
  }

  /** With in-order commits every finish is safe, so every state is partitioned. */
  lemma InOrderRunIsPartitioned(vs: seq<View>, es: seq<Event>)
    requires InOrderSteps(vs, es)
    ensures IsRun(vs, es) && AlwaysPartitioned(vs)
  {
    forall k | 0 <= k < |es| ensures SafeStep(vs[k], es[k]) {
      InOrderInv(vs, es, k);
      if es[k].FinishEvent? { OrderedIsSafe(vs[k], es[k].id); }
    }
    RunIsPartitioned(vs, es);
  }

  // ---------------------------------------------------------------- conservation of credit

  /** The bytes event `e` adds to the completed set of `v`. */
  function Credit(v: View, e: Event): set<int> {
    if e.FinishEvent? && e.id in v.live then Credited(v.live[e.id], e.range) else {}
  }

  /** In any state, whatever was committed: only a finish adds completed bytes, and with
      in-order commits only new ones. */
  lemma {:induction false} StepCredit(v: View, e: Event, v': View)
    requires Inv(v) && Next(v, e, v')
    ensures v'.completed == v.completed + Credit(v, e)
    ensures Ordered(v) ==> v.completed !! Credit(v, e)
    ensures v'.total == v.total
  {
    match e
    case FinishEvent(id, r) => FinishCredit(v, id, r);
    case RebalanceEvent(ids) => RebalanceInv(v, ids);
    case CommitEvent(id, r, now, alpha) => CommitKeeps(v, v', id, r, now, alpha);
    case ClaimEvent(req, o) => ClaimKeeps(v, v', req, o);
    case _ =>
  }

  lemma FinishCredit(v: View, id: AssignId, r: ByteRange)
    requires Inv(v)
    ensures VerifyFinishView(v, id, r).completed == v.completed + Credit(v, FinishEvent(id, r))
    ensures Ordered(v) ==> v.completed !! Credit(v, FinishEvent(id, r))
    ensures VerifyFinishView(v, id, r).total == v.total
  {
    if id in v.live {
      VerifyFinishIs(v, id, r);
      DropLive(v.live, id);
      if Ordered(v) { OrderedIsSafe(v, id); }
    }
  }

  lemma CommitKeeps(v: View, v': View, id: AssignId, r: ByteRange, now: real, alpha: real)
    requires CommitStep(v, v', id, r, now, alpha)
    ensures v' == v.(live := v'.live)
  {}

  lemma ClaimKeeps(v: View, v': View, req: Request, o: Claim)
    requires ClaimStep(v, v', req, o)
    ensures v'.completed == v.completed && v'.total == v.total && v'.deferred == v.deferred
  {}

  ghost predicate Grows(vs: seq<View>, es: seq<Event>, k: nat)
    requires k < |es| < |vs|
  {
    && |vs[k + 1].completed| == |vs[k].completed| + |Credit(vs[k], es[k])|
    && vs[k].completed <= vs[k + 1].completed && vs[k + 1].total == vs[k].total
  }

  lemma StepGrows(vs: seq<View>, es: seq<Event>, k: nat)
    requires InOrderSteps(vs, es) && k < |es|
    ensures Grows(vs, es, k)
  {
    InOrderInv(vs, es, k);
    StepCredit(vs[k], es[k], vs[k + 1]);
  }

  /** How many bytes each step credits. */
  function Credits(vs: seq<View>, es: seq<Event>): (gains: seq<nat>)
    requires |es| <= |vs|
    ensures |gains| == |es|
  {
    seq(|es|, k requires 0 <= k < |es| => |Credit(vs[k], es[k])|)
  }

  function SumTo(gains: seq<nat>, n: nat): nat
    requires n <= |gains|
  {
    if n == 0 then 0 else SumTo(gains, n - 1) + gains[n - 1]
  }

  lemma {:induction false} Telescope(sizes: seq<nat>, gains: seq<nat>, n: nat)
    requires |sizes| == |gains| + 1 && n <= |gains|
    requires forall k :: 0 <= k < |gains| ==> sizes[k + 1] == sizes[k] + gains[k]
    ensures sizes[n] == sizes[0] + SumTo(gains, n)
  {
    if n > 0 { Telescope(sizes, gains, n - 1); }
  }

  ghost predicate AllGrow(vs: seq<View>, es: seq<Event>) {
    |vs| == |es| + 1 && forall k :: 0 <= k < |es| ==> Grows(vs, es, k)
  }

  lemma {:induction false} CompletedGrows(vs: seq<View>, es: seq<Event>, n: nat)
    requires AllGrow(vs, es) && n <= |es|
    ensures vs[0].completed <= vs[n].completed && vs[n].total == vs[0].total
  {
    if n > 0 {
      CompletedGrows(vs, es, n - 1);
      assert Grows(vs, es, n - 1);
    }
  }

  lemma CreditsAddUp(vs: seq<View>, es: seq<Event>, n: nat)
    requires AllGrow(vs, es) && n <= |es|
    ensures |vs[n].completed| == |vs[0].completed| + SumTo(Credits(vs, es), n)
  {
    var sizes: seq<nat> := seq(|vs|, k requires 0 <= k < |vs| => |vs[k].completed|);
    forall k | 0 <= k < |es| ensures sizes[k + 1] == sizes[k] + Credits(vs, es)[k] {
      assert Grows(vs, es, k);
    }
    Telescope(sizes, Credits(vs, es), n);
  }

  /** No byte is credited twice and none is ever un-credited: the credits of the
      finishes add up to the growth of the completed set. */
  lemma CreditIsConserved(vs: seq<View>, es: seq<Event>, n: nat)
    requires InOrderSteps(vs, es) && n <= |es|
    ensures vs[0].completed <= vs[n].completed <= Upto(vs[n].total) && vs[n].total == vs[0].total
    ensures |vs[n].completed| == |vs[0].completed| + SumTo(Credits(vs, es), n)
  {
    forall k | 0 <= k < |es| ensures Grows(vs, es, k) {
      StepGrows(vs, es, k);
    }
    CompletedGrows(vs, es, n);
    CreditsAddUp(vs, es, n);
    InOrderInv(vs, es, n);
  }

  // ---------------------------------------------------------------- exact claim outcomes

  /** In any reachable plan: Complete iff every byte is completed; Fresh iff some byte
      is unclaimed, and then a non-empty unclaimed range starts at the first such
      byte; otherwise every byte is completed, live or deferred. */
  lemma ClaimOutcomeExact(v: View, v': View, req: Request, o: Claim)
    requires Inv(v) && ClaimStep(v, v', req, o)
    ensures o == Complete <==> v.completed == Upto(v.total)
    ensures o.Fresh? <==> v.claimed != Upto(v.total)
    ensures o.Fresh? ==> o.id !in v.live && TookFirst(v, v', o.id)
    ensures o.Stolen? ==> !req.solo
    ensures o.Saturated? || o.Stolen? ==>
              Upto(v.total) == v.completed + LiveBytes(v.live) + WaitBytes(v.deferred)
    ensures v.live == map[] && v.deferred == [] && v.completed != Upto(v.total) ==> o.Fresh?
  {
    ClaimKinds(v, v', req, o);
    if o.Fresh? { FreshOutcome(v, v', req, o.id); }
    OutcomeOf(v, o);
  }

  /** `id` was given a non-empty stretch that begins at the first unclaimed byte. */
  ghost predicate TookFirst(v: View, v': View, id: AssignId) {
    id in v'.live &&
    var r := v'.live[id].range;
    && r.start < r.end <= v.total && Span(r) !! v.claimed && Upto(r.start) <= v.claimed
    && v'.claimed == v.claimed + Span(r)
  }

  lemma ClaimKinds(v: View, v': View, req: Request, o: Claim)
    requires ClaimStep(v, v', req, o)
    ensures o == Complete <==> Upto(v.total) <= v.completed
    ensures o.Fresh? ==> FreshStep(v, v', req, o.id)
    ensures o.Saturated? || o.Stolen? ==> NoGap(v)
    ensures o.Stolen? ==> !req.solo
  {}

  lemma OutcomeOf(v: View, o: Claim)
    requires Inv(v) && (o == Complete <==> Upto(v.total) <= v.completed)
    requires (o.Fresh? ==> v.claimed != Upto(v.total)) && (o.Saturated? || o.Stolen? ==> NoGap(v))
    ensures o == Complete <==> v.completed == Upto(v.total)
    ensures o.Fresh? <==> v.claimed != Upto(v.total)
    ensures o.Saturated? || o.Stolen? ==>
              Upto(v.total) == v.completed + LiveBytes(v.live) + WaitBytes(v.deferred)
    ensures v.live == map[] && v.deferred == [] && v.completed != Upto(v.total) ==> o.Fresh?
  {
    NobodyOwns(v);
    assert DeferredClaimed(v);
  }

  lemma NobodyOwns(v: View)
    ensures v.live == map[] ==> LiveBytes(v.live) == {}
    ensures v.deferred == [] ==> WaitBytes(v.deferred) == {}
  {}

  lemma FreshOutcome(v: View, v': View, req: Request, id: AssignId)
    requires Inv(v) && FreshStep(v, v', req, id)
    ensures v.claimed != Upto(v.total) && id !in v.live && TookFirst(v, v', id)
  {
    var gap := FreshGives(v, v', req, id);
    TakenRangeFits(v, req, gap);
    TakenFromGap(v, gap, TakenRange(v, req, gap), req.now);
  }

  lemma TakenFromGap(v: View, gap: ByteRange, r: ByteRange, now: real)
    requires Inv(v) && GapFor(v, gap, now) && r.start == gap.start < r.end <= gap.end
    ensures v.claimed != Upto(v.total) && Upto(r.start) <= v.claimed
    ensures r.end <= v.total && Span(r) !! v.claimed
  {
    assert gap.start in Span(gap) && gap.start in Upto(v.total);
    assert DeferredClaimed(v);
    assert Span(r) <= Span(gap);
  }

  ghost predicate SomethingDue(v: View, now: real) {
    exists k :: 0 <= k < |v.deferred| && v.deferred[k].until <= now
  }

  /** In a reachable plan the controller's question has a plain answer. */
  lemma AdmitsWorkerIff(v: View, now: real)
    requires Inv(v)
    ensures AdmitsWorker(v, now) <==>
              v.completed != Upto(v.total) && (v.claimed != Upto(v.total) || SomethingDue(v, now))
  {
    if v.claimed != Upto(v.total) {
      var gap := FirstUnclaimedGap(v.claimed, v.total);
      UnclaimedIsNotDeferred(v, gap, now);
    } else {
      forall gap ensures !IsFirstGap(Some(gap), v.claimed, 0, v.total) {
        assert gap.start in Upto(v.total) || gap.start >= v.total;
        assert gap.start in Span(gap) || gap.end <= gap.start;
      }
    }
  }

  lemma FirstUnclaimedGap(claimed: set<int>, total: nat) returns (gap: ByteRange)
    requires claimed <= Upto(total) && claimed != Upto(total)
    ensures IsFirstGap(Some(gap), claimed, 0, total)
  {
    var start := 0;
    while start < total && start in claimed
      invariant start <= total && Span(ByteRange(0, start)) <= claimed
    {
      start := start + 1;
    }
    assert start < total;
    var end := start + 1;
    while end < total && end !in claimed
      invariant start < end <= total && Span(ByteRange(start, end)) !! claimed
    {
      end := end + 1;
    }
    gap := ByteRange(start, end);
  }

  /** A job the controller asked about first is handed a fresh range: it comes to a steal,
      or to nothing at all, only while an elapsed backoff has not been released yet. */
  lemma StealOnlyBehindDueRetry(v: View, v': View, req: Request, o: Claim, asked: real)
    requires Inv(v) && AdmitsWorker(v, asked) && ClaimStep(v, v', req, o)
    ensures o.Fresh? || SomethingDue(v, asked)
    ensures o.Fresh? || v.claimed == Upto(v.total)
    ensures o != Complete
  {
    AdmitsWorkerIff(v, asked);
    ClaimOutcomeExact(v, v', req, o);
  }

  // ---------------------------------------------------------------- backoff

  lemma KeptHas(ds: seq<Deferred>, now: real, d: Deferred)
    requires d in ds
    ensures d.until > now ==> d in Kept(ds, now)
    ensures d.until <= now ==> d in Due(ds, now)
  {
    if ds[|ds| - 1] != d {
      assert d in ds[..|ds| - 1];
      KeptHas(ds[..|ds| - 1], now, d);
    }
  }

  lemma StepKeepsDeferred(v: View, e: Event, v': View, d: Deferred)
    requires Inv(v) && Next(v, e, v') && d in v.deferred
    requires e.ReleaseEvent? ==> e.now < d.until
    ensures d in v'.deferred
  {
    match e
    case ReleaseEvent(now) => KeptHas(v.deferred, now, d);
    case RebalanceEvent(ids) => RebalanceInv(v, ids);
    case _ =>
  }

  /** Until the first release at or after its deadline, deferred work stays claimed and
      belongs to no worker, whatever else happens. */
  lemma BackoffHeld(vs: seq<View>, es: seq<Event>, i: nat, j: nat, d: Deferred)
    requires IsRun(vs, es) && i <= j < |vs| && d in vs[i].deferred
    requires forall k :: i <= k < j && es[k].ReleaseEvent? ==> es[k].now < d.until
    ensures d in vs[j].deferred
    ensures Span(d.range) <= vs[j].claimed
    ensures Span(d.range) !! vs[j].completed && Span(d.range) !! LiveBytes(vs[j].live)
  {
    StaysDeferred(vs, es, i, j, d);
    RunInv(vs, es, j);
    DeferredHeld(vs[j], d);
  }

  lemma StaysDeferred(vs: seq<View>, es: seq<Event>, i: nat, j: nat, d: Deferred)
    requires IsRun(vs, es) && i <= j < |vs| && d in vs[i].deferred
    requires forall k :: i <= k < j && es[k].ReleaseEvent? ==> es[k].now < d.until
    ensures d in vs[j].deferred
  {
    forall k | i <= k < j ensures HandsOn(vs[k], vs[k + 1], d) {
      RunInv(vs, es, k);
      if d in vs[k].deferred { StepKeepsDeferred(vs[k], es[k], vs[k + 1], d); }
    }
    HandedOn(vs, i, j, d);
  }

  predicate HandsOn(v: View, v': View, d: Deferred) { d in v.deferred ==> d in v'.deferred }

  lemma {:induction false} HandedOn(vs: seq<View>, i: nat, j: nat, d: Deferred)
    requires i <= j < |vs| && d in vs[i].deferred
    requires forall k :: i <= k < j ==> HandsOn(vs[k], vs[k + 1], d)
    ensures d in vs[j].deferred
  {
    if i < j {
      HandedOn(vs, i, j - 1, d);
      assert HandsOn(vs[j - 1], vs[j - 1 + 1], d);
    }
  }

  lemma DeferredHeld(v: View, d: Deferred)
    requires Inv(v) && d in v.deferred
    ensures Span(d.range) <= v.claimed && Span(d.range) !! v.completed && Span(d.range) !! LiveBytes(v.live)
  {
    var k :| 0 <= k < |v.deferred| && v.deferred[k] == d;
    assert forall x :: x in Span(d.range) ==> x in Span(v.deferred[k].range);
  }

  lemma RetryDefers(v: View, id: AssignId, until: real, attempt: nat)
    requires Inv(v) && id in v.live
    ensures Deferred(v.live[id].range, until, attempt) in RetryView(v, id, until, attempt).deferred
  {}

  /** The range of a failed worker that is to be retried stays claimed and ownerless until the
      first release at or after its deadline, and that release makes it claimable again. */
  lemma RetryHeldUntil(vs: seq<View>, es: seq<Event>, i: nat, j: nat, id: AssignId, until: real, attempt: nat)
    requires IsRun(vs, es) && i < j <= |es| && es[i] == RetryEvent(id, until, attempt) && id in vs[i].live
    requires forall k :: i < k < j && es[k].ReleaseEvent? ==> es[k].now < until
    ensures var bytes := Span(vs[i].live[id].range);
            && bytes <= vs[j].claimed && bytes !! vs[j].completed && bytes !! LiveBytes(vs[j].live)
            && (j < |es| && es[j].ReleaseEvent? && es[j].now >= until ==> bytes !! vs[j + 1].claimed)
  {
    var d := Deferred(vs[i].live[id].range, until, attempt);
    RunInv(vs, es, i);
    assert Next(vs[i], es[i], vs[i + 1]);
    RetryDefers(vs[i], id, until, attempt);
    BackoffHeld(vs, es, i + 1, j, d);
    if j < |es| && es[j].ReleaseEvent? && es[j].now >= until { ReleaseFreesExactlyTheDue(vs, es, i + 1, j, d); }
  }

  // ---------------------------------------------------------------- a worker is stolen from once

  lemma TruncatedStays(v: View, e: Event, v': View, id: AssignId)
    requires Next(v, e, v') && id in v.live && v.live[id].truncated && id in v'.live
    ensures v'.live[id].truncated
  {
    if e.RebalanceEvent? { RebalanceTruncated(v, e.stragglers, id); }
  }

  lemma {:induction false} RebalanceTruncated(v: View, ids: seq<AssignId>, id: AssignId)
    requires id in v.live && v.live[id].truncated
    ensures id in RebalanceView(v, ids).live && RebalanceView(v, ids).live[id].truncated
  {
    if ids != [] { RebalanceTruncated(v, ids[..|ids| - 1], id); }
  }

  lemma {:induction false} TruncatedUntil(vs: seq<View>, es: seq<Event>, i: nat, j: nat, id: AssignId)
    requires IsSteps(vs, es) && i <= j < |vs| && id in vs[i].live && vs[i].live[id].truncated
    requires forall k :: i <= k <= j ==> id in vs[k].live
    ensures vs[j].live[id].truncated
  {
    if i < j {
      TruncatedUntil(vs, es, i, j - 1, id);
      TruncatedStays(vs[j - 1], es[j - 1], vs[j], id);
    }
  }

  /** A worker that was stolen from is not stolen from again while it lives. */
  lemma StolenFromOnce(vs: seq<View>, es: seq<Event>, i: nat, j: nat, id: AssignId)
    requires IsSteps(vs, es) && i < j < |es|
    requires es[i].ClaimEvent? && es[i].outcome.Stolen? && es[i].outcome.from == id
    requires forall k :: i < k <= j ==> id in vs[k].live
    ensures !(es[j].ClaimEvent? && es[j].outcome.Stolen? && es[j].outcome.from == id)
  {
    assert Next(vs[i], es[i], vs[i + 1]) && Next(vs[j], es[j], vs[j + 1]);
    VictimTruncated(vs[i], vs[i + 1], es[i].req, es[i].outcome);
    TruncatedUntil(vs, es, i + 1, j, id);
    if es[j].ClaimEvent? { VictimTruncated(vs[j], vs[j + 1], es[j].req, es[j].outcome); }
  }

  lemma VictimTruncated(v: View, v': View, req: Request, o: Claim)
    requires ClaimStep(v, v', req, o)
    ensures o.Stolen? ==> o.from in v.live && !v.live[o.from].truncated && o.from in v'.live && v'.live[o.from].truncated
  {}

  /** The controller's clock at the events that read it. */
  predicate Timed(e: Event) { e.ClaimEvent? || e.ReleaseEvent? }

  function Clock(e: Event): real
    requires Timed(e)
  {
    if e.ClaimEvent? then e.req.now else e.now
  }

  ghost predicate MonotoneClock(es: seq<Event>) {
    forall i, j :: 0 <= i < j < |es| && Timed(es[i]) && Timed(es[j]) ==> Clock(es[i]) <= Clock(es[j])
  }

  lemma NoEarlierRelease(es: seq<Event>, i: nat, j: nat, until: real)
    requires MonotoneClock(es) && i <= j < |es| && es[j].ClaimEvent? && until > es[j].req.now
    ensures forall k :: i <= k < j + 1 && es[k].ReleaseEvent? ==> es[k].now < until
  {
    forall k | i <= k < j + 1 && es[k].ReleaseEvent? ensures es[k].now < until {
      assert Timed(es[k]) && Timed(es[j]);
    }
  }

  lemma LiveContains(live: map<AssignId, Assignment>, id: AssignId)
    requires id in live
    ensures Span(live[id].range) <= LiveBytes(live)
  {}

  /** With a monotone clock, nothing claimed at time `now` touches work deferred beyond `now`. */
  lemma ClaimRespectsBackoff(vs: seq<View>, es: seq<Event>, i: nat, j: nat, d: Deferred, id: AssignId)
    requires IsRun(vs, es) && MonotoneClock(es) && i <= j < |es| && d in vs[i].deferred
    requires es[j].ClaimEvent? && d.until > es[j].req.now
    requires id in vs[j + 1].live
    ensures Span(vs[j + 1].live[id].range) !! Span(d.range)
  {
    NoEarlierRelease(es, i, j, d.until);
    BackoffHeld(vs, es, i, j + 1, d);
    LiveContains(vs[j + 1].live, id);
  }

  /** The first release at or after the deadline un-claims exactly the due bytes. */
  lemma ReleaseFreesExactlyTheDue(vs: seq<View>, es: seq<Event>, i: nat, j: nat, d: Deferred)
    requires IsRun(vs, es) && i <= j < |es| && d in vs[i].deferred
    requires forall k :: i <= k < j && es[k].ReleaseEvent? ==> es[k].now < d.until
    requires es[j].ReleaseEvent? && es[j].now >= d.until
    ensures Span(d.range) <= vs[j].claimed && Span(d.range) !! vs[j + 1].claimed
    ensures vs[j].claimed - vs[j + 1].claimed == WaitBytes(Due(vs[j].deferred, es[j].now))
    ensures vs[j + 1].claimed <= vs[j].claimed
    ensures vs[j + 1].completed == vs[j].completed && vs[j + 1].live == vs[j].live
  {
    BackoffHeld(vs, es, i, j, d);
    RunInv(vs, es, j);
    assert Next(vs[j], es[j], vs[j + 1]);
    ReleaseAt(vs[j], es[j].now, d);
  }

  lemma ReleaseAt(v: View, now: real, d: Deferred)
    requires Inv(v) && d in v.deferred && d.until <= now
    ensures Span(d.range) !! ReleaseView(v, now).claimed
    ensures v.claimed - ReleaseView(v, now).claimed == WaitBytes(Due(v.deferred, now))
  {
    SplitWait(v.deferred, now);
    KeptHas(v.deferred, now, d);
    var due := Due(v.deferred, now);
    var k :| 0 <= k < |due| && due[k] == d;
    assert forall x :: x in Span(d.range) ==> x in Span(due[k].range);
  }

  // ---------------------------------------------------------------- out-of-order commits

  // A run of the real steps on a file of 8 bytes: one worker claims all of it, has `[6, 8)`
  // acknowledged first, loses its tail to a thief and finishes.

  const EIGHT := View(8, Policy(1, 8, 0, 1, 1, 2.0, 0.5, 0.0), 1.0, 0, {}, {}, map[], [])
  const ASK := Request(2048.0, 0.0, false, 1)
  const TAIL := [ByteRange(6, 8)]

  function Owner8(): Assignment { NewAssignment(ByteRange(0, 8), 0.0, 0, 0) }

  function Claimed8(): View { EIGHT.(claimed := Upto(8), live := map[0 := Owner8()]) }

  function Acknowledged8(): View {
    Claimed8().(live := map[0 := Owner8().(committed := TAIL, committedLen := 2)])
  }

  function Robbed8(): View { StealView(Acknowledged8(), 1, 0, 4, 0.0) }

  lemma EightLive()
    ensures Acknowledged8().claimed == Upto(8) && LiveBytes(Acknowledged8().live) == Upto(8)
    ensures WaitBytes(Acknowledged8().deferred) == {}
  {
    assert forall x :: x in Upto(8) ==> x in Span(Acknowledged8().live[0].range);
  }

  lemma ClaimsAllEight()
    ensures ClaimStep(EIGHT, Claimed8(), ASK, Fresh(0))
  {
    assert 0 in Upto(8);
    var gap := ByteRange(0, 8);
    assert WaitBytes(EIGHT.deferred) == {} && Span(ByteRange(0, 0)) == {};
    assert GapFor(EIGHT, gap, 0.0);
    assert PieceLen(EIGHT.cfg, 1.0, 2048.0, 8) == 8;
    SnapEndOnlyFillsEmpty(gap, 1, 8);
    assert TakenRange(EIGHT, ASK, gap) == gap;
    assert Claimed8() == Added(EIGHT, 0, FreshAssignment(EIGHT, ASK, gap));
  }

  lemma AcknowledgesTail()
    ensures CommitStep(Claimed8(), Acknowledged8(), 0, ByteRange(6, 8), 0.0, 1.0)
    ensures !InOrder(Claimed8(), 0, ByteRange(6, 8))
  {
    var a := Owner8();
    BytesOne(TAIL[0]);
    assert Bytes([]) == {};
    assert CommitsTo(a, ByteRange(6, 8), TAIL);
    SpanSize(TAIL[0]);
    assert WithCommitted(a, TAIL, 0.0, 1.0) == Acknowledged8().live[0];
  }

  lemma ThiefTakesHalf()
    ensures ClaimStep(Acknowledged8(), Robbed8(), ASK, Stolen(1, 0))
  {
    var v := Acknowledged8();
    EightLive();
    assert 0 in Upto(8);
    assert VictimRate(v.live[0], ASK.est) == 2048.0 && KeepShare(8, 2048.0, 2048.0) == 4;
    assert IsVictim(v, ASK, 0) && StealCut(v, ASK, v.live[0]) == Some(4);
    assert NoGap(v);
  }

  /** Without in-order commits the partition fails on a run of the plan's own steps: the
      victim's finish credits byte 6, which the thief owns. */
  lemma OutOfOrderCommitBreaksPartition()
    returns (claimed: View, acked: View, robbed: View, finished: View)
    ensures Init(EIGHT) && ClaimStep(EIGHT, claimed, ASK, Fresh(0))
    ensures CommitStep(claimed, acked, 0, ByteRange(6, 8), 0.0, 1.0)
    ensures ClaimStep(acked, robbed, ASK, Stolen(1, 0))
    ensures finished == VerifyFinishView(robbed, 0, ByteRange(0, 4))
    ensures Partitioned(robbed) && !SafeFinish(robbed, 0) && !Partitioned(finished)
  {
    claimed, acked, robbed := Claimed8(), Acknowledged8(), Robbed8();
    ClaimsAllEight();
    AcknowledgesTail();
    ThiefTakesHalf();
    finished := VerifyFinishView(robbed, 0, ByteRange(0, 4));
    RobbedIsPartitioned();
    FinishCreditsStolen();
  }

  lemma FinishCreditsStolen()
    ensures !SafeFinish(Robbed8(), 0)
    ensures !Partitioned(VerifyFinishView(Robbed8(), 0, ByteRange(0, 4)))
  {
    var v := Robbed8();
    RobbedIsPartitioned();
    assert v.live[0].committed == TAIL && 6 in Span(TAIL[0]);
    assert 6 in Stray(v.live[0]);
    assert v.live[1].range == ByteRange(4, 8) && 1 in v.live - {0};
    assert 6 in Span((v.live - {0})[1].range);
    assert 6 in LiveBytes(v.live - {0});
    FinishSafeIff(v, 0, ByteRange(0, 4));
  }

  lemma RobbedIsPartitioned()
    ensures LooseInv(Robbed8()) && Partitioned(Robbed8())
  {
    var v := Robbed8();
    assert v.live[0].range == ByteRange(0, 4) && v.live[1].range == ByteRange(4, 8);
    forall x | x in Upto(8) ensures x in LiveBytes(v.live) {
      assert x in Span(v.live[0].range) || x in Span(v.live[1].range);
    }
    assert v.claimed == Upto(8) && WaitBytes(v.deferred) == {};
    InvPartitions(v);
  }
}
