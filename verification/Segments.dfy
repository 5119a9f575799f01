/** The segment plan itself: interval vectors, a slot map of live assignments and a
    backoff list, changed in place.  Every method is proved to carry out the step
    that `PlanView` specifies on plain sets. */
module Segments {
  import opened Basics
  import opened Ranges
  import opened RangeSets
  import opened Rates
  import opened PlanView

  /** End of the furthest deferred range that covers part of the gap. */
  function SkipEnd(ds: seq<Deferred>, gap: ByteRange, now: real): Option<nat> {
    if ds == [] then None
    else
      var d, rest := ds[|ds| - 1], SkipEnd(ds[..|ds| - 1], gap, now);
      if d.until > now && d.range.Intersects(gap)
      then Some(if rest.Some? then Max(rest.value, d.range.end) else d.range.end)
      else rest
  }

  predicate BackoffEndsAt(ds: seq<Deferred>, at: nat, now: real) {
    exists k :: 0 <= k < |ds| && ds[k].until > now && ds[k].range.end == at
  }

  predicate BehindBackoff(ds: seq<Deferred>, x: int, now: real) {
    exists k :: 0 <= k < |ds| && ds[k].until > now && x < ds[k].range.end
  }

  /** Every unclaimed byte before `upto` lies before the end of some range in backoff. */
  ghost predicate PassedOver(v: View, upto: nat, now: real) {
    forall x :: x in Upto(upto) && x !in v.claimed ==> BehindBackoff(v.deferred, x, now)
  }

  /** Where the search stands: at the start, or behind some range in backoff that is not claimed. */
  ghost predicate Reached(v: View, pos: nat, now: real) {
    PassedOver(v, pos, now) && (pos > 0 ==> !DeferredClaimed(v) && BackoffEndsAt(v.deferred, pos, now))
  }

  /** The search goes on behind the backoff that covers part of the hole. */
  lemma SkipIs(v: View, hole: ByteRange, pos: nat, now: real)
    requires Reached(v, pos, now) && IsFirstGap(Some(hole), v.claimed, pos, v.total) && GapDeferred(v.deferred, hole, now)
    requires forall k :: 0 <= k < |v.deferred| ==> !v.deferred[k].range.IsEmpty()
    ensures var skip := SkipEnd(v.deferred, hole, now);
            skip.Some? && skip.value > hole.start && Reached(v, skip.value, now)
  {
    SkipEndIs(v.deferred, hole, now);
    PassClaimed(v, pos, hole.start, now);
    PassDeferred(v, hole.start, SkipEnd(v.deferred, hole, now).value, now);
    if DeferredClaimed(v) { UnclaimedIsNotDeferred(v, hole, now); }
  }

  lemma FoundGap(v: View, hole: ByteRange, pos: nat, now: real)
    requires Reached(v, pos, now) && IsFirstGap(Some(hole), v.claimed, pos, v.total) && !GapDeferred(v.deferred, hole, now)
    ensures GapFor(v, hole, now) && PassedOver(v, hole.start, now)
    ensures hole.start == 0 || hole.start - 1 in v.claimed || BackoffEndsAt(v.deferred, hole.start, now)
  {
    PassClaimed(v, pos, hole.start, now);
    assert hole.start > pos ==> hole.start - 1 in Span(ByteRange(pos, hole.start));
  }

  lemma NothingLeft(v: View, pos: nat, now: real)
    requires Reached(v, pos, now) && Span(ByteRange(pos, v.total)) <= v.claimed
    ensures NoGap(v) && PassedOver(v, v.total, now)
  {
    PassClaimed(v, pos, v.total, now);
  }

  lemma PassClaimed(v: View, pos: nat, upto: nat, now: real)
    requires PassedOver(v, pos, now) && Span(ByteRange(pos, upto)) <= v.claimed
    ensures PassedOver(v, upto, now)
  {
    forall x | x in Upto(upto) && x !in v.claimed ensures BehindBackoff(v.deferred, x, now) {
      assert x in Upto(pos) || x in Span(ByteRange(pos, upto));
    }
  }

  lemma PassDeferred(v: View, pos: nat, upto: nat, now: real)
    requires PassedOver(v, pos, now) && BackoffEndsAt(v.deferred, upto, now)
    ensures PassedOver(v, upto, now)
  {
    forall x | x in Upto(upto) ensures BehindBackoff(v.deferred, x, now) {
      var k :| 0 <= k < |v.deferred| && v.deferred[k].until > now && v.deferred[k].range.end == upto;
      assert x < v.deferred[k].range.end;
    }
  }

  lemma {:induction false} SkipEndIs(ds: seq<Deferred>, gap: ByteRange, now: real)
    ensures SkipEnd(ds, gap, now).Some? <==> GapDeferred(ds, gap, now)
    ensures var e := SkipEnd(ds, gap, now); e.Some? ==> gap.start < e.value && BackoffEndsAt(ds, e.value, now)
    ensures forall k :: 0 <= k < |ds| && ds[k].until > now && ds[k].range.Intersects(gap) ==>
              SkipEnd(ds, gap, now).Some? && ds[k].range.end <= SkipEnd(ds, gap, now).value
  {
    if ds != [] {
      var n := |ds| - 1;
      SkipEndIs(ds[..n], gap, now);
      if GapDeferred(ds[..n], gap, now) {
        var k :| 0 <= k < n && ds[..n][k].until > now && ds[..n][k].range.Intersects(gap);
        assert ds[k] == ds[..n][k];
      }
      if SkipEnd(ds[..n], gap, now).Some? {
        var k :| 0 <= k < n && ds[..n][k].until > now && ds[..n][k].range.end == SkipEnd(ds[..n], gap, now).value;
        assert ds[k] == ds[..n][k];
      }
      assert ds[n].until > now && ds[n].range.Intersects(gap) ==> GapDeferred(ds, gap, now);
    }
  }

  lemma {:induction false} HighestDue(ds: seq<Deferred>, now: real)
    ensures forall k :: 0 <= k < |ds| && ds[k].until <= now ==> ds[k].attempt <= MaxAttempt(Due(ds, now))
    ensures MaxAttempt(Due(ds, now)) == 0 ||
            exists k :: 0 <= k < |ds| && ds[k].until <= now && ds[k].attempt == MaxAttempt(Due(ds, now))
  {
    if ds != [] {
      var n := |ds| - 1;
      HighestDue(ds[..n], now);
      DueStep(ds, n, now);
      assert ds[..n + 1] == ds;
      assert forall k :: 0 <= k < n ==> ds[k] == ds[..n][k];
      assert ds[n].until <= now ==> ds[n].attempt <= MaxAttempt(Due(ds, now));
    }
  }

  class SegmentPlan {
    const total: nat
    var cfg: Policy
    const pieceDuration: real
    const overlapBytes: nat
    const completed: RangeSet
    const claimed: RangeSet
    var assignments: map<AssignId, Assignment>
    var nextId: AssignId
    var deferred: seq<Deferred>

    ghost predicate Valid()
      reads this, completed, claimed
    {
      && completed != claimed
      && completed.Valid() && claimed.Valid()
      && completed.Contents() <= Upto(total)
      && (forall id :: id in assignments ==> id < nextId && WellFormed(assignments[id]))
      && (forall k :: 0 <= k < |deferred| ==> !deferred[k].range.IsEmpty())
    }

    ghost predicate WellFormed(a: Assignment) {
      && a.range.start <= a.range.end <= total
      && Normalized(a.committed) && Bytes(a.committed) <= Upto(total)
    }

    ghost function Now(): View
      reads this, completed, claimed
    {
      View(total, cfg, pieceDuration, overlapBytes, completed.Contents(), claimed.Contents(),
           assignments, deferred)
    }

    constructor (total: nat, done: seq<ByteRange>, cfg: Policy, pieceDuration: real, overlapBytes: nat)
      requires Normalized(done) && Bytes(done) <= Upto(total)
      ensures Valid() && fresh(completed) && fresh(claimed)
      ensures Now() == View(total, cfg, pieceDuration, overlapBytes, Bytes(done), Bytes(done), map[], [])
    {
      this.total, this.cfg, this.pieceDuration, this.overlapBytes := total, cfg, pieceDuration, overlapBytes;
      completed := new RangeSet.Clone(done);
      claimed := new RangeSet.Clone(done);
      assignments, nextId, deferred := map[], 0, [];
    }

    /** Only ever lowers the cap. */
    method ClampMaxPiece(maxPiece: nat)
      requires Valid()
      modifies this`cfg
      ensures Valid()
      ensures Now() == old(Now()).(cfg := old(cfg).ClampedTo(maxPiece))
      ensures cfg == old(cfg).(maxPiece := cfg.maxPiece) && cfg.maxPiece <= old(cfg.maxPiece)
      ensures cfg.maxPiece == old(cfg.maxPiece) || cfg.maxPiece == maxPiece
      ensures maxPiece > 0 ==> cfg.maxPiece <= maxPiece
      ensures maxPiece == 0 ==> cfg.maxPiece == old(cfg.maxPiece)
    {
      if maxPiece > 0 {
        cfg := cfg.(maxPiece := Min(cfg.maxPiece, maxPiece));
      }
    }

    method IsComplete() returns (b: bool)
      requires Valid()
      ensures b <==> Upto(total) <= Now().completed
    {
      IsCompleteExact(completed.ranges, total);
      b := Ranges.IsComplete(completed.ranges, total);
    }

    method AdmitsWorker(now: real) returns (b: bool)
      requires Valid()
      ensures b <==> PlanView.AdmitsWorker(Now(), now)
    {
      var done := IsComplete();
      FirstGapExact(claimed.ranges, 0, total);
      var gap := FirstGap(claimed.ranges, 0, total);
      FirstGapUnique(claimed.Contents(), total, gap);
      b := !done && ((gap.Some? && !GapDeferred(deferred, gap.value, now)) ||
                     exists k :: 0 <= k < |deferred| && deferred[k].until <= now);
    }

    method Defer(range: ByteRange, until: real, attempt: nat)
      requires Valid()
      modifies this`deferred, claimed
      ensures Valid()
      ensures Now() == DeferView(old(Now()), range, until, attempt)
    {
      if range.IsEmpty() {
        return;
      }
      claimed.Insert(range);
      deferred := deferred + [Deferred(range, until, attempt)];
    }

    method ReleaseDue(now: real) returns (maxAttempt: nat)
      requires Valid()
      modifies this`deferred, claimed
      ensures Valid()
      ensures Now() == ReleaseView(old(Now()), now)
      ensures maxAttempt == MaxAttempt(Due(old(deferred), now))
      ensures forall k :: 0 <= k < |old(deferred)| && old(deferred)[k].until <= now ==> old(deferred)[k].attempt <= maxAttempt
      ensures maxAttempt == 0 || exists k :: 0 <= k < |old(deferred)| && old(deferred)[k].until <= now && old(deferred)[k].attempt == maxAttempt
    {
      HighestDue(deferred, now);
      var keep;
      KeptFrom(deferred, now);
      maxAttempt, keep := UnclaimDue(deferred, now);
      deferred := keep;
    }

    /** The loop of `ReleaseDue`: un-claims what is due and collects what is not. */
    method UnclaimDue(drained: seq<Deferred>, now: real) returns (maxAttempt: nat, keep: seq<Deferred>)
      requires claimed.Valid()
      modifies claimed
      ensures claimed.Valid()
      ensures claimed.Contents() == old(claimed.Contents()) - WaitBytes(Due(drained, now))
      ensures maxAttempt == MaxAttempt(Due(drained, now)) && keep == Kept(drained, now)
    {
      maxAttempt, keep := 0, [];
      for i := 0 to |drained|
        invariant claimed.Valid()
        invariant keep == Kept(drained[..i], now)
        invariant maxAttempt == MaxAttempt(Due(drained[..i], now))
        invariant claimed.Contents() == old(claimed.Contents()) - WaitBytes(Due(drained[..i], now))
      {
        var d := drained[i];
        DueStep(drained, i, now);
        if d.until <= now {
          claimed.Remove(d.range);
          maxAttempt := Max(maxAttempt, d.attempt);
        } else {
          keep := keep + [d];
        }
      }
      assert drained[..|drained|] == drained;
    }

    method NextClaimableGap(now: real) returns (g: Option<ByteRange>)
      requires Valid()
      ensures g.Some? ==> GapFor(Now(), g.value, now)
      ensures g.None? ==> NoGap(Now())
      // whatever is deferred, no unclaimed byte is passed over but behind a range in backoff
      ensures PassedOver(Now(), if g.Some? then g.value.start else total, now)
      ensures g.Some? ==> g.value.start == 0 || g.value.start - 1 in Now().claimed || BackoffEndsAt(deferred, g.value.start, now)
    {
      var pos := 0;
      while pos < total
        invariant Reached(Now(), pos, now)
        decreases total - pos
      {
        FirstGapExact(claimed.ranges, pos, total);
        var gap := FirstGap(claimed.ranges, pos, total);
        if gap.None? {
          NothingLeft(Now(), pos, now);
          return None;
        }
        var hole := gap.value;
        if !GapDeferred(deferred, hole, now) {
          FoundGap(Now(), hole, pos, now);
          return gap;
        }
        SkipIs(Now(), hole, pos, now);
        var skip := SkipEnd(deferred, hole, now);
        pos := Max(if skip.Some? then skip.value else hole.end, hole.start + 1);
      }
      NothingLeft(Now(), pos, now);
      return None;
    }

    method PushAssignment(range: ByteRange, now: real, overlap: nat, attempt: nat) returns (id: AssignId)
      requires Valid() && range.start <= range.end <= total
      modifies this`assignments, this`nextId, claimed
      ensures Valid()
      ensures id !in old(assignments)
      ensures Now() == Added(old(Now()), id, NewAssignment(range, now, overlap, attempt))
      ensures assignments[id] == Assignment(range, 0, 0, 0, [], now, now, Ewma(0.0, 0.0, 0), overlap, false, attempt)
    {
      claimed.Insert(range);
      id := nextId;
      nextId := nextId + 1;
      assert Bytes([]) == {};
      assignments := assignments[id := NewAssignment(range, now, overlap, attempt)];
    }

    /** The assignment that will finish last among those that may be cut. */
    method PickVictim(req: Request) returns (victim: Option<AssignId>)
      ensures victim.Some? ==> victim.value in assignments && IsVictim(Now(), req, victim.value)
      ensures victim.None? ==> forall id :: id in assignments ==> !Stealable(Now(), req, id)
    {
      victim := None;
      var todo := assignments.Keys;
      while todo != {}
        invariant todo <= assignments.Keys
        invariant victim.Some? ==> victim.value in assignments && Stealable(Now(), req, victim.value)
        invariant forall id :: id in assignments && id !in todo && Stealable(Now(), req, id) ==>
                                 victim.Some? && EtaKey(assignments[id], req.est) <= EtaKey(assignments[victim.value], req.est)
        decreases todo
      {
        var id :| id in todo;
        todo := todo - {id};
        var a := assignments[id];
        if !a.truncated && Elapsed(req.now, a.started) >= cfg.stragglerGrace {
          if victim.None? || EtaKey(assignments[victim.value], req.est) <= EtaKey(a, req.est) {
            victim := Some(id);
          }
        }
      }
    }

    /** Where the thief would cut this victim. */
    method CutFor(req: Request, a: Assignment) returns (cut: Option<nat>)
      requires Valid()
      ensures cut == StealCut(Now(), req, a)
    {
      TotalLenIsCardinality(completed.ranges);
      var start := Protected(a);
      var rem := Minus(a.range.end, start);
      var minPiece := cfg.MinFor(Minus(total, completed.covered));
      if rem < minPiece * 2 {
        return None;
      }
      var keep := Clamp(KeepShare(rem, VictimRate(a, req.est), Nonzero(req.est)), minPiece, rem - minPiece);
      var at := Min(AlignUp(start + keep, cfg.alignment), a.range.end - minPiece);
      return if a.Cursor() < at < a.range.end then Some(at) else None;
    }

    method PlanSteal(req: Request) returns (r: Option<(AssignId, nat)>)
      requires Valid()
      ensures r.Some? ==>
                && r.value.0 in assignments && IsVictim(Now(), req, r.value.0)
                && StealCut(Now(), req, assignments[r.value.0]) == Some(r.value.1)
      ensures r.None? ==> NothingToSteal(Now(), req)
    {
      var victim := PickVictim(req);
      if victim.None? {
        return None;
      }
      var cut := CutFor(req, assignments[victim.value]);
      return if cut.Some? then Some((victim.value, cut.value)) else None;
    }

    method PrefixOverlap(start: nat) returns (overlap: nat)
      requires Valid()
      ensures overlap == OverlapFor(Now(), start)
      ensures var wanted := Min(overlapBytes, start);
              && (overlap == wanted || overlap == 0)
              && (wanted > 0 ==> (overlap == wanted <==> Span(ByteRange(start - wanted, start)) <= claimed.Contents()))
    {
      var desired := Min(overlapBytes, start);
      overlap := 0;
      if desired > 0 {
        ContainsRangeExact(claimed.ranges, ByteRange(start - desired, start));
        if ContainsRange(claimed.ranges, ByteRange(start - desired, start)) {
          overlap := desired;
        }
      }
    }

    /** Carve the next piece out of `gap`. */
    method ClaimGap(req: Request, gap: ByteRange) returns (id: AssignId)
      requires Valid() && Now().CanClaim() && GapFor(Now(), gap, req.now)
      modifies this`assignments, this`nextId, claimed
      ensures Valid()
      ensures FreshStep(old(Now()), Now(), req, id)
    {
      TotalLenIsCardinality(completed.ranges);
      TotalLenIsCardinality(claimed.ranges);
      var piece := PieceLen(cfg, pieceDuration, req.est, Minus(total, completed.covered));
      var len := TakeLen(cfg, piece, req.solo, req.peerSlots, |assignments|, Minus(total, claimed.covered));
      var take := SnapEnd(gap.TruncatedTo(len), cfg.alignment, total);
      var overlap := PrefixOverlap(take.start);
      var attempt := PendingAttempt(deferred, take);
      ghost var before := Now();
      assert NewAssignment(take, req.now, overlap, attempt) == FreshAssignment(before, req, gap);
      id := PushAssignment(take, req.now, overlap, attempt);
    }

    method ClaimWith(req: Request) returns (o: Claim)
      requires Valid() && (Upto(total) <= Now().completed || Now().CanClaim())
      modifies this`assignments, this`nextId, claimed
      ensures Valid()
      ensures ClaimStep(old(Now()), Now(), req, o)
    {
      var done := IsComplete();
      if done {
        return Complete;
      }
      var gap := NextClaimableGap(req.now);
      if gap.Some? {
        var id := ClaimGap(req, gap.value);
        return Fresh(id);
      }
      if req.solo {
        return Saturated;
      }
      var steal := PlanSteal(req);
      if steal.None? {
        return Saturated;
      }
      var new_ := StealTail(req, steal.value.0, steal.value.1);
      return Stolen(new_, steal.value.0);
    }

    method StealTail(req: Request, victim: AssignId, cut: nat) returns (new_: AssignId)
      requires Valid() && victim in assignments
      requires StealCut(Now(), req, assignments[victim]) == Some(cut) && IsVictim(Now(), req, victim)
      modifies this`assignments, this`nextId, claimed
      ensures Valid()
      ensures StealStep(old(Now()), Now(), req, new_, victim)
    {
      var a := assignments[victim];
      StealCutInside(Now(), req, a);
      assignments := assignments[victim := Shortened(a, cut)];
      new_ := PushAssignment(ByteRange(cut, a.range.end), req.now, 0, 0);
    }

    // ---------------------------------------------------------------- progress

    method OnWireReceived(id: AssignId, n: nat)
      requires Valid()
      modifies this`assignments
      ensures Valid()
      ensures Now() == old(Now()).(live := if id in old(assignments)
        then old(assignments)[id := old(assignments)[id].(wireReceived := old(assignments)[id].wireReceived + n)]
        else old(assignments))
    {
      if id in assignments {
        var a := assignments[id];
        assignments := assignments[id := a.(wireReceived := a.wireReceived + n)];
      }
    }

    method OnSubmitted(id: AssignId, n: nat)
      requires Valid()
      modifies this`assignments
      ensures Valid()
      ensures Now() == old(Now()).(live := if id in old(assignments)
        then old(assignments)[id := old(assignments)[id].(submitted := old(assignments)[id].submitted + n)]
        else old(assignments))
    {
      if id in assignments {
        var a := assignments[id];
        assignments := assignments[id := a.(submitted := a.submitted + n)];
      }
    }

    method OnDestinationCommitted(id: AssignId, range: ByteRange, now: real, alpha: real)
      requires Valid()
      modifies this`assignments
      ensures Valid()
      ensures CommitStep(old(Now()), Now(), id, range, now, alpha)
    {
      if range.IsEmpty() || id !in assignments {
        return;
      }
      var a := assignments[id];
      var b := InsertCommitted(a, range);
      var advanced := Minus(b.Cursor(), a.Cursor());
      assignments := assignments[id := Progressed(b, advanced, now, alpha)];
      assert assignments[id] == WithCommitted(a, b.committed, now, alpha);
    }

    method InsertCommitted(a: Assignment, range: ByteRange) returns (b: Assignment)
      requires WellFormed(a)
      ensures CommitsTo(a, range, b.committed) && WellFormed(b)
      ensures b == a.(committed := b.committed, committedLen := |Bytes(b.committed)|)
    {
      var clipped := range.Intersection(a.range);
      var committed := new RangeSet.Clone(a.committed);
      committed.Insert(if clipped.Some? then clipped.value else ByteRange(a.range.start, a.range.start));
      TotalLenIsCardinality(committed.ranges);
      b := a.(committed := committed.ranges, committedLen := committed.covered);
    }

    method OnResponseVerified(id: AssignId, range: ByteRange)
      requires Valid()
      modifies completed, claimed
      ensures Valid()
      ensures Now() == VerifiedView(old(Now()), id, range)
    {
      if range.IsEmpty() || id !in assignments {
        return;
      }
      var q := range.Intersection(assignments[id].range);
      if q.Some? {
        completed.Insert(q.value);
        claimed.Insert(q.value);
      }
    }

    // ---------------------------------------------------------------- the end of an assignment

    /** Un-claims the part of `range` that is not completed, gap by gap. */
    method ReleaseUncompleted(range: ByteRange)
      requires Valid()
      modifies claimed
      ensures Valid()
      ensures claimed.Contents() == old(claimed.Contents()) - (Span(range) - completed.Contents())
    {
      var gaps := Gaps(completed.ranges, range.end);
      for i := 0 to |gaps|
        invariant claimed.Valid() && completed.Valid()
        invariant claimed.Contents() == old(claimed.Contents()) - (Span(range) * Bytes(gaps[..i]))
      {
        BytesPrefix(gaps, i);
        ClippedSpan(gaps[i], range);
        var q := gaps[i].Intersection(range);
        if q.Some? {
          claimed.Remove(q.value);
        }
      }
      assert gaps[..|gaps|] == gaps;
    }

    method FinishVerified(id: AssignId) returns (r: Option<Assignment>)
      requires Valid()
      modifies this`assignments, completed, claimed
      ensures Valid()
      ensures r == if id in old(assignments) then Some(old(assignments)[id]) else None
      ensures Now() == FinishView(old(Now()), id)
    {
      if id !in assignments {
        return None;
      }
      var a := assignments[id];
      assignments := assignments - {id};
      completed.InsertAll(a.committed);
      claimed.InsertAll(a.committed);
      ReleaseUncompleted(a.range);
      return Some(a);
    }

    method Abandon(id: AssignId) returns (r: Option<Assignment>)
      requires Valid()
      modifies this`assignments, claimed
      ensures Valid()
      ensures r == if id in old(assignments) then Some(old(assignments)[id]) else None
      ensures Now() == AbandonView(old(Now()), id)
    {
      if id !in assignments {
        return None;
      }
      var a := assignments[id];
      assignments := assignments - {id};
      ReleaseUncompleted(a.range);
      return Some(a);
    }

    // ---------------------------------------------------------------- rebalance

    /** The warm workers' rates, in any order. */
    method FleetRates() returns (f: Fleet, ghost ids: seq<AssignId>)
      ensures FleetOf(f, ids, assignments)
      ensures forall id :: id in assignments && assignments[id].rate.IsWarm() ==> id in ids
    {
      f, ids := Nobody, [];
      var todo := assignments.Keys;
      while todo != {}
        invariant todo <= assignments.Keys
        invariant FleetOf(f, ids, assignments)
        invariant forall id :: id in ids ==> id !in todo
        invariant forall id :: id in assignments && id !in todo && assignments[id].rate.IsWarm() ==> id in ids
        decreases todo
      {
        var id :| id in todo;
        todo := todo - {id};
        if assignments[id].rate.IsWarm() {
          f := Worker(f, assignments[id].rate.mean);
          assert (ids + [id])[..|ids|] == ids;
          ids := ids + [id];
        }
      }
    }

    /** Everybody the straggler test flags; `sqrt` is the square root of the platform. */
    method Stragglers(now: real, sqrt: real -> real) returns (out: seq<AssignId>, ghost f: Fleet, ghost ids: seq<AssignId>)
      ensures Flags(cfg, assignments, now, sqrt, f, ids, out)
    {
      out := [];
      var fleet: Fleet;
      fleet, ids := FleetRates();
      f := fleet;
      if |assignments| < 2 || fleet.Nobody? {
        return;
      }
      var todo := assignments.Keys;
      while todo != {}
        invariant todo <= assignments.Keys
        invariant forall id :: id in out <==>
                    id in assignments && id !in todo && IsStraggler(cfg, assignments[id], now, fleet, sqrt)
        decreases todo
      {
        var id :| id in todo;
        todo := todo - {id};
        if IsStraggler(cfg, assignments[id], now, fleet, sqrt) {
          out := out + [id];
        }
      }
    }

    method RebalanceStragglers(now: real, sqrt: real -> real)
      returns (cuts: seq<(AssignId, nat)>, ghost stragglers: seq<AssignId>, ghost f: Fleet, ghost ids: seq<AssignId>)
      requires Valid()
      modifies this`assignments, claimed
      ensures Valid()
      ensures Now() == RebalanceView(old(Now()), stragglers)
      ensures cuts == RebalanceCuts(old(Now()), stragglers)
      ensures Flags(old(cfg), old(assignments), now, sqrt, f, ids, stragglers)
    {
      var slow;
      slow, f, ids := Stragglers(now, sqrt);
      stragglers := slow;
      cuts := CutStragglers(slow);
    }

    /** Cuts each given straggler down to about one piece of its own work and
        un-claims the rest of its range. */
    method CutStragglers(stragglers: seq<AssignId>) returns (cuts: seq<(AssignId, nat)>)
      requires Valid()
      modifies this`assignments, claimed
      ensures Valid()
      ensures Now() == RebalanceView(old(Now()), stragglers)
      ensures cuts == RebalanceCuts(old(Now()), stragglers)
    {
      cuts := [];
      for i := 0 to |stragglers|
        invariant Valid()
        invariant Now() == RebalanceView(old(Now()), stragglers[..i])
        invariant cuts == RebalanceCuts(old(Now()), stragglers[..i])
      {
        var id := stragglers[i];
        assert stragglers[..i + 1][..i] == stragglers[..i];
        if id in assignments {
          var end := RebalanceEnd(cfg, pieceDuration, assignments[id]);
          if end.Some? {
            var oldEnd := assignments[id].range.end;
            CursorFrom(assignments[id]);
            assignments := assignments[id := Shortened(assignments[id], end.value)];
            ReleaseTail(end.value, oldEnd);
            cuts := cuts + [(id, end.value)];
          }
        }
      }
      assert stragglers[..|stragglers|] == stragglers;
    }

    /** Walks the completed ranges and un-claims the holes between `from` and `end`. */
    method ReleaseTail(from: nat, end: nat)
      requires Valid() && from < end
      modifies claimed
      ensures Valid()
      ensures claimed.Contents() == old(claimed.Contents()) - (Span(ByteRange(from, end)) - completed.Contents())
    {
      var pos := from;
      var i := 0;
      while i < |completed.ranges|
        invariant 0 <= i <= |completed.ranges|
        invariant claimed.Valid() && completed.Valid()
        invariant from <= pos < end
        invariant forall j :: 0 <= j < i ==> completed.ranges[j].end <= pos
        invariant claimed.Contents() == old(claimed.Contents()) - (Span(ByteRange(from, pos)) - completed.Contents())
      {
        var c := completed.ranges[i];
        if c.end <= pos {
          i := i + 1;
          continue;
        }
        if c.start >= end {
          break;
        }
        HoleBefore(completed.ranges, i, from, pos, end);
        if c.start > pos {
          claimed.Remove(ByteRange(pos, Min(c.start, end)));
        }
        pos := Max(pos, c.end);
        i := i + 1;
        if pos >= end {
          return;
        }
      }
      TailHole(completed.ranges, i, from, pos, end);
      claimed.Remove(ByteRange(pos, end));
    }
  }

  /** `ids` are distinct live ids and `f` lists their rates in the same order. */
  ghost predicate FleetOf(f: Fleet, ids: seq<AssignId>, live: map<AssignId, Assignment>)
    decreases f
  {
    match f
    case Nobody => ids == []
    case Worker(rest, rate) =>
      && ids != []
      && var init, last := ids[..|ids| - 1], ids[|ids| - 1];
      && last in live && live[last].rate.IsWarm() && live[last].rate.mean == rate
      && last !in init && FleetOf(rest, init, live)
  }

  function MeanOf(f: Fleet): real
    requires f.Worker?
  {
    Total(f) / Count(f)
  }

  function VarianceOf(f: Fleet): real
    requires f.Worker?
  {
    Spread(f, MeanOf(f)) / Count(f)
  }

  function DeviationOf(f: Fleet, sqrt: real -> real): real
    requires f.Worker?
  {
    sqrt(MaxReal(VarianceOf(f), 0.0))
  }

  predicate IsStraggler(cfg: Policy, a: Assignment, now: real, f: Fleet, sqrt: real -> real)
    requires f.Worker?
  {
    && Elapsed(now, a.started) >= cfg.stragglerGrace
    && a.rate.IsWarm()
    && a.Remaining() >= cfg.tailMinPiece
    && IsSlow(a.rate.mean, MeanOf(f), DeviationOf(f, sqrt), cfg.stragglerZ, cfg.stragglerShare)
  }

  /** `f` holds exactly the warm workers' rates, and `out` exactly the workers the test flags. */
  ghost predicate Flags(cfg: Policy, live: map<AssignId, Assignment>, now: real, sqrt: real -> real,
                        f: Fleet, ids: seq<AssignId>, out: seq<AssignId>) {
    && FleetOf(f, ids, live)
    && (forall id :: id in live && live[id].rate.IsWarm() ==> id in ids)
    && (|live| < 2 || f.Nobody? ==> out == [])
    && (|live| >= 2 && f.Worker? ==>
          forall id :: id in out <==> id in live && IsStraggler(cfg, live[id], now, f, sqrt))
  }

  lemma {:induction false} FleetHas(f: Fleet, ids: seq<AssignId>, live: map<AssignId, Assignment>, id: AssignId)
    requires FleetOf(f, ids, live) && id in ids
    ensures id in live && live[id].rate.IsWarm() && Member(f, live[id].rate.mean)
    decreases f
  {
    if ids[|ids| - 1] != id {
      FleetHas(f.rest, ids[..|ids| - 1], live, id);
    }
  }

  /** `sqrt` is exact at `x`. */
  predicate RootAt(sqrt: real -> real, x: real) { sqrt(x) >= 0.0 && sqrt(x) * sqrt(x) == x }

  lemma StatsOf(f: Fleet, sqrt: real -> real)
    requires f.Worker? && RootAt(sqrt, VarianceOf(f))
    ensures FleetStats(f, MeanOf(f), DeviationOf(f, sqrt))
  {
    MeanIs(f);
    VarianceIs(f, MeanOf(f));
  }

  lemma MeanIs(f: Fleet)
    requires f.Worker?
    ensures IsMean(f, MeanOf(f))
  {
    DivideMultiply(Total(f), Count(f));
  }

  lemma VarianceIs(f: Fleet, m: real)
    requires f.Worker?
    ensures Spread(f, m) / Count(f) >= 0.0 && IsVariance(f, m, Spread(f, m) / Count(f))
  {
    DivideMultiply(Spread(f, m), Count(f));
    SpreadPositive(f, m);
    NotNegative(Spread(f, m), Count(f));
  }

  lemma NotNegative(x: real, n: real)
    requires x >= 0.0 && n > 0.0
    ensures x / n >= 0.0
  {}

  /** In a plan with at most four warm workers and the default thresholds the test
      flags a worker past its grace with enough left to do exactly if its rate is below
      half the fleet's mean. */
  lemma SmallPlanStragglers(cfg: Policy, live: map<AssignId, Assignment>, id: AssignId, now: real,
                            f: Fleet, ids: seq<AssignId>, sqrt: real -> real)
    requires FleetOf(f, ids, live) && id in ids && Count(f) <= 4.0
    requires cfg.stragglerZ == 2.0 && cfg.stragglerShare == 0.5
    requires f.Worker? ==> RootAt(sqrt, VarianceOf(f))
    ensures id in live && f.Worker?
    ensures IsStraggler(cfg, live[id], now, f, sqrt) <==>
              && Elapsed(now, live[id].started) >= cfg.stragglerGrace
              && live[id].Remaining() >= cfg.tailMinPiece
              && live[id].rate.mean < MeanOf(f) * 0.5
  {
    FleetHas(f, ids, live, id);
    StatsOf(f, sqrt);
    SmallFleetFlagsOnlyHalfRates(f, live[id].rate.mean, MeanOf(f), DeviationOf(f, sqrt));
  }

  function RebalanceCuts(v: View, ids: seq<AssignId>): seq<(AssignId, nat)> {
    if ids == [] then []
    else
      var w, id := RebalanceView(v, ids[..|ids| - 1]), ids[|ids| - 1];
      var before := RebalanceCuts(v, ids[..|ids| - 1]);
      if id !in w.live then before
      else
        match RebalanceEnd(w.cfg, w.pieceDuration, w.live[id])
        case None => before
        case Some(end) => before + [(id, end)]
  }

  lemma FirstGapUnique(claimed: set<int>, total: nat, g: Option<ByteRange>)
    requires IsFirstGap(g, claimed, 0, total)
    ensures forall h :: IsFirstGap(Some(h), claimed, 0, total) ==> g == Some(h)
  {
    forall h | IsFirstGap(Some(h), claimed, 0, total) ensures g == Some(h) {
      assert h.start in Span(h) && h.start in Upto(total);
      if g.Some? {
        var r := g.value;
        assert r.start in Span(r);
        var belowH, belowR := Span(ByteRange(0, h.start)), Span(ByteRange(0, r.start));
        assert r.start in belowH || h.start <= r.start;
        assert h.start in belowR || r.start <= h.start;
        assert r.end in Span(h) || h.end <= r.end;
        assert h.end in Span(r) || r.end <= h.end;
      }
    }
  }

  lemma CursorFrom(a: Assignment)
    requires Normalized(a.committed) && a.range.start <= a.range.end
    ensures a.range.start <= a.Cursor()
  {
    FirstGapExact(a.committed, a.range.start, a.range.end);
  }

  lemma StealCutInside(v: View, req: Request, a: Assignment)
    requires StealCut(v, req, a).Some? && Normalized(a.committed) && a.range.start <= a.range.end
    ensures a.range.start < StealCut(v, req, a).value < a.range.end
  {
    CursorFrom(a);
  }

  /** Between `pos` and the next completed range there is nothing completed. */
  lemma HoleBefore(s: seq<ByteRange>, i: nat, from: nat, pos: nat, end: nat)
    requires Normalized(s) && i < |s| && from <= pos < end
    requires forall j :: 0 <= j < i ==> s[j].end <= pos
    requires pos < s[i].end && s[i].start < end
    ensures Span(ByteRange(from, Min(end, s[i].end))) - Bytes(s) ==
            (Span(ByteRange(from, pos)) - Bytes(s)) + Span(ByteRange(pos, s[i].start))
  {
    forall x | pos <= x < s[i].start ensures x !in Bytes(s) {
      NothingBetween(s, i, x);
    }
    assert forall x :: x in Span(s[i]) ==> x in Bytes(s);
  }

  lemma TailHole(s: seq<ByteRange>, i: nat, from: nat, pos: nat, end: nat)
    requires Normalized(s) && i <= |s| && from <= pos < end
    requires forall j :: 0 <= j < i ==> s[j].end <= pos
    requires i < |s| ==> s[i].start >= end
    ensures Span(ByteRange(from, end)) - Bytes(s) ==
            (Span(ByteRange(from, pos)) - Bytes(s)) + Span(ByteRange(pos, end))
  {
    forall x | pos <= x < end ensures x !in Bytes(s) {
      NothingBetween(s, i, x);
    }
  }

  lemma BytesPrefix(s: seq<ByteRange>, i: nat)
    requires i < |s|
    ensures Bytes(s[..i + 1]) == Bytes(s[..i]) + Span(s[i])
  {
    assert s[..i + 1] == s[..i] + [s[i]];
    BytesConcat(s[..i], [s[i]]);
    BytesOne(s[i]);
  }

  lemma ClippedSpan(a: ByteRange, b: ByteRange)
    ensures Span(a) * Span(b) == match a.Intersection(b) case None => {} case Some(q) => Span(q)
  {}

  lemma WaitAppend(ds: seq<Deferred>, d: Deferred)
    ensures WaitBytes(ds + [d]) == WaitBytes(ds) + Span(d.range)
  {
    var e := ds + [d];
    forall x | x in WaitBytes(ds) ensures x in WaitBytes(e) {
      var k :| 0 <= k < |ds| && x in Span(ds[k].range);
      assert e[k] == ds[k];
    }
    assert e[|ds|] == d;
  }

  /** What one more deferred entry adds to the due and to the kept ones. */
  lemma DueStep(ds: seq<Deferred>, i: nat, now: real)
    requires i < |ds|
    ensures var d, due, due' := ds[i], Due(ds[..i], now), Due(ds[..i + 1], now);
            if d.until <= now
            then MaxAttempt(due') == Max(MaxAttempt(due), d.attempt)
              && WaitBytes(due') == WaitBytes(due) + Span(d.range)
              && Kept(ds[..i + 1], now) == Kept(ds[..i], now)
            else due' == due && Kept(ds[..i + 1], now) == Kept(ds[..i], now) + [d]
  {
    var d, due := ds[i], Due(ds[..i], now);
    assert ds[..i + 1][..i] == ds[..i];
    if d.until <= now {
      assert Due(ds[..i + 1], now) == due + [d] && (due + [d])[..|due|] == due;
      WaitAppend(due, d);
    }
  }
}
