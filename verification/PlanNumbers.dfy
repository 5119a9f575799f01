/** What claims, steals and cuts come to in bytes and seconds.  The sizes are stated with
    plain arithmetic on the policy, the estimate and the plan, not with the functions
    that compute them. */
module PlanNumbers {
  import opened Basics
  import opened Ranges
  import opened Rates
  import opened PlanView
  import opened PlanSafety
  import opened PlanClaims

  // ---------------------------------------------------------------- the length of a fresh piece

  /** `n` bytes are aimed at: what the worker is expected to move in a piece's duration,
      kept between the minimum and the maximum that apply to what is missing. */
  predicate Aims(v: View, req: Request, n: nat) {
    var missing := Minus(v.total, |v.completed|);
    var tail := missing <= v.cfg.tailThreshold;
    var lo := if tail then v.cfg.tailMinPiece else v.cfg.minPiece;
    var hi := if tail && missing < v.cfg.maxPiece then Max(v.cfg.maxPiece / 8, lo) else v.cfg.maxPiece;
    Within(req.est * v.pieceDuration, lo, hi, n)
  }

  /** `n` is `x` rounded down and kept between `lo` and `hi`. */
  predicate Within(x: real, lo: int, hi: int, n: int) {
    && (x < lo as real ==> n == lo)
    && (lo as real <= x <= hi as real ==> n as real <= x < n as real + 1.0)
    && (x > hi as real ==> n == hi)
  }

  /** The gap goes on behind `r`. */
  ghost predicate EndsInside(v: View, r: ByteRange) { r.end < v.total && r.end !in v.claimed }

  /** A whole piece is what is aimed at, rounded up by less than the alignment, and one byte
      at least.  Only the end of the gap makes it shorter. */
  lemma FreshPieceLength(v: View, v': View, req: Request, id: AssignId, n: nat)
    requires FreshStep(v, v', req, id) && Unshared(v, req) && Aims(v, req, n)
    ensures id in v'.live
    ensures var r := v'.live[id].range;
            && r.start < r.end < r.start + Max(n, 1) + Max(v.cfg.alignment, 1)
            && (EndsInside(v, r) ==> r.start + Max(n, 1) <= r.end)
  {
    var gap, len := FreshTaken(v, v', req, id);
    PieceNear(v, req, n);
    UnsharedLen(v, req);
  }

  /** The peers a share is reckoned for. */
  function SlotsLeft(v: View, req: Request): nat { Minus(Max(req.peerSlots, 1), Min(|v.live|, 255)) }

  /** While peers are still expected a claim takes its share of the unclaimed bytes if that is
      less than a piece, a piece if that is less, and never less than the minimum piece. */
  lemma FreshShareLength(v: View, v': View, req: Request, id: AssignId, n: nat, share: nat)
    requires FreshStep(v, v', req, id) && !Unshared(v, req) && Aims(v, req, n)
    requires SlotsLeft(v, req) > 1 ==> share == Minus(v.total, |v.claimed|) / SlotsLeft(v, req)
    ensures SlotsLeft(v, req) > 1 && id in v'.live
    ensures var r := v'.live[id].range;
            r.start < r.end && ShareNear(r.end - r.start, n, share, v.cfg.minPiece, v.cfg.alignment, EndsInside(v, r))
  {
    var gap, len := FreshTaken(v, v', req, id);
    var piece := PieceLen(v.cfg, v.pieceDuration, req.est, v.Missing());
    PieceNear(v, req, n);
    SharedLen(v, req, piece, share);
    ShareScalar(len, piece, n, share, v.cfg.minPiece, v.cfg.alignment, gap.end - gap.start);
  }

  /** `len` is the smaller of a piece near `n` and `share`, raised to `least`; cut short
      unless `whole`. */
  predicate ShareNear(len: nat, n: nat, share: nat, least: nat, alignment: nat, whole: bool) {
    && len <= Max(Max(share, least), 1)
    && len < Max(Max(n, 1) + Max(alignment, 1), Max(least, 1) + 1)
    && (whole ==> Max(Min(Max(n, 1), share), least) <= len)
  }

  lemma SharedLen(v: View, req: Request, piece: nat, share: nat)
    requires !Unshared(v, req) && (SlotsLeft(v, req) > 1 ==> share == Minus(v.total, |v.claimed|) / SlotsLeft(v, req))
    ensures SlotsLeft(v, req) > 1
    ensures TakeLen(v.cfg, piece, req.solo, req.peerSlots, |v.live|, Minus(v.total, |v.claimed|)) ==
            Max(Min(Max(piece, 1), share), v.cfg.minPiece)
  {}

  lemma ShareScalar(len: nat, piece: nat, n: nat, share: nat, least: nat, alignment: nat, room: nat)
    requires Near(piece, n, alignment) && len == Max(Min(Max(piece, 1), share), least) && room > 0
    ensures ShareNear(Min(room, Max(len, 1)), n, share, least, alignment, Min(room, Max(len, 1)) < room)
  {}

  lemma UnsharedLen(v: View, req: Request)
    requires v.CanClaim() && Unshared(v, req)
    ensures var piece := PieceLen(v.cfg, v.pieceDuration, req.est, v.Missing());
            TakeLen(v.cfg, piece, req.solo, req.peerSlots, |v.live|, Minus(v.total, |v.claimed|)) == Max(piece, 1)
  {}

  /** A fresh claim takes the offered length, one byte at least, or what the gap has left. */
  lemma FreshTaken(v: View, v': View, req: Request, id: AssignId) returns (gap: ByteRange, len: nat)
    requires FreshStep(v, v', req, id)
    ensures id in v'.live && gap.start < gap.end
    ensures v'.live[id].range == ByteRange(gap.start, gap.start + Min(gap.end - gap.start, Max(len, 1)))
    ensures EndsInside(v, v'.live[id].range) ==> v'.live[id].range.end < gap.end
    ensures v.CanClaim() && len == TakeLen(v.cfg, PieceLen(v.cfg, v.pieceDuration, req.est, v.Missing()),
                                          req.solo, req.peerSlots, |v.live|, Minus(v.total, |v.claimed|))
  {
    gap := FreshGives(v, v', req, id);
    len := TakeLen(v.cfg, PieceLen(v.cfg, v.pieceDuration, req.est, v.Missing()),
                   req.solo, req.peerSlots, |v.live|, Minus(v.total, |v.claimed|));
    SnapTaken(gap, len, v.cfg.alignment, v.total);
    EndsBefore(v, gap, TakenRange(v, req, gap), req.now);
  }

  lemma SnapTaken(gap: ByteRange, len: nat, alignment: nat, total: nat)
    requires gap.start < gap.end <= total
    ensures SnapEnd(gap.TruncatedTo(len), alignment, total) ==
            ByteRange(gap.start, gap.start + Min(gap.end - gap.start, Max(len, 1)))
  {
    SnapEndOnlyFillsEmpty(gap.TruncatedTo(len), alignment, total);
  }

  lemma EndsBefore(v: View, gap: ByteRange, r: ByteRange, now: real)
    requires GapFor(v, gap, now) && r.end <= gap.end
    ensures EndsInside(v, r) ==> r.end < gap.end
  {}

  lemma PieceNear(v: View, req: Request, n: nat)
    requires v.CanClaim() && Aims(v, req, n)
    ensures Near(PieceLen(v.cfg, v.pieceDuration, req.est, v.Missing()), n, v.cfg.alignment)
  {
    PieceFrom(v.cfg, req.est * v.pieceDuration, v.pieceDuration, req.est, v.Missing(), n);
  }

  /** `n`, rounded up by less than the alignment. */
  predicate Near(x: int, n: int, alignment: nat) { n <= x < n + Max(alignment, 1) }

  lemma PieceFrom(cfg: Policy, x: real, duration: real, est: real, missing: nat, n: nat)
    requires cfg.ClampOk(missing) && x == est * duration && Within(x, cfg.MinFor(missing), cfg.MaxFor(missing), n)
    ensures Near(PieceLen(cfg, duration, est, missing), n, cfg.alignment)
  {
    ClampWithin(MaxReal(x, 0.0), cfg.MinFor(missing), cfg.MaxFor(missing), n);
    assert PieceLen(cfg, duration, est, missing) == AlignUp(n, cfg.alignment);
  }

  // ---------------------------------------------------------------- what a fresh assignment starts with

  /** The overlap prefix is all that is wanted or nothing, and it is wanted whole. */
  lemma FreshStartsBlank(v: View, v': View, req: Request, id: AssignId)
    requires FreshStep(v, v', req, id)
    ensures id in v'.live
    ensures var a, wanted := v'.live[id], Min(v.overlapBytes, v'.live[id].range.start);
            && a.started == req.now && a.lastProgress == req.now && a.rate == Ewma(0.0, 0.0, 0)
            && a.wireReceived == 0 && a.submitted == 0 && a.committed == [] && !a.truncated
            && (a.overlap == wanted || a.overlap == 0)
            && (wanted > 0 ==> (a.overlap == wanted <==> Span(ByteRange(a.range.start - wanted, a.range.start)) <= v.claimed))
  {
    var gap :| GapFor(v, gap, req.now) && v' == Added(v, id, FreshAssignment(v, req, gap));
  }

  /** The attempt looked up for a range is the highest among the deferred ranges it meets. */
  lemma {:induction false} PendingAttemptIs(ds: seq<Deferred>, range: ByteRange)
    ensures forall k :: 0 <= k < |ds| && ds[k].range.Intersects(range) ==> ds[k].attempt <= PendingAttempt(ds, range)
    ensures PendingAttempt(ds, range) == 0 ||
            exists k :: 0 <= k < |ds| && ds[k].range.Intersects(range) && ds[k].attempt == PendingAttempt(ds, range)
  {
    if ds != [] {
      var n := |ds| - 1;
      PendingAttemptIs(ds[..n], range);
      assert forall k :: 0 <= k < n ==> ds[k] == ds[..n][k];
      assert ds[n].range.Intersects(range) ==> ds[n].attempt <= PendingAttempt(ds, range);
    }
  }

  /** In a reachable plan that range is never deferred any more, so every fresh claim starts
      over at attempt zero. */
  lemma FreshAttemptIsZero(v: View, v': View, req: Request, id: AssignId)
    requires Inv(v) && FreshStep(v, v', req, id)
    ensures id in v'.live && v'.live[id].attempt == 0
  {
    var gap :| GapFor(v, gap, req.now) && v' == Added(v, id, FreshAssignment(v, req, gap));
    TakenRangeFits(v, req, gap);
    GapHolds(v, gap, TakenRange(v, req, gap), req.now);
    NothingPending(v, TakenRange(v, req, gap));
  }

  lemma NothingPending(v: View, r: ByteRange)
    requires Inv(v) && Span(r) !! v.claimed && r.start < r.end
    ensures PendingAttempt(v.deferred, r) == 0
  {
    forall k | 0 <= k < |v.deferred| ensures !v.deferred[k].range.Intersects(r) {
      var d := v.deferred[k].range;
      var x := Max(d.start, r.start);
      assert x in Span(d) ==> x in WaitBytes(v.deferred);
      assert d.Intersects(r) && d.start < d.end && r.start < r.end ==> x in Span(d) && x in Span(r);
    }
    PendingAttemptIs(v.deferred, r);
  }

  // ---------------------------------------------------------------- what an acknowledgement measures

  /** How an acknowledgement that took the cursor from that of `a` to that of `b` is measured. */
  predicate RateFollows(a: Assignment, b: Assignment, now: real, alpha: real) {
    var advanced := b.Cursor() - a.Cursor();
    && (advanced <= 0 ==> b.rate == a.rate && b.lastProgress == a.lastProgress)
    && (advanced > 0 ==> b.lastProgress == now)
    && (advanced > 0 && now - a.lastProgress <= 0.02 ==> b.rate == a.rate)
    && (advanced > 0 && now - a.lastProgress > 0.02 ==>
          b.rate == a.rate.Observed(advanced as real / (now - a.lastProgress), alpha))
  }

  /** The worker's clock moves only with its cursor, its rate only after more than 20 ms, and what
      is observed is the bytes the cursor moved by over the time it took. */
  lemma CommitMeasures(a: Assignment, s: seq<ByteRange>, now: real, alpha: real)
    ensures RateFollows(a, WithCommitted(a, s, now, alpha), now, alpha)
    ensures WithCommitted(a, s, now, alpha).committed == s && WithCommitted(a, s, now, alpha).range == a.range
  {
    var b := a.(committed := s, committedLen := |Bytes(s)|);
    MeasuredAt(a, b, b.Cursor() - a.Cursor(), now, alpha);
  }

  lemma MeasuredAt(a: Assignment, b: Assignment, advanced: int, now: real, alpha: real)
    requires b == a.(committed := b.committed, committedLen := b.committedLen) && advanced == b.Cursor() - a.Cursor()
    ensures RateFollows(a, Progressed(b, Minus(b.Cursor(), a.Cursor()), now, alpha), now, alpha)
  {
    var c := Progressed(b, Minus(b.Cursor(), a.Cursor()), now, alpha);
    assert c.Cursor() == b.Cursor();
  }

  // ---------------------------------------------------------------- who is stolen from

  /** The incumbent's own rate once three samples are in, the newcomer's before, and no less
      than the floor. */
  function SpeedOf(a: Assignment, est: real): (r: real)
    ensures r >= 1024.0
  {
    MaxReal(if a.rate.samples >= 3 then a.rate.mean else est, 1024.0)
  }

  /** May be cut: never cut before, and at work for the grace period. */
  predicate Ripe(v: View, req: Request, id: AssignId) {
    id in v.live && !v.live[id].truncated && MaxReal(req.now - v.live[id].started, 0.0) >= v.cfg.stragglerGrace
  }

  lemma RipeIsStealable(v: View, req: Request, id: AssignId)
    ensures Stealable(v, req, id) <==> Ripe(v, req, id)
  {}

  /** The victim finishes last among the workers that may be cut, to the microsecond. */
  lemma VictimFinishesLast(v: View, req: Request, id: AssignId)
    requires IsVictim(v, req, id)
    ensures Ripe(v, req, id)
    ensures forall o :: Ripe(v, req, o) ==>
              v.live[o].Remaining() as real / SpeedOf(v.live[o], req.est) <
              v.live[id].Remaining() as real / SpeedOf(v.live[id], req.est) + 0.000001
  {
    RipeIsStealable(v, req, id);
    forall o | Ripe(v, req, o)
      ensures v.live[o].Remaining() as real / SpeedOf(v.live[o], req.est) <
              v.live[id].Remaining() as real / SpeedOf(v.live[id], req.est) + 0.000001
    {
      RipeIsStealable(v, req, o);
      LastByMicros(v.live[o].Remaining() as real / SpeedOf(v.live[o], req.est),
                   v.live[id].Remaining() as real / SpeedOf(v.live[id], req.est));
    }
  }

  lemma LastByMicros(x: real, y: real)
    requires (x * 1000000.0).Floor <= (y * 1000000.0).Floor
    ensures x < y + 0.000001
  {}

  /** What is left of a worker behind the bytes it may have received already. */
  function Spare(a: Assignment): nat { Minus(a.range.end, a.range.start + Max(a.wireReceived, a.submitted)) }

  function LeastPiece(v: View): nat {
    if Minus(v.total, |v.completed|) <= v.cfg.tailThreshold then v.cfg.tailMinPiece else v.cfg.minPiece
  }

  /** A worker is worth cutting exactly if two pieces are left, as long as its cursor is short of
      the first of them. */
  lemma WorthCuttingIff(v: View, req: Request, a: Assignment)
    requires a.Cursor() < a.range.start + Max(a.wireReceived, a.submitted) + LeastPiece(v) && LeastPiece(v) > 0
    ensures StealCut(v, req, a).Some? <==> Spare(a) >= 2 * LeastPiece(v)
  {}

  /** It keeps the speed-weighted share of what is left, but a piece at least, and leaves a
      piece at least; the cut is rounded up by less than the alignment. */
  lemma CutNear(v: View, req: Request, a: Assignment, k: int)
    requires StealCut(v, req, a).Some? && KeepsShare(v, req, a, k)
    ensures var cut, p := StealCut(v, req, a).value, a.range.start + Max(a.wireReceived, a.submitted);
            p + k <= cut && (cut == a.range.end - LeastPiece(v) || Near(cut, p + k, v.cfg.alignment))
  {
    ShareFloor(Spare(a), SpeedOf(a, req.est), MaxReal(req.est, 1024.0), LeastPiece(v), k);
    CutAt(v, req, a, k);
  }

  /** `k` is the share of what is left that is worth the incumbent's time, with a piece left on
      both sides. */
  predicate KeepsShare(v: View, req: Request, a: Assignment, k: int) {
    ShareIs(Spare(a), SpeedOf(a, req.est), MaxReal(req.est, 1024.0), LeastPiece(v), k)
  }

  predicate ShareIs(left: nat, v1: real, v2: real, least: nat, k: int)
    requires v1 > 0.0 && v2 > 0.0
  {
    Within(left as real * (v1 / (v1 + v2)), least, left - least, k)
  }

  lemma ShareFloor(left: nat, v1: real, v2: real, least: nat, k: int)
    requires v1 > 0.0 && v2 > 0.0 && ShareIs(left, v1, v2, least, k) && left >= 2 * least
    ensures Clamp(KeepShare(left, v1, v2), least, left - least) == k
  {
    ClampWithin(left as real * (v1 / (v1 + v2)), least, left - least, k);
  }

  lemma CutAt(v: View, req: Request, a: Assignment, k: int)
    requires StealCut(v, req, a).Some? && Spare(a) >= 2 * LeastPiece(v)
    requires Clamp(KeepShare(Spare(a), SpeedOf(a, req.est), MaxReal(req.est, 1024.0)), LeastPiece(v), Spare(a) - LeastPiece(v)) == k
    ensures var cut, p := StealCut(v, req, a).value, a.range.start + Max(a.wireReceived, a.submitted);
            p + k <= cut && (cut == a.range.end - LeastPiece(v) || Near(cut, p + k, v.cfg.alignment))
  {}

  lemma ClampWithin(x: real, lo: nat, hi: nat, n: int)
    requires lo <= hi && Within(x, lo, hi, n)
    ensures Clamp(x.Floor, lo, hi) == n
  {}

  /** What an outcome other than a fresh piece says about the workers. */
  lemma StealOutcome(v: View, v': View, req: Request, o: Claim)
    requires ClaimStep(v, v', req, o)
    ensures o.Stolen? ==> !req.solo && Ripe(v, req, o.from) && o.from in v'.live && v'.live[o.from].truncated
    ensures o.Stolen? ==>
              && o.new_ in v'.live
              && v'.live[o.new_] == Assignment(ByteRange(v'.live[o.from].range.end, v.live[o.from].range.end), 0, 0, 0, [],
                                               req.now, req.now, Ewma(0.0, 0.0, 0), 0, false, 0)
    ensures o.Saturated? && !req.solo ==>
              (forall id :: !Ripe(v, req, id)) || exists id :: IsVictim(v, req, id) && StealCut(v, req, v.live[id]).None?
  {
    forall id ensures Stealable(v, req, id) <==> Ripe(v, req, id) {
      RipeIsStealable(v, req, id);
    }
  }

  // ---------------------------------------------------------------- where a rebalance cuts

  /** A straggler is cut exactly if it is warm and has more than twice as much left as it keeps
      and the rounded cut is short of its end.  It keeps what it moves in a piece's
      duration, one minimum piece of either kind at least, rounded up by less than the alignment. */
  lemma RebalanceCutIs(cfg: Policy, duration: real, a: Assignment, keep: nat)
    requires a.range.start <= a.Cursor() <= a.range.end && Keeps(cfg, duration, a.rate.mean, keep)
    ensures var end, left := RebalanceEnd(cfg, duration, a), a.range.end - a.Cursor();
            && (end.Some? ==> a.rate.samples >= 3 && left > 2 * keep && a.Cursor() < end.value < a.range.end)
            && (end.Some? ==> Near(end.value, a.Cursor() + keep, cfg.alignment))
            && (a.rate.samples >= 3 && left > 2 * keep && keep > 0 && keep + Max(cfg.alignment, 1) <= left ==> end.Some?)
  {
    KeepIs(cfg, duration, a.rate.mean, MaxReal(a.rate.mean, RATE_FLOOR) * duration, keep);
    EndNear(cfg, a, keep);
  }

  lemma EndNear(cfg: Policy, a: Assignment, keep: nat)
    requires a.range.start <= a.Cursor() <= a.range.end
    ensures var end, left := EndKeeping(cfg, a, keep), a.range.end - a.Cursor();
            && (end.Some? ==> a.rate.samples >= 3 && left > 2 * keep && a.Cursor() < end.value < a.range.end)
            && (end.Some? ==> Near(end.value, a.Cursor() + keep, cfg.alignment))
            && (a.rate.samples >= 3 && left > 2 * keep && keep > 0 && keep + Max(cfg.alignment, 1) <= left ==> end.Some?)
  {}

  predicate Keeps(cfg: Policy, duration: real, mean: real, keep: nat) {
    KeepsOf(cfg, MaxReal(mean, 1024.0) * duration, keep)
  }

  predicate KeepsOf(cfg: Policy, moved: real, keep: nat) {
    var least := Max(cfg.minPiece, cfg.tailMinPiece);
    && (moved < least as real ==> keep == least)
    && (moved >= least as real ==> keep as real <= moved < keep as real + 1.0)
  }

  lemma KeepIs(cfg: Policy, duration: real, mean: real, moved: real, keep: nat)
    requires moved == MaxReal(mean, RATE_FLOOR) * duration && KeepsOf(cfg, moved, keep)
    ensures KeepLen(cfg, duration, mean) == keep
  {}
}
