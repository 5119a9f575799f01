/** The scheduler's plan for one file, seen as plain sets of bytes: what is
    completed, what is claimed, which live assignment owns which range and which
    ranges wait out a retry backoff.  Each step of the plan is specified here on
    sets; `Segments` carries the steps out on interval vectors. */
module PlanView {
  import opened Basics
  import opened Ranges
  import opened Rates

  type AssignId = nat

  datatype Policy = Policy(minPiece: nat, maxPiece: nat, tailThreshold: nat, tailMinPiece: nat,
                           alignment: nat, stragglerZ: real, stragglerShare: real, stragglerGrace: real)
  {
    predicate InTail(remaining: nat) { remaining <= tailThreshold }

    /** The interval a piece is clamped to while `remaining` bytes are not completed. */
    function MinFor(remaining: nat): nat { if InTail(remaining) then tailMinPiece else minPiece }

    function MaxFor(remaining: nat): nat {
      if InTail(remaining) && remaining < maxPiece then Max(maxPiece / 8, MinFor(remaining)) else maxPiece
    }

    /** `u64::clamp` panics on an inverted interval. */
    predicate ClampOk(remaining: nat) { MinFor(remaining) <= MaxFor(remaining) }

    /** The caps and minima under which no claim on a file of `total` bytes can panic. */
    predicate UsableFor(total: nat) {
      && (total > tailThreshold ==> minPiece <= maxPiece)
      && (Max(maxPiece, 1) <= Min(tailThreshold, total) ==> tailMinPiece <= maxPiece)
    }

    function ClampedTo(hint: nat): Policy {
      if hint > 0 then this.(maxPiece := Min(maxPiece, hint)) else this
    }
  }

  /** A live worker's span.  Times are seconds. */
  datatype Assignment = Assignment(range: ByteRange, wireReceived: nat, submitted: nat, committedLen: nat,
                                   committed: seq<ByteRange>, started: real, lastProgress: real, rate: Ewma,
                                   overlap: nat, truncated: bool, attempt: nat)
  {
    function Cursor(): nat {
      match FirstGap(committed, range.start, range.end)
      case None => range.end
      case Some(gap) => gap.start
    }

    function Remaining(): nat { Minus(range.end, Cursor()) }

    /** The range to request: the cursor minus the overlap prefix. */
    function WireRange(): ByteRange { ByteRange(Minus(Cursor(), overlap), range.end) }
  }

  datatype Deferred = Deferred(range: ByteRange, until: real, attempt: nat)

  datatype View = View(total: nat, cfg: Policy, pieceDuration: real, overlapBytes: nat,
                       completed: set<int>, claimed: set<int>,
                       live: map<AssignId, Assignment>, deferred: seq<Deferred>)
  {
    function Missing(): nat { Minus(total, |completed|) }

    /** A claim on this plan does not panic. */
    predicate CanClaim() { cfg.ClampOk(Missing()) }
  }

  datatype Request = Request(est: real, now: real, solo: bool, peerSlots: nat)

  datatype Claim = Fresh(id: AssignId) | Stolen(new_: AssignId, from: AssignId) | Saturated | Complete

  // ---------------------------------------------------------------- arithmetic

  function Clamp(x: int, lo: nat, hi: nat): (c: nat)
    requires lo <= hi
    ensures lo <= c <= hi && (lo <= x <= hi ==> c == x)
  {
    if x < lo then lo else if x > hi then hi else x
  }

  function AlignUp(x: nat, align: nat): (r: nat)
    ensures x <= r < x + Max(align, 1)
    ensures align > 1 ==> r % align == 0
  {
    if align <= 1 then x
    else
      AlignUpBounds(x, align);
      (x + align - 1) / align * align
  }

  lemma AlignUpBounds(x: nat, align: nat)
    requires align > 1
    ensures var r := (x + align - 1) / align * align; x <= r < x + align && r % align == 0
  {
    var y := x + align - 1;
    DivMod(y, align);
    ModShift(0, y / align, align);
  }

  lemma DivMod(y: nat, a: nat)
    requires a > 0
    ensures y / a * a == y - y % a && 0 <= y % a < a
  {}

  lemma {:induction false} ModShift(x: nat, k: nat, a: nat)
    requires a > 0
    ensures (x + k * a) % a == x % a
  {
    if k > 0 {
      ModShift(x, k - 1, a);
      assert x + k * a == x + (k - 1) * a + a;
      ModAdd(x + (k - 1) * a, a);
    }
  }

  lemma ModAdd(y: nat, a: nat)
    requires a > 0
    ensures (y + a) % a == y % a
  {
    var d := (y + a) / a - y / a;
    DivMod(y, a);
    DivMod(y + a, a);
    assert d * a == (y + a) / a * a - y / a * a;
    assert d * a == a + y % a - (y + a) % a;
    if d >= 2 { TimesAtLeast(d - 1, a); } else if d <= 0 { NotPositiveTimes(d, a); }
  }

  lemma NotPositiveTimes(d: int, a: nat)
    requires d <= 0
    ensures d * a <= 0
  {}

  lemma TimesAtLeast(k: int, a: nat)
    requires k >= 1
    ensures k * a >= a && -k * a <= -(a as int)
  {}

  /** `snap_end`: despite its name it only clamps to the end of the file. */
  function SnapEnd(r: ByteRange, align: nat, total: nat): ByteRange {
    var end := Min(Min(AlignUp(r.end, align), total), Max(r.end, r.start + 1));
    ByteRange(r.start, Min(Max(end, r.start + 1), total))
  }

  const RATE_FLOOR := 1024.0

  function MaxReal(a: real, b: real): real { if a >= b then a else b }

  function Nonzero(est: real): (r: real)
    ensures r >= RATE_FLOOR
  {
    MaxReal(est, RATE_FLOOR)
  }

  // ---------------------------------------------------------------- piece sizing

  function PieceLen(cfg: Policy, duration: real, est: real, remaining: nat): nat
    requires cfg.ClampOk(remaining)
  {
    AlignUp(Clamp(MaxReal(est * duration, 0.0).Floor, cfg.MinFor(remaining), cfg.MaxFor(remaining)), cfg.alignment)
  }

  /** No claim on a file of `total` bytes panics, whatever is missing, exactly if the policy
      is usable for it. */
  lemma UsableIff(cfg: Policy, total: nat)
    ensures cfg.UsableFor(total) <==> forall missing: nat :: 0 < missing <= total ==> cfg.ClampOk(missing)
  {
    if total > cfg.tailThreshold {
      assert cfg.ClampOk(total) <==> cfg.minPiece <= cfg.maxPiece;
    }
    var least := Max(cfg.maxPiece, 1);
    if least <= Min(cfg.tailThreshold, total) {
      assert cfg.ClampOk(least) <==> cfg.tailMinPiece <= cfg.maxPiece;
    }
  }

  /** A size hint keeps every claim on such a file from panicking exactly if it is no smaller
      than the minimum piece, when the file outgrows the tail, nor than the tail's minimum,
      when the tail reaches the hint. */
  lemma HintKeepsUsableIff(cfg: Policy, hint: nat, total: nat)
    requires cfg.UsableFor(total)
    ensures (forall missing: nat :: 0 < missing <= total ==> cfg.ClampedTo(hint).ClampOk(missing)) <==>
              hint == 0 || ((total > cfg.tailThreshold ==> cfg.minPiece <= hint) &&
                            (hint <= Min(cfg.tailThreshold, total) ==> cfg.tailMinPiece <= hint))
  {
    UsableIff(cfg.ClampedTo(hint), total);
  }

  const KIB: nat := 1024
  const MIB: nat := 1024 * KIB
  const DEFAULT_POLICY := Policy(256 * KIB, 512 * MIB, 64 * MIB, 64 * KIB, 64 * KIB, 2.0, 0.5, 2.0)

  /** The default policy under a destination that takes 4 KiB at a time: with more than the
      tail missing, the interval is inverted and the claim panics. */
  lemma SmallHintPanics(missing: nat)
    requires missing > 64 * MIB
    ensures DEFAULT_POLICY.UsableFor(missing) && !DEFAULT_POLICY.ClampedTo(4 * KIB).ClampOk(missing)
  {}

  const U8_MAX: nat := 255

  /** How much of a gap a fresh claim takes: a piece, or an equal share of the
      unclaimed bytes while peers are still expected. */
  function TakeLen(cfg: Policy, piece: nat, solo: bool, peerSlots: nat, inflight: nat, unclaimed: nat): nat {
    var whole := Max(piece, 1);
    var slotsLeft := Max(Minus(Max(peerSlots, 1), Min(inflight, U8_MAX)), 1);
    if !solo && slotsLeft > 1 && unclaimed > cfg.minPiece * 2
    then Max(Min(whole, unclaimed / slotsLeft), cfg.minPiece)
    else whole
  }

  function TakenRange(v: View, req: Request, gap: ByteRange): ByteRange
    requires v.CanClaim()
  {
    var piece := PieceLen(v.cfg, v.pieceDuration, req.est, v.Missing());
    var len := TakeLen(v.cfg, piece, req.solo, req.peerSlots, |v.live|, Minus(v.total, |v.claimed|));
    SnapEnd(gap.TruncatedTo(len), v.cfg.alignment, v.total)
  }

  // ---------------------------------------------------------------- the sets behind a plan

  function LiveBytes(live: map<AssignId, Assignment>): set<int> {
    set id: AssignId, x: int | id in live && x in Span(live[id].range) :: x
  }

  function WaitBytes(ds: seq<Deferred>): set<int> {
    set k: int, x: int | 0 <= k < |ds| && x in Span(ds[k].range) :: x
  }

  predicate GapDeferred(ds: seq<Deferred>, gap: ByteRange, now: real) {
    exists k :: 0 <= k < |ds| && ds[k].until > now && ds[k].range.Intersects(gap)
  }

  function PendingAttempt(ds: seq<Deferred>, range: ByteRange): nat {
    if ds == [] then 0
    else
      var last := ds[|ds| - 1];
      var rest := PendingAttempt(ds[..|ds| - 1], range);
      if last.range.Intersects(range) then Max(rest, last.attempt) else rest
  }

  function Due(ds: seq<Deferred>, now: real): seq<Deferred> {
    if ds == [] then []
    else Due(ds[..|ds| - 1], now) + (if ds[|ds| - 1].until <= now then [ds[|ds| - 1]] else [])
  }

  function Kept(ds: seq<Deferred>, now: real): seq<Deferred> {
    if ds == [] then []
    else Kept(ds[..|ds| - 1], now) + (if ds[|ds| - 1].until <= now then [] else [ds[|ds| - 1]])
  }

  lemma KeptFrom(ds: seq<Deferred>, now: real)
    ensures forall k :: 0 <= k < |Kept(ds, now)| ==> Kept(ds, now)[k] in ds
  {
    if ds != [] {
      KeptFrom(ds[..|ds| - 1], now);
    }
  }

  function MaxAttempt(ds: seq<Deferred>): nat {
    if ds == [] then 0 else Max(MaxAttempt(ds[..|ds| - 1]), ds[|ds| - 1].attempt)
  }

  // ---------------------------------------------------------------- steps on sets

  function NewAssignment(range: ByteRange, now: real, overlap: nat, attempt: nat): Assignment {
    Assignment(range, 0, 0, 0, [], now, now, Cold, overlap, false, attempt)
  }

  function Added(v: View, id: AssignId, a: Assignment): View {
    v.(live := v.live[id := a], claimed := v.claimed + Span(a.range))
  }

  /** The prefix before `start` to re-fetch for comparison, if all of it is claimed already. */
  function OverlapFor(v: View, start: nat): nat {
    var desired := Min(v.overlapBytes, start);
    if desired > 0 && Span(ByteRange(start - desired, start)) <= v.claimed then desired else 0
  }

  /** A fresh claim of `gap`. */
  function FreshAssignment(v: View, req: Request, gap: ByteRange): Assignment
    requires v.CanClaim()
  {
    var take := TakenRange(v, req, gap);
    NewAssignment(take, req.now, OverlapFor(v, take.start), PendingAttempt(v.deferred, take))
  }

  function Shortened(a: Assignment, end: nat): Assignment {
    a.(range := ByteRange(a.range.start, end), truncated := true)
  }

  function StealView(v: View, new_: AssignId, from: AssignId, cut: nat, now: real): View
    requires from in v.live
  {
    var victim := v.live[from];
    Added(v.(live := v.live[from := Shortened(victim, cut)]),
          new_, NewAssignment(ByteRange(cut, victim.range.end), now, 0, 0))
  }

  function VerifiedView(v: View, id: AssignId, range: ByteRange): View {
    if range.IsEmpty() || id !in v.live then v
    else
      match range.Intersection(v.live[id].range)
      case None => v
      case Some(q) => v.(completed := v.completed + Span(q), claimed := v.claimed + Span(q))
  }

  /** Promotes what was committed and un-claims the rest of the range. */
  function FinishView(v: View, id: AssignId): View {
    if id !in v.live then v
    else
      var a := v.live[id];
      var done := v.completed + Bytes(a.committed);
      v.(live := v.live - {id}, completed := done,
         claimed := (v.claimed + Bytes(a.committed)) - (Span(a.range) - done))
  }

  function AbandonView(v: View, id: AssignId): View {
    if id !in v.live then v
    else v.(live := v.live - {id}, claimed := v.claimed - (Span(v.live[id].range) - v.completed))
  }

  function DeferView(v: View, range: ByteRange, until: real, attempt: nat): View {
    if range.IsEmpty() then v
    else v.(claimed := v.claimed + Span(range), deferred := v.deferred + [Deferred(range, until, attempt)])
  }

  function ReleaseView(v: View, now: real): View {
    v.(claimed := v.claimed - WaitBytes(Due(v.deferred, now)), deferred := Kept(v.deferred, now))
  }

  /** Where a rebalance cuts a straggler, if it does. */
  function RebalanceEnd(cfg: Policy, duration: real, a: Assignment): Option<nat> {
    EndKeeping(cfg, a, KeepLen(cfg, duration, a.rate.mean))
  }

  /** About one piece-duration of the worker's own throughput. */
  function KeepLen(cfg: Policy, duration: real, mean: real): nat {
    Max(Max((MaxReal(mean, RATE_FLOOR) * duration).Floor, cfg.minPiece), cfg.tailMinPiece)
  }

  function EndKeeping(cfg: Policy, a: Assignment, keep: nat): Option<nat> {
    var newEnd := Min(AlignUp(a.Cursor() + keep, cfg.alignment), a.range.end);
    if !a.rate.IsWarm() || a.Remaining() <= keep * 2 || newEnd >= a.range.end || newEnd <= a.Cursor()
    then None else Some(newEnd)
  }

  function CutView(v: View, id: AssignId, end: nat): View
    requires id in v.live
  {
    var a := v.live[id];
    v.(live := v.live[id := Shortened(a, end)],
       claimed := v.claimed - (Span(ByteRange(end, a.range.end)) - v.completed))
  }

  function RebalanceOne(v: View, id: AssignId): View {
    if id !in v.live then v
    else
      match RebalanceEnd(v.cfg, v.pieceDuration, v.live[id])
      case None => v
      case Some(end) => CutView(v, id, end)
  }

  function RebalanceView(v: View, ids: seq<AssignId>): View {
    if ids == [] then v else RebalanceOne(RebalanceView(v, ids[..|ids| - 1]), ids[|ids| - 1])
  }

  // ---------------------------------------------------------------- stealing

  predicate Stealable(v: View, req: Request, id: AssignId) {
    id in v.live && !v.live[id].truncated && Elapsed(req.now, v.live[id].started) >= v.cfg.stragglerGrace
  }

  /** `saturating_duration_since`. */
  function Elapsed(now: real, since: real): real { MaxReal(now - since, 0.0) }

  /** Rate of the incumbent: its own once warm, the newcomer's estimate before. */
  function VictimRate(a: Assignment, est: real): (r: real)
    ensures r >= RATE_FLOOR
  {
    MaxReal(if a.rate.IsWarm() then a.rate.mean else Nonzero(est), RATE_FLOOR)
  }

  /** Time to finish, scaled to whole microseconds as in the source. */
  function EtaKey(a: Assignment, est: real): int {
    (a.Remaining() as real / VictimRate(a, est) * 1000000.0).Floor
  }

  predicate IsVictim(v: View, req: Request, id: AssignId) {
    && Stealable(v, req, id)
    && forall o :: o in v.live && Stealable(v, req, o) ==> EtaKey(v.live[o], req.est) <= EtaKey(v.live[id], req.est)
  }

  function Protected(a: Assignment): nat { a.range.start + Max(a.wireReceived, a.submitted) }

  function StealMinPiece(v: View): nat { v.cfg.MinFor(v.Missing()) }

  /** The speed-aware share of `rem` bytes that stays with the incumbent. */
  function KeepShare(rem: nat, v1: real, v2: real): int
    requires v1 > 0.0 && v2 > 0.0
  {
    (rem as real * (v1 / (v1 + v2))).Floor
  }

  function StealCut(v: View, req: Request, a: Assignment): Option<nat> {
    var rem := Minus(a.range.end, Protected(a));
    var minPiece := StealMinPiece(v);
    if rem < minPiece * 2 then None
    else
      var keep := Clamp(KeepShare(rem, VictimRate(a, req.est), Nonzero(req.est)), minPiece, rem - minPiece);
      var cut := Min(AlignUp(Protected(a) + keep, v.cfg.alignment), a.range.end - minPiece);
      if a.Cursor() < cut < a.range.end then Some(cut) else None
  }

  // ---------------------------------------------------------------- may another worker start

  ghost predicate HasUnclaimed(v: View, now: real) {
    || (exists gap :: IsFirstGap(Some(gap), v.claimed, 0, v.total) && !GapDeferred(v.deferred, gap, now))
    || (exists k :: 0 <= k < |v.deferred| && v.deferred[k].until <= now)
  }

  /** What the controller asks before it claims for a job. */
  ghost predicate AdmitsWorker(v: View, now: real) {
    HasUnclaimed(v, now) && !(Upto(v.total) <= v.completed)
  }

  // ---------------------------------------------------------------- the claim step

  ghost predicate DeferredClaimed(v: View) { WaitBytes(v.deferred) <= v.claimed }

  /** While deferred work is claimed, no unclaimed gap is in backoff. */
  lemma UnclaimedIsNotDeferred(v: View, gap: ByteRange, now: real)
    requires DeferredClaimed(v) && !gap.IsEmpty() && Span(gap) !! v.claimed
    requires forall k :: 0 <= k < |v.deferred| ==> !v.deferred[k].range.IsEmpty()
    ensures !GapDeferred(v.deferred, gap, now)
  {
    forall k | 0 <= k < |v.deferred| && v.deferred[k].until > now
      ensures !v.deferred[k].range.Intersects(gap)
    {
      var r := v.deferred[k].range;
      var x := Max(r.start, gap.start);
      assert r.Intersects(gap) ==> x in Span(r) && x in Span(gap);
      assert x in Span(r) ==> x in WaitBytes(v.deferred);
    }
  }

  /** `gap` is what a fresh claim may carve from: unclaimed to its end and not in backoff;
      while deferred work is claimed it is the first unclaimed gap of the file. */
  ghost predicate GapFor(v: View, gap: ByteRange, now: real) {
    && gap.start < gap.end <= v.total
    && Span(gap) !! v.claimed
    && (gap.end == v.total || gap.end in v.claimed)
    && !GapDeferred(v.deferred, gap, now)
    && (DeferredClaimed(v) ==> Span(ByteRange(0, gap.start)) <= v.claimed)
  }

  ghost predicate NoGap(v: View) { DeferredClaimed(v) ==> Upto(v.total) <= v.claimed }

  ghost predicate NothingToSteal(v: View, req: Request) {
    || (forall id :: id in v.live ==> !Stealable(v, req, id))
    || exists id :: id in v.live && IsVictim(v, req, id) && StealCut(v, req, v.live[id]).None?
  }

  ghost predicate FreshStep(v: View, v': View, req: Request, id: AssignId) {
    v.CanClaim() && id !in v.live &&
    exists gap :: GapFor(v, gap, req.now) && v' == Added(v, id, FreshAssignment(v, req, gap))
  }

  ghost predicate StealStep(v: View, v': View, req: Request, new_: AssignId, from: AssignId) {
    && new_ !in v.live && from in v.live && IsVictim(v, req, from)
    && StealCut(v, req, v.live[from]).Some?
    && v' == StealView(v, new_, from, StealCut(v, req, v.live[from]).value, req.now)
  }

  ghost predicate ClaimStep(v: View, v': View, req: Request, o: Claim) {
    if Upto(v.total) <= v.completed then o == Complete && v' == v
    else
      v.CanClaim() &&
      match o
      case Complete => false
      case Fresh(id) => FreshStep(v, v', req, id)
      case Stolen(new_, from) => !req.solo && NoGap(v) && StealStep(v, v', req, new_, from)
      case Saturated => v' == v && NoGap(v) && (req.solo || NothingToSteal(v, req))
  }

  /** Progress updates the worker's rate, over gaps longer than 20 ms. */
  function Progressed(a: Assignment, advanced: nat, now: real, alpha: real): Assignment {
    var dt := Elapsed(now, a.lastProgress);
    if advanced == 0 then a
    else a.(rate := if dt > 0.02 then a.rate.Observed(advanced as real / dt, alpha) else a.rate, lastProgress := now)
  }

  /** `s` is the committed set after an acknowledgement of `range`, clipped to the assignment. */
  ghost predicate CommitsTo(a: Assignment, range: ByteRange, s: seq<ByteRange>) {
    && Normalized(s)
    && Bytes(s) == Bytes(a.committed) + (match range.Intersection(a.range) case None => {} case Some(q) => Span(q))
  }

  function WithCommitted(a: Assignment, s: seq<ByteRange>, now: real, alpha: real): Assignment {
    var b := a.(committed := s, committedLen := |Bytes(s)|);
    Progressed(b, Minus(b.Cursor(), a.Cursor()), now, alpha)
  }

  ghost predicate CommitStep(v: View, v': View, id: AssignId, range: ByteRange, now: real, alpha: real) {
    if range.IsEmpty() || id !in v.live then v' == v
    else exists s :: CommitsTo(v.live[id], range, s)
                  && v' == v.(live := v.live[id := WithCommitted(v.live[id], s, now, alpha)])
  }
}
