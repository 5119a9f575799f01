/** Quantitative claims: where a steal cuts, how the first claims split a file, and
    what the alignment of piece boundaries amounts to. */
module PlanClaims {
  import opened Basics
  import opened Ranges
  import opened PlanView
  import opened PlanSafety

  // ---------------------------------------------------------------- the steal cut

  /** The lower and upper clamps of the cut did not bite. */
  ghost predicate Unclamped(v: View, req: Request, a: Assignment) {
    var rem := Minus(a.range.end, Protected(a));
    var keep := KeepShare(rem, VictimRate(a, req.est), Nonzero(req.est));
    && StealMinPiece(v) <= keep <= rem - StealMinPiece(v)
    && AlignUp(Protected(a) + keep, v.cfg.alignment) <= a.range.end - StealMinPiece(v)
  }

  function Abs(x: real): real { if x >= 0.0 then x else -x }

  /** When no clamp bites, incumbent and thief finish within `max(1, alignment)` bytes'
      worth of time of each other. */
  lemma StealBalancesFinishTimes(v: View, req: Request, a: Assignment)
    requires StealCut(v, req, a).Some? && Unclamped(v, req, a)
    ensures var cut, protected := StealCut(v, req, a).value, a.range.start + Max(a.wireReceived, a.submitted);
            Balanced((cut - protected) as real, (a.range.end - cut) as real,
                     if a.rate.samples >= 3 then MaxReal(a.rate.mean, 1024.0) else MaxReal(req.est, 1024.0),
                     MaxReal(req.est, 1024.0), Max(1, v.cfg.alignment) as real)
  {
    UnclampedCut(v, req, a);
    BalancedCut(Protected(a), a.range.end, StealCut(v, req, a).value, v.cfg.alignment,
                VictimRate(a, req.est), Nonzero(req.est));
  }

  /** `x` bytes at rate `v1` and `y` bytes at rate `v2` end within `m` bytes' time of each other. */
  predicate Balanced(x: real, y: real, v1: real, v2: real, m: real)
    requires v1 > 0.0 && v2 > 0.0
  {
    Abs(x / v1 - y / v2) <= m * (1.0 / v1 + 1.0 / v2)
  }

  lemma UnclampedCut(v: View, req: Request, a: Assignment)
    requires StealCut(v, req, a).Some? && Unclamped(v, req, a)
    ensures var rem := Minus(a.range.end, Protected(a));
            var keep := KeepShare(rem, VictimRate(a, req.est), Nonzero(req.est));
            && keep >= 0 && Protected(a) <= a.range.end
            && StealCut(v, req, a).value == AlignUp(Protected(a) + keep, v.cfg.alignment)
  {
    StealCutFits(v, req, a);
  }

  lemma BalancedCut(p: nat, end: nat, cut: nat, align: nat, v1: real, v2: real)
    requires p <= end && v1 > 0.0 && v2 > 0.0
    requires var keep := KeepShare(end - p, v1, v2); keep >= 0 && cut == AlignUp(p + keep, align)
    ensures Balanced((cut - p) as real, (end - cut) as real, v1, v2, Max(1, align) as real)
  {
    var x, y, z := (cut - p) as real, (end - cut) as real, (end - p) as real;
    var keep, share := KeepShare(end - p, v1, v2), z * (v1 / (v1 + v2));
    CutError(p, keep, cut, align, share);
    SumReal(p, cut, end);
    BalancedReal(x, y, z, v1, v2, share, Max(1, align) as real);
  }

  lemma SumReal(p: nat, cut: nat, end: nat)
    ensures (cut - p) as real + (end - cut) as real == (end - p) as real
  {}

  lemma BalancedReal(x: real, y: real, z: real, v1: real, v2: real, share: real, m: real)
    requires v1 > 0.0 && v2 > 0.0 && x + y == z && share == z * (v1 / (v1 + v2)) && -m <= x - share <= m
    ensures Balanced(x, y, v1, v2, m)
  {
    var q := v1 / (v1 + v2);
    Ratio(v1, v1 + v2, q);
    CrossBound(x, y, z, v1, v2, q, m);
    CrossToTimes(x, y, v1, v2, m);
  }

  lemma CrossToTimes(x: real, y: real, v1: real, v2: real, m: real)
    requires v1 > 0.0 && v2 > 0.0 && Abs(x * v2 - y * v1) <= m * (v1 + v2)
    ensures Balanced(x, y, v1, v2, m)
  {
    var a, b, c, d := x / v1, y / v2, 1.0 / v1, 1.0 / v2;
    Ratio(x, v1, a);
    Ratio(y, v2, b);
    Ratio(1.0, v1, c);
    Ratio(1.0, v2, d);
    DivideBound(x, y, a, b, c, d, v1, v2, m);
  }

  /** The bound with the denominators multiplied out, divided back by both. */
  lemma DivideBound(x: real, y: real, a: real, b: real, c: real, d: real, v1: real, v2: real, m: real)
    requires v1 > 0.0 && v2 > 0.0 && a * v1 == x && b * v2 == y && c * v1 == 1.0 && d * v2 == 1.0
    requires Abs(x * v2 - y * v1) <= m * (v1 + v2)
    ensures Abs(a - b) <= m * (c + d)
  {
    var w := v1 * v2;
    Regroup(a, v1, v2);
    Regroup(b, v2, v1);
    Regroup(c, v1, v2);
    Regroup(d, v2, v1);
    Distribute(a, b, c, d, w, m);
    CancelBound(a - b, m * (c + d), w);
  }

  lemma Distribute(a: real, b: real, c: real, d: real, w: real, m: real)
    ensures (a - b) * w == a * w - b * w
    ensures m * (c + d) * w == m * (c * w + d * w)
  {
    assert (c + d) * w == c * w + d * w;
    assert m * (c + d) * w == m * ((c + d) * w);
  }

  lemma Regroup(a: real, v: real, w: real)
    ensures a * (v * w) == a * v * w && v * w == w * v
  {}

  lemma CancelBound(e: real, bound: real, w: real)
    requires w > 0.0 && Abs(e * w) <= bound * w
    ensures Abs(e) <= bound
  {
    if e > bound {
      assert (e - bound) * w > 0.0;
    }
    if -e > bound {
      assert (-e - bound) * w > 0.0;
    }
  }

  lemma Ratio(a: real, b: real, q: real)
    requires b > 0.0 && q == a / b
    ensures q * b == a
  {}

  lemma CutError(p: nat, keep: int, cut: nat, align: nat, share: real)
    requires keep >= 0 && keep == share.Floor && cut == AlignUp(p + keep, align)
    ensures -(Max(1, align) as real) <= (cut - p) as real - share <= Max(1, align) as real
  {
    assert keep as real <= share < keep as real + 1.0;
    assert keep <= cut - p < keep + Max(1, align);
  }

  lemma CrossBound(x: real, y: real, z: real, v1: real, v2: real, q: real, m: real)
    requires v1 > 0.0 && v2 > 0.0 && q * (v1 + v2) == v1 && x + y == z && -m <= x - z * q <= m
    ensures Abs(x * v2 - y * v1) <= m * (v1 + v2)
  {
    var e := x - z * q;
    assert z * q * (v1 + v2) == z * (q * (v1 + v2));
    assert e * (v1 + v2) == x * (v1 + v2) - z * v1 == x * v2 - y * v1;
    ScaleBound(e, m, v1 + v2);
  }

  lemma ScaleBound(e: real, m: real, s: real)
    requires -m <= e <= m && s >= 0.0
    ensures Abs(e * s) <= m * s
  {
    assert (m - e) * s >= 0.0;
    assert (m + e) * s >= 0.0;
  }

  // ---------------------------------------------------------------- alignment of boundaries

  /** The claim takes a whole piece, not a share of what is unclaimed. */
  predicate Unshared(v: View, req: Request) {
    || req.solo
    || Minus(Max(req.peerSlots, 1), Min(|v.live|, U8_MAX)) <= 1
    || Minus(v.total, |v.claimed|) <= v.cfg.minPiece * 2
  }

  /** A piece is a multiple of the alignment, so a claim that takes a whole one ends on a
      boundary exactly if its gap starts on one or, where the piece does not fit, ends on one.
      Nothing moves the end there otherwise. */
  lemma FreshEndAlignedIff(v: View, req: Request, gap: ByteRange)
    requires v.CanClaim() && gap.start < gap.end <= v.total && v.cfg.alignment > 1 && Unshared(v, req)
    ensures var piece := PieceLen(v.cfg, v.pieceDuration, req.est, v.Missing());
            (TakenRange(v, req, gap).end % v.cfg.alignment == 0) <==>
            (if gap.start + Max(piece, 1) > gap.end then gap.end % v.cfg.alignment == 0
             else if piece == 0 then (gap.start + 1) % v.cfg.alignment == 0
             else gap.start % v.cfg.alignment == 0)
  {
    var piece := PieceLen(v.cfg, v.pieceDuration, req.est, v.Missing());
    SnapEndOnlyFillsEmpty(gap.TruncatedTo(Max(piece, 1)), v.cfg.alignment, v.total);
    ShiftAligned(gap.start, piece, v.cfg.alignment);
  }

  lemma ShiftAligned(x: nat, y: nat, a: nat)
    requires a > 0 && y % a == 0
    ensures (x + y) % a == 0 <==> x % a == 0
  {
    DivMod(y, a);
    DivMod(x, a);
    ModShift(x, y / a, a);
  }

  /** A 10-byte cut with alignment 8 keeps its ragged end although 16 was free. */
  lemma SnapEndDoesNotSnap()
    ensures SnapEnd(ByteRange(0, 10), 8, 100).end == 10
  {}

  // ---------------------------------------------------------------- the equal first split

  /** A sequence of `n` claims on a plan nobody has touched, each asking on behalf of `n` peers. */
  ghost predicate FirstClaims(vs: seq<View>, reqs: seq<Request>, os: seq<Claim>, n: nat) {
    && 1 <= n <= U8_MAX && |vs| == n + 1 && |reqs| == |os| == n
    && Init(vs[0]) && vs[0].completed == {}
    && (forall k :: 0 <= k < n ==>
          && !reqs[k].solo && reqs[k].peerSlots == n
          && ClaimStep(vs[k], vs[k + 1], reqs[k], os[k]))
  }

  /** Every piece length offered is at least the rounded-up share. */
  ghost predicate PiecesLargeEnough(v: View, reqs: seq<Request>, n: nat)
    requires n > 0
  {
    v.cfg.ClampOk(v.total) &&
    forall k :: 0 <= k < |reqs| ==>
      PieceLen(v.cfg, v.pieceDuration, reqs[k].est, v.total) * n >= v.total
  }

  /** What `s` remaining slots of a total split `q`, `r = total % n` still have to take. */
  function Left(q: nat, r: nat, s: nat): nat { s * q + Min(r, s) }

  lemma LeftShare(q: nat, r: nat, s: nat)
    requires s > 0
    ensures Left(q, r, s) / s == if r < s then q else q + 1
    ensures Left(q, r, s) - Left(q, r, s) / s == Left(q, r, s - 1)
    ensures Left(q, r, s) >= s * q
  {
    if r < s {
      DivideExact(s * q + r, s, q, r);
      assert (s - 1) * q == s * q - q;
    } else {
      assert s * q + s == s * (q + 1);
      DivideExact(s * q + s, s, q + 1, 0);
      assert (s - 1) * q == s * q - q;
    }
  }

  lemma DivideExact(x: nat, s: nat, q: nat, t: nat)
    requires s > 0 && t < s && x == s * q + t
    ensures x / s == q
  {
    var d := x / s - q;
    assert x == x / s * s + x % s;
    assert d * s == t - x % s;
    if d >= 1 { TimesAtLeast(d, s); } else if d <= -1 { TimesAtLeast(-d, s); }
  }

  lemma FirstGapIsTail(v: View, gap: ByteRange, now: real, pos: nat)
    requires GapFor(v, gap, now) && v.claimed == Upto(pos) && pos <= v.total && v.deferred == []
    ensures gap == ByteRange(pos, v.total)
  {
    assert WaitBytes(v.deferred) == {};
    assert gap.start in Span(gap) && gap.end - 1 in Span(gap);
    UptoWithin(gap.start, pos);
    assert gap.end < v.total ==> gap.end in Upto(pos);
  }

  lemma UptoSize(n: nat)
    ensures |Upto(n)| == n
  {
    SpanSize(ByteRange(0, n));
  }

  /** Nothing is completed or deferred, and exactly the last `left` bytes are unclaimed. */
  ghost predicate TailLeft(v: View, left: nat) {
    && v.cfg.ClampOk(v.total) && v.completed == {} && v.deferred == []
    && left <= v.total && v.claimed == Upto(v.total - left)
  }

  /** The length offered to the next claim. */
  function Offer(v: View, req: Request, left: nat): nat
    requires v.cfg.ClampOk(v.total)
  {
    TakeLen(v.cfg, PieceLen(v.cfg, v.pieceDuration, req.est, v.total), false, req.peerSlots, |v.live|, left)
  }

  /** The claim `id` took the bytes between `left` and `after` before the end of the file. */
  ghost predicate TookShare(v: View, v': View, id: AssignId, left: nat, after: nat) {
    && after <= left <= v.total
    && id !in v.live && v'.live.Keys == v.live.Keys + {id}
    && v'.live[id].range == ByteRange(v.total - left, v.total - after)
    && v' == v.(live := v'.live, claimed := Upto(v.total - after))
  }

  /** The outcome of a claim while the tail of the file is unclaimed. */
  lemma TailClaim(v: View, v': View, req: Request, o: Claim, left: nat) returns (gap: ByteRange)
    requires TailLeft(v, left) && left >= 1 && ClaimStep(v, v', req, o)
    ensures o.Fresh? && GapFor(v, gap, req.now)
    ensures o.id !in v.live && v'.live.Keys == v.live.Keys + {o.id}
    ensures v'.live[o.id].range == TakenRange(v, req, gap)
    ensures v' == v.(live := v'.live, claimed := v.claimed + Span(TakenRange(v, req, gap)))
  {
    OnlyFreshLeft(v, v', req, o, left);
    gap := FreshGives(v, v', req, o.id);
  }

  lemma ShareClaim(v: View, v': View, id: AssignId, taken: ByteRange, left: nat, after: nat)
    requires TailLeft(v, left) && after <= left && taken == ByteRange(v.total - left, v.total - after)
    requires id !in v.live && v'.live.Keys == v.live.Keys + {id} && v'.live[id].range == taken
    requires v' == v.(live := v'.live, claimed := v.claimed + Span(taken))
    ensures TookShare(v, v', id, left, after)
  {
    UptoExtend(v.total - left, v.total - after);
  }

  lemma UptoExtend(a: nat, b: nat)
    requires a <= b
    ensures Upto(a) + Span(ByteRange(a, b)) == Upto(b)
  {}

  lemma AtLeastOne(s: nat, q: nat)
    requires s >= 1 && q >= 1
    ensures s * q >= q
  {
    TimesAtLeast(s, q);
  }

  lemma LeftPositive(q: nat, r: nat, s: nat)
    requires s >= 1 && q >= 1
    ensures Left(q, r, s) >= 1
  {
    LeftShare(q, r, s);
    AtLeastOne(s, q);
  }

  /** While the tail of the file is unclaimed no other outcome is possible. */
  lemma OnlyFreshLeft(v: View, v': View, req: Request, o: Claim, left: nat)
    requires TailLeft(v, left) && left >= 1 && ClaimStep(v, v', req, o)
    ensures o.Fresh? && FreshStep(v, v', req, o.id)
  {
    var pos := v.total - left;
    assert pos in Upto(v.total) && pos !in v.claimed;
    assert WaitBytes(v.deferred) == {};
  }

  lemma TakenTail(v: View, req: Request, gap: ByteRange, left: nat)
    requires TailLeft(v, left) && left >= 1 && GapFor(v, gap, req.now) && !req.solo
    ensures var pos := v.total - left;
            TakenRange(v, req, gap) == ByteRange(pos, pos + Min(left, Max(Offer(v, req, left), 1)))
  {
    var pos := v.total - left;
    FirstGapIsTail(v, gap, req.now, pos);
    UptoSize(pos);
    assert |v.completed| == 0;
    SnapEndOnlyFillsEmpty(gap.TruncatedTo(Offer(v, req, left)), v.cfg.alignment, v.total);
  }

  /** The length such a claim takes, before it is clipped to the end of the file. */
  lemma ShareLen(cfg: Policy, piece: nat, n: nat, k: nat, q: nat, r: nat)
    requires k < n <= U8_MAX && q > cfg.minPiece && r < n
    requires piece >= if r == 0 then q else q + 1
    ensures var left := Left(q, r, n - k);
            var len := TakeLen(cfg, piece, false, n, k, left);
            len >= 1 && Min(left, len) == left - Left(q, r, n - k - 1)
  {
    var s := n - k;
    LeftShare(q, r, s);
    if s > 1 {
      TwoShares(s, q);
    } else {
      assert Left(q, r, 0) == 0;
    }
    ShareLenOf(cfg, piece, n, k, Left(q, r, s), if r < s then q else q + 1);
  }

  lemma TwoShares(s: nat, q: nat)
    requires s >= 2
    ensures s * q >= 2 * q
  {
    if q > 0 { TimesAtLeast(s - 1, q); }
    assert s * q == (s - 1) * q + q;
  }

  lemma ShareLenOf(cfg: Policy, piece: nat, n: nat, k: nat, left: nat, share: nat)
    requires k < n <= U8_MAX && left / (n - k) == share > cfg.minPiece && piece >= share
    requires n - k > 1 ==> left > cfg.minPiece * 2
    ensures var len := TakeLen(cfg, piece, false, n, k, left);
            len >= 1 && Min(left, len) == share
  {
    ShareAtMost(left, n - k);
  }

  lemma ShareAtMost(left: nat, s: nat)
    requires s > 0
    ensures left / s <= left && (s == 1 ==> left / s == left)
  {
    DivMod(left, s);
    if left / s >= 1 { AtLeastOne(s, left / s); }
  }

  ghost predicate SplitSoFar(v0: View, v: View, k: nat, left: nat) {
    && v.total == v0.total && v.cfg == v0.cfg && v.pieceDuration == v0.pieceDuration
    && |v.live| == k && TailLeft(v, left)
  }

  lemma SplitClaim(v: View, v': View, req: Request, o: Claim, left: nat, after: nat)
    requires TailLeft(v, left) && after <= left && left >= 1 && ClaimStep(v, v', req, o) && !req.solo
    requires Min(left, Max(Offer(v, req, left), 1)) == left - after
    ensures o.Fresh? && TookShare(v, v', o.id, left, after)
  {
    var gap := TailClaim(v, v', req, o, left);
    TakenTail(v, req, gap, left);
    ShareClaim(v, v', o.id, TakenRange(v, req, gap), left, after);
  }

  lemma SplitStep(v0: View, v: View, v': View, req: Request, o: Claim, k: nat, left: nat, after: nat)
    requires SplitSoFar(v0, v, k, left) && left >= 1 && after <= left && ClaimStep(v, v', req, o) && !req.solo
    requires Min(left, Max(Offer(v, req, left), 1)) == left - after
    ensures o.Fresh? && TookShare(v, v', o.id, left, after)
    ensures SplitSoFar(v0, v', k + 1, after)
  {
    SplitClaim(v, v', req, o, left, after);
  }

  /** The range of claim `i` has the rounded-down or, if the division is not exact, the rounded-up length. */
  ghost predicate FairShare(v': View, o: Claim, total: nat, n: nat)
    requires n > 0
  {
    && o.Fresh? && o.id in v'.live
    && var g := v'.live[o.id].range;
    && g.start <= g.end
    && (g.Len() == total / n || (g.Len() == total / n + 1 && total % n != 0))
  }

  /** Claim `k` turns an even split of the first `k` shares into one of `k + 1`. */
  ghost predicate SplitsOn(v0: View, v: View, v': View, o: Claim, n: nat, k: nat, q: nat, r: nat) {
    k < n && (SplitSoFar(v0, v, k, Left(q, r, n - k)) ==>
                SplitSoFar(v0, v', k + 1, Left(q, r, n - k - 1)) && FairShare(v', o, v0.total, n))
  }

  lemma OneMoreShare(vs: seq<View>, reqs: seq<Request>, os: seq<Claim>, n: nat, k: nat, q: nat, r: nat)
    requires FirstClaims(vs, reqs, os, n) && k < n
    requires q == vs[0].total / n > vs[0].cfg.minPiece && r == vs[0].total % n
    requires PiecesLargeEnough(vs[0], reqs, n)
    ensures SplitsOn(vs[0], vs[k], vs[k + 1], os[k], n, k, q, r)
  {
    var piece := PieceLen(vs[0].cfg, vs[0].pieceDuration, reqs[k].est, vs[0].total);
    assert piece >= (if r == 0 then q else q + 1) by {
      DivMod(vs[0].total, n);
      CeilingShare(piece, n, q, r);
    }
    var left, after := Left(q, r, n - k), Left(q, r, n - k - 1);
    if SplitSoFar(vs[0], vs[k], k, left) {
      LeftPositive(q, r, n - k);
      LeftShare(q, r, n - k);
      ShareLen(vs[0].cfg, piece, n, k, q, r);
      SplitStep(vs[0], vs[k], vs[k + 1], reqs[k], os[k], k, left, after);
      ShareIsFair(vs[k], vs[k + 1], os[k], n, k, q, r);
    }
  }

  lemma ShareIsFair(v: View, v': View, o: Claim, n: nat, k: nat, q: nat, r: nat)
    requires k < n && o.Fresh? && TookShare(v, v', o.id, Left(q, r, n - k), Left(q, r, n - k - 1))
    requires q == v.total / n && r == v.total % n
    ensures FairShare(v', o, v.total, n)
  {
    LeftShare(q, r, n - k);
  }

  lemma {:induction false} SharesUpTo(vs: seq<View>, os: seq<Claim>, n: nat, k: nat, q: nat, r: nat)
    requires |vs| == n + 1 && |os| == n && k <= n && n > 0
    requires forall i :: 0 <= i < n ==> SplitsOn(vs[0], vs[i], vs[i + 1], os[i], n, i, q, r)
    requires SplitSoFar(vs[0], vs[0], 0, Left(q, r, n))
    ensures SplitSoFar(vs[0], vs[k], k, Left(q, r, n - k))
    ensures forall i :: 0 <= i < k ==> FairShare(vs[i + 1], os[i], vs[0].total, n)
  {
    if k > 0 {
      SharesUpTo(vs, os, n, k - 1, q, r);
      assert SplitsOn(vs[0], vs[k - 1], vs[k - 1 + 1], os[k - 1], n, k - 1, q, r);
    }
  }

  /** On a fresh plan `n` claims for `n` peers cover the whole file, each with the
      rounded-down or rounded-up share of it. */
  lemma EqualFirstSplit(vs: seq<View>, reqs: seq<Request>, os: seq<Claim>, n: nat)
    requires FirstClaims(vs, reqs, os, n)
    requires vs[0].total / n > vs[0].cfg.minPiece && PiecesLargeEnough(vs[0], reqs, n)
    ensures forall i :: 0 <= i < n ==> FairShare(vs[i + 1], os[i], vs[0].total, n)
    ensures |vs[n].live| == n && vs[n].claimed == Upto(vs[0].total)
  {
    var q, r := vs[0].total / n, vs[0].total % n;
    forall k | 0 <= k < n ensures SplitsOn(vs[0], vs[k], vs[k + 1], os[k], n, k, q, r) {
      OneMoreShare(vs, reqs, os, n, k, q, r);
    }
    WholeFileLeft(vs[0], n, q, r);
    SharesUpTo(vs, os, n, n, q, r);
    assert Left(q, r, 0) == 0;
  }

  lemma WholeFileLeft(v0: View, n: nat, q: nat, r: nat)
    requires Init(v0) && v0.completed == {} && v0.cfg.ClampOk(v0.total) && n > 0
    requires q == v0.total / n && r == v0.total % n
    ensures SplitSoFar(v0, v0, 0, Left(q, r, n))
  {
    DivMod(v0.total, n);
    assert Left(q, r, n) == v0.total;
    assert Upto(0) == {};
  }

  lemma CeilingShare(piece: nat, n: nat, q: nat, r: nat)
    requires n > 0 && piece * n >= n * q + r
    ensures piece >= if r == 0 then q else q + 1
  {
    if piece < q { TimesAtLeast(q - piece, n); }
  }
}
