/** The plan's partition: at every moment each claimed byte has exactly one owner. */
module PlanSafety {
  import opened Basics
  import opened Ranges
  import opened PlanView

  // ---------------------------------------------------------------- the invariant

  ghost predicate LiveDisjoint(live: map<AssignId, Assignment>) {
    forall i, j :: i in live && j in live && i != j ==> Span(live[i].range) !! Span(live[j].range)
  }

  ghost predicate WaitDisjoint(ds: seq<Deferred>) {
    forall i, j :: 0 <= i < j < |ds| ==> Span(ds[i].range) !! Span(ds[j].range)
  }

  /** A live assignment as the plan keeps it, whatever was committed in which order. */
  predicate Sane(a: Assignment) { a.range.start < a.range.end && Normalized(a.committed) }

  /** Commits arrived in order: they fill a prefix of the range. */
  predicate Prefix(a: Assignment) {
    && a.range.start < a.range.end
    && |a.committed| <= 1
    && (a.committed != [] ==> a.committed[0].start == a.range.start < a.committed[0].end <= a.range.end)
  }

  ghost predicate LooseInv(v: View) {
    && v.claimed == v.completed + LiveBytes(v.live) + WaitBytes(v.deferred)
    && v.claimed <= Upto(v.total)
    && v.completed !! LiveBytes(v.live)
    && v.completed !! WaitBytes(v.deferred)
    && LiveBytes(v.live) !! WaitBytes(v.deferred)
    && LiveDisjoint(v.live) && WaitDisjoint(v.deferred)
  }

  ghost predicate Inv(v: View) {
    && LooseInv(v)
    && (forall id :: id in v.live ==> Sane(v.live[id]))
    && (forall k :: 0 <= k < |v.deferred| ==> !v.deferred[k].range.IsEmpty())
  }

  ghost predicate Ordered(v: View) { forall id :: id in v.live ==> Prefix(v.live[id]) }

  /** A plan as `new` makes it from the bytes a journal vouches for. */
  ghost predicate Init(v: View) {
    v.claimed == v.completed && v.completed <= Upto(v.total) && v.live == map[] && v.deferred == []
  }

  lemma InitInv(v: View)
    requires Init(v)
    ensures Inv(v) && Ordered(v)
  {
    assert LiveBytes(v.live) == {} && WaitBytes(v.deferred) == {};
  }

  // ---------------------------------------------------------------- one owner for every byte

  datatype Owner = Done | Worker(id: AssignId) | Waiting(k: nat)

  ghost predicate Owns(v: View, o: Owner, x: int) {
    match o
    case Done => x in v.completed
    case Worker(id) => id in v.live && x in Span(v.live[id].range)
    case Waiting(k) => k < |v.deferred| && x in Span(v.deferred[k].range)
  }

  /** The claimed bytes are exactly the owned bytes, all inside the file, and no
      byte has two owners. */
  ghost predicate Partitioned(v: View) {
    && (forall x :: x in v.claimed <==> exists o :: Owns(v, o, x))
    && (forall x, o, p :: Owns(v, o, x) && Owns(v, p, x) ==> o == p)
    && v.claimed <= Upto(v.total)
  }

  lemma InvPartitions(v: View)
    requires LooseInv(v)
    ensures Partitioned(v)
  {
    forall x | x in v.claimed ensures exists o :: Owns(v, o, x) {
      if x in v.completed {
        assert Owns(v, Done, x);
      } else if x in LiveBytes(v.live) {
        var id :| id in v.live && x in Span(v.live[id].range);
        assert Owns(v, Worker(id), x);
      } else {
        var k :| 0 <= k < |v.deferred| && x in Span(v.deferred[k].range);
        assert Owns(v, Waiting(k), x);
      }
    }
    forall x, o, p | Owns(v, o, x) && Owns(v, p, x) ensures o == p && x in v.claimed {
      assert o.Done? ==> x in v.completed;
      assert o.Worker? ==> x in LiveBytes(v.live);
      assert o.Waiting? ==> x in WaitBytes(v.deferred);
      assert p.Worker? ==> x in LiveBytes(v.live);
      assert p.Waiting? ==> x in WaitBytes(v.deferred);
    }
  }

  // ---------------------------------------------------------------- bytes of the live and waiting ranges

  lemma AddLive(live: map<AssignId, Assignment>, id: AssignId, a: Assignment)
    requires id !in live
    ensures LiveBytes(live[id := a]) == LiveBytes(live) + Span(a.range)
    ensures LiveDisjoint(live) && LiveBytes(live) !! Span(a.range) ==> LiveDisjoint(live[id := a])
  {
    var l := live[id := a];
    forall x | x in LiveBytes(live) ensures x in LiveBytes(l) {
      var i :| i in live && x in Span(live[i].range);
      assert i in l && l[i] == live[i];
    }
    forall x | x in Span(a.range) ensures x in LiveBytes(l) {
      assert id in l && l[id] == a;
    }
    forall i | i in live ensures Span(live[i].range) <= LiveBytes(live) {
    }
  }

  lemma DropLive(live: map<AssignId, Assignment>, id: AssignId)
    requires id in live && LiveDisjoint(live)
    ensures LiveBytes(live - {id}) == LiveBytes(live) - Span(live[id].range)
    ensures Span(live[id].range) <= LiveBytes(live)
    ensures LiveDisjoint(live - {id})
  {
    var l := live - {id};
    forall x | x in LiveBytes(live) - Span(live[id].range) ensures x in LiveBytes(l) {
      var i :| i in live && x in Span(live[i].range);
      assert i in l && l[i] == live[i];
    }
    forall x | x in LiveBytes(l) ensures x in LiveBytes(live) - Span(live[id].range) {
      var i :| i in l && x in Span(l[i].range);
      assert i in live && l[i] == live[i];
    }
  }

  /** Replacing a live assignment by one whose range is part of the old one. */
  lemma ShrinkLive(live: map<AssignId, Assignment>, id: AssignId, a: Assignment)
    requires id in live && LiveDisjoint(live) && Span(a.range) <= Span(live[id].range)
    ensures LiveBytes(live[id := a]) == LiveBytes(live) - (Span(live[id].range) - Span(a.range))
    ensures LiveDisjoint(live[id := a])
  {
    DropLive(live, id);
    AddLive(live - {id}, id, a);
    assert live[id := a] == (live - {id})[id := a];
  }

  lemma AppendWait(ds: seq<Deferred>, d: Deferred)
    ensures WaitBytes(ds + [d]) == WaitBytes(ds) + Span(d.range)
    ensures WaitDisjoint(ds) && WaitBytes(ds) !! Span(d.range) ==> WaitDisjoint(ds + [d])
  {
    var e := ds + [d];
    forall x | x in WaitBytes(ds) ensures x in WaitBytes(e) {
      var k :| 0 <= k < |ds| && x in Span(ds[k].range);
      assert e[k] == ds[k];
    }
    forall x | x in Span(d.range) ensures x in WaitBytes(e) {
      assert e[|ds|] == d;
    }
    forall i | 0 <= i < |ds| ensures Span(ds[i].range) <= WaitBytes(ds) && e[i] == ds[i] {
    }
  }

  lemma InitWait(ds: seq<Deferred>)
    requires ds != [] && WaitDisjoint(ds)
    ensures var init, last := ds[..|ds| - 1], ds[|ds| - 1];
            && WaitDisjoint(init)
            && WaitBytes(ds) == WaitBytes(init) + Span(last.range)
            && WaitBytes(init) !! Span(last.range)
  {
    var init, last := ds[..|ds| - 1], ds[|ds| - 1];
    assert ds == init + [last];
    AppendWait(init, last);
    forall x | x in WaitBytes(init) ensures x !in Span(last.range) {
      var k :| 0 <= k < |init| && x in Span(init[k].range);
      assert init[k] == ds[k];
    }
  }

  /** Releasing splits the waiting bytes into those due and those kept. */
  lemma {:induction false} SplitWait(ds: seq<Deferred>, now: real)
    requires WaitDisjoint(ds)
    ensures WaitBytes(ds) == WaitBytes(Due(ds, now)) + WaitBytes(Kept(ds, now))
    ensures WaitBytes(Due(ds, now)) !! WaitBytes(Kept(ds, now))
    ensures WaitDisjoint(Kept(ds, now))
  {
    if ds != [] {
      var init, last := ds[..|ds| - 1], ds[|ds| - 1];
      InitWait(ds);
      SplitWait(init, now);
      if last.until <= now {
        AppendWait(Due(init, now), last);
        assert Kept(ds, now) == Kept(init, now);
      } else {
        AppendWait(Kept(init, now), last);
        assert Due(ds, now) == Due(init, now);
      }
    }
  }

  // ---------------------------------------------------------------- the cursor

  lemma CursorInside(a: Assignment)
    requires Sane(a)
    ensures a.range.start <= a.Cursor() <= a.range.end
  {
    FirstGapExact(a.committed, a.range.start, a.range.end);
  }

  lemma PrefixIsSane(a: Assignment)
    requires Prefix(a)
    ensures Sane(a)
  {}

  /** With in-order commits the cursor is the end of the committed prefix. */
  lemma PrefixCursor(a: Assignment)
    requires Prefix(a)
    ensures Normalized(a.committed)
    ensures a.Cursor() == if a.committed == [] then a.range.start else a.committed[0].end
    ensures Bytes(a.committed) == Span(ByteRange(a.range.start, a.Cursor()))
    ensures a.range.start <= a.Cursor() <= a.range.end
  {
    FirstGapExact(a.committed, a.range.start, a.range.end);
    if a.committed == [] {
      assert Bytes(a.committed) == {};
      assert Span(ByteRange(a.range.start, a.range.start)) == {};
    } else {
      BytesOne(a.committed[0]);
      assert a.committed == [a.committed[0]];
    }
  }

  /** Cutting beyond the cursor keeps in-order commits inside the range. */
  lemma ShortenedPrefix(a: Assignment, end: nat)
    requires Prefix(a) && a.Cursor() < end <= a.range.end
    ensures Prefix(Shortened(a, end))
  {
    PrefixCursor(a);
  }

  lemma ShortenedSane(a: Assignment, end: nat)
    requires Sane(a) && a.Cursor() < end <= a.range.end
    ensures Sane(Shortened(a, end))
    ensures Span(Shortened(a, end).range) <= Span(a.range)
    ensures Span(a.range) - Span(Shortened(a, end).range) == Span(ByteRange(end, a.range.end))
  {
    CursorInside(a);
  }

  // ---------------------------------------------------------------- what one step keeps

  lemma AddedInv(v: View, id: AssignId, a: Assignment)
    requires Inv(v) && id !in v.live && Sane(a)
    requires Span(a.range) !! v.claimed && a.range.end <= v.total
    ensures Inv(Added(v, id, a))
  {
    AddLive(v.live, id, a);
  }

  /** `snap_end` never moves the end of a non-empty range inside the file, whatever
      the alignment; an empty one becomes a single byte. */
  lemma SnapEndOnlyFillsEmpty(r: ByteRange, align: nat, total: nat)
    requires r.start <= r.end <= total && r.start < total
    ensures SnapEnd(r, align, total) == ByteRange(r.start, Max(r.end, r.start + 1))
  {}

  lemma TakenRangeFits(v: View, req: Request, gap: ByteRange)
    requires v.CanClaim() && gap.start < gap.end <= v.total
    ensures var r := TakenRange(v, req, gap); r.start == gap.start < r.end <= gap.end
  {
    var piece := PieceLen(v.cfg, v.pieceDuration, req.est, v.Missing());
    var len := TakeLen(v.cfg, piece, req.solo, req.peerSlots, |v.live|, Minus(v.total, |v.claimed|));
    SnapEndOnlyFillsEmpty(gap.TruncatedTo(len), v.cfg.alignment, v.total);
  }

  /** The cut stays clear of the protected frontier and of the range's end by a whole piece. */
  lemma StealCutFits(v: View, req: Request, a: Assignment)
    requires StealCut(v, req, a).Some?
    ensures var cut := StealCut(v, req, a).value;
            var piece := if v.Missing() <= v.cfg.tailThreshold then v.cfg.tailMinPiece else v.cfg.minPiece;
            && a.Cursor() < cut < a.range.end
            && a.range.start + Max(a.wireReceived, a.submitted) + piece <= cut <= a.range.end - piece
  {}

  lemma FreshGives(v: View, v': View, req: Request, id: AssignId) returns (gap: ByteRange)
    requires FreshStep(v, v', req, id)
    ensures GapFor(v, gap, req.now)
    ensures id !in v.live && v'.live.Keys == v.live.Keys + {id}
    ensures v'.live[id].range == TakenRange(v, req, gap)
    ensures v' == v.(live := v'.live, claimed := v.claimed + Span(TakenRange(v, req, gap)))
    ensures v' == Added(v, id, v'.live[id]) && v'.live[id].committed == []
  {
    gap :| GapFor(v, gap, req.now) && v' == Added(v, id, FreshAssignment(v, req, gap));
    AddedGives(v, v', id, FreshAssignment(v, req, gap));
  }

  lemma AddedGives(v: View, v': View, id: AssignId, a: Assignment)
    requires v' == Added(v, id, a)
    ensures v'.live.Keys == v.live.Keys + {id} && v'.live[id] == a
    ensures v' == v.(live := v'.live, claimed := v.claimed + Span(a.range))
  {}

  lemma FreshInv(v: View, v': View, req: Request, id: AssignId)
    requires Inv(v) && FreshStep(v, v', req, id)
    ensures Inv(v')
  {
    var gap := FreshGives(v, v', req, id);
    TakenRangeFits(v, req, gap);
    GapHolds(v, gap, TakenRange(v, req, gap), req.now);
    AddedInv(v, id, v'.live[id]);
  }

  lemma GapHolds(v: View, gap: ByteRange, r: ByteRange, now: real)
    requires GapFor(v, gap, now) && gap.start <= r.start <= r.end <= gap.end
    ensures Span(r) !! v.claimed && r.end <= v.total
  {
    assert Span(r) <= Span(gap);
  }

  lemma StealInv(v: View, v': View, req: Request, new_: AssignId, from: AssignId)
    requires Inv(v) && StealStep(v, v', req, new_, from)
    ensures Inv(v')
  {
    var a := v.live[from];
    var cut := StealCut(v, req, a).value;
    StealCutFits(v, req, a);
    HandOver(v, new_, from, cut, NewAssignment(ByteRange(cut, a.range.end), req.now, 0, 0));
  }

  /** The tail `[cut, end)` of one assignment becomes a new assignment. */
  lemma HandOver(v: View, new_: AssignId, from: AssignId, cut: nat, b: Assignment)
    requires Inv(v) && new_ !in v.live && from in v.live
    requires v.live[from].Cursor() < cut < v.live[from].range.end
    requires b.range == ByteRange(cut, v.live[from].range.end) && b.committed == []
    ensures Inv(Added(v.(live := v.live[from := Shortened(v.live[from], cut)]), new_, b))
    ensures Added(v.(live := v.live[from := Shortened(v.live[from], cut)]), new_, b).claimed == v.claimed
  {
    var a := v.live[from];
    var live' := v.live[from := Shortened(a, cut)];
    DropLive(v.live, from);
    ShortenedSane(a, cut);
    ShrinkLive(v.live, from, Shortened(a, cut));
    AddLive(live', new_, b);
    assert Span(b.range) <= Span(a.range);
  }

  lemma ClaimInv(v: View, v': View, req: Request, o: Claim)
    requires Inv(v) && ClaimStep(v, v', req, o)
    ensures Inv(v')
  {
    if !(Upto(v.total) <= v.completed) {
      match o
      case Fresh(id) => FreshInv(v, v', req, id);
      case Stolen(new_, from) => StealInv(v, v', req, new_, from);
      case Saturated =>
      case Complete =>
    }
  }

  /** Claims keep commits in order too: a new assignment has none and a cut is beyond the cursor. */
  lemma ClaimOrdered(v: View, v': View, req: Request, o: Claim)
    requires Ordered(v) && Inv(v) && ClaimStep(v, v', req, o)
    ensures Ordered(v')
  {
    if !(Upto(v.total) <= v.completed) {
      match o
      case Fresh(id) => FreshOrdered(v, v', req, id);
      case Stolen(new_, from) => StealOrdered(v, v', req, new_, from);
      case Saturated =>
      case Complete =>
    }
  }

  lemma FreshOrdered(v: View, v': View, req: Request, id: AssignId)
    requires Ordered(v) && FreshStep(v, v', req, id)
    ensures Ordered(v')
  {
    var gap := FreshGives(v, v', req, id);
    TakenRangeFits(v, req, gap);
    assert Prefix(v'.live[id]);
  }

  lemma StealOrdered(v: View, v': View, req: Request, new_: AssignId, from: AssignId)
    requires Ordered(v) && StealStep(v, v', req, new_, from)
    ensures Ordered(v')
  {
    StealCutFits(v, req, v.live[from]);
    ShortenedPrefix(v.live[from], StealCut(v, req, v.live[from]).value);
  }

  // ---------------------------------------------------------------- finishing

  /** A verified response followed by `finish`, as the controller pairs them. */
  function VerifyFinishView(v: View, id: AssignId, range: ByteRange): View {
    FinishView(VerifiedView(v, id, range), id)
  }

  /** The bytes such a pair credits: what was verified or committed of the range. */
  function Credited(a: Assignment, range: ByteRange): set<int> {
    (Span(a.range) * Span(range)) + Bytes(a.committed)
  }

  /** What was committed outside the range the worker still owns. */
  function Stray(a: Assignment): set<int> { Bytes(a.committed) - Span(a.range) }

  /** No stray commit belongs to another worker, waits for a retry or lies outside the file. */
  ghost predicate SafeFinish(v: View, id: AssignId) {
    id in v.live ==>
      && Stray(v.live[id]) !! LiveBytes(v.live - {id})
      && Stray(v.live[id]) !! WaitBytes(v.deferred)
      && Stray(v.live[id]) <= Upto(v.total)
  }

  lemma VerifiedIs(v: View, id: AssignId, range: ByteRange)
    requires LooseInv(v) && id in v.live
    ensures Span(v.live[id].range) <= v.claimed
    ensures VerifiedView(v, id, range) == v.(completed := v.completed + Span(v.live[id].range) * Span(range))
  {
    DropLive(v.live, id);
    var a := v.live[id];
    var w := VerifiedView(v, id, range);
    assert w.completed == v.completed + Span(a.range) * Span(range);
    assert w.claimed == v.claimed;
  }

  lemma VerifyFinishIs(v: View, id: AssignId, range: ByteRange)
    requires LooseInv(v) && id in v.live
    ensures var a, v' := v.live[id], VerifyFinishView(v, id, range);
            v' == v.(live := v.live - {id}, completed := v.completed + Credited(a, range),
                     claimed := (v.claimed + Stray(a)) - (Span(a.range) - Credited(a, range)))
  {
    VerifiedIs(v, id, range);
    DropLive(v.live, id);
    var a := v.live[id];
    FinishSets(v.completed, v.claimed, Span(a.range), Span(range), Bytes(a.committed));
  }

  /** The sets of the pair: own range `own`, verified `got`, committed `done`. */
  lemma FinishSets(completed: set<int>, claimed: set<int>, own: set<int>, got: set<int>, done: set<int>)
    requires own <= claimed && own !! completed
    ensures completed + own * got + done == completed + (own * got + done)
    ensures (claimed + done) - (own - (completed + own * got + done)) ==
            (claimed + (done - own)) - (own - (own * got + done))
  {}

  /** The pair keeps one owner for every byte exactly if it is safe. */
  lemma FinishSafeIff(v: View, id: AssignId, range: ByteRange)
    requires LooseInv(v) && id in v.live
    ensures Partitioned(VerifyFinishView(v, id, range)) <==> SafeFinish(v, id)
    ensures SafeFinish(v, id) ==> LooseInv(VerifyFinishView(v, id, range))
  {
    var w := VerifyFinishView(v, id, range);
    VerifyFinishIs(v, id, range);
    DropLive(v.live, id);
    if SafeFinish(v, id) {
      SafeFinishSets(v, id, range);
      InvPartitions(w);
    } else {
      UnsafeFinish(v, w, id, range);
    }
  }

  lemma SafeFinishSets(v: View, id: AssignId, range: ByteRange)
    requires LooseInv(v) && id in v.live && SafeFinish(v, id)
    ensures LooseInv(VerifyFinishView(v, id, range))
  {
    VerifyFinishIs(v, id, range);
    DropLive(v.live, id);
  }

  lemma UnsafeFinish(v: View, w: View, id: AssignId, range: ByteRange)
    requires LooseInv(v) && id in v.live && !SafeFinish(v, id) && w == VerifyFinishView(v, id, range)
    ensures !Partitioned(w)
  {
    VerifyFinishIs(v, id, range);
    var a := v.live[id];
    if Partitioned(w) {
      forall x | x in Stray(a) ensures x !in LiveBytes(w.live) && x !in WaitBytes(w.deferred) && x in Upto(v.total) {
        DoneOnly(w, x);
      }
    }
  }

  /** In a partition a completed byte is nobody else's. */
  lemma DoneOnly(w: View, x: int)
    requires Partitioned(w) && x in w.completed
    ensures x !in LiveBytes(w.live) && x !in WaitBytes(w.deferred) && x in Upto(w.total)
  {
    assert Owns(w, Done, x);
    if x in LiveBytes(w.live) {
      var i :| i in w.live && x in Span(w.live[i].range);
      assert Owns(w, Worker(i), x);
    }
    if x in WaitBytes(w.deferred) {
      var k :| 0 <= k < |w.deferred| && x in Span(w.deferred[k].range);
      assert Owns(w, Waiting(k), x);
    }
  }

  lemma VerifyFinishInv(v: View, id: AssignId, range: ByteRange)
    requires Inv(v) && SafeFinish(v, id)
    ensures Inv(VerifyFinishView(v, id, range))
  {
    if id in v.live {
      VerifyFinishIs(v, id, range);
      SafeFinishSets(v, id, range);
    }
  }

  /** With in-order commits nothing is ever stray. */
  lemma OrderedIsSafe(v: View, id: AssignId)
    requires Ordered(v)
    ensures SafeFinish(v, id)
    ensures id in v.live ==> Stray(v.live[id]) == {}
  {
    if id in v.live { PrefixCursor(v.live[id]); }
  }

  // ---------------------------------------------------------------- failing, retrying, rebalancing, committing

  lemma AbandonInv(v: View, id: AssignId)
    requires Inv(v)
    ensures Inv(AbandonView(v, id))
    ensures id in v.live ==> AbandonView(v, id).claimed == v.claimed - Span(v.live[id].range)
  {
    if id in v.live { DropLive(v.live, id); }
  }

  lemma DeferInv(v: View, range: ByteRange, until: real, attempt: nat)
    requires Inv(v) && Span(range) !! v.claimed && range.end <= v.total
    ensures Inv(DeferView(v, range, until, attempt))
  {
    AppendWait(v.deferred, Deferred(range, until, attempt));
  }

  lemma AbandonDeferInv(v: View, id: AssignId, until: real, attempt: nat)
    requires Inv(v) && id in v.live
    ensures Inv(DeferView(AbandonView(v, id), v.live[id].range, until, attempt))
    ensures DeferView(AbandonView(v, id), v.live[id].range, until, attempt).claimed == v.claimed
  {
    AbandonInv(v, id);
    DropLive(v.live, id);
    var r := v.live[id].range;
    assert r.end - 1 in Span(r);
    DeferInv(AbandonView(v, id), r, until, attempt);
  }

  lemma ReleaseInv(v: View, now: real)
    requires Inv(v)
    ensures Inv(ReleaseView(v, now))
  {
    SplitWait(v.deferred, now);
    KeptFrom(v.deferred, now);
  }

  lemma CutInv(v: View, id: AssignId, end: nat)
    requires Inv(v) && id in v.live && v.live[id].Cursor() < end < v.live[id].range.end
    ensures Inv(CutView(v, id, end))
    ensures CutView(v, id, end).claimed == v.claimed - Span(ByteRange(end, v.live[id].range.end))
  {
    var a := v.live[id];
    DropLive(v.live, id);
    ShortenedSane(a, end);
    ShrinkLive(v.live, id, Shortened(a, end));
  }

  lemma {:induction false} RebalanceInv(v: View, ids: seq<AssignId>)
    requires Inv(v)
    ensures Inv(RebalanceView(v, ids))
    ensures RebalanceView(v, ids).live.Keys == v.live.Keys
    ensures RebalanceView(v, ids).deferred == v.deferred && RebalanceView(v, ids).completed == v.completed
    ensures RebalanceView(v, ids).total == v.total && RebalanceView(v, ids).cfg == v.cfg
  {
    if ids != [] {
      var w, id := RebalanceView(v, ids[..|ids| - 1]), ids[|ids| - 1];
      RebalanceInv(v, ids[..|ids| - 1]);
      if id in w.live {
        var e := RebalanceEnd(w.cfg, w.pieceDuration, w.live[id]);
        if e.Some? { CutInv(w, id, e.value); }
      }
    }
  }

  lemma {:induction false} RebalanceOrdered(v: View, ids: seq<AssignId>)
    requires Ordered(v)
    ensures Ordered(RebalanceView(v, ids))
  {
    if ids != [] {
      var w, id := RebalanceView(v, ids[..|ids| - 1]), ids[|ids| - 1];
      RebalanceOrdered(v, ids[..|ids| - 1]);
      if id in w.live {
        var e := RebalanceEnd(w.cfg, w.pieceDuration, w.live[id]);
        if e.Some? { ShortenedPrefix(w.live[id], e.value); }
      }
    }
  }

  /** Commits arrive in order when each starts no later than the committed prefix ends. */
  predicate InOrder(v: View, id: AssignId, range: ByteRange) {
    id in v.live ==> range.start <= v.live[id].Cursor()
  }

  lemma CommitGives(v: View, v': View, id: AssignId, range: ByteRange, now: real, alpha: real) returns (b: Assignment)
    requires CommitStep(v, v', id, range, now, alpha) && !range.IsEmpty() && id in v.live
    ensures CommitsTo(v.live[id], range, b.committed) && b.range == v.live[id].range
    ensures v' == v.(live := v.live[id := b])
  {
    var s :| CommitsTo(v.live[id], range, s)
          && v' == v.(live := v.live[id := WithCommitted(v.live[id], s, now, alpha)]);
    b := WithCommitted(v.live[id], s, now, alpha);
  }

  /** A commit in any order keeps the partition: it moves no byte before `finish`. */
  lemma CommitInv(v: View, v': View, id: AssignId, range: ByteRange, now: real, alpha: real)
    requires Inv(v) && CommitStep(v, v', id, range, now, alpha)
    ensures Inv(v')
  {
    if !range.IsEmpty() && id in v.live {
      var b := CommitGives(v, v', id, range, now, alpha);
      ReplaceInv(v, id, b);
    }
  }

  lemma CommitOrdered(v: View, v': View, id: AssignId, range: ByteRange, now: real, alpha: real)
    requires Ordered(v) && CommitStep(v, v', id, range, now, alpha) && InOrder(v, id, range)
    ensures Ordered(v')
  {
    if !range.IsEmpty() && id in v.live {
      var b := CommitGives(v, v', id, range, now, alpha);
      InOrderKeepsPrefix(v.live[id], range, b);
    }
  }

  /** Progress bookkeeping inside one assignment moves no byte between owners. */
  lemma ReplaceInv(v: View, id: AssignId, a: Assignment)
    requires Inv(v) && id in v.live && a.range == v.live[id].range && Normalized(a.committed)
    ensures Inv(v.(live := v.live[id := a]))
  {
    ShrinkLive(v.live, id, a);
  }

  lemma InOrderKeepsPrefix(a: Assignment, range: ByteRange, b: Assignment)
    requires Prefix(a) && range.start <= a.Cursor() && !range.IsEmpty()
    requires CommitsTo(a, range, b.committed) && b.range == a.range
    ensures Prefix(b)
  {
    PrefixCursor(a);
    var q := range.Intersection(a.range);
    var end := if q.None? then a.Cursor() else Max(a.Cursor(), q.value.end);
    PrefixBytes(a.range.start, end, b.committed);
  }

  /** A normalized set that is one stretch from `start` is one range, or none. */
  lemma PrefixBytes(start: nat, end: nat, s: seq<ByteRange>)
    requires start <= end && Normalized(s) && Bytes(s) == Span(ByteRange(start, end))
    ensures s == if start == end then [] else [ByteRange(start, end)]
  {
    var t := if start == end then [] else [ByteRange(start, end)];
    if t != [] { BytesOne(t[0]); }
    assert Bytes(t) == Bytes(s);
    Canonical(s, t);
  }
}
