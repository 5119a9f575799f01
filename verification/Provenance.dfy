/** First-writer provenance: which source wrote each byte of an artifact first,
    kept as a sorted list of collapsed spans with an in-place fast path. */
module Provenance {
  import opened Basics
  import opened Ranges

  type Source = nat

  datatype Tagged = Tagged(range: ByteRange, source: Source)

  /** The `(byte, source)` pairs a list of tagged ranges stands for. */
  function Pairs(spans: seq<Tagged>): set<(int, Source)> {
    set i: int, x: int | 0 <= i < |spans| && x in Span(spans[i].range) :: (x, spans[i].source)
  }

  function Tag(bytes: set<int>, s: Source): set<(int, Source)> { set x | x in bytes :: (x, s) }

  function Owned(pairs: set<(int, Source)>): set<int> { set p | p in pairs :: p.0 }

  /** What a write adds: only the bytes nobody owns yet. */
  function AfterWrite(pairs: set<(int, Source)>, w: Tagged): set<(int, Source)> {
    pairs + Tag(Span(w.range) - Owned(pairs), w.source)
  }

  /** Attribution of a whole history of writes, oldest first. */
  function Attributed(history: seq<Tagged>): set<(int, Source)> {
    if history == [] then {}
    else AfterWrite(Attributed(history[..|history| - 1]), history[|history| - 1])
  }

  /** The plain meaning: the source of the earliest write that covers `x`. */
  function FirstWriter(history: seq<Tagged>, x: int): Option<Source> {
    if history == [] then None
    else if x in Span(history[0].range) then Some(history[0].source)
    else FirstWriter(history[1..], x)
  }

  lemma {:induction false} FirstWriterAppend(history: seq<Tagged>, w: Tagged, x: int)
    ensures FirstWriter(history + [w], x) ==
            if FirstWriter(history, x).Some? then FirstWriter(history, x)
            else if x in Span(w.range) then Some(w.source) else None
  {
    if history != [] {
      FirstWriterAppend(history[1..], w, x);
      assert (history + [w])[1..] == history[1..] + [w];
    } else {
      assert [w][1..] == [];
    }
  }

  /** The attribution is the earliest writer of each byte, and nothing else. */
  lemma {:induction false} AttributedIsFirstWriter(history: seq<Tagged>, x: int)
    ensures forall s :: (x, s) in Attributed(history) <==> FirstWriter(history, x) == Some(s)
    ensures x in Owned(Attributed(history)) <==> FirstWriter(history, x).Some?
  {
    if history != [] {
      var n := |history| - 1;
      var init, last := history[..n], history[n];
      AttributedIsFirstWriter(init, x);
      OwnedAfter(Attributed(init), last);
      FirstWriterAppend(init, last, x);
      assert init + [last] == history;
    }
  }

  lemma OwnedAfter(pairs: set<(int, Source)>, w: Tagged)
    ensures Owned(AfterWrite(pairs, w)) == Owned(pairs) + Span(w.range)
  {
    forall x | x in Span(w.range) - Owned(pairs) ensures x in Owned(AfterWrite(pairs, w)) {
      assert (x, w.source) in AfterWrite(pairs, w);
    }
    forall x | x in Owned(pairs) ensures x in Owned(AfterWrite(pairs, w)) {
      var p :| p in pairs && p.0 == x;
      assert p in AfterWrite(pairs, w);
    }
  }

  // ---------------------------------------------------------------- lists of spans

  /** Sorted, disjoint and non-empty. */
  predicate Sorted(spans: seq<Tagged>) {
    && (forall i :: 0 <= i < |spans| ==> spans[i].range.start < spans[i].range.end)
    && (forall i, j :: 0 <= i < j < |spans| ==> spans[i].range.end <= spans[j].range.start)
  }

  /** Touching neighbours come from different sources. */
  predicate Collapsed(spans: seq<Tagged>) {
    forall i :: 0 < i < |spans| && spans[i - 1].range.end == spans[i].range.start ==> spans[i - 1].source != spans[i].source
  }

  lemma PairsConcat(a: seq<Tagged>, b: seq<Tagged>)
    ensures Pairs(a + b) == Pairs(a) + Pairs(b)
  {
    var c := a + b;
    forall i, x | 0 <= i < |a| && x in Span(a[i].range) ensures (x, a[i].source) in Pairs(c) { assert c[i] == a[i]; }
    forall i, x | 0 <= i < |b| && x in Span(b[i].range) ensures (x, b[i].source) in Pairs(c) { assert c[|a| + i] == b[i]; }
    forall p | p in Pairs(c) ensures p in Pairs(a) + Pairs(b) {
      var i :| 0 <= i < |c| && p.0 in Span(c[i].range) && p.1 == c[i].source;
      if i < |a| { assert c[i] == a[i]; } else { assert c[i] == b[i - |a|]; }
    }
  }

  lemma PairsOne(t: Tagged)
    ensures Pairs([t]) == Tag(Span(t.range), t.source)
  {
    forall x | x in Span(t.range) ensures (x, t.source) in Pairs([t]) { assert [t][0] == t; }
  }

  lemma TagUnion(a: set<int>, b: set<int>, s: Source)
    ensures Tag(a + b, s) == Tag(a, s) + Tag(b, s)
  {}

  lemma OwnedUnion(a: set<(int, Source)>, b: set<(int, Source)>)
    ensures Owned(a + b) == Owned(a) + Owned(b)
  {}

  lemma OwnedTag(b: set<int>, s: Source)
    ensures Owned(Tag(b, s)) == b
  {
    forall x | x in b ensures x in Owned(Tag(b, s)) { assert (x, s) in Tag(b, s); }
  }

  lemma OwnedHas(spans: seq<Tagged>, i: nat)
    requires i < |spans|
    ensures Span(spans[i].range) <= Owned(Pairs(spans))
  {
    forall x | x in Span(spans[i].range) ensures x in Owned(Pairs(spans)) {
      assert (x, spans[i].source) in Pairs(spans);
    }
  }

  lemma SortedConcat(a: seq<Tagged>, b: seq<Tagged>, t: int)
    requires Sorted(a) && Sorted(b)
    requires forall i :: 0 <= i < |a| ==> a[i].range.end <= t
    requires forall i :: 0 <= i < |b| ==> t <= b[i].range.start
    ensures Sorted(a + b)
  {
    var c := a + b;
    forall i, j | 0 <= i < j < |c| ensures c[i].range.end <= c[j].range.start {
      if j < |a| {
        assert c[i] == a[i] && c[j] == a[j];
      } else if i < |a| {
        assert c[i] == a[i] && c[j] == b[j - |a|];
      } else {
        assert c[i] == b[i - |a|] && c[j] == b[j - |a|];
      }
    }
  }

  /** Position where a span keeps the list sorted by start. */
  function Position(spans: seq<Tagged>, start: nat): (k: nat)
    ensures k <= |spans|
    ensures forall i :: 0 <= i < k ==> spans[i].range.start <= start
    ensures k < |spans| ==> start < spans[k].range.start
  {
    if spans == [] || start < spans[0].range.start then 0 else 1 + Position(spans[1..], start)
  }

  /** Pushing a span onto a sorted list and sorting by start, with equal starts in order. */
  function PushSorted(spans: seq<Tagged>, t: Tagged): seq<Tagged> {
    var k := Position(spans, t.range.start);
    spans[..k] + [t] + spans[k..]
  }

  lemma PushSortedOrder(spans: seq<Tagged>, t: Tagged, k: nat)
    requires Sorted(spans) && t.range.start < t.range.end && k == Position(spans, t.range.start)
    requires forall i :: 0 <= i < |spans| ==> Span(t.range) !! Span(spans[i].range)
    ensures forall i :: 0 <= i < k ==> spans[i].range.end <= t.range.start
    ensures forall i :: k <= i < |spans| ==> t.range.end <= spans[i].range.start
  {
    forall i | 0 <= i < k ensures spans[i].range.end <= t.range.start {
      DisjointOrder(spans[i].range, t.range);
    }
    forall i | k <= i < |spans| ensures t.range.end <= spans[i].range.start {
      StartsAfter(spans, k, i);
      DisjointOrder(t.range, spans[i].range);
    }
  }

  lemma DisjointOrder(r: ByteRange, q: ByteRange)
    requires r.start <= q.start < q.end && Span(r) !! Span(q)
    ensures r.end <= q.start
  {
    assert q.start in Span(q);
    assert q.start in Span(r) || r.end <= q.start;
  }

  lemma StartsAfter(spans: seq<Tagged>, k: nat, i: nat)
    requires Sorted(spans) && k <= i < |spans|
    ensures spans[k].range.start <= spans[i].range.start < spans[i].range.end
  {}

  lemma PushSortedPairs(spans: seq<Tagged>, t: Tagged)
    ensures Pairs(PushSorted(spans, t)) == Pairs(spans) + Tag(Span(t.range), t.source)
  {
    var k := Position(spans, t.range.start);
    PairsConcat(spans[..k] + [t], spans[k..]);
    PairsConcat(spans[..k], [t]);
    PairsOne(t);
    PairsConcat(spans[..k], spans[k..]);
    assert spans[..k] + spans[k..] == spans;
  }

  lemma PushSortedIs(spans: seq<Tagged>, t: Tagged)
    requires Sorted(spans) && t.range.start < t.range.end && Span(t.range) !! Owned(Pairs(spans))
    ensures Sorted(PushSorted(spans, t))
    ensures Pairs(PushSorted(spans, t)) == Pairs(spans) + Tag(Span(t.range), t.source)
  {
    var k := Position(spans, t.range.start);
    forall i | 0 <= i < |spans| ensures Span(t.range) !! Span(spans[i].range) {
      OwnedHas(spans, i);
    }
    PushSortedOrder(spans, t, k);
    SortedConcat(spans[..k], [t], t.range.start);
    SortedConcat(spans[..k] + [t], spans[k..], t.range.end);
    PushSortedPairs(spans, t);
  }

  function Reach(spans: seq<Tagged>): nat { if spans == [] then 0 else spans[|spans| - 1].range.end }

  /** Joins `t` to the last span if it touches it and has the same source, else appends it. */
  function Absorb(merged: seq<Tagged>, t: Tagged): seq<Tagged> {
    var n := |merged| - 1;
    if merged != [] && merged[n].source == t.source && merged[n].range.end >= t.range.start
    then merged[..n] + [merged[n].(range := ByteRange(merged[n].range.start, Max(merged[n].range.end, t.range.end)))]
    else merged + [t]
  }

  lemma AbsorbIs(merged: seq<Tagged>, t: Tagged)
    requires Sorted(merged) && Collapsed(merged) && Reach(merged) <= t.range.start < t.range.end
    ensures Sorted(Absorb(merged, t)) && Collapsed(Absorb(merged, t))
    ensures Pairs(Absorb(merged, t)) == Pairs(merged) + Tag(Span(t.range), t.source)
    ensures Reach(Absorb(merged, t)) == t.range.end
  {
    var n := |merged| - 1;
    if merged != [] && merged[n].source == t.source && merged[n].range.end >= t.range.start {
      ExtendLast(merged, t.range.end);
    } else {
      AppendedIs(merged, t);
    }
  }

  lemma AppendedIs(merged: seq<Tagged>, t: Tagged)
    requires Sorted(merged) && Collapsed(merged) && Reach(merged) <= t.range.start < t.range.end
    requires merged != [] ==> merged[|merged| - 1].source != t.source || merged[|merged| - 1].range.end < t.range.start
    ensures Sorted(merged + [t]) && Collapsed(merged + [t])
    ensures Pairs(merged + [t]) == Pairs(merged) + Tag(Span(t.range), t.source)
  {
    var n := |merged| - 1;
    forall i | 0 <= i < |merged| ensures merged[i].range.end <= t.range.start {
      assert i < n ==> merged[i].range.end <= merged[n].range.start;
    }
    SortedConcat(merged, [t], t.range.start);
    PairsConcat(merged, [t]);
    PairsOne(t);
    CollapsedAppend(merged, t);
  }

  lemma CollapsedAppend(merged: seq<Tagged>, t: Tagged)
    requires Collapsed(merged)
    requires merged != [] ==> merged[|merged| - 1].source != t.source || merged[|merged| - 1].range.end < t.range.start
    ensures Collapsed(merged + [t])
  {
    var c := merged + [t];
    forall i | 0 < i < |c| && c[i - 1].range.end == c[i].range.start ensures c[i - 1].source != c[i].source {
      assert c[i - 1] == merged[i - 1];
      assert i < |merged| ==> c[i] == merged[i];
    }
  }

  /** Rebuilds a sorted list with touching spans of one source joined. */
  method Collapse(spans: seq<Tagged>) returns (merged: seq<Tagged>)
    requires Sorted(spans)
    ensures Sorted(merged) && Collapsed(merged)
    ensures Pairs(merged) == Pairs(spans)
  {
    merged := [];
    for i := 0 to |spans|
      invariant Sorted(merged) && Collapsed(merged)
      invariant Pairs(merged) == Pairs(spans[..i])
      invariant Reach(merged) == if i == 0 then 0 else spans[i - 1].range.end
    {
      PairsPrefix(spans, i);
      AbsorbIs(merged, spans[i]);
      merged := Absorb(merged, spans[i]);
    }
    assert spans[..|spans|] == spans;
  }

  lemma PairsPrefix(spans: seq<Tagged>, i: nat)
    requires i < |spans|
    ensures Pairs(spans[..i + 1]) == Pairs(spans[..i]) + Tag(Span(spans[i].range), spans[i].source)
  {
    assert spans[..i + 1] == spans[..i] + [spans[i]];
    PairsConcat(spans[..i], [spans[i]]);
    PairsOne(spans[i]);
  }

  /** Lengthening the last span adds just the new bytes to its source. */
  lemma ExtendLast(spans: seq<Tagged>, end: nat)
    requires Sorted(spans) && Collapsed(spans) && spans != []
    ensures var last := spans[|spans| - 1];
            var longer := spans[..|spans| - 1] + [last.(range := ByteRange(last.range.start, Max(last.range.end, end)))];
            && Sorted(longer) && Collapsed(longer)
            && Pairs(longer) == Pairs(spans) + Tag(Span(ByteRange(last.range.end, end)), last.source)
  {
    var n := |spans| - 1;
    var init, last := spans[..n], spans[n];
    var t := last.(range := ByteRange(last.range.start, Max(last.range.end, end)));
    assert spans == init + [last];
    PairsConcat(init, [last]);
    PairsConcat(init, [t]);
    PairsOne(last);
    PairsOne(t);
    assert Span(t.range) == Span(last.range) + Span(ByteRange(last.range.end, end));
    TagUnion(Span(last.range), Span(ByteRange(last.range.end, end)), last.source);
    SortedConcat(init, [t], last.range.start);
    CollapsedReplaceLast(spans, t);
  }

  lemma CollapsedReplaceLast(spans: seq<Tagged>, t: Tagged)
    requires Collapsed(spans) && spans != []
    requires t.source == spans[|spans| - 1].source && t.range.start == spans[|spans| - 1].range.start
    ensures Collapsed(spans[..|spans| - 1] + [t])
  {
    var n := |spans| - 1;
    var c := spans[..n] + [t];
    forall i | 0 < i < |c| && c[i - 1].range.end == c[i].range.start ensures c[i - 1].source != c[i].source {
      assert c[i - 1] == spans[i - 1];
      assert spans[i - 1].range.end == spans[i].range.start;
    }
  }

  // ---------------------------------------------------------------- holes

  /** What is left of the holes `hs` when the bytes of `owned` are taken out. */
  function Punch(hs: seq<ByteRange>, owned: ByteRange): seq<ByteRange> {
    if hs == [] then []
    else Punch(hs[..|hs| - 1], owned) + PunchOne(hs[|hs| - 1], owned)
  }

  function PunchOne(h: ByteRange, owned: ByteRange): seq<ByteRange> {
    match h.Intersection(owned)
    case None => [h]
    case Some(q) =>
      (if h.start < q.start then [ByteRange(h.start, q.start)] else []) +
      (if q.end < h.end then [ByteRange(q.end, h.end)] else [])
  }

  /** Non-empty and disjoint, in any order. */
  ghost predicate Holes(hs: seq<ByteRange>) {
    && (forall i :: 0 <= i < |hs| ==> hs[i].start < hs[i].end)
    && (forall i, j :: 0 <= i < j < |hs| ==> Span(hs[i]) !! Span(hs[j]))
  }

  lemma PunchOneIs(h: ByteRange, owned: ByteRange)
    requires h.start < h.end
    ensures Holes(PunchOne(h, owned))
    ensures Bytes(PunchOne(h, owned)) == Span(h) - Span(owned)
  {
    match h.Intersection(owned)
    case None => BytesOne(h);
    case Some(q) =>
      var a := if h.start < q.start then [ByteRange(h.start, q.start)] else [];
      var b := if q.end < h.end then [ByteRange(q.end, h.end)] else [];
      BytesConcat(a, b);
      if a != [] { BytesOne(a[0]); }
      if b != [] { BytesOne(b[0]); }
  }

  lemma HolesConcat(a: seq<ByteRange>, b: seq<ByteRange>)
    requires Holes(a) && Holes(b) && Bytes(a) !! Bytes(b)
    ensures Holes(a + b)
  {
    var c := a + b;
    forall i | 0 <= i < |a| ensures Span(a[i]) <= Bytes(a) {
    }
    forall i | 0 <= i < |b| ensures Span(b[i]) <= Bytes(b) {
    }
    forall i, j | 0 <= i < j < |c| ensures Span(c[i]) !! Span(c[j]) {
      if j < |a| {
        assert c[i] == a[i] && c[j] == a[j];
      } else if i < |a| {
        assert c[i] == a[i] && c[j] == b[j - |a|];
      } else {
        assert c[i] == b[i - |a|] && c[j] == b[j - |a|];
      }
    }
  }

  lemma HolesInit(hs: seq<ByteRange>)
    requires Holes(hs) && hs != []
    ensures var n := |hs| - 1;
            && Holes(hs[..n]) && Bytes(hs[..n]) !! Span(hs[n])
            && Bytes(hs) == Bytes(hs[..n]) + Span(hs[n])
  {
    var n := |hs| - 1;
    BytesSplit(hs, n);
    assert hs[n..] == [hs[n]];
    BytesOne(hs[n]);
    forall x | x in Bytes(hs[..n]) ensures x !in Span(hs[n]) {
      var i :| 0 <= i < n && x in Span(hs[..n][i]);
      assert hs[..n][i] == hs[i];
    }
  }

  lemma {:induction false} PunchIs(hs: seq<ByteRange>, owned: ByteRange)
    requires Holes(hs)
    ensures Holes(Punch(hs, owned))
    ensures Bytes(Punch(hs, owned)) == Bytes(hs) - Span(owned)
  {
    if hs != [] {
      var n := |hs| - 1;
      HolesInit(hs);
      PunchIs(hs[..n], owned);
      PunchOneIs(hs[n], owned);
      BytesConcat(Punch(hs[..n], owned), PunchOne(hs[n], owned));
      HolesConcat(Punch(hs[..n], owned), PunchOne(hs[n], owned));
    }
  }

  /** The parts of `range` that no span owns. */
  method FindHoles(spans: seq<Tagged>, range: ByteRange) returns (holes: seq<ByteRange>)
    requires range.start < range.end
    ensures Holes(holes)
    ensures Bytes(holes) == Span(range) - Owned(Pairs(spans))
  {
    holes := [range];
    BytesOne(range);
    assert Owned(Pairs(spans[..0])) == {};
    var i := 0;
    while i < |spans|
      invariant 0 <= i <= |spans|
      invariant Holes(holes)
      invariant Bytes(holes) == Span(range) - Owned(Pairs(spans[..i]))
    {
      var next: seq<ByteRange> := [];
      for k := 0 to |holes|
        invariant next == Punch(holes[..k], spans[i].range)
      {
        assert holes[..k + 1][..k] == holes[..k];
        var q := holes[k].Intersection(spans[i].range);
        if q.Some? {
          var old_ := next;
          if holes[k].start < q.value.start {
            next := next + [ByteRange(holes[k].start, q.value.start)];
          }
          if q.value.end < holes[k].end {
            next := next + [ByteRange(q.value.end, holes[k].end)];
          }
          assert next == old_ + PunchOne(holes[k], spans[i].range);
        } else {
          next := next + [holes[k]];
        }
      }
      assert holes[..|holes|] == holes;
      PunchIs(holes, spans[i].range);
      OwnedPrefix(spans, i);
      holes := next;
      i := i + 1;
      if holes == [] {
        OwnedPrefixGrows(spans, i);
        assert Bytes(holes) == {};
        return;
      }
    }
    assert spans[..|spans|] == spans;
  }

  lemma OwnedPrefix(spans: seq<Tagged>, i: nat)
    requires i < |spans|
    ensures Owned(Pairs(spans[..i + 1])) == Owned(Pairs(spans[..i])) + Span(spans[i].range)
  {
    PairsPrefix(spans, i);
    OwnedUnion(Pairs(spans[..i]), Tag(Span(spans[i].range), spans[i].source));
    OwnedTag(Span(spans[i].range), spans[i].source);
  }

  lemma OwnedPrefixGrows(spans: seq<Tagged>, i: nat)
    requires i <= |spans|
    ensures Owned(Pairs(spans[..i])) <= Owned(Pairs(spans))
  {
    PairsConcat(spans[..i], spans[i..]);
    assert spans[..i] + spans[i..] == spans;
    OwnedUnion(Pairs(spans[..i]), Pairs(spans[i..]));
  }

  // ---------------------------------------------------------------- writers

  ghost predicate Mixed(history: seq<Tagged>) {
    exists i, j :: 0 <= i < j < |history| && history[i].source != history[j].source
  }

  lemma WritersAfter(history: seq<Tagged>, w: Tagged)
    ensures Mixed(history + [w]) <==> Mixed(history) || (history != [] && history[0].source != w.source)
  {
    var h := history + [w];
    if Mixed(history) {
      var i, j :| 0 <= i < j < |history| && history[i].source != history[j].source;
      assert h[i] == history[i] && h[j] == history[j];
    }
    if history != [] && history[0].source != w.source {
      assert h[0] == history[0] && h[|history|] == w;
    }
    if !Mixed(history) && (history == [] || history[0].source == w.source) {
      forall k | 0 <= k < |h| ensures h[k].source == w.source {
        if 0 < k < |history| { assert !(history[0].source != history[k].source); }
        assert k < |history| ==> h[k] == history[k];
      }
    }
  }

  lemma {:induction false} OneSource(history: seq<Tagged>, s: Source)
    requires forall i :: 0 <= i < |history| ==> history[i].source == s
    ensures forall p :: p in Attributed(history) ==> p.1 == s
  {
    if history != [] { OneSource(history[..|history| - 1], s); }
  }

  /** With a single writer, a byte is foreign to everybody else. */
  lemma SingleWriter(history: seq<Tagged>, range: ByteRange, source: Source)
    requires !Mixed(history)
    ensures Foreign(history, range, source) == {} <==>
              history == [] || history[0].source == source || Span(range) !! Owned(Attributed(history))
  {
    if history != [] {
      var s := history[0].source;
      forall i | 0 <= i < |history| ensures history[i].source == s {
        assert i > 0 ==> !(history[0].source != history[i].source);
      }
      OneSource(history, s);
      var a := Attributed(history);
      if s != source {
        forall x | x in Span(range) && x in Owned(a) ensures x in Foreign(history, range, source) {
          var p :| p in a && p.0 == x;
          assert p.1 == s;
        }
      }
    }
  }

  lemma BeyondLast(spans: seq<Tagged>, range: ByteRange)
    requires Sorted(spans) && spans != []
    requires spans[|spans| - 1].range.start <= range.start <= spans[|spans| - 1].range.end
    ensures Span(range) - Owned(Pairs(spans)) == Span(ByteRange(spans[|spans| - 1].range.end, range.end))
  {
    var n := |spans| - 1;
    OwnedHas(spans, n);
    forall x | x in Owned(Pairs(spans)) ensures x < spans[n].range.end {
      var p :| p in Pairs(spans) && p.0 == x;
      var i :| 0 <= i < |spans| && p.0 in Span(spans[i].range) && p.1 == spans[i].source;
      assert i < n ==> spans[i].range.end <= spans[n].range.start;
    }
  }

  lemma HoleIsFree(holes: seq<ByteRange>, k: nat, before: set<(int, Source)>, source: Source)
    requires Holes(holes) && k < |holes| && Bytes(holes) !! Owned(before)
    ensures Span(holes[k]) !! Owned(before + Tag(Bytes(holes[..k]), source))
    ensures Tag(Bytes(holes[..k + 1]), source) == Tag(Bytes(holes[..k]), source) + Tag(Span(holes[k]), source)
  {
    OwnedUnion(before, Tag(Bytes(holes[..k]), source));
    OwnedTag(Bytes(holes[..k]), source);
    assert holes[..k + 1] == holes[..k] + [holes[k]];
    BytesConcat(holes[..k], [holes[k]]);
    BytesOne(holes[k]);
    TagUnion(Bytes(holes[..k]), Span(holes[k]), source);
    assert Span(holes[k]) <= Bytes(holes);
    forall x | x in Bytes(holes[..k]) ensures x !in Span(holes[k]) {
      var i :| 0 <= i < k && x in Span(holes[..k][i]);
      assert holes[..k][i] == holes[i];
    }
  }

  lemma ForeignStep(pairs: set<(int, Source)>, t: Tagged, range: ByteRange, source: Source)
    ensures ForeignOf(pairs + Tag(Span(t.range), t.source), range, source) ==
            ForeignOf(pairs, range, source) + (if t.source == source then {} else Span(t.range) * Span(range))
  {
    var q := pairs + Tag(Span(t.range), t.source);
    forall x | x in ForeignOf(pairs, range, source) ensures x in ForeignOf(q, range, source) {
      var p :| p in pairs && p.0 in Span(range) && p.1 != source && p.0 == x;
      assert p in q;
    }
    if t.source != source {
      forall x | x in Span(t.range) * Span(range) ensures x in ForeignOf(q, range, source) {
        assert (x, t.source) in q;
      }
    }
  }

  /** Spans that start at or after the query's end add nothing. */
  lemma {:induction false} NothingForeignLater(spans: seq<Tagged>, i: nat, range: ByteRange, source: Source)
    requires Sorted(spans) && 0 < i <= |spans| && spans[i - 1].range.start >= range.end
    ensures ForeignOf(Pairs(spans[..i]), range, source) == ForeignOf(Pairs(spans), range, source)
    decreases |spans| - i
  {
    if i == |spans| {
      assert spans[..i] == spans;
    } else {
      assert spans[i - 1].range.end <= spans[i].range.start;
      PairsPrefix(spans, i);
      ForeignStep(Pairs(spans[..i]), spans[i], range, source);
      NothingForeignLater(spans, i + 1, range, source);
    }
  }

  // ---------------------------------------------------------------- the class

  class ArtifactProvenance {
    var spans: seq<Tagged>
    var firstWriter: Option<Source>
    var multiWriter: bool
    ghost var history: seq<Tagged>

    ghost predicate Valid()
      reads this
    {
      && Sorted(spans) && Collapsed(spans)
      && Pairs(spans) == Attributed(history)
      && (forall i :: 0 <= i < |history| ==> !history[i].range.IsEmpty())
      && firstWriter == (if history == [] then None else Some(history[0].source))
      && (multiWriter <==> Mixed(history))
    }

    constructor ()
      ensures Valid() && history == []
    {
      spans, firstWriter, multiWriter, history := [], None, false, [];
    }

    /** Records a write; an earlier writer of the same bytes keeps them. */
    method Record(range: ByteRange, source: Source)
      requires Valid()
      modifies this
      ensures Valid()
      ensures history == old(history) + (if range.IsEmpty() then [] else [Tagged(range, source)])
      ensures Pairs(spans) == old(Pairs(spans)) + Tag(Span(range) - Owned(old(Pairs(spans))), source)
    {
      if range.IsEmpty() {
        assert Span(range) == {};
        return;
      }
      ghost var w := Tagged(range, source);
      WritersAfter(history, w);
      match firstWriter {
        case None => firstWriter := Some(source);
        case Some(existing) => if existing != source { multiWriter := true; }
      }
      assert (history + [w])[..|history|] == history;
      history := history + [w];
      Attribute(range, source);
    }

    /** Fast path, first span, or hole by hole. */
    method Attribute(range: ByteRange, source: Source)
      requires Sorted(spans) && Collapsed(spans) && range.start < range.end
      modifies this`spans
      ensures Sorted(spans) && Collapsed(spans)
      ensures Pairs(spans) == old(Pairs(spans)) + Tag(Span(range) - Owned(old(Pairs(spans))), source)
    {
      var n := |spans| - 1;
      if spans != [] && spans[n].source == source && spans[n].range.start <= range.start <= spans[n].range.end {
        ExtendLast(spans, range.end);
        BeyondLast(spans, range);
        spans := spans[..n] + [spans[n].(range := ByteRange(spans[n].range.start, Max(spans[n].range.end, range.end)))];
        return;
      }
      if spans == [] {
        PairsOne(Tagged(range, source));
        assert Owned(Pairs(spans)) == {};
        spans := [Tagged(range, source)];
        return;
      }
      var holes := FindHoles(spans, range);
      FillHoles(holes, source);
    }

    method FillHoles(holes: seq<ByteRange>, source: Source)
      requires Sorted(spans) && Collapsed(spans) && Holes(holes) && Bytes(holes) !! Owned(Pairs(spans))
      modifies this`spans
      ensures Sorted(spans) && Collapsed(spans)
      ensures Pairs(spans) == old(Pairs(spans)) + Tag(Bytes(holes), source)
    {
      ghost var before := Pairs(spans);
      for k := 0 to |holes|
        invariant Sorted(spans) && Collapsed(spans)
        invariant Pairs(spans) == before + Tag(Bytes(holes[..k]), source)
      {
        HoleIsFree(holes, k, before, source);
        InsertSpan(holes[k], source);
      }
      assert holes[..|holes|] == holes;
    }

    method InsertSpan(range: ByteRange, source: Source)
      requires Sorted(spans) && range.start < range.end && Span(range) !! Owned(Pairs(spans))
      modifies this`spans
      ensures Sorted(spans) && Collapsed(spans)
      ensures Pairs(spans) == old(Pairs(spans)) + Tag(Span(range), source)
    {
      PushSortedIs(spans, Tagged(range, source));
      spans := PushSorted(spans, Tagged(range, source));
      spans := Collapse(spans);
    }

    /** Spans of `range` that another source wrote first. */
    method ForeignSpans(range: ByteRange, source: Source) returns (out: seq<ByteRange>)
      requires Valid()
      ensures Bytes(out) == Foreign(history, range, source) <==>
                multiWriter || firstWriter == None || firstWriter == Some(source) || Span(range) !! Owned(Attributed(history))
      ensures !multiWriter ==> out == []
    {
      if !multiWriter {
        SingleWriter(history, range, source);
        assert Bytes([]) == {};
        return [];
      }
      out := ForeignIn(spans, range, source);
    }
  }

  /** The bytes of `range` whose first writer is somebody else. */
  function Foreign(history: seq<Tagged>, range: ByteRange, source: Source): set<int> {
    ForeignOf(Attributed(history), range, source)
  }

  function ForeignOf(pairs: set<(int, Source)>, range: ByteRange, source: Source): set<int> {
    set p | p in pairs && p.0 in Span(range) && p.1 != source :: p.0
  }

  method ForeignIn(spans: seq<Tagged>, range: ByteRange, source: Source) returns (out: seq<ByteRange>)
    requires Sorted(spans)
    ensures Bytes(out) == ForeignOf(Pairs(spans), range, source)
  {
    out := [];
    assert ForeignOf(Pairs(spans[..0]), range, source) == {};
    for i := 0 to |spans|
      invariant Bytes(out) == ForeignOf(Pairs(spans[..i]), range, source)
    {
      var r := spans[i].range;
      PairsPrefix(spans, i);
      ForeignStep(Pairs(spans[..i]), spans[i], range, source);
      if spans[i].source == source {
        continue;
      }
      var q := r.Intersection(range);
      if q.Some? {
        BytesConcat(out, [q.value]);
        BytesOne(q.value);
        out := out + [q.value];
      }
      if r.start >= range.end {
        NothingForeignLater(spans, i + 1, range, source);
        return;
      }
    }
    assert spans[..|spans|] == spans;
  }
}
