/** Half-open byte ranges and the normalized set of them that every other
    component is built on.  A set is a sorted sequence of ranges; its meaning is
    the plain set of byte offsets `Bytes(s)`. */
module Ranges {
  import opened Basics

  /** The range `[start, end)`; empty when `start >= end`. */
  datatype ByteRange = ByteRange(start: nat, end: nat) {
    predicate IsEmpty() { start >= end }

    function Len(): nat
      requires start <= end
    {
      end - start
    }

    predicate Contains(off: int) { start <= off < end }

    predicate Intersects(o: ByteRange) { start < o.end && o.start < end }

    function Intersection(o: ByteRange): Option<ByteRange> {
      var s := Max(start, o.start);
      var e := Min(end, o.end);
      if s < e then Some(ByteRange(s, e)) else None
    }

    function TruncatedTo(len: nat): ByteRange { ByteRange(start, Min(end, start + len)) }
  }

  /** The bytes a range stands for. */
  function Span(r: ByteRange): (b: set<int>) { set x: int | r.start <= x < r.end && r.Contains(x) }

  /** The bytes `[0, n)`. */
  function Upto(n: nat): set<int> { Span(ByteRange(0, n)) }

  /** The bytes a list of ranges stands for, in any order and with overlaps. */
  function Bytes(s: seq<ByteRange>): (b: set<int>) {
    set i: int, x: int | 0 <= i < |s| && x in Span(s[i]) :: x
  }

  /** Sorted, disjoint, non-adjacent and without empty ranges. */
  predicate Normalized(s: seq<ByteRange>) {
    && (forall i :: 0 <= i < |s| ==> s[i].start < s[i].end)
    && (forall i, j :: 0 <= i < j < |s| ==> s[i].end < s[j].start)
  }

  function TotalLen(s: seq<ByteRange>): nat {
    if s == [] then 0
    else TotalLen(s[..|s| - 1]) + (if s[|s| - 1].IsEmpty() then 0 else s[|s| - 1].Len())
  }

  // ---------------------------------------------------------------- binary search

  /** `partition_point(|x| x.end < t)`. */
  function FirstEndingAt(s: seq<ByteRange>, t: nat): (k: nat)
    ensures k <= |s|
    ensures forall i :: 0 <= i < k ==> s[i].end < t
    ensures k < |s| ==> t <= s[k].end
  {
    if s == [] || s[0].end >= t then 0 else 1 + FirstEndingAt(s[1..], t)
  }

  /** `partition_point(|x| x.start < t)`. */
  function FirstStartingAt(s: seq<ByteRange>, t: nat): (k: nat)
    ensures k <= |s|
    ensures forall i :: 0 <= i < k ==> s[i].start < t
    ensures k < |s| ==> t <= s[k].start
  {
    if s == [] || s[0].start >= t then 0 else 1 + FirstStartingAt(s[1..], t)
  }

  // ---------------------------------------------------------------- queries

  predicate Contains(s: seq<ByteRange>, off: nat) {
    var i := FirstEndingAt(s, off + 1);
    i < |s| && s[i].Contains(off)
  }

  predicate ContainsRange(s: seq<ByteRange>, r: ByteRange) {
    r.IsEmpty() ||
    var i := FirstEndingAt(s, r.start + 1);
    i < |s| && s[i].start <= r.start && s[i].end >= r.end
  }

  /** The first stretch of `[from, limit)` that is not covered. */
  function FirstGap(s: seq<ByteRange>, from: nat, limit: nat): Option<ByteRange> {
    if from >= limit then None
    else
      var i := FirstEndingAt(s, from + 1);
      if i == |s| then Some(ByteRange(from, limit))
      else if s[i].start > from then Some(ByteRange(from, Min(s[i].start, limit)))
      else if s[i].end >= limit then None
      else Some(ByteRange(s[i].end, if i + 1 < |s| then Min(s[i + 1].start, limit) else limit))
  }

  predicate IsComplete(s: seq<ByteRange>, total: nat) {
    if |s| == 1 then s[0].start == 0 && s[0].end >= total
    else s == [] && total == 0
  }

  function ContiguousPrefix(s: seq<ByteRange>): nat {
    if s != [] && s[0].start == 0 then s[0].end else 0
  }

  // ---------------------------------------------------------------- exactness of the queries

  /** Between two neighbouring ranges there is no byte of the set. */
  lemma NothingBetween(s: seq<ByteRange>, i: nat, x: int)
    requires Normalized(s) && i <= |s|
    requires i > 0 ==> s[i - 1].end <= x
    requires i < |s| ==> x < s[i].start
    ensures x !in Bytes(s)
  {
    forall j | 0 <= j < |s| ensures x !in Span(s[j]) {
      assert j < i - 1 ==> s[j].end < s[i - 1].start;
      assert i < j ==> s[i].end < s[j].start;
    }
  }

  lemma ContainsExact(s: seq<ByteRange>, off: nat)
    requires Normalized(s)
    ensures Contains(s, off) <==> off in Bytes(s)
  {
    var i := FirstEndingAt(s, off + 1);
    if i < |s| && s[i].Contains(off) {
      assert off in Span(s[i]);
    } else {
      NothingBetween(s, i, off);
    }
  }

  lemma ContainsRangeExact(s: seq<ByteRange>, r: ByteRange)
    requires Normalized(s)
    ensures ContainsRange(s, r) <==> Span(r) <= Bytes(s)
  {
    var i := FirstEndingAt(s, r.start + 1);
    if !r.IsEmpty() {
      assert r.start in Span(r);
      ContainsExact(s, r.start);
      if i < |s| && s[i].start <= r.start {
        NothingBetween(s, i + 1, s[i].end);
        assert s[i].end < r.end ==> s[i].end in Span(r);
        assert forall x :: x in Span(s[i]) ==> x in Bytes(s);
      }
    }
  }

  /** What `FirstGap` must return, said of a plain set of offsets. */
  ghost predicate IsFirstGap(g: Option<ByteRange>, bytes: set<int>, from: nat, limit: nat) {
    match g
    case None => Span(ByteRange(from, limit)) <= bytes
    case Some(r) =>
      && from <= r.start < r.end <= limit
      && Span(ByteRange(from, r.start)) <= bytes
      && Span(r) !! bytes
      && (r.end == limit || r.end in bytes)
  }

  lemma FirstGapExact(s: seq<ByteRange>, from: nat, limit: nat)
    requires Normalized(s)
    ensures IsFirstGap(FirstGap(s, from, limit), Bytes(s), from, limit)
  {
    if from < limit {
      var i := FirstEndingAt(s, from + 1);
      if i == |s| || s[i].start > from {
        forall x | from <= x && (i < |s| ==> x < s[i].start) ensures x !in Bytes(s) {
          NothingBetween(s, i, x);
        }
        assert i < |s| ==> s[i].start in Span(s[i]);
      } else {
        assert forall x :: x in Span(s[i]) ==> x in Bytes(s);
        forall x | s[i].end <= x && (i + 1 < |s| ==> x < s[i + 1].start) ensures x !in Bytes(s) {
          NothingBetween(s, i + 1, x);
        }
        assert i + 1 < |s| ==> s[i + 1].start in Span(s[i + 1]);
      }
    }
  }

  /** The test demands more than that every byte of `[0, total)` is there: nothing may
      lie beyond the first hole. */
  lemma IsCompleteIff(s: seq<ByteRange>, total: nat)
    requires Normalized(s)
    ensures IsComplete(s, total) <==> Upto(total) <= Bytes(s) && Bytes(s) == Upto(ContiguousPrefix(s))
  {
    ContiguousPrefixExact(s);
    UptoWithin(total, ContiguousPrefix(s));
    if s != [] {
      FirstRangeOf(s);
      if |s| == 1 {
        BytesOne(s[0]);
        assert s == [s[0]];
      } else {
        assert s[1].start in Span(s[1]) && s[1].start in Bytes(s);
        assert s[0].start in Upto(ContiguousPrefix(s)) || s[0].start > 0;
      }
    }
  }

  lemma UptoWithin(a: nat, b: nat)
    ensures Upto(a) <= Upto(b) <==> a <= b
  {
    assert a <= b || b in Upto(a);
  }

  /** In particular it is exact for every set inside `[0, total)`, which is where the
      scheduler keeps it. */
  lemma IsCompleteExact(s: seq<ByteRange>, total: nat)
    requires Normalized(s) && Bytes(s) <= Upto(total)
    ensures IsComplete(s, total) <==> Bytes(s) == Upto(total)
  {
    IsCompleteIff(s, total);
    ContiguousPrefixExact(s);
    UptoWithin(ContiguousPrefix(s), total);
    UptoWithin(total, ContiguousPrefix(s));
  }

  /** A stray range past the end hides a complete file. */
  lemma IsCompleteMissesStrayRanges()
    ensures var s := [ByteRange(0, 4), ByteRange(6, 8)];
            Normalized(s) && Upto(4) <= Bytes(s) && !IsComplete(s, 4)
  {
    var s := [ByteRange(0, 4), ByteRange(6, 8)];
    assert forall x :: x in Span(s[0]) ==> x in Bytes(s);
  }

  lemma ContiguousPrefixExact(s: seq<ByteRange>)
    requires Normalized(s)
    ensures Upto(ContiguousPrefix(s)) <= Bytes(s)
    ensures ContiguousPrefix(s) !in Bytes(s)
  {
    if s != [] && s[0].start == 0 {
      NothingBetween(s, 1, s[0].end);
      assert forall x :: x in Span(s[0]) ==> x in Bytes(s);
    } else {
      NothingBetween(s, 0, 0);
    }
  }

  // ---------------------------------------------------------------- canonicity

  /** Two normalized sets with the same bytes are the same sequence. */
  lemma {:induction false} Canonical(a: seq<ByteRange>, b: seq<ByteRange>)
    requires Normalized(a) && Normalized(b) && Bytes(a) == Bytes(b)
    ensures a == b
    decreases |a|
  {
    assert a != [] ==> a[0].start in Span(a[0]) && a[0].start in Bytes(a);
    assert b != [] ==> b[0].start in Span(b[0]) && b[0].start in Bytes(b);
    if a != [] {
      FirstGapExact(a, 0, a[0].start + 1);
      SameHead(a, b);
      TailBytes(a);
      TailBytes(b);
      Canonical(a[1..], b[1..]);
    }
  }

  lemma FirstRangeOf(s: seq<ByteRange>)
    requires Normalized(s) && s != []
    ensures s[0].start in Bytes(s) && s[0].end !in Bytes(s)
    ensures forall x :: x in Bytes(s) ==> s[0].start <= x
    ensures Span(s[0]) <= Bytes(s)
  {
    assert s[0].start in Span(s[0]);
    NothingBetween(s, 1, s[0].end);
    forall x | x in Bytes(s) ensures s[0].start <= x {
      var j :| 0 <= j < |s| && x in Span(s[j]);
      assert j > 0 ==> s[0].end < s[j].start;
    }
  }

  lemma SameHead(a: seq<ByteRange>, b: seq<ByteRange>)
    requires Normalized(a) && Normalized(b) && a != [] && b != [] && Bytes(a) == Bytes(b)
    ensures a[0] == b[0]
  {
    FirstRangeOf(a);
    FirstRangeOf(b);
    var x, y := a[0].end, b[0].end;
    assert x in Span(b[0]) || y <= x;
    assert y in Span(a[0]) || x <= y;
  }

  lemma TailBytes(s: seq<ByteRange>)
    requires Normalized(s) && s != []
    ensures Normalized(s[1..])
    ensures Bytes(s[1..]) == Bytes(s) - Span(s[0])
  {
    var t := s[1..];
    forall x | x in Bytes(s) - Span(s[0]) ensures x in Bytes(t) {
      var j :| 0 <= j < |s| && x in Span(s[j]);
      assert j > 0 && t[j - 1] == s[j];
    }
    forall x | x in Bytes(t) ensures x in Bytes(s) - Span(s[0]) {
      var j :| 0 <= j < |t| && x in Span(t[j]);
      assert t[j] == s[j + 1] && s[0].end < s[j + 1].start;
    }
  }

  // ---------------------------------------------------------------- byte counts

  lemma SpanGrow(start: nat, end: nat)
    requires start <= end
    ensures Span(ByteRange(start, end + 1)) == Span(ByteRange(start, end)) + {end}
    ensures end !in Span(ByteRange(start, end))
  {}

  lemma {:induction false} SpanSizeFrom(start: nat, n: nat)
    ensures |Span(ByteRange(start, start + n))| == n
  {
    if n == 0 {
      assert Span(ByteRange(start, start)) == {};
    } else {
      SpanSizeFrom(start, n - 1);
      SpanGrow(start, start + n - 1);
    }
  }

  lemma SpanSize(r: ByteRange)
    requires r.start <= r.end
    ensures |Span(r)| == r.Len()
  {
    SpanSizeFrom(r.start, r.end - r.start);
  }

  lemma BytesSplit(s: seq<ByteRange>, k: nat)
    requires k <= |s|
    ensures Bytes(s) == Bytes(s[..k]) + Bytes(s[k..])
  {
    forall x | x in Bytes(s) ensures x in Bytes(s[..k]) + Bytes(s[k..]) {
      var j :| 0 <= j < |s| && x in Span(s[j]);
      if j < k { assert s[..k][j] == s[j]; } else { assert s[k..][j - k] == s[j]; }
    }
    forall x | x in Bytes(s[..k]) ensures x in Bytes(s) {
      var j :| 0 <= j < k && x in Span(s[..k][j]);
      assert s[j] == s[..k][j];
    }
    forall x | x in Bytes(s[k..]) ensures x in Bytes(s) {
      var j :| 0 <= j < |s| - k && x in Span(s[k..][j]);
      assert s[k + j] == s[k..][j];
    }
  }

  lemma BytesOne(r: ByteRange)
    ensures Bytes([r]) == Span(r)
  {
    forall x | x in Span(r) ensures x in Bytes([r]) { assert [r][0] == r; }
  }

  lemma BytesConcat(a: seq<ByteRange>, b: seq<ByteRange>)
    ensures Bytes(a + b) == Bytes(a) + Bytes(b)
  {
    BytesSplit(a + b, |a|);
    assert (a + b)[..|a|] == a && (a + b)[|a|..] == b;
  }

  /** The cached counter is the cardinality of the set it stands for. */
  lemma {:induction false} TotalLenIsCardinality(s: seq<ByteRange>)
    requires Normalized(s)
    ensures |Bytes(s)| == TotalLen(s)
  {
    if s == [] {
      assert Bytes(s) == {};
    } else {
      var n := |s| - 1;
      var init, last := s[..n], s[n];
      assert s[n..] == [last];
      TotalLenIsCardinality(init);
      BytesSplit(s, n);
      BytesOne(last);
      SpanSize(last);
      forall x | x in Bytes(init) ensures x !in Span(last) {
        var j :| 0 <= j < n && x in Span(init[j]);
        assert s[j].end < s[n].start;
      }
    }
  }
}
