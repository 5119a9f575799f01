/** The mutable range set: insert and remove splice the vector in place and keep
    the cached byte count.  Every operation is stated on the plain set of bytes. */
module RangeSets {
  import opened Basics
  import opened Ranges

  // ---------------------------------------------------------------- splicing

  lemma TotalLenConcat(a: seq<ByteRange>, b: seq<ByteRange>)
    ensures TotalLen(a + b) == TotalLen(a) + TotalLen(b)
    decreases |b|
  {
    if b == [] {
      assert a + b == a;
    } else {
      var n := |b| - 1;
      assert (a + b)[..|a + b| - 1] == a + b[..n];
      TotalLenConcat(a, b[..n]);
    }
  }

  lemma TotalLenSplice(s: seq<ByteRange>, lo: nat, hi: nat, mid: seq<ByteRange>)
    requires lo <= hi <= |s|
    ensures TotalLen(s[..lo] + mid + s[hi..]) == TotalLen(s) - TotalLen(s[lo..hi]) + TotalLen(mid)
  {
    assert s == s[..lo] + s[lo..hi] + s[hi..];
    TotalLenConcat(s[..lo] + s[lo..hi], s[hi..]);
    TotalLenConcat(s[..lo], s[lo..hi]);
    TotalLenConcat(s[..lo] + mid, s[hi..]);
    TotalLenConcat(s[..lo], mid);
  }

  lemma BytesSplice(s: seq<ByteRange>, lo: nat, hi: nat, mid: seq<ByteRange>)
    requires lo <= hi <= |s|
    ensures Bytes(s[..lo] + mid + s[hi..]) == Bytes(s[..lo]) + Bytes(mid) + Bytes(s[hi..])
    ensures Bytes(s) == Bytes(s[..lo]) + Bytes(s[lo..hi]) + Bytes(s[hi..])
  {
    BytesConcat(s[..lo] + mid, s[hi..]);
    BytesConcat(s[..lo], mid);
    assert s == s[..lo] + s[lo..hi] + s[hi..];
    BytesConcat(s[..lo] + s[lo..hi], s[hi..]);
    BytesConcat(s[..lo], s[lo..hi]);
  }

  /** The range that `Insert` leaves in place of `s[lo..hi]`. */
  function Merged(s: seq<ByteRange>, r: ByteRange, lo: nat, hi: nat): ByteRange
    requires lo <= hi <= |s|
  {
    if lo == hi then r else ByteRange(Min(r.start, s[lo].start), Max(r.end, s[hi - 1].end))
  }

  lemma MergedBytes(s: seq<ByteRange>, r: ByteRange, lo: nat, hi: nat)
    requires Normalized(s) && !r.IsEmpty() && lo <= hi <= |s|
    requires forall i :: lo <= i < hi ==> r.start <= s[i].end && s[i].start <= r.end
    ensures Span(Merged(s, r, lo, hi)) == Bytes(s[lo..hi]) + Span(r)
  {
    var m := Merged(s, r, lo, hi);
    forall x | x in Span(m) ensures x in Bytes(s[lo..hi]) + Span(r) {
      if x < r.start {
        assert s[lo..hi][0] == s[lo] && x in Span(s[lo]);
      } else if x >= r.end {
        assert s[lo..hi][hi - lo - 1] == s[hi - 1] && x in Span(s[hi - 1]);
      }
    }
    forall x | x in Bytes(s[lo..hi]) ensures x in Span(m) {
      var j :| 0 <= j < hi - lo && x in Span(s[lo..hi][j]);
      assert s[lo..hi][j] == s[lo + j];
      assert j == 0 || s[lo].end < s[lo + j].start;
      assert lo + j == hi - 1 || s[lo + j].end < s[hi - 1].start;
    }
  }

  /** Every range of `s` ends before `t`. */
  predicate EndsBefore(s: seq<ByteRange>, t: int) { forall i :: 0 <= i < |s| ==> s[i].end < t }

  /** Every range of `s` starts at or after `t`. */
  predicate StartsFrom(s: seq<ByteRange>, t: int) { forall i :: 0 <= i < |s| ==> t <= s[i].start }

  lemma NormalizedConcat(a: seq<ByteRange>, b: seq<ByteRange>, t: int)
    requires Normalized(a) && Normalized(b) && EndsBefore(a, t) && StartsFrom(b, t)
    ensures Normalized(a + b)
  {
    var c := a + b;
    forall i, j | 0 <= i < j < |c| ensures c[i].end < c[j].start {
      if j < |a| {
        assert c[i] == a[i] && c[j] == a[j];
      } else if i < |a| {
        assert c[i] == a[i] && c[j] == b[j - |a|];
      } else {
        assert c[i] == b[i - |a|] && c[j] == b[j - |a|];
      }
    }
  }

  lemma SliceNormalized(s: seq<ByteRange>, lo: nat, hi: nat)
    requires Normalized(s) && lo <= hi <= |s|
    ensures Normalized(s[lo..hi])
  {
    var c := s[lo..hi];
    forall i, j | 0 <= i < j < |c| ensures c[i].end < c[j].start {
      assert c[i] == s[lo + i] && c[j] == s[lo + j];
    }
  }

  /** The ranges `[lo, hi)` are those that touch `r` (`slack` 1) or overlap it (`slack` 0). */
  lemma Neighbours(s: seq<ByteRange>, r: ByteRange, slack: nat)
    requires Normalized(s) && !r.IsEmpty() && slack <= 1
    ensures var lo, hi := FirstEndingAt(s, r.start + 1 - slack), FirstStartingAt(s, r.end + slack);
            && (forall i :: lo <= i < |s| ==> r.start + 1 - slack <= s[i].end)
            && (forall i :: 0 <= i < lo ==> s[i].end < r.start + 1 - slack)
            && (forall i :: 0 <= i < hi ==> s[i].start < r.end + slack)
            && (forall i :: hi <= i < |s| ==> r.end + slack <= s[i].start)
            && (slack == 1 ==> lo <= hi)
  {
    var lo, hi := FirstEndingAt(s, r.start + 1 - slack), FirstStartingAt(s, r.end + slack);
    forall i | lo <= i < |s| ensures r.start + 1 - slack <= s[i].end {
      assert lo < i ==> s[lo].end < s[i].start;
    }
    forall i | hi <= i < |s| ensures r.end + slack <= s[i].start {
      assert hi < i ==> s[hi].end < s[i].start;
    }
  }

  lemma InsertSpliceNormalized(s: seq<ByteRange>, r: ByteRange, lo: nat, hi: nat)
    requires Normalized(s) && !r.IsEmpty() && lo <= hi <= |s|
    requires forall i :: 0 <= i < lo ==> s[i].end < r.start
    requires forall i :: hi <= i < |s| ==> r.end < s[i].start
    ensures Normalized(s[..lo] + [Merged(s, r, lo, hi)] + s[hi..])
  {
    var m := Merged(s, r, lo, hi);
    SliceNormalized(s, 0, lo);
    SliceNormalized(s, hi, |s|);
    assert s[0..lo] == s[..lo] && s[hi..|s|] == s[hi..];
    NormalizedConcat(s[..lo], [m], m.start);
    NormalizedConcat(s[..lo] + [m], s[hi..], m.end + 1);
  }

  lemma InsertSpliceBytes(s: seq<ByteRange>, r: ByteRange, lo: nat, hi: nat)
    requires Normalized(s) && !r.IsEmpty() && lo <= hi <= |s|
    requires forall i :: lo <= i < hi ==> r.start <= s[i].end && s[i].start <= r.end
    ensures Bytes(s[..lo] + [Merged(s, r, lo, hi)] + s[hi..]) == Bytes(s) + Span(r)
  {
    var m := Merged(s, r, lo, hi);
    BytesSplice(s, lo, hi, [m]);
    BytesOne(m);
    MergedBytes(s, r, lo, hi);
  }

  lemma InsertSpliceLen(s: seq<ByteRange>, lo: nat, hi: nat, m: ByteRange)
    requires lo <= hi <= |s| && !m.IsEmpty()
    ensures TotalLen(s[..lo] + [m] + s[hi..]) == TotalLen(s) - TotalLen(s[lo..hi]) + m.Len()
  {
    TotalLenSplice(s, lo, hi, [m]);
    assert TotalLen([m]) == m.Len();
  }

  lemma InsertSplice(s: seq<ByteRange>, r: ByteRange, lo: nat, hi: nat, s': seq<ByteRange>)
    requires Normalized(s) && !r.IsEmpty()
    requires lo == FirstEndingAt(s, r.start) && hi == FirstStartingAt(s, r.end + 1)
    requires lo <= hi ==> s' == s[..lo] + [Merged(s, r, lo, hi)] + s[hi..]
    ensures lo <= hi && !Merged(s, r, lo, hi).IsEmpty()
    ensures Normalized(s') && Bytes(s') == Bytes(s) + Span(r)
    ensures TotalLen(s') == TotalLen(s) - TotalLen(s[lo..hi]) + Merged(s, r, lo, hi).Len()
  {
    Neighbours(s, r, 1);
    InsertSpliceNormalized(s, r, lo, hi);
    InsertSpliceBytes(s, r, lo, hi);
    InsertSpliceLen(s, lo, hi, Merged(s, r, lo, hi));
  }

  /** Puts `r` in at its cut points: one splice, and the counter with it. */
  method SpliceIn(s: seq<ByteRange>, r: ByteRange, lo: nat, hi: nat, covered: nat)
    returns (s': seq<ByteRange>, covered': nat)
    requires Normalized(s) && !r.IsEmpty() && covered == TotalLen(s)
    requires lo == FirstEndingAt(s, r.start) && hi == FirstStartingAt(s, r.end + 1)
    ensures Normalized(s') && Bytes(s') == Bytes(s) + Span(r) && covered' == TotalLen(s')
  {
    CutPoints(s, r, lo, hi);
    if lo == hi {
      s', covered' := s[..lo] + [r] + s[lo..], covered + r.Len();
      InsertNew(s, r, lo, s');
    } else {
      var removed := TotalLen(s[lo..hi]);
      var merged := Merged(s, r, lo, hi);
      s' := s[..lo] + [merged] + s[hi..];
      InsertSplice(s, r, lo, hi, s');
      covered' := covered - removed + merged.Len();
    }
  }

  lemma CutPoints(s: seq<ByteRange>, r: ByteRange, lo: nat, hi: nat)
    requires Normalized(s) && !r.IsEmpty()
    requires lo == FirstEndingAt(s, r.start) && hi == FirstStartingAt(s, r.end + 1)
    ensures lo <= hi && TotalLen(s[lo..hi]) <= TotalLen(s)
  {
    Neighbours(s, r, 1);
    TotalLenSplice(s, lo, hi, []);
  }

  lemma InsertNew(s: seq<ByteRange>, r: ByteRange, lo: nat, s': seq<ByteRange>)
    requires Normalized(s) && !r.IsEmpty()
    requires lo == FirstEndingAt(s, r.start) && lo == FirstStartingAt(s, r.end + 1) && s' == s[..lo] + [r] + s[lo..]
    ensures Normalized(s') && Bytes(s') == Bytes(s) + Span(r) && TotalLen(s') == TotalLen(s) + r.Len()
  {
    InsertSplice(s, r, lo, lo, s');
    assert s[lo..lo] == [];
  }

  /** What `Remove` leaves in place of `s[lo..hi]`. */
  function Leftovers(s: seq<ByteRange>, r: ByteRange, lo: nat, hi: nat): seq<ByteRange>
    requires lo < hi <= |s|
  {
    (if s[lo].start < r.start then [ByteRange(s[lo].start, r.start)] else []) +
    (if s[hi - 1].end > r.end then [ByteRange(r.end, s[hi - 1].end)] else [])
  }

  method CutEnds(s: seq<ByteRange>, r: ByteRange, lo: nat, hi: nat) returns (replacement: seq<ByteRange>)
    requires lo < hi <= |s|
    ensures replacement == Leftovers(s, r, lo, hi)
  {
    replacement := [];
    if s[lo].start < r.start {
      replacement := replacement + [ByteRange(s[lo].start, r.start)];
    }
    if s[hi - 1].end > r.end {
      replacement := replacement + [ByteRange(r.end, s[hi - 1].end)];
    }
  }

  lemma LeftoversBytes(s: seq<ByteRange>, r: ByteRange, lo: nat, hi: nat)
    requires Normalized(s) && !r.IsEmpty() && lo < hi <= |s|
    requires forall i :: lo <= i < hi ==> r.start < s[i].end && s[i].start < r.end
    ensures Bytes(Leftovers(s, r, lo, hi)) == Bytes(s[lo..hi]) - Span(r)
  {
    var f, l := s[lo], s[hi - 1];
    var left := if f.start < r.start then [ByteRange(f.start, r.start)] else [];
    var right := if l.end > r.end then [ByteRange(r.end, l.end)] else [];
    BytesConcat(left, right);
    if left != [] { BytesOne(left[0]); }
    if right != [] { BytesOne(right[0]); }
    forall x | x in Bytes(s[lo..hi]) - Span(r) ensures x in Bytes(left) + Bytes(right) {
      var j :| 0 <= j < hi - lo && x in Span(s[lo..hi][j]);
      assert s[lo..hi][j] == s[lo + j];
      assert j == 0 || s[lo].end < s[lo + j].start;
      assert lo + j == hi - 1 || s[lo + j].end < s[hi - 1].start;
    }
    forall x | x in Bytes(left) ensures x in Bytes(s[lo..hi]) - Span(r) {
      assert s[lo..hi][0] == f && x in Span(f);
    }
    forall x | x in Bytes(right) ensures x in Bytes(s[lo..hi]) - Span(r) {
      assert s[lo..hi][hi - lo - 1] == l && x in Span(l);
    }
  }

  lemma RemoveSpliceNormalized(s: seq<ByteRange>, r: ByteRange, lo: nat, hi: nat)
    requires Normalized(s) && !r.IsEmpty() && lo < hi <= |s|
    requires r.start < s[lo].end && s[hi - 1].start < r.end
    ensures Normalized(s[..lo] + Leftovers(s, r, lo, hi) + s[hi..])
  {
    var mid := Leftovers(s, r, lo, hi);
    SliceNormalized(s, 0, lo);
    SliceNormalized(s, hi, |s|);
    assert s[0..lo] == s[..lo] && s[hi..|s|] == s[hi..];
    assert lo < hi - 1 ==> s[lo].end < s[hi - 1].start;
    NormalizedConcat(s[..lo], mid, s[lo].start);
    NormalizedConcat(s[..lo] + mid, s[hi..], s[hi - 1].end + 1);
  }

  lemma RemoveSpliceBytes(s: seq<ByteRange>, r: ByteRange, lo: nat, hi: nat)
    requires Normalized(s) && !r.IsEmpty() && lo <= hi <= |s|
    requires forall i :: 0 <= i < lo ==> s[i].end <= r.start
    requires forall i :: lo <= i < hi ==> r.start < s[i].end && s[i].start < r.end
    requires forall i :: hi <= i < |s| ==> r.end <= s[i].start
    ensures lo == hi ==> Bytes(s) !! Span(r)
    ensures lo < hi ==> Bytes(s[..lo] + Leftovers(s, r, lo, hi) + s[hi..]) == Bytes(s) - Span(r)
  {
    assert Bytes(s[..lo]) !! Span(r);
    assert Bytes(s[hi..]) !! Span(r);
    if lo < hi {
      BytesSplice(s, lo, hi, Leftovers(s, r, lo, hi));
      LeftoversBytes(s, r, lo, hi);
    } else {
      BytesSplit(s, lo);
    }
  }

  lemma RemoveSplice(s: seq<ByteRange>, r: ByteRange, lo: nat, hi: nat)
    requires Normalized(s) && !r.IsEmpty()
    requires lo == FirstEndingAt(s, r.start + 1) && hi == FirstStartingAt(s, r.end) && lo < hi
    ensures Normalized(s[..lo] + Leftovers(s, r, lo, hi) + s[hi..])
    ensures Bytes(s[..lo] + Leftovers(s, r, lo, hi) + s[hi..]) == Bytes(s) - Span(r)
  {
    Neighbours(s, r, 0);
    RemoveSpliceNormalized(s, r, lo, hi);
    RemoveSpliceBytes(s, r, lo, hi);
  }

  lemma RemoveNothing(s: seq<ByteRange>, r: ByteRange)
    requires Normalized(s) && !r.IsEmpty()
    requires FirstEndingAt(s, r.start + 1) >= FirstStartingAt(s, r.end)
    ensures Bytes(s) !! Span(r)
  {
    Neighbours(s, r, 0);
    var lo := FirstEndingAt(s, r.start + 1);
    RemoveSpliceBytes(s, r, lo, lo);
  }

  // ---------------------------------------------------------------- the class

  class RangeSet {
    var ranges: seq<ByteRange>
    var covered: nat

    ghost predicate Valid()
      reads this
    {
      Normalized(ranges) && covered == TotalLen(ranges)
    }

    ghost function Contents(): set<int>
      reads this
    {
      Bytes(ranges)
    }

    constructor ()
      ensures Valid() && Contents() == {} && ranges == []
    {
      ranges, covered := [], 0;
    }

    constructor Clone(of: seq<ByteRange>)
      requires Normalized(of)
      ensures Valid() && ranges == of
    {
      ranges, covered := of, TotalLen(of);
    }

    method Clear()
      modifies this
      ensures Valid() && Contents() == {}
    {
      ranges, covered := [], 0;
    }

    method Insert(r: ByteRange)
      requires Valid()
      modifies this
      ensures Valid()
      ensures Contents() == old(Contents()) + Span(r)
    {
      if r.IsEmpty() {
        return;
      }
      var s := ranges;
      var lo := FirstEndingAt(s, r.start);
      var hi := FirstStartingAt(s, r.end + 1);
      ranges, covered := SpliceIn(s, r, lo, hi, covered);
    }

    method Remove(r: ByteRange)
      requires Valid()
      modifies this
      ensures Valid()
      ensures Contents() == old(Contents()) - Span(r)
    {
      if r.IsEmpty() || ranges == [] {
        return;
      }
      var s := ranges;
      var lo := FirstEndingAt(s, r.start + 1);
      var hi := FirstStartingAt(s, r.end);
      if lo >= hi {
        RemoveNothing(s, r);
        return;
      }
      var removed := TotalLen(s[lo..hi]);
      var replacement := CutEnds(s, r, lo, hi);
      ranges := s[..lo] + replacement + s[hi..];
      RemoveSplice(s, r, lo, hi);
      TotalLenSplice(s, lo, hi, replacement);
      covered := covered - removed + TotalLen(replacement);
    }

    method UnionWith(other: RangeSet)
      requires Valid() && other != this
      modifies this
      ensures Valid()
      ensures Contents() == old(Contents()) + other.Contents()
    {
      InsertAll(other.ranges);
    }

    /** The loop of `from_ranges` and `union_with`. */
    method InsertAll(rs: seq<ByteRange>)
      requires Valid()
      modifies this
      ensures Valid()
      ensures Contents() == old(Contents()) + Bytes(rs)
    {
      for i := 0 to |rs|
        invariant Valid()
        invariant Contents() == old(Contents()) + Bytes(rs[..i])
      {
        Insert(rs[i]);
        assert rs[..i + 1] == rs[..i] + [rs[i]];
        BytesConcat(rs[..i], [rs[i]]);
        BytesOne(rs[i]);
      }
      assert rs[..|rs|] == rs;
    }
  }

  datatype Edit = Add(range: ByteRange) | Drop(range: ByteRange)

  /** The byte model of a sequence of edits. */
  function Edited(edits: seq<Edit>): set<int> {
    if edits == [] then {}
    else
      var before := Edited(edits[..|edits| - 1]);
      match edits[|edits| - 1]
      case Add(r) => before + Span(r)
      case Drop(r) => before - Span(r)
  }

  /** After any sequence of inserts and removes the vector is the one normalized form of
      the bytes the model holds, and the counter is their number. */
  method Replay(edits: seq<Edit>) returns (ranges: seq<ByteRange>, covered: nat)
    ensures Normalized(ranges) && Bytes(ranges) == Edited(edits)
    ensures covered == |Edited(edits)|
  {
    var s := new RangeSet();
    for i := 0 to |edits|
      invariant s.Valid() && s.Contents() == Edited(edits[..i])
    {
      assert edits[..i + 1][..i] == edits[..i];
      match edits[i] {
        case Add(r) => s.Insert(r);
        case Drop(r) => s.Remove(r);
      }
    }
    assert edits[..|edits|] == edits;
    TotalLenIsCardinality(s.ranges);
    return s.ranges, s.covered;
  }

  // ---------------------------------------------------------------- construction, gaps, journal form

  method FromRanges(rs: seq<ByteRange>) returns (ranges: seq<ByteRange>)
    ensures Normalized(ranges) && Bytes(ranges) == Bytes(rs)
  {
    var s := new RangeSet();
    s.InsertAll(rs);
    ranges := s.ranges;
  }

  /** Neither the order of insertion nor duplicates change the resulting set. */
  lemma ConstructionOrderIrrelevant(a: seq<ByteRange>, b: seq<ByteRange>,
                                    fromA: seq<ByteRange>, fromB: seq<ByteRange>)
    requires Normalized(fromA) && Bytes(fromA) == Bytes(a)
    requires Normalized(fromB) && Bytes(fromB) == Bytes(b)
    requires forall r :: r in a <==> r in b
    ensures fromA == fromB
  {
    SameElementsSameBytes(a, b);
    SameElementsSameBytes(b, a);
    Canonical(fromA, fromB);
  }

  lemma SameElementsSameBytes(a: seq<ByteRange>, b: seq<ByteRange>)
    requires forall r :: r in a ==> r in b
    ensures Bytes(a) <= Bytes(b)
  {
    forall x | x in Bytes(a) ensures x in Bytes(b) {
      var i :| 0 <= i < |a| && x in Span(a[i]);
      assert a[i] in a;
      var j :| 0 <= j < |b| && b[j] == a[i];
      assert x in Span(b[j]);
    }
  }

  /** What `[0, limit)` is missing, stretch by stretch. */
  method Gaps(s: seq<ByteRange>, limit: nat) returns (out: seq<ByteRange>)
    requires Normalized(s)
    ensures Normalized(out)
    ensures Bytes(out) == Upto(limit) - Bytes(s)
  {
    out := [];
    var cur := 0;
    var i := 0;
    while i < |s| && s[i].start < limit
      invariant 0 <= i <= |s|
      invariant cur == if i == 0 then 0 else s[i - 1].end
      invariant Normalized(out)
      invariant forall k :: 0 <= k < |out| ==> out[k].end < cur || (out[k].end == 0)
      invariant i > 0 ==> s[i - 1].start < limit
      invariant Bytes(out) == Upto(Min(cur, limit)) - Bytes(s[..i])
    {
      if s[i].start > cur {
        var g := ByteRange(cur, Min(s[i].start, limit));
        GapStep(s, i, cur, limit);
        BytesConcat(out, [g]);
        BytesOne(g);
        out := out + [g];
      } else {
        GapStep(s, i, cur, limit);
      }
      cur := Max(cur, s[i].end);
      i := i + 1;
    }
    GapEnd(s, i, cur, limit);
    if cur < limit {
      BytesConcat(out, [ByteRange(cur, limit)]);
      BytesOne(ByteRange(cur, limit));
      out := out + [ByteRange(cur, limit)];
    }
  }

  /** One turn of the `Gaps` loop: what `[cur, s[i].end)` adds to the uncovered bytes. */
  lemma GapStep(s: seq<ByteRange>, i: nat, cur: nat, limit: nat)
    requires Normalized(s) && i < |s| && s[i].start < limit
    requires cur == if i == 0 then 0 else s[i - 1].end
    ensures cur <= s[i].start
    ensures Upto(Min(s[i].end, limit)) - Bytes(s[..i + 1]) ==
            (Upto(Min(cur, limit)) - Bytes(s[..i])) + Span(ByteRange(cur, s[i].start))
  {
    assert s[..i + 1] == s[..i] + [s[i]];
    BytesConcat(s[..i], [s[i]]);
    BytesOne(s[i]);
    forall x | x in Bytes(s[..i]) ensures x < cur {
      var j :| 0 <= j < i && x in Span(s[..i][j]);
      assert s[..i][j] == s[j];
      assert j == i - 1 || s[j].end < s[i - 1].start;
    }
  }

  lemma GapEnd(s: seq<ByteRange>, i: nat, cur: nat, limit: nat)
    requires Normalized(s) && i <= |s|
    requires cur == if i == 0 then 0 else s[i - 1].end
    requires i < |s| ==> limit <= s[i].start
    ensures Upto(limit) - Bytes(s) ==
            (Upto(Min(cur, limit)) - Bytes(s[..i])) + Span(ByteRange(cur, limit))
  {
    BytesSplit(s, i);
    forall x | x in Bytes(s[i..]) ensures x >= limit {
      var j :| 0 <= j < |s| - i && x in Span(s[i..][j]);
      assert s[i..][j] == s[i + j];
      assert j == 0 || s[i].end < s[i + j].start;
    }
    forall x | x in Bytes(s[..i]) ensures x < cur {
      var j :| 0 <= j < i && x in Span(s[..i][j]);
      assert s[..i][j] == s[j];
      assert j == i - 1 || s[j].end < s[i - 1].start;
    }
  }

  /** The journal form is the list of `(start, end)` pairs. */
  function Encode(s: seq<ByteRange>): (raw: seq<(nat, nat)>)
    ensures |raw| == |s|
  {
    seq(|s|, i requires 0 <= i < |s| => (s[i].start, s[i].end))
  }

  function ValidPairs(raw: seq<(nat, nat)>): (rs: seq<ByteRange>)
  {
    if raw == [] then []
    else
      var last := raw[|raw| - 1];
      ValidPairs(raw[..|raw| - 1]) + (if last.0 < last.1 then [ByteRange(last.0, last.1)] else [])
  }

  /** Any pair list, even a tampered one, decodes to the normalized union of its valid pairs. */
  method Decode(raw: seq<(nat, nat)>) returns (ranges: seq<ByteRange>)
    ensures Normalized(ranges)
    ensures forall x :: x in Bytes(ranges) <==>
                        exists i :: 0 <= i < |raw| && raw[i].0 <= x < raw[i].1
    ensures forall s :: Normalized(s) && raw == Encode(s) ==> ranges == s
  {
    ranges := FromRanges(ValidPairs(raw));
    ValidPairsBytes(raw);
    forall s | Normalized(s) && raw == Encode(s) ensures ranges == s {
      EncodedPairs(s);
      Canonical(ranges, s);
    }
  }

  lemma {:induction false} ValidPairsBytes(raw: seq<(nat, nat)>)
    ensures forall x :: x in Bytes(ValidPairs(raw)) <==>
                        exists i :: 0 <= i < |raw| && raw[i].0 <= x < raw[i].1
  {
    if raw != [] {
      var n := |raw| - 1;
      var init, last := raw[..n], raw[n];
      ValidPairsBytes(init);
      var add := if last.0 < last.1 then [ByteRange(last.0, last.1)] else [];
      BytesConcat(ValidPairs(init), add);
      if add != [] { BytesOne(add[0]); }
      forall x | x in Bytes(ValidPairs(raw))
        ensures exists i :: 0 <= i < |raw| && raw[i].0 <= x < raw[i].1
      {
        if x in Bytes(ValidPairs(init)) {
          var i :| 0 <= i < |init| && init[i].0 <= x < init[i].1;
          assert raw[i] == init[i];
        } else {
          assert raw[n].0 <= x < raw[n].1;
        }
      }
      forall i, x | 0 <= i < |raw| && raw[i].0 <= x < raw[i].1
        ensures x in Bytes(ValidPairs(raw))
      {
        if i < n { assert init[i] == raw[i]; }
      }
    }
  }

  lemma EncodedPairs(s: seq<ByteRange>)
    requires Normalized(s)
    ensures ValidPairs(Encode(s)) == s
  {
    if s != [] {
      var n := |s| - 1;
      assert Normalized(s[..n]);
      EncodedPairs(s[..n]);
      assert Encode(s)[..n] == Encode(s[..n]);
      assert Encode(s)[n] == (s[n].start, s[n].end);
    }
  }
}
