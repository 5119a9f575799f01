/** The reorder buffer between out-of-order workers and an in-order sink. */
module Reorder {
  import opened Basics

  type Byte = bv8

  /** A chunk of payload bytes at an absolute offset. */
  datatype Chunk = Chunk(offset: nat, data: seq<Byte>) {
    function End(): nat { offset + |data| }

    /** The chunk without its first `n` bytes. */
    function TrimPrefix(n: nat): Chunk
      requires n <= |data|
    {
      Chunk(offset + n, data[n..])
    }

    function SplitAt(n: nat): (Chunk, Chunk)
      requires n <= |data|
    {
      (Chunk(offset, data[..n]), Chunk(offset + n, data[n..]))
    }

    /** The chunk carries the bytes of `file` at its offset. */
    ghost predicate Carries(file: nat -> Byte) {
      forall i :: 0 <= i < |data| ==> data[i] == file(offset + i)
    }
  }

  /** Trimming and splitting keep every byte at its absolute offset. */
  lemma SplitKeepsContent(c: Chunk, n: nat, file: nat -> Byte)
    requires n <= |c.data|
    ensures var (l, r) := c.SplitAt(n);
            && l.End() == r.offset && r.End() == c.End() && r == c.TrimPrefix(n)
            && (c.Carries(file) <==> l.Carries(file) && r.Carries(file))
  {
    var (l, r) := c.SplitAt(n);
    if l.Carries(file) && r.Carries(file) {
      forall i | 0 <= i < |c.data| ensures c.data[i] == file(c.offset + i) {
        if i < n { assert c.data[i] == l.data[i]; } else { assert c.data[i] == r.data[i - n]; }
      }
    }
  }

  // ---------------------------------------------------------------- sizes of pending chunks

  ghost function Pick(m: map<nat, Chunk>): (k: nat)
    requires m != map[]
    ensures k in m
  {
    var k :| k in m;
    k
  }

  ghost function Total(m: map<nat, Chunk>): nat
    decreases |m|
  {
    if m == map[] then 0 else |m[Pick(m)].data| + Total(m - {Pick(m)})
  }

  lemma {:induction false} TotalWithout(m: map<nat, Chunk>, k: nat)
    requires k in m
    ensures Total(m) == |m[k].data| + Total(m - {k})
    decreases |m|
  {
    var p := Pick(m);
    if p != k {
      TotalWithout(m - {p}, k);
      TotalWithout(m - {k}, p);
      assert m - {p} - {k} == m - {k} - {p};
    }
  }

  lemma TotalWith(m: map<nat, Chunk>, c: Chunk)
    requires c.offset !in m
    ensures Total(m[c.offset := c]) == Total(m) + |c.data|
  {
    TotalWithout(m[c.offset := c], c.offset);
    assert m[c.offset := c] - {c.offset} == m;
  }

  /** First key of the ordered map. */
  method FirstKey(m: map<nat, Chunk>) returns (k: nat)
    requires m != map[]
    ensures k in m && forall o :: o in m ==> k <= o
  {
    k :| k in m;
    var todo := m.Keys - {k};
    while todo != {}
      invariant todo <= m.Keys && k in m
      invariant forall o :: o in m && o !in todo ==> k <= o
      decreases todo
    {
      var o :| o in todo;
      todo := todo - {o};
      if o < k {
        k := o;
      }
    }
  }

  // ---------------------------------------------------------------- what accepting does

  /** The sink's next offset, the chunks waiting for theirs, and what the sink was pushed. */
  datatype Buffer = Buffer(next: nat, pending: map<nat, Chunk>, output: seq<Byte>)

  predicate IsFirst(m: map<nat, Chunk>, k: nat) { k in m && forall o :: o in m ==> k <= o }

  function Push(b: Buffer, c: Chunk): Buffer {
    b.(next := b.next + |c.data|, output := b.output + c.data)
  }

  function DrainAll(b: Buffer): Buffer
    decreases |b.pending|
  {
    if IsFirst(b.pending, b.next) then DrainAll(Push(b.(pending := b.pending - {b.next}), b.pending[b.next]))
    else b
  }

  function Accepted(b: Buffer, c: Chunk): Buffer {
    if c.offset < b.next then
      // re-delivered overlap: drop what is already downstream
      if b.next - c.offset >= |c.data| then b else DrainAll(Push(b, c.TrimPrefix(b.next - c.offset)))
    else if c.offset == b.next then DrainAll(Push(b, c))
    else if c.offset in b.pending then b
    else DrainAll(b.(pending := b.pending[c.offset := c]))
  }

  function Run(b: Buffer, arrivals: seq<Chunk>): Buffer {
    if arrivals == [] then b else Accepted(Run(b, arrivals[..|arrivals| - 1]), arrivals[|arrivals| - 1])
  }

  // ---------------------------------------------------------------- in order, whatever arrives

  /** The sink holds exactly the file from `start` to `next`; what is pending carries
      file bytes at its own key. */
  ghost predicate InOrder(b: Buffer, start: nat, file: nat -> Byte) {
    && b.next == start + |b.output|
    && (forall i :: 0 <= i < |b.output| ==> b.output[i] == file(start + i))
    && (forall o :: o in b.pending ==> b.pending[o].offset == o && b.pending[o].Carries(file))
  }

  lemma PushInOrder(b: Buffer, c: Chunk, start: nat, file: nat -> Byte)
    requires InOrder(b, start, file) && c.offset == b.next && c.Carries(file)
    ensures InOrder(Push(b, c), start, file)
  {
    var b' := Push(b, c);
    forall i | 0 <= i < |b'.output| ensures b'.output[i] == file(start + i) {
      if i >= |b.output| { assert b'.output[i] == c.data[i - |b.output|]; }
    }
  }

  lemma {:induction false} DrainInOrder(b: Buffer, start: nat, file: nat -> Byte)
    requires InOrder(b, start, file)
    ensures InOrder(DrainAll(b), start, file)
    ensures b.output <= DrainAll(b).output
    decreases |b.pending|
  {
    if IsFirst(b.pending, b.next) {
      var c := b.pending[b.next];
      PushInOrder(b.(pending := b.pending - {b.next}), c, start, file);
      DrainInOrder(Push(b.(pending := b.pending - {b.next}), c), start, file);
    }
  }

  lemma AcceptInOrder(b: Buffer, c: Chunk, start: nat, file: nat -> Byte)
    requires InOrder(b, start, file) && c.Carries(file)
    ensures InOrder(Accepted(b, c), start, file)
    ensures b.output <= Accepted(b, c).output
  {
    if c.offset < b.next {
      if b.next - c.offset < |c.data| {
        SplitKeepsContent(c, b.next - c.offset, file);
        PushInOrder(b, c.TrimPrefix(b.next - c.offset), start, file);
        DrainInOrder(Push(b, c.TrimPrefix(b.next - c.offset)), start, file);
      }
    } else if c.offset == b.next {
      PushInOrder(b, c, start, file);
      DrainInOrder(Push(b, c), start, file);
    } else if c.offset !in b.pending {
      DrainInOrder(b.(pending := b.pending[c.offset := c]), start, file);
    }
  }

  /** For any arrival sequence of chunks of one file, duplicated and overlapping as they
      may be, the sink is at all times pushed exactly the file up to `next`. */
  lemma {:induction false} OutputIsFilePrefix(start: nat, arrivals: seq<Chunk>, file: nat -> Byte)
    requires forall c :: c in arrivals ==> c.Carries(file)
    ensures InOrder(Run(Buffer(start, map[], []), arrivals), start, file)
  {
    if arrivals != [] {
      var n := |arrivals| - 1;
      OutputIsFilePrefix(start, arrivals[..n], file);
      AcceptInOrder(Run(Buffer(start, map[], []), arrivals[..n]), arrivals[n], start, file);
    }
  }

  // ---------------------------------------------------------------- permutations of a tiling

  /** `tiles` maps the offset of each chunk to its length; they cover `[0, end)` without
      gap or overlap. */
  predicate Tiling(tiles: map<nat, nat>, end: nat) {
    && (end == 0 || 0 in tiles)
    && (forall o :: o in tiles ==> o < end && tiles[o] > 0 && (o + tiles[o] == end || o + tiles[o] in tiles))
    && (forall o, p :: o in tiles && p in tiles && o < p ==> o + tiles[o] <= p)
  }

  /** After the tiles `seen` have arrived: those before `next` are downstream, those after
      it are pending, and the one at `next` has not arrived. */
  ghost predicate Progress(b: Buffer, tiles: map<nat, nat>, end: nat, seen: set<nat>) {
    && (b.next == end || b.next in tiles)
    && b.next !in seen
    && (forall o :: o in tiles && o < b.next ==> o in seen)
    && (forall o :: o in b.pending <==> o in seen && o > b.next)
    && (forall o :: o in b.pending ==> o in tiles && b.pending[o].offset == o && |b.pending[o].data| == tiles[o])
  }

  /** The same, except that the tile at `next` may be pending. */
  ghost predicate NearProgress(b: Buffer, tiles: map<nat, nat>, end: nat, seen: set<nat>) {
    && (b.next == end || b.next in tiles)
    && (forall o :: o in tiles && o < b.next ==> o in seen)
    && (forall o :: o in b.pending <==> o in seen && o >= b.next)
    && (forall o :: o in b.pending ==> o in tiles && b.pending[o].offset == o && |b.pending[o].data| == tiles[o])
  }

  lemma {:induction false} DrainProgress(b: Buffer, tiles: map<nat, nat>, end: nat, seen: set<nat>)
    requires Tiling(tiles, end) && seen <= tiles.Keys && NearProgress(b, tiles, end, seen)
    ensures Progress(DrainAll(b), tiles, end, seen)
    decreases |b.pending|
  {
    if b.next in b.pending {
      assert IsFirst(b.pending, b.next);
      var b' := Push(b.(pending := b.pending - {b.next}), b.pending[b.next]);
      PushProgress(b, b', tiles, end, seen);
      DrainProgress(b', tiles, end, seen);
    }
  }

  lemma PushProgress(b: Buffer, b': Buffer, tiles: map<nat, nat>, end: nat, seen: set<nat>)
    requires Tiling(tiles, end) && seen <= tiles.Keys && NearProgress(b, tiles, end, seen)
    requires b.next in b.pending && b' == Push(b.(pending := b.pending - {b.next}), b.pending[b.next])
    ensures NearProgress(b', tiles, end, seen)
  {
    var n := b.next;
    NoTileInside(tiles, end, n, b'.next);
    forall o | o in tiles && o < b'.next ensures o in seen {
      assert o <= n;
    }
    forall o ensures o in b'.pending <==> o in seen && o >= b'.next {
      assert o in b'.pending <==> o in seen && o > n;
    }
  }

  lemma NoTileInside(tiles: map<nat, nat>, end: nat, n: nat, next: nat)
    requires Tiling(tiles, end) && n in tiles && next == n + tiles[n]
    ensures next == end || next in tiles
    ensures forall o :: o in tiles ==> (o > n <==> o >= next)
  {}

  lemma AcceptProgress(b: Buffer, c: Chunk, tiles: map<nat, nat>, end: nat, seen: set<nat>)
    requires Tiling(tiles, end) && seen <= tiles.Keys && Progress(b, tiles, end, seen)
    requires c.offset in tiles && c.offset !in seen && |c.data| == tiles[c.offset]
    ensures Progress(Accepted(b, c), tiles, end, seen + {c.offset})
  {
    var p := b.(pending := b.pending[c.offset := c]);
    PendingProgress(b, c, tiles, end, seen);
    DrainProgress(p, tiles, end, seen + {c.offset});
    if c.offset == b.next { DirectPush(b, c); }
  }

  lemma PendingProgress(b: Buffer, c: Chunk, tiles: map<nat, nat>, end: nat, seen: set<nat>)
    requires Tiling(tiles, end) && seen <= tiles.Keys && Progress(b, tiles, end, seen)
    requires c.offset in tiles && c.offset !in seen && |c.data| == tiles[c.offset]
    ensures NearProgress(b.(pending := b.pending[c.offset := c]), tiles, end, seen + {c.offset})
    ensures b.next <= c.offset && c.offset !in b.pending
    ensures c.offset == b.next ==> forall o :: o in b.pending ==> b.next < o
  {}

  /** Pushing the next chunk directly is the same as making it pending and draining it. */
  lemma DirectPush(b: Buffer, c: Chunk)
    requires c.offset == b.next && c.offset !in b.pending && forall o :: o in b.pending ==> b.next < o
    ensures DrainAll(b.(pending := b.pending[c.offset := c])) == DrainAll(Push(b, c))
  {
    var p := b.(pending := b.pending[c.offset := c]);
    assert p.pending - {c.offset} == b.pending;
    assert IsFirst(p.pending, p.next);
  }

  function Offsets(arrivals: seq<Chunk>): set<nat> { set c | c in arrivals :: c.offset }

  /** Distinct tiles, each with its own length. */
  ghost predicate FromTiles(arrivals: seq<Chunk>, tiles: map<nat, nat>) {
    && (forall i :: 0 <= i < |arrivals| ==> arrivals[i].offset in tiles && |arrivals[i].data| == tiles[arrivals[i].offset])
    && (forall i, j :: 0 <= i < j < |arrivals| ==> arrivals[i].offset != arrivals[j].offset)
  }

  lemma OffsetsInit(arrivals: seq<Chunk>, tiles: map<nat, nat>)
    requires FromTiles(arrivals, tiles) && arrivals != []
    ensures var n := |arrivals| - 1;
            && FromTiles(arrivals[..n], tiles)
            && Offsets(arrivals) == Offsets(arrivals[..n]) + {arrivals[n].offset}
            && arrivals[n].offset !in Offsets(arrivals[..n])
            && arrivals[n].offset in tiles && |arrivals[n].data| == tiles[arrivals[n].offset]
  {
    var n := |arrivals| - 1;
    var init, last := arrivals[..n], arrivals[n];
    assert arrivals == init + [last];
    assert forall c :: c in arrivals <==> c in init || c == last;
    forall c | c in init ensures c.offset != last.offset {
      var i :| 0 <= i < n && init[i] == c;
      assert arrivals[i] == c;
    }
  }

  lemma {:induction false} RunProgress(arrivals: seq<Chunk>, tiles: map<nat, nat>, end: nat)
    requires Tiling(tiles, end) && FromTiles(arrivals, tiles)
    ensures Offsets(arrivals) <= tiles.Keys
    ensures Progress(Run(Buffer(0, map[], []), arrivals), tiles, end, Offsets(arrivals))
  {
    if arrivals != [] {
      var n := |arrivals| - 1;
      OffsetsInit(arrivals, tiles);
      RunProgress(arrivals[..n], tiles, end);
      AcceptProgress(Run(Buffer(0, map[], []), arrivals[..n]), arrivals[n], tiles, end, Offsets(arrivals[..n]));
    }
  }

  /** Every permutation of a tiling of `[0, end)` ends with all of it pushed and nothing pending. */
  lemma PermutationCompletes(arrivals: seq<Chunk>, tiles: map<nat, nat>, end: nat, file: nat -> Byte)
    requires Tiling(tiles, end) && FromTiles(arrivals, tiles) && Offsets(arrivals) == tiles.Keys
    requires forall c :: c in arrivals ==> c.Carries(file)
    ensures var b := Run(Buffer(0, map[], []), arrivals);
            b.next == end && b.pending == map[] && |b.output| == end
            && forall i :: 0 <= i < end ==> b.output[i] == file(i)
  {
    RunProgress(arrivals, tiles, end);
    OutputIsFilePrefix(0, arrivals, file);
    var b := Run(Buffer(0, map[], []), arrivals);
    assert forall o :: o in b.pending ==> o < end;
    assert b.pending.Keys == {};
  }

  // ---------------------------------------------------------------- hopeless chunks

  predicate KeysMatch(pending: map<nat, Chunk>) { forall o :: o in pending ==> pending[o].offset == o }

  /** The frontier is past the start of the pending chunk at `p`, or a pending chunk before
      it will carry the frontier past it. */
  predicate Hopeless(b: Buffer, p: nat) {
    p in b.pending && (p < b.next || exists o :: o in b.pending && o < p < b.pending[o].End())
  }

  ghost predicate Doomed(b: Buffer) { exists p :: Hopeless(b, p) }

  lemma {:induction false} DrainHopeless(b: Buffer, p: nat)
    requires KeysMatch(b.pending) && Hopeless(b, p)
    ensures KeysMatch(DrainAll(b).pending)
    ensures Hopeless(DrainAll(b), p) && DrainAll(b).pending[p] == b.pending[p]
    decreases |b.pending|
  {
    if IsFirst(b.pending, b.next) {
      var o :| o in b.pending && o < p < b.pending[o].End();
      var b' := Push(b.(pending := b.pending - {b.next}), b.pending[b.next]);
      assert o == b.next ==> p < b'.next;
      assert o != b.next ==> o in b'.pending && b'.pending[o] == b.pending[o];
      DrainHopeless(b', p);
    }
  }

  lemma {:induction false} DrainHopeful(b: Buffer)
    requires KeysMatch(b.pending) && !Doomed(b)
    ensures KeysMatch(DrainAll(b).pending) && !Doomed(DrainAll(b))
    ensures |DrainAll(b).pending| <= |b.pending| && (b.next in b.pending ==> |DrainAll(b).pending| < |b.pending|)
    decreases |b.pending|
  {
    HopefulKeys(b);
    if IsFirst(b.pending, b.next) {
      var b' := Push(b.(pending := b.pending - {b.next}), b.pending[b.next]);
      FirstOut(b, b');
      assert |b'.pending| == |b.pending| - 1;
      DrainHopeful(b');
    }
  }

  /** In a buffer that is not doomed nothing pending starts behind the frontier. */
  lemma HopefulKeys(b: Buffer)
    requires !Doomed(b)
    ensures forall o :: o in b.pending ==> b.next <= o
    ensures b.next in b.pending ==> IsFirst(b.pending, b.next)
  {
    forall o | o in b.pending ensures b.next <= o {
      assert !Hopeless(b, o);
    }
  }

  lemma FirstOut(b: Buffer, b': Buffer)
    requires KeysMatch(b.pending) && !Doomed(b) && IsFirst(b.pending, b.next)
    requires b' == Push(b.(pending := b.pending - {b.next}), b.pending[b.next])
    ensures KeysMatch(b'.pending) && !Doomed(b')
  {
    forall p | p in b'.pending ensures !Hopeless(b', p) {
      assert !Hopeless(b, p);
      assert b.pending[b.next].End() == b'.next;
    }
  }

  /** The arriving chunk reaches, from the frontier or from behind it, past the start of a
      pending one; or it becomes pending itself and overlaps one. */
  predicate Spoils(b: Buffer, c: Chunk) {
    if c.offset <= b.next then exists o :: o in b.pending && o < c.End()
    else c.offset !in b.pending &&
         exists o :: o in b.pending && (o < c.offset < b.pending[o].End() || c.offset < o < c.End())
  }

  /** What accepting comes to before the drain. */
  function Taken(b: Buffer, c: Chunk): Buffer {
    if c.offset <= b.next then
      if b.next - c.offset <= |c.data| then Push(b, c.TrimPrefix(b.next - c.offset)) else b
    else if c.offset in b.pending then b
    else b.(pending := b.pending[c.offset := c])
  }

  lemma TakenThenDrained(b: Buffer, c: Chunk)
    ensures Accepted(b, c) == DrainAll(Taken(b, c)) || (Accepted(b, c) == b && Taken(b, c) == b)
  {
    if c.offset == b.next {
      assert c.TrimPrefix(0) == c;
    } else if c.offset < b.next && b.next - c.offset == |c.data| {
      assert Push(b, c.TrimPrefix(|c.data|)) == b;
    }
  }

  lemma TakenSpoils(b: Buffer, c: Chunk)
    requires KeysMatch(b.pending) && !Doomed(b)
    ensures KeysMatch(Taken(b, c).pending)
    ensures Doomed(Taken(b, c)) <==> Spoils(b, c)
  {
    if c.offset <= b.next { PushSpoils(b, c); } else { PutSpoils(b, c); }
  }

  lemma PushSpoils(b: Buffer, c: Chunk)
    requires KeysMatch(b.pending) && !Doomed(b) && c.offset <= b.next
    ensures Doomed(Taken(b, c)) <==> Spoils(b, c)
  {
    var t := Taken(b, c);
    HopefulKeys(b);
    forall p | p in b.pending ensures Hopeless(t, p) <==> p < c.End() {
      assert !Hopeless(b, p);
    }
  }

  lemma PutSpoils(b: Buffer, c: Chunk)
    requires KeysMatch(b.pending) && !Doomed(b) && c.offset > b.next
    ensures Doomed(Taken(b, c)) <==> Spoils(b, c)
  {
    var t := Taken(b, c);
    if Spoils(b, c) {
      var o :| o in b.pending && (o < c.offset < b.pending[o].End() || c.offset < o < c.End());
      assert t.pending[o] == b.pending[o] && t.pending[c.offset] == c;
      assert Hopeless(t, if o < c.offset then c.offset else o);
    } else {
      forall p | p in t.pending ensures !Hopeless(t, p) {
        assert p in b.pending ==> !Hopeless(b, p);
      }
    }
  }

  /** A chunk dooms a buffer exactly if it spoils it. */
  lemma DoomsIff(b: Buffer, c: Chunk)
    requires KeysMatch(b.pending) && !Doomed(b)
    ensures KeysMatch(Accepted(b, c).pending)
    ensures Doomed(Accepted(b, c)) <==> Spoils(b, c)
  {
    TakenThenDrained(b, c);
    TakenSpoils(b, c);
    if Spoils(b, c) {
      var p :| Hopeless(Taken(b, c), p);
      DrainHopeless(Taken(b, c), p);
    } else {
      DrainHopeful(Taken(b, c));
    }
  }

  lemma HopelessStays(b: Buffer, c: Chunk, p: nat)
    requires KeysMatch(b.pending) && Hopeless(b, p)
    ensures KeysMatch(Accepted(b, c).pending)
    ensures Hopeless(Accepted(b, c), p) && Accepted(b, c).pending[p] == b.pending[p]
  {
    var t := Taken(b, c);
    TakenThenDrained(b, c);
    assert p in t.pending && t.pending[p] == b.pending[p] && KeysMatch(t.pending) && b.next <= t.next;
    if !(p < b.next) {
      var o :| o in b.pending && o < p < b.pending[o].End();
      assert o in t.pending && t.pending[o] == b.pending[o];
    }
    DrainHopeless(t, p);
  }

  /** A hopeless chunk is never emitted, whatever arrives: a doomed buffer never empties. */
  lemma {:induction false} HopelessForGood(b: Buffer, arrivals: seq<Chunk>, p: nat)
    requires KeysMatch(b.pending) && Hopeless(b, p)
    ensures KeysMatch(Run(b, arrivals).pending)
    ensures Hopeless(Run(b, arrivals), p) && Run(b, arrivals).pending[p] == b.pending[p]
  {
    if arrivals != [] {
      var n := |arrivals| - 1;
      HopelessForGood(b, arrivals[..n], p);
      HopelessStays(Run(b, arrivals[..n]), arrivals[n], p);
    }
  }

  function Slice(file: nat -> Byte, from: nat, to: nat): (data: seq<Byte>)
    requires from <= to
    ensures |data| == to - from
  {
    seq(to - from, i requires 0 <= i < to - from => file(from + i))
  }

  lemma RunOn(b: Buffer, c: Chunk, arrivals: seq<Chunk>)
    ensures Run(Accepted(b, c), arrivals) == Run(b, [c] + arrivals)
  {
    if arrivals == [] {
      assert [c] + arrivals == [c] && [c][..0] == [];
    } else {
      var n := |arrivals| - 1;
      RunOn(b, c, arrivals[..n]);
      assert ([c] + arrivals)[..n + 1] == [c] + arrivals[..n];
    }
  }

  /** The bytes between the frontier and the first pending chunk. */
  lemma FillGap(b: Buffer, file: nat -> Byte) returns (c: Chunk)
    requires KeysMatch(b.pending) && !Doomed(b) && b.pending != map[]
    ensures c.Carries(file)
    ensures KeysMatch(Accepted(b, c).pending) && !Doomed(Accepted(b, c))
    ensures |Accepted(b, c).pending| < |b.pending|
  {
    var k := LeastKey(b.pending);
    HopefulKeys(b);
    c := Chunk(b.next, Slice(file, b.next, k));
    var t := Push(b, c);
    UpToFirst(b, t, k);
    DrainHopeful(t);
  }

  /** A buffer that is not doomed can always be emptied, by feeding it what lies between its
      pending chunks. */
  lemma {:induction false} GapsEmpty(b: Buffer, file: nat -> Byte) returns (arrivals: seq<Chunk>)
    requires KeysMatch(b.pending) && !Doomed(b)
    ensures Run(b, arrivals).pending == map[]
    ensures forall i :: 0 <= i < |arrivals| ==> arrivals[i].Carries(file)
    decreases |b.pending|
  {
    if b.pending == map[] {
      arrivals := [];
    } else {
      var c := FillGap(b, file);
      var rest := GapsEmpty(Accepted(b, c), file);
      RunOn(b, c, rest);
      arrivals := [c] + rest;
    }
  }

  lemma UpToFirst(b: Buffer, t: Buffer, k: nat)
    requires KeysMatch(b.pending) && !Doomed(b) && IsFirst(b.pending, k)
    requires t.next == k && t.pending == b.pending
    ensures !Doomed(t)
  {
    forall p | p in t.pending ensures !Hopeless(t, p) {
      assert !Hopeless(b, p);
    }
  }

  lemma LeastKey(m: map<nat, Chunk>) returns (k: nat)
    requires m != map[]
    ensures IsFirst(m, k)
  {
    k :| k in m;
    while exists o :: o in m && o < k
      invariant k in m
      decreases k
    {
      var o :| o in m && o < k;
      k := o;
    }
  }

  predicate Apart(c: Chunk, d: Chunk) { c.End() <= d.offset || d.End() <= c.offset }

  ghost predicate From(pending: map<nat, Chunk>, arrivals: seq<Chunk>) {
    forall o :: o in pending ==> pending[o] in arrivals
  }

  /** Chunks that do not overlap never doom a buffer, in any order. */
  lemma {:induction false} ApartNeverDooms(start: nat, arrivals: seq<Chunk>)
    requires forall i, j :: 0 <= i < j < |arrivals| ==> Apart(arrivals[i], arrivals[j])
    requires forall i :: 0 <= i < |arrivals| ==> arrivals[i].data != []
    ensures var b := Run(Buffer(start, map[], []), arrivals);
            KeysMatch(b.pending) && !Doomed(b) && From(b.pending, arrivals)
  {
    if arrivals != [] {
      var n := |arrivals| - 1;
      ApartNeverDooms(start, arrivals[..n]);
      ApartStep(Run(Buffer(start, map[], []), arrivals[..n]), arrivals, n);
    }
  }

  lemma SeenApart(arrivals: seq<Chunk>, n: nat, c: Chunk)
    requires n < |arrivals| && c in arrivals[..n]
    requires forall i :: 0 <= i < n ==> Apart(arrivals[i], arrivals[n]) && arrivals[i].data != []
    ensures Apart(c, arrivals[n]) && c.data != []
  {
    var i :| 0 <= i < n && arrivals[..n][i] == c;
    assert arrivals[i] == c;
  }

  lemma ApartStep(b: Buffer, arrivals: seq<Chunk>, n: nat)
    requires n < |arrivals| && KeysMatch(b.pending) && !Doomed(b) && From(b.pending, arrivals[..n])
    requires forall i :: 0 <= i < n ==> Apart(arrivals[i], arrivals[n]) && arrivals[i].data != []
    ensures var b' := Accepted(b, arrivals[n]);
            KeysMatch(b'.pending) && !Doomed(b') && From(b'.pending, arrivals[..n + 1])
  {
    var c := arrivals[n];
    HopefulKeys(b);
    forall o | o in b.pending ensures Apart(b.pending[o], c) && b.pending[o].data != [] {
      SeenApart(arrivals, n, b.pending[o]);
    }
    DoomsIff(b, c);
    AcceptedFrom(b, c, arrivals[..n]);
    assert arrivals[..n + 1] == arrivals[..n] + [c];
  }

  lemma {:induction false} DrainFrom(b: Buffer, arrivals: seq<Chunk>)
    requires From(b.pending, arrivals)
    ensures From(DrainAll(b).pending, arrivals)
    decreases |b.pending|
  {
    if IsFirst(b.pending, b.next) {
      DrainFrom(Push(b.(pending := b.pending - {b.next}), b.pending[b.next]), arrivals);
    }
  }

  lemma AcceptedFrom(b: Buffer, c: Chunk, arrivals: seq<Chunk>)
    requires From(b.pending, arrivals)
    ensures From(Accepted(b, c).pending, arrivals + [c])
  {
    TakenThenDrained(b, c);
    assert From(Taken(b, c).pending, arrivals + [c]);
    DrainFrom(Taken(b, c), arrivals + [c]);
  }

  // ---------------------------------------------------------------- how far the output gets

  predicate Covers(c: Chunk, x: int) { c.offset <= x < c.End() }

  /** `x` lies in a chunk that has arrived and was not turned away for having the offset of a
      pending one. */
  ghost predicate Arrived(start: nat, arrivals: seq<Chunk>, x: int) {
    exists n :: 0 <= n < |arrivals| && Covers(arrivals[n], x) && !TurnedAway(Run(Buffer(start, map[], []), arrivals[..n]), arrivals[n])
  }

  predicate TurnedAway(b: Buffer, c: Chunk) { c.offset > b.next && c.offset in b.pending }

  ghost predicate CoveredBy(seen: seq<Chunk>, x: int) { exists c :: c in seen && Covers(c, x) }

  ghost predicate Held(pending: map<nat, Chunk>, x: int) { exists o :: o in pending && Covers(pending[o], x) }

  /** What `b` owes to the chunks `seen`: all bytes before the frontier came with one of them, and
      all later bytes of theirs are pending. */
  ghost predicate Tracks(b: Buffer, start: nat, seen: seq<Chunk>) {
    && KeysMatch(b.pending) && start <= b.next && From(b.pending, seen)
    && (forall x :: start <= x < b.next ==> CoveredBy(seen, x))
    && (forall x :: x >= b.next && CoveredBy(seen, x) ==> Held(b.pending, x))
  }

  lemma {:induction false} DrainTracks(b: Buffer, start: nat, seen: seq<Chunk>)
    requires Tracks(b, start, seen)
    ensures Tracks(DrainAll(b), start, seen)
    decreases |b.pending|
  {
    if IsFirst(b.pending, b.next) {
      var b' := Push(b.(pending := b.pending - {b.next}), b.pending[b.next]);
      FirstTracks(b, b', start, seen);
      DrainTracks(b', start, seen);
    }
  }

  lemma FirstTracks(b: Buffer, b': Buffer, start: nat, seen: seq<Chunk>)
    requires Tracks(b, start, seen) && b.next in b.pending
    requires b' == Push(b.(pending := b.pending - {b.next}), b.pending[b.next])
    ensures Tracks(b', start, seen)
  {
    var first := b.pending[b.next];
    assert first in seen && first.End() == b'.next;
    forall x | start <= x < b'.next ensures CoveredBy(seen, x) {
      assert x < b.next || Covers(first, x);
    }
    forall x | x >= b'.next && CoveredBy(seen, x) ensures Held(b'.pending, x) {
      assert Held(b.pending, x);
      var o :| o in b.pending && Covers(b.pending[o], x);
      assert o != b.next;
      assert o in b'.pending && Covers(b'.pending[o], x);
    }
  }

  lemma TakenTracks(b: Buffer, c: Chunk, start: nat, seen: seq<Chunk>)
    requires Tracks(b, start, seen) && !TurnedAway(b, c)
    ensures Tracks(Taken(b, c), start, seen + [c])
  {
    var t := Taken(b, c);
    TakenFrom(b, c, seen);
    forall x | start <= x < t.next ensures CoveredBy(seen + [c], x) {
      CoveredMore(seen, c, x);
      assert x < b.next || Covers(c, x);
    }
    forall x | x >= t.next && CoveredBy(seen + [c], x) ensures Held(t.pending, x) {
      CoveredMore(seen, c, x);
      if CoveredBy(seen, x) {
        HeldStill(b, t, x);
      } else {
        assert c.offset in t.pending && Covers(t.pending[c.offset], x);
      }
    }
  }

  lemma CoveredMore(seen: seq<Chunk>, c: Chunk, x: int)
    ensures CoveredBy(seen + [c], x) <==> CoveredBy(seen, x) || Covers(c, x)
  {
    assert c in seen + [c] && forall d :: d in seen ==> d in seen + [c];
  }

  lemma TakenFrom(b: Buffer, c: Chunk, seen: seq<Chunk>)
    requires From(b.pending, seen) && KeysMatch(b.pending)
    ensures From(Taken(b, c).pending, seen + [c]) && KeysMatch(Taken(b, c).pending)
  {
    assert c in seen + [c] && forall d :: d in seen ==> d in seen + [c];
  }

  lemma HeldStill(b: Buffer, t: Buffer, x: int)
    requires Held(b.pending, x) && forall o :: o in b.pending ==> o in t.pending && t.pending[o] == b.pending[o]
    ensures Held(t.pending, x)
  {
    var o :| o in b.pending && Covers(b.pending[o], x);
    assert Covers(t.pending[o], x);
  }

  /** The arrivals that were not turned away. */
  function Admitted(start: nat, arrivals: seq<Chunk>): seq<Chunk> {
    if arrivals == [] then []
    else
      var n := |arrivals| - 1;
      Admitted(start, arrivals[..n]) +
      (if TurnedAway(Run(Buffer(start, map[], []), arrivals[..n]), arrivals[n]) then [] else [arrivals[n]])
  }

  lemma {:induction false} RunTracks(start: nat, arrivals: seq<Chunk>)
    ensures Tracks(Run(Buffer(start, map[], []), arrivals), start, Admitted(start, arrivals))
  {
    if arrivals != [] {
      var n := |arrivals| - 1;
      RunTracks(start, arrivals[..n]);
      AcceptTracks(Run(Buffer(start, map[], []), arrivals[..n]), arrivals[n], start, Admitted(start, arrivals[..n]));
    }
  }

  lemma AcceptTracks(b: Buffer, c: Chunk, start: nat, seen: seq<Chunk>)
    requires Tracks(b, start, seen)
    ensures Tracks(Accepted(b, c), start, seen + (if TurnedAway(b, c) then [] else [c]))
  {
    if TurnedAway(b, c) {
      assert seen + [] == seen;
    } else {
      TakenTracks(b, c, start, seen);
      TakenThenDrained(b, c);
      DrainTracks(Taken(b, c), start, seen + [c]);
    }
  }

  lemma {:induction false} AdmittedIff(start: nat, arrivals: seq<Chunk>, x: int)
    ensures Arrived(start, arrivals, x) <==> CoveredBy(Admitted(start, arrivals), x)
  {
    if arrivals != [] {
      var n := |arrivals| - 1;
      var seen := Admitted(start, arrivals[..n]);
      AdmittedIff(start, arrivals[..n], x);
      ArrivedOneMore(start, arrivals, n, x);
      CoveredMore(seen, arrivals[n], x);
      assert seen + [] == seen;
    }
  }

  lemma ArrivedOneMore(start: nat, arrivals: seq<Chunk>, n: nat, x: int)
    requires |arrivals| == n + 1
    ensures Arrived(start, arrivals, x) <==>
              (Arrived(start, arrivals[..n], x) ||
               (Covers(arrivals[n], x) && !TurnedAway(Run(Buffer(start, map[], []), arrivals[..n]), arrivals[n])))
  {
    forall k | 0 <= k < n ensures arrivals[..n][k] == arrivals[k] && arrivals[..n][..k] == arrivals[..k] {
    }
  }

  ghost predicate Ahead(b: Buffer) { forall o :: o in b.pending ==> o > b.next }

  /** In a run that is not doomed everything pending starts beyond the frontier. */
  lemma {:induction false} HopefulRunIsAhead(start: nat, arrivals: seq<Chunk>)
    requires !Doomed(Run(Buffer(start, map[], []), arrivals))
    ensures Ahead(Run(Buffer(start, map[], []), arrivals))
  {
    if arrivals != [] {
      var n := |arrivals| - 1;
      var b := Run(Buffer(start, map[], []), arrivals[..n]);
      RunTracks(start, arrivals[..n]);
      if p :| Hopeless(b, p) { HopelessStays(b, arrivals[n], p); }
      HopefulRunIsAhead(start, arrivals[..n]);
      AcceptAhead(b, arrivals[n]);
    }
  }

  lemma AcceptAhead(b: Buffer, c: Chunk)
    requires KeysMatch(b.pending) && Ahead(b) && !Doomed(Accepted(b, c))
    ensures Ahead(Accepted(b, c))
  {
    TakenThenDrained(b, c);
    HopefulKeys(Accepted(b, c));
    if Accepted(b, c) == DrainAll(Taken(b, c)) { DrainedNext(Taken(b, c)); }
  }

  lemma {:induction false} DrainedNext(b: Buffer)
    ensures !IsFirst(DrainAll(b).pending, DrainAll(b).next)
    decreases |b.pending|
  {
    if IsFirst(b.pending, b.next) { DrainedNext(Push(b.(pending := b.pending - {b.next}), b.pending[b.next])); }
  }

  /** Whatever has arrived, overlapping and repeated as it may be: as long as nothing is hopeless
      the frontier is the first offset from the start on that no arrived chunk covers, and
      everything pending lies beyond it. */
  lemma NextIsFirstMissing(start: nat, arrivals: seq<Chunk>)
    requires !Doomed(Run(Buffer(start, map[], []), arrivals))
    ensures var b := Run(Buffer(start, map[], []), arrivals);
            && start <= b.next && !Arrived(start, arrivals, b.next)
            && (forall x :: start <= x < b.next ==> Arrived(start, arrivals, x))
            && (forall o :: o in b.pending ==> b.next < o)
  {
    var b := Run(Buffer(start, map[], []), arrivals);
    RunTracks(start, arrivals);
    HopefulRunIsAhead(start, arrivals);
    forall x | start <= x <= b.next ensures Arrived(start, arrivals, x) <==> x < b.next {
      AdmittedIff(start, arrivals, x);
      assert !Held(b.pending, b.next);
    }
  }

  /** `[0, 3)` passes the start of the pending `[2, 4)`, which stays behind for good; the byte
      at 4 that follows it waits for ever as well. */
  lemma OverlapStrandsPending()
    ensures var a, b, c := Chunk(2, [0, 0]), Chunk(0, [0, 0, 0]), Chunk(4, [0]);
            var end := Run(Buffer(0, map[], []), [a, b, c]);
            end.next == 3 && end.pending.Keys == {2, 4}
  {
    var a, b, c := Chunk(2, [0, 0]), Chunk(0, [0, 0, 0]), Chunk(4, [0]);
    var e := Buffer(0, map[], []);
    assert [a, b, c][..2] == [a, b] && [a, b][..1] == [a] && [a][..0] == [];
    var b1 := e.(pending := map[2 := a]);
    assert Accepted(e, a) == b1;
    var b2 := Push(b1, b);
    assert !IsFirst(b2.pending, b2.next);
    assert Accepted(b1, b) == b2;
    var b3 := b2.(pending := b2.pending[4 := c]);
    assert !IsFirst(b3.pending, b3.next);
    assert Accepted(b2, c) == b3;
    assert Run(e, []) == e && Run(e, [a]) == b1 && Run(e, [a, b]) == b2;
  }

  /** Two pending chunks that overlap, `[2, 5)` and `[4, 6)`, doom the buffer before anything
      has been passed: the drain of the first strands the second. */
  lemma PendingOverlapDooms()
    ensures var b := Buffer(0, map[2 := Chunk(2, [0, 0, 0])], []);
            !Doomed(b) && Spoils(b, Chunk(4, [0, 0])) && Doomed(Accepted(b, Chunk(4, [0, 0])))
  {
    var b := Buffer(0, map[2 := Chunk(2, [0, 0, 0])], []);
    assert forall p :: p in b.pending ==> p == 2;
    assert 2 in b.pending && 2 < 4 < b.pending[2].End();
    DoomsIff(b, Chunk(4, [0, 0]));
  }

  // ---------------------------------------------------------------- sizes

  lemma {:induction false} DrainShrinks(b: Buffer)
    ensures Total(DrainAll(b).pending) <= Total(b.pending)
    decreases |b.pending|
  {
    if IsFirst(b.pending, b.next) {
      TotalWithout(b.pending, b.next);
      DrainShrinks(Push(b.(pending := b.pending - {b.next}), b.pending[b.next]));
    }
  }

  /** Only a chunk beyond the frontier is buffered, and by no more than its size. */
  lemma AcceptGrowth(b: Buffer, c: Chunk)
    ensures Total(Accepted(b, c).pending) <= Total(b.pending) + (if c.offset <= b.next then 0 else |c.data|)
  {
    if c.offset < b.next {
      if b.next - c.offset < |c.data| { DrainShrinks(Push(b, c.TrimPrefix(b.next - c.offset))); }
    } else if c.offset == b.next {
      DrainShrinks(Push(b, c));
    } else if c.offset !in b.pending {
      TotalWith(b.pending, c);
      DrainShrinks(b.(pending := b.pending[c.offset := c]));
    }
  }

  // ---------------------------------------------------------------- the adapter

  class SequentialAdapter {
    const maxBuffered: nat
    var nextOffset: nat
    var pending: map<nat, Chunk>
    var buffered: nat
    /** What the sink has been pushed so far. */
    var output: seq<Byte>

    ghost predicate Valid()
      reads this
    {
      buffered == Total(pending)
    }

    ghost function Value(): Buffer
      reads this
    {
      Buffer(nextOffset, pending, output)
    }

    constructor (start: nat, maxBuffered: nat)
      ensures Valid() && this.maxBuffered == maxBuffered
      ensures Value() == Buffer(start, map[], [])
    {
      this.maxBuffered := maxBuffered;
      nextOffset, pending, buffered, output := start, map[], 0, [];
    }

    predicate HasRoom(n: nat)
      reads this
    {
      buffered + n <= maxBuffered
    }

    method PushNow(c: Chunk)
      modifies this`output, this`nextOffset
      ensures Value() == Push(old(Value()), c)
    {
      output := output + c.data;
      nextOffset := nextOffset + |c.data|;
    }

    /** Accepts a chunk at any offset, then drains whatever became contiguous.  A chunk
        whose offset is already pending is an error. */
    method Accept(c: Chunk) returns (ok: bool)
      requires Valid()
      modifies this`output, this`nextOffset, this`pending, this`buffered
      ensures Valid()
      ensures ok <==> !(c.offset > old(nextOffset) && c.offset in old(pending))
      ensures Value() == Accepted(old(Value()), c)
    {
      if c.offset < nextOffset {
        var skip := nextOffset - c.offset;
        if skip >= |c.data| {
          return true;
        }
        PushNow(c.TrimPrefix(skip));
      } else if c.offset == nextOffset {
        PushNow(c);
      } else {
        if c.offset in pending {
          return false;
        }
        TotalWith(pending, c);
        buffered := buffered + |c.data|;
        pending := pending[c.offset := c];
      }
      Drain();
      return true;
    }

    method Drain()
      requires Valid()
      modifies this`output, this`nextOffset, this`pending, this`buffered
      ensures Valid()
      ensures Value() == DrainAll(old(Value()))
    {
      while pending != map[]
        invariant Valid()
        invariant DrainAll(Value()) == DrainAll(old(Value()))
        decreases |pending|
      {
        var off := FirstKey(pending);
        if off != nextOffset {
          break;
        }
        TotalWithout(pending, off);
        var c := pending[off];
        pending := pending - {off};
        buffered := buffered - |c.data|;
        PushNow(c);
      }
    }

    /** One turn of the destination's write loop: accept if the chunk advances the
        frontier or there is room for it, otherwise leave it waiting. */
    method WriteChunk(c: Chunk) returns (written: bool, ok: bool)
      requires Valid() && buffered <= maxBuffered
      modifies this`output, this`nextOffset, this`pending, this`buffered
      ensures Valid() && buffered <= maxBuffered
      ensures written <==> c.offset <= old(nextOffset) || old(buffered) + |c.data| <= maxBuffered
      ensures ok <==> !written || !(c.offset > old(nextOffset) && c.offset in old(pending))
      ensures Value() == if written then Accepted(old(Value()), c) else old(Value())
    {
      if c.offset <= nextOffset || HasRoom(|c.data|) {
        AcceptGrowth(Value(), c);
        ok := Accept(c);
        return true, ok;
      }
      return false, true;
    }
  }
}
