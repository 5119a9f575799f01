/** The truncation handshake.  The plan cuts the tail off a live assignment; a command
    lowers the shared end flag of the running fetch at some later time, or is lost;
    meanwhile the fetch keeps delivering chunks against whatever the flag last said.
    Everything is interleaved step by step. */
module Handshake {
  import opened Basics
  import opened Ranges
  import opened PlanView
  import opened PlanSafety
  import opened PlanRuns
  import opened Rates
  import Segments

  // ---------------------------------------------------------------- the fetch loop

  /** Bytes of `[.., offset)` that lie inside the requested range. */
  function Useful(request: ByteRange, offset: nat): nat {
    Minus(Min(offset, request.end), request.start)
  }

  /** The chunks are non-empty and follow each other from `from` to `to`. */
  predicate Tiles(chunks: seq<ByteRange>, from: nat, to: nat) {
    if chunks == [] then from == to
    else
      var last := chunks[|chunks| - 1];
      last.start < last.end == to && Tiles(chunks[..|chunks| - 1], from, last.start)
  }

  // ---------------------------------------------------------------- the system

  /** Commands for one assignment, in the order its shard receives them. */
  datatype Command = StartRange(end: nat) | Truncate(newEnd: nat)

  /** `pending` bytes are sized against the flag but not yet accepted by the sink. */
  datatype Fetch =
    | NotStarted
    | Reading(offset: nat, received: nat, useful: nat, pending: nat)
    | Reported(verified: ByteRange, delivered: nat)
    | Broken

  datatype Task = Task(request: ByteRange, overlap: nat, queue: seq<Command>, flag: Option<nat>, fetch: Fetch) {
    /** What is asked of the server: the request and once more its overlap prefix. */
    function Wire(): ByteRange { ByteRange(Minus(request.start, overlap), request.end) }
  }

  datatype Engine = Engine(plan: View, tasks: map<AssignId, Task>)

  datatype Step =
    | Claimed(req: Request, outcome: Claim, sent: bool)
    | Rebalanced(stragglers: seq<AssignId>, notified: set<AssignId>)
    | Received(id: AssignId)
    | Sized(id: AssignId, amount: nat)
    | Accepted(id: AssignId)
    | BodyEnded(id: AssignId)
    | Failed(id: AssignId)
    | HandledVerified(id: AssignId)
    | HandledFailed(id: AssignId, retry: Option<(real, nat)>)
    | Quarantined(id: AssignId, sent: bool)
    | PlanOnly(event: Event)

  function NewTask(a: Assignment): Task {
    Task(a.WireRange(), a.overlap, [StartRange(a.range.end)], None, NotStarted)
  }

  function Enqueue(tasks: map<AssignId, Task>, id: AssignId, c: Command, sent: bool): map<AssignId, Task> {
    if sent && id in tasks then tasks[id := tasks[id].(queue := tasks[id].queue + [c])] else tasks
  }

  /** The truncations a rebalance sends: the new end of every assignment it shortened. */
  function Notify(tasks: map<AssignId, Task>, before: View, after: View, sent: set<AssignId>): map<AssignId, Task> {
    map id | id in tasks ::
      if id in sent && id in before.live && id in after.live && after.live[id].range.end < before.live[id].range.end
      then tasks[id].(queue := tasks[id].queue + [Truncate(after.live[id].range.end)])
      else tasks[id]
  }

  /** The shard takes the next command of this assignment. */
  function Receive(t: Task): Task
    requires t.queue != []
  {
    var rest := t.(queue := t.queue[1..]);
    match t.queue[0]
    case StartRange(end) => if t.fetch.NotStarted? then rest.(flag := Some(end), fetch := Reading(t.Wire().start, 0, 0, 0)) else rest
    case Truncate(newEnd) => if t.flag.Some? then rest.(flag := Some(newEnd)) else rest
  }

  predicate CanRead(t: Task) { t.fetch.Reading? && t.flag.Some? }

  /** What a fetch that ends well reports. */
  function Report(t: Task): Task
    requires t.fetch.Reading?
  {
    t.(flag := None, fetch := Reported(ByteRange(t.request.start, t.request.start + t.fetch.useful), t.fetch.offset))
  }

  /** The top of the delivery loop: stop at the flag, or size the next chunk against it. */
  ghost predicate SizeStep(t: Task, t': Task, amount: nat) {
    && CanRead(t) && t.fetch.pending == 0
    && var end := Min(t.flag.value, t.Wire().end);
    if t.fetch.offset >= end
    then t' == if end < t.Wire().end then Report(t) else t
    else 0 < amount <= end - t.fetch.offset && t' == t.(fetch := t.fetch.(pending := amount))
  }

  ghost predicate AcceptStep(t: Task, t': Task) {
    && CanRead(t) && t.fetch.pending > 0
    && var next := t.fetch.offset + t.fetch.pending;
    t' == t.(fetch := Reading(next, t.fetch.received + t.fetch.pending,
                              t.fetch.useful + Minus(Min(next, t.request.end), Max(t.fetch.offset, t.request.start)), 0))
  }

  /** End of body without truncation: success only when every wire byte arrived. */
  ghost predicate BodyEndStep(t: Task, t': Task) {
    && CanRead(t) && t.fetch.pending == 0
    && t' == if t.fetch.received == t.Wire().end - t.Wire().start
             then Report(t) else t.(flag := None, fetch := Broken)
  }

  ghost predicate Move(e: Engine, s: Step, e': Engine) {
    match s
    case Claimed(req, o, sent) =>
      && ClaimStep(e.plan, e'.plan, req, o)
      && (match o
          case Fresh(id) => id !in e.tasks && id in e'.plan.live && e'.tasks == e.tasks[id := NewTask(e'.plan.live[id])]
          case Stolen(new_, from) =>
            && new_ !in e.tasks && new_ in e'.plan.live && from in e'.plan.live
            && e'.tasks == Enqueue(e.tasks, from, Truncate(e'.plan.live[from].range.end), sent)
                           [new_ := NewTask(e'.plan.live[new_])]
          case _ => e'.tasks == e.tasks)
    case Rebalanced(ids, sent) =>
      e'.plan == RebalanceView(e.plan, ids) && e'.tasks == Notify(e.tasks, e.plan, e'.plan, sent)
    case Received(id) =>
      id in e.tasks && e.tasks[id].queue != [] && e' == e.(tasks := e.tasks[id := Receive(e.tasks[id])])
    case Sized(id, amount) =>
      id in e.tasks && id in e'.tasks && SizeStep(e.tasks[id], e'.tasks[id], amount) && e' == e.(tasks := e.tasks[id := e'.tasks[id]])
    case Accepted(id) =>
      id in e.tasks && id in e'.tasks && AcceptStep(e.tasks[id], e'.tasks[id]) && e' == e.(tasks := e.tasks[id := e'.tasks[id]])
    case BodyEnded(id) =>
      id in e.tasks && id in e'.tasks && BodyEndStep(e.tasks[id], e'.tasks[id]) && e' == e.(tasks := e.tasks[id := e'.tasks[id]])
    case Failed(id) =>
      id in e.tasks && !e.tasks[id].fetch.Reported? &&
      e' == e.(tasks := e.tasks[id := e.tasks[id].(flag := None, fetch := Broken)])
    case HandledVerified(id) =>
      && id in e.tasks && e.tasks[id].fetch.Reported?
      && e' == Engine(VerifyFinishView(e.plan, id, e.tasks[id].fetch.verified), e.tasks - {id})
    case HandledFailed(id, retry) =>
      && id in e.tasks && e.tasks[id].fetch.Broken?
      && e' == Engine(match retry
                      case None => AbandonView(e.plan, id)
                      case Some((until, attempt)) => RetryView(e.plan, id, until, attempt),
                      e.tasks - {id})
    case Quarantined(id, sent) =>
      // the plan forgets the assignment while its fetch may still run
      && id in e.plan.live
      && e' == Engine(AbandonView(e.plan, id), Enqueue(e.tasks, id, Truncate(e.plan.live[id].Cursor()), sent))
    case PlanOnly(event) =>
      && OrderedStep(e.plan, event)
      && (event.ReceiveEvent? || event.SubmitEvent? || event.CommitEvent? || event.ReleaseEvent? || event.ClampEvent?)
      && e'.tasks == e.tasks && Next(e.plan, event, e'.plan)
  }

  ghost predicate IsEngineRun(es: seq<Engine>, steps: seq<Step>) {
    && |es| == |steps| + 1
    && Init(es[0].plan) && es[0].tasks == map[]
    && (forall i :: 0 <= i < |steps| ==> Move(es[i], steps[i], es[i + 1]))
  }

  // ---------------------------------------------------------------- the loop that takes those steps

  /** The task while it reads at `offset`, with the flag at `flag`. */
  function At(t: Task, flag: nat, received: nat, useful: nat, offset: nat): Task {
    t.(flag := Some(flag), fetch := Reading(offset, received, useful, 0))
  }

  /** One turn of the loop: the chunk is sized against the flag and accepted. */
  ghost predicate Turn(t: Task, flag: nat, received: nat, useful: nat, c: ByteRange) {
    && c.start < c.end
    && var before := At(t, flag, received, useful, c.start);
       var sized := before.(fetch := before.fetch.(pending := c.end - c.start));
       var after := At(t, flag, received + (c.end - c.start), useful + Useful(t.request, c.end) - Useful(t.request, c.start), c.end);
       SizeStep(before, sized, c.end - c.start) && AcceptStep(sized, after)
  }

  lemma UsefulGrows(request: ByteRange, a: nat, b: nat)
    requires request.start <= request.end && a <= b <= request.end
    ensures Useful(request, a) <= Useful(request, b)
    ensures Useful(request, b) - Useful(request, a) == Minus(Min(b, request.end), Max(a, request.start))
  {}

  lemma IsTurn(t: Task, flag: nat, received: nat, useful: nat, c: ByteRange)
    requires t.request.start <= t.request.end && c.start < c.end <= Min(flag, t.Wire().end)
    ensures Useful(t.request, c.start) <= Useful(t.request, c.end)
    ensures Turn(t, flag, received, useful, c)
  {
    UsefulGrows(t.request, c.start, c.end);
  }

  /** Every chunk was a turn; that each starts where the one before it stopped is `Tiles`. */
  ghost predicate Turns(t: Task, flag: nat -> nat, received0: nat, useful0: nat, start: nat, chunks: seq<ByteRange>) {
    forall i :: 0 <= i < |chunks| ==> TurnFrom(t, flag(i), received0, useful0, start, chunks[i])
  }

  /** A turn that continues a delivery begun at `start`. */
  ghost predicate TurnFrom(t: Task, flag: nat, received0: nat, useful0: nat, start: nat, c: ByteRange) {
    && start <= c.start && Useful(t.request, start) <= Useful(t.request, c.start)
    && Turn(t, flag, received0 + (c.start - start), useful0 + Useful(t.request, c.start) - Useful(t.request, start), c)
  }

  lemma {:induction false} TilesFrom(chunks: seq<ByteRange>, start: nat, end: nat)
    requires Tiles(chunks, start, end)
    ensures start <= end
    ensures forall i :: 0 <= i < |chunks| ==> start <= chunks[i].start < chunks[i].end
  {
    if chunks != [] {
      TilesFrom(chunks[..|chunks| - 1], start, chunks[|chunks| - 1].start);
      assert forall i :: 0 <= i < |chunks| - 1 ==> chunks[i] == chunks[..|chunks| - 1][i];
    }
  }

  lemma TilesAreTurns(t: Task, flag: nat -> nat, received0: nat, useful0: nat, start: nat, end: nat, chunks: seq<ByteRange>)
    requires Tiles(chunks, start, end) && t.request.start <= t.request.end
    requires forall i :: 0 <= i < |chunks| ==> chunks[i].end <= Min(flag(i), t.Wire().end)
    ensures Turns(t, flag, received0, useful0, start, chunks)
  {
    TilesFrom(chunks, start, end);
    forall i | 0 <= i < |chunks| ensures TurnFrom(t, flag(i), received0, useful0, start, chunks[i]) {
      IsTurnFrom(t, flag(i), received0, useful0, start, chunks[i]);
    }
  }

  lemma IsTurnFrom(t: Task, flag: nat, received0: nat, useful0: nat, start: nat, c: ByteRange)
    requires t.request.start <= t.request.end && start <= c.start < c.end <= Min(flag, t.Wire().end)
    ensures TurnFrom(t, flag, received0, useful0, start, c)
  {
    UsefulGrows(t.request, start, c.start);
    IsTurn(t, flag, received0 + (c.start - start), useful0 + Useful(t.request, c.start) - Useful(t.request, start), c);
  }

  datatype Delivery = Delivered(truncated: bool) | OversizedBody | Refused

  /** Delivers one body frame of `len` bytes.  `flag(i)` is the end flag as read by
      iteration `i`, which may change between iterations; a sink without one is `flagged`
      false.  `limit` is the memory budget and `maxChunk` the sink's chunk size; `accepts(i)`
      says whether memory and sink take chunk `i`. */
  method DeliverRangeBytes(t: Task, len: nat, flagged: bool, flag: nat -> nat, accepts: nat -> bool, limit: nat, maxChunk: nat,
                           start: nat, received0: nat, useful0: nat, truncated0: bool)
    returns (offset: nat, received: nat, useful: nat, r: Delivery, chunks: seq<ByteRange>)
    requires limit >= 1 && maxChunk >= 1
    requires t.Wire().start <= start <= t.Wire().end && t.request.start <= t.request.end
    ensures start <= offset <= t.Wire().end && offset - start <= len
    ensures received == received0 + (offset - start)
    ensures useful == useful0 + Useful(t.request, offset) - Useful(t.request, start)
    // the delivered chunks tile [start, offset), none beyond the flag it was sized against
    ensures Tiles(chunks, start, offset)
    ensures forall i :: 0 <= i < |chunks| ==> chunks[i].end <= Bound(t, flagged, flag, i)
    // stopping early means the flag was reached; the mark is set iff it lies before the wire's end
    ensures r.Delivered? && offset - start < len ==>
              offset >= Bound(t, flagged, flag, |chunks|) && r.truncated == (Bound(t, flagged, flag, |chunks|) < t.Wire().end)
    ensures r.Delivered? && offset - start == len ==> r.truncated == truncated0
    // a sink without a flag refuses a frame larger than what is left of the wire range
    ensures r.OversizedBody? <==> !flagged && start < t.Wire().end && len > t.Wire().end - start
    ensures r.OversizedBody? ==> chunks == []
    // the first chunk that memory or sink refuses ends the delivery
    ensures forall i :: 0 <= i < |chunks| ==> accepts(i)
    ensures AtMost(chunks, limit, maxChunk)
    ensures r.Refused? ==> !accepts(|chunks|) && offset < Bound(t, flagged, flag, |chunks|)
  {
    offset, received, useful, chunks := start, received0, useful0, [];
    var truncated := truncated0;
    var consumed := 0;
    while consumed < len
      invariant consumed <= len && offset == start + consumed && offset <= t.Wire().end && truncated == truncated0
      invariant Counted(t, start, received0, useful0, offset, received, useful)
      invariant Tiles(chunks, start, offset)
      invariant forall i :: 0 <= i < |chunks| ==> chunks[i].end <= Bound(t, flagged, flag, i) && accepts(i)
      invariant AtMost(chunks, limit, maxChunk)
      invariant consumed > 0 && !flagged ==> len <= t.Wire().end - start
      invariant consumed == 0 ==> chunks == []
      decreases len - consumed
    {
      var dynamicEnd := Bound(t, flagged, flag, |chunks|);
      if offset >= dynamicEnd {
        truncated := dynamicEnd < t.Wire().end;
        break;
      }
      if len - consumed > t.Wire().end - offset && !flagged {
        return offset, received, useful, OversizedBody, chunks;
      }
      if !accepts(|chunks|) {
        return offset, received, useful, Refused, chunks;
      }
      var amount := ChunkSize(len - consumed, dynamicEnd - offset, limit, maxChunk);
      CountedMore(t, start, received0, useful0, offset, received, useful, amount);
      TilesMore(chunks, start, offset, offset + amount);
      AtMostMore(chunks, limit, maxChunk, ByteRange(offset, offset + amount));
      chunks := chunks + [ByteRange(offset, offset + amount)];
      consumed := consumed + amount;
      offset := offset + amount;
      received := received + amount;
      useful := useful + Minus(Min(offset, t.request.end), Max(offset - amount, t.request.start));
    }
    r := Delivered(truncated);
  }

  /** No chunk is larger than budget and sink allow. */
  predicate AtMost(chunks: seq<ByteRange>, limit: nat, maxChunk: nat) {
    forall i :: 0 <= i < |chunks| ==> chunks[i].end <= chunks[i].start + limit && chunks[i].end <= chunks[i].start + maxChunk
  }

  lemma AtMostMore(chunks: seq<ByteRange>, limit: nat, maxChunk: nat, c: ByteRange)
    requires AtMost(chunks, limit, maxChunk) && c.end <= c.start + limit && c.end <= c.start + maxChunk
    ensures AtMost(chunks + [c], limit, maxChunk)
  {}

  /** As much as frame, flag, budget and sink allow. */
  function ChunkSize(left: nat, room: nat, limit: nat, maxChunk: nat): (amount: nat)
    requires left > 0 && room > 0 && limit > 0 && maxChunk > 0
    ensures 0 < amount <= left && amount <= room && amount <= limit && amount <= maxChunk
    ensures amount == left || amount == room || amount == limit || amount == maxChunk
  {
    Min(Min(left, room), Min(limit, maxChunk))
  }

  /** The counters at `offset` of a delivery begun at `start`. */
  predicate Counted(t: Task, start: nat, received0: nat, useful0: nat, offset: nat, received: nat, useful: nat) {
    && start <= offset && received == received0 + (offset - start)
    && Useful(t.request, start) <= Useful(t.request, offset)
    && useful == useful0 + Useful(t.request, offset) - Useful(t.request, start)
  }

  lemma CountedMore(t: Task, start: nat, received0: nat, useful0: nat, offset: nat, received: nat, useful: nat, amount: nat)
    requires Counted(t, start, received0, useful0, offset, received, useful)
    requires t.request.start <= t.request.end && offset + amount <= t.request.end
    ensures Counted(t, start, received0, useful0, offset + amount, received + amount,
                    useful + Minus(Min(offset + amount, t.request.end), Max(offset, t.request.start)))
  {
    UsefulGrows(t.request, offset, offset + amount);
  }

  lemma TilesMore(chunks: seq<ByteRange>, start: nat, mid: nat, end: nat)
    requires Tiles(chunks, start, mid) && mid < end
    ensures Tiles(chunks + [ByteRange(mid, end)], start, end)
  {
    assert (chunks + [ByteRange(mid, end)])[..|chunks|] == chunks;
  }

  /** One call of the loop is a sequence of the engine's steps: a turn for every chunk, each
      from where the one before it stopped, and, if the frame was cut short, the stop at the flag. */
  method DeliverBySteps(t: Task, len: nat, flag: nat -> nat, accepts: nat -> bool, limit: nat, maxChunk: nat,
                        start: nat, received0: nat, useful0: nat, truncated0: bool)
    returns (offset: nat, received: nat, useful: nat, r: Delivery, chunks: seq<ByteRange>)
    requires limit >= 1 && maxChunk >= 1
    requires t.Wire().start <= start <= t.Wire().end && t.request.start <= t.request.end
    ensures Tiles(chunks, start, offset) && Turns(t, flag, received0, useful0, start, chunks)
    ensures received == received0 + (offset - start)
    ensures useful == useful0 + Useful(t.request, offset) - Useful(t.request, start)
    ensures r.Delivered? && offset - start < len ==>
              var at := At(t, flag(|chunks|), received, useful, offset);
              SizeStep(at, if r.truncated then Report(at) else at, 0)
    ensures r.Delivered? && offset - start >= len ==> r.truncated == truncated0
    ensures r.Delivered? || (r.Refused? && !accepts(|chunks|))
  {
    offset, received, useful, r, chunks :=
      DeliverRangeBytes(t, len, true, flag, accepts, limit, maxChunk, start, received0, useful0, truncated0);
    TilesFrom(chunks, start, offset);
    TilesAreTurns(t, flag, received0, useful0, start, offset, chunks);
  }

  /** Where iteration `i` stops: the flag, if there is one, but never beyond the wire range. */
  function Bound(t: Task, flagged: bool, flag: nat -> nat, i: nat): nat {
    if flagged then Min(flag(i), t.Wire().end) else t.Wire().end
  }

  // ---------------------------------------------------------------- what a task knows

  /** No command still under way asks for less than the plan's current end `end`. */
  ghost predicate QueueCovers(queue: seq<Command>, end: nat) {
    forall i :: 0 <= i < |queue| ==>
      end <= (match queue[i] case StartRange(e) => e case Truncate(e) => e)
  }

  /** The fetch's own counters. */
  predicate Consistent(t: Task) {
    match t.fetch
    case Reading(offset, received, useful, pending) =>
      && t.Wire().start <= offset <= offset + pending <= t.Wire().end
      && received == offset - t.Wire().start
      && useful == Useful(t.request, offset)
    case Reported(verified, delivered) =>
      && t.Wire().start <= delivered <= t.Wire().end
      && verified == ByteRange(t.request.start, t.request.start + Useful(t.request, delivered))
    case _ => true
  }

  /** The flag, every queued command and the request end at or after the plan's current
      end; a success has delivered everything up to it. */
  ghost predicate Covers(t: Task, range: ByteRange) {
    && t.request.start <= range.start && range.end <= t.request.end
    && QueueCovers(t.queue, range.end)
    && (t.flag.Some? ==> range.end <= t.flag.value)
    && (t.fetch.Reported? ==>
          t.fetch.verified.start == t.request.start && range.end <= t.fetch.verified.end && range.end <= t.fetch.delivered)
  }

  ghost predicate PlanSound(v: View) { Inv(v) && Ordered(v) }

  ghost predicate Safe(e: Engine) {
    && PlanSound(e.plan)
    && (forall id :: id in e.tasks ==> Consistent(e.tasks[id]) && e.tasks[id].request.start <= e.tasks[id].request.end)
    && (forall id :: id in e.tasks && id in e.plan.live ==> Covers(e.tasks[id], e.plan.live[id].range))
  }

  // ---------------------------------------------------------------- each step keeps it

  lemma ShorterCovers(t: Task, r: ByteRange, r': ByteRange)
    requires Covers(t, r) && r'.start == r.start && r'.end <= r.end
    ensures Covers(t, r')
  {}

  lemma EnqueueCovers(t: Task, r: ByteRange, c: Command)
    requires Covers(t, r) && r.end <= (match c case StartRange(e) => e case Truncate(e) => e)
    ensures Covers(t.(queue := t.queue + [c]), r)
  {}

  lemma NewTaskCovers(a: Assignment)
    requires a.range.start < a.range.end && a.committed == []
    ensures Covers(NewTask(a), a.range) && Consistent(NewTask(a))
    ensures NewTask(a).request.start <= NewTask(a).request.end
  {
    assert a.Cursor() == a.range.start;
  }

  /** The overlap prefix is asked for twice: the command carries the widened range and the
      overlap again, and the fetch widens it once more. */
  lemma OverlapRequestedTwice(a: Assignment)
    requires a.range.start < a.range.end && a.committed == []
    ensures NewTask(a).Wire().start == Minus(a.range.start, 2 * a.overlap)
  {
    assert a.Cursor() == a.range.start;
  }

  lemma ReceiveCovers(t: Task, r: ByteRange)
    requires t.queue != [] && Covers(t, r)
    ensures Covers(Receive(t), r)
  {
    assert t.queue[0] in t.queue;
    forall i | 0 <= i < |t.queue[1..]| ensures t.queue[1..][i] == t.queue[i + 1] {
    }
  }

  lemma ReceiveConsistent(t: Task)
    requires t.queue != [] && Consistent(t) && t.request.start <= t.request.end
    ensures Consistent(Receive(t))
  {}

  /** Stopping at the flag, or at the end of the body, has delivered the plan's whole range. */
  lemma ReportCovers(t: Task, r: ByteRange)
    requires Covers(t, r) && CanRead(t) && Consistent(t) && r.end <= t.fetch.offset && r.start < r.end
    ensures Covers(Report(t), r)
  {}

  lemma SizeCovers(t: Task, t': Task, amount: nat, r: ByteRange)
    requires SizeStep(t, t', amount) && Covers(t, r) && Consistent(t) && r.start < r.end
    ensures Covers(t', r)
  {
    var end := Min(t.flag.value, t.Wire().end);
    if t.fetch.offset >= end && end < t.Wire().end {
      ReportCovers(t, r);
    }
  }

  lemma BodyEndCovers(t: Task, t': Task, r: ByteRange)
    requires BodyEndStep(t, t') && Covers(t, r) && Consistent(t) && r.start < r.end
    ensures Covers(t', r)
  {
    if t.fetch.received == t.Wire().end - t.Wire().start {
      ReportCovers(t, r);
    }
  }

  lemma AcceptConsistent(t: Task, t': Task)
    requires AcceptStep(t, t') && Consistent(t)
    ensures Consistent(t')
  {}

  /** A step of one task that leaves the plan alone. */
  lemma TaskSafe(e: Engine, id: AssignId, t: Task)
    requires Safe(e) && id in e.tasks
    requires Consistent(t) && t.request.start <= t.request.end
    requires id in e.plan.live ==> Covers(t, e.plan.live[id].range)
    ensures Safe(e.(tasks := e.tasks[id := t]))
  {}

  /** The plan moves on without touching the ranges it keeps. */
  lemma PlanSafe(e: Engine, plan: View, tasks: map<AssignId, Task>)
    requires Safe(e) && PlanSound(plan) && tasks.Keys <= e.tasks.Keys
    requires forall id :: id in tasks ==> tasks[id] == e.tasks[id]
    requires forall id :: id in tasks && id in plan.live ==> id in e.plan.live && plan.live[id].range == e.plan.live[id].range
    ensures Safe(Engine(plan, tasks))
  {}

  lemma LiveRange(e: Engine, id: AssignId)
    requires Safe(e) && id in e.plan.live
    ensures e.plan.live[id].range.start < e.plan.live[id].range.end
    ensures e.plan.live[id].range.start <= e.plan.live[id].Cursor() <= e.plan.live[id].range.end
  {
    CursorInside(e.plan.live[id]);
  }

  /** What an engine step does to the plan. */
  function PlanEvent(e: Engine, s: Step): Option<Event> {
    match s
    case Claimed(req, o, _) => Some(ClaimEvent(req, o))
    case Rebalanced(ids, _) => Some(RebalanceEvent(ids))
    case HandledVerified(id) =>
      if id in e.tasks && e.tasks[id].fetch.Reported? then Some(FinishEvent(id, e.tasks[id].fetch.verified)) else None
    case HandledFailed(id, retry) =>
      (match retry case None => Some(AbandonEvent(id)) case Some((until, attempt)) => Some(RetryEvent(id, until, attempt)))
    case Quarantined(id, _) => Some(AbandonEvent(id))
    case PlanOnly(event) => Some(event)
    case _ => None
  }

  /** Every engine step is a step of the plan, or leaves it alone. */
  lemma MoveIsPlanStep(e: Engine, s: Step, e': Engine)
    requires Move(e, s, e')
    ensures match PlanEvent(e, s)
            case None => e'.plan == e.plan
            case Some(event) => Next(e.plan, event, e'.plan) && OrderedStep(e.plan, event)
  {}

  lemma PlanStaysSound(e: Engine, s: Step, e': Engine)
    requires PlanSound(e.plan) && Move(e, s, e')
    ensures PlanSound(e'.plan)
  {
    MoveIsPlanStep(e, s, e');
    var event := PlanEvent(e, s);
    if event.Some? { NextOrdered(e.plan, event.value, e'.plan); }
  }

  lemma TaskMoveSafe(e: Engine, s: Step, e': Engine)
    requires Safe(e) && Move(e, s, e')
    requires s.Received? || s.Sized? || s.Accepted? || s.BodyEnded? || s.Failed?
    ensures Safe(e')
  {
    var id := s.id;
    var t, t' := e.tasks[id], e'.tasks[id];
    if id in e.plan.live {
      LiveRange(e, id);
      var r := e.plan.live[id].range;
      match s
      case Received(_) => ReceiveCovers(t, r);
      case Sized(_, amount) => SizeCovers(t, t', amount, r);
      case BodyEnded(_) => BodyEndCovers(t, t', r);
      case _ =>
    }
    if s.Received? { ReceiveConsistent(t); }
    if s.Accepted? { AcceptConsistent(t, t'); }
    TaskSafe(e, id, t');
  }

  /** How a claim changes the live assignments. */
  ghost predicate Grown(live: map<AssignId, Assignment>, live': map<AssignId, Assignment>, id: AssignId) {
    id !in live && id in live' && live' == live[id := live'[id]]
      && live'[id].committed == [] && live'[id].range.start < live'[id].range.end
  }

  lemma FreshGrows(v: View, v': View, req: Request, id: AssignId)
    requires FreshStep(v, v', req, id)
    ensures Grown(v.live, v'.live, id)
  {
    var gap :| GapFor(v, gap, req.now) && v' == Added(v, id, FreshAssignment(v, req, gap));
    TakenRangeFits(v, req, gap);
  }

  lemma FreshMoveSafe(e: Engine, e': Engine, id: AssignId)
    requires Safe(e) && PlanSound(e'.plan) && Grown(e.plan.live, e'.plan.live, id)
    requires id !in e.tasks && e'.tasks == e.tasks[id := NewTask(e'.plan.live[id])]
    ensures Safe(e')
  {
    NewTaskCovers(e'.plan.live[id]);
  }

  lemma StealGrows(v: View, v': View, req: Request, new_: AssignId, from: AssignId)
    requires StealStep(v, v', req, new_, from)
    ensures from in v'.live && from != new_
    ensures v'.live[from].range.start == v.live[from].range.start && v'.live[from].range.end <= v.live[from].range.end
    ensures Grown(v.live[from := v'.live[from]], v'.live, new_)
  {
    StealCutFits(v, req, v.live[from]);
  }

  lemma StealMoveSafe(e: Engine, e': Engine, new_: AssignId, from: AssignId, sent: bool)
    requires Safe(e) && PlanSound(e'.plan) && from in e.plan.live && from in e'.plan.live && from != new_
    requires e'.plan.live[from].range.start == e.plan.live[from].range.start
    requires e'.plan.live[from].range.end <= e.plan.live[from].range.end
    requires Grown(e.plan.live[from := e'.plan.live[from]], e'.plan.live, new_)
    requires new_ !in e.tasks
    requires e'.tasks == Enqueue(e.tasks, from, Truncate(e'.plan.live[from].range.end), sent)
                         [new_ := NewTask(e'.plan.live[new_])]
    ensures Safe(e')
  {
    var tasks := Enqueue(e.tasks, from, Truncate(e'.plan.live[from].range.end), sent);
    CutTaskSafe(e, from, e'.plan.live[from].range, tasks, sent);
    NewTaskCovers(e'.plan.live[new_]);
    forall id | id in tasks && id in e'.plan.live ensures Covers(tasks[id], e'.plan.live[id].range) {
      assert id != new_ && id in e.plan.live;
    }
  }

  /** The victim's task covers what the victim is left with, told or not. */
  lemma CutTaskSafe(e: Engine, from: AssignId, r': ByteRange, tasks: map<AssignId, Task>, sent: bool)
    requires Safe(e) && from in e.plan.live && tasks == Enqueue(e.tasks, from, Truncate(r'.end), sent)
    requires r'.start == e.plan.live[from].range.start && r'.end <= e.plan.live[from].range.end
    ensures forall id :: id in tasks ==> Consistent(tasks[id]) && tasks[id].request.start <= tasks[id].request.end
    ensures forall id :: id in tasks && id in e.plan.live ==>
              Covers(tasks[id], if id == from then r' else e.plan.live[id].range)
    ensures tasks.Keys == e.tasks.Keys
  {
    if from in e.tasks {
      ShorterCovers(e.tasks[from], e.plan.live[from].range, r');
      EnqueueCovers(e.tasks[from], r', Truncate(r'.end));
    }
  }

  lemma ClaimMoveSafe(e: Engine, e': Engine, req: Request, o: Claim, sent: bool)
    requires Safe(e) && Move(e, Claimed(req, o, sent), e') && PlanSound(e'.plan)
    ensures Safe(e')
  {
    match o
    case Fresh(id) =>
      FreshGrows(e.plan, e'.plan, req, id);
      FreshMoveSafe(e, e', id);
    case Stolen(new_, from) =>
      StealGrows(e.plan, e'.plan, req, new_, from);
      StealMoveSafe(e, e', new_, from, sent);
    case _ =>
  }

  lemma {:induction false} RebalanceShortens(v: View, ids: seq<AssignId>, id: AssignId)
    requires Inv(v) && id in v.live
    ensures id in RebalanceView(v, ids).live
    ensures RebalanceView(v, ids).live[id].range.start == v.live[id].range.start
    ensures RebalanceView(v, ids).live[id].range.end <= v.live[id].range.end
  {
    RebalanceInv(v, ids);
    if ids != [] {
      RebalanceShortens(v, ids[..|ids| - 1], id);
    }
  }

  lemma RebalanceMoveSafe(e: Engine, e': Engine, ids: seq<AssignId>, notified: set<AssignId>)
    requires Safe(e) && Move(e, Rebalanced(ids, notified), e') && PlanSound(e'.plan)
    ensures Safe(e')
  {
    RebalanceInv(e.plan, ids);
    forall id | id in e'.tasks
      ensures Consistent(e'.tasks[id]) && e'.tasks[id].request.start <= e'.tasks[id].request.end
      ensures id in e'.plan.live ==> Covers(e'.tasks[id], e'.plan.live[id].range)
    {
      if id in e'.plan.live {
        RebalanceShortens(e.plan, ids, id);
        var r' := e'.plan.live[id].range;
        ShorterCovers(e.tasks[id], e.plan.live[id].range, r');
        EnqueueCovers(e.tasks[id], r', Truncate(r'.end));
      }
    }
  }

  lemma EventKeepsRanges(v: View, event: Event, v': View)
    requires Next(v, event, v')
    requires event.ReceiveEvent? || event.SubmitEvent? || event.CommitEvent? || event.ReleaseEvent? || event.ClampEvent?
    ensures forall id :: id in v'.live ==> id in v.live && v'.live[id].range == v.live[id].range
  {}

  lemma PlanOnlySafe(e: Engine, e': Engine, event: Event)
    requires Safe(e) && Move(e, PlanOnly(event), e') && PlanSound(e'.plan)
    ensures Safe(e')
  {
    EventKeepsRanges(e.plan, event, e'.plan);
    PlanSafe(e, e'.plan, e.tasks);
  }

  lemma EndMoveSafe(e: Engine, s: Step, e': Engine)
    requires Safe(e) && Move(e, s, e') && PlanSound(e'.plan)
    requires s.HandledVerified? || s.HandledFailed?
    ensures Safe(e')
  {
    PlanSafe(e, e'.plan, e'.tasks);
  }

  lemma QuarantineSafe(e: Engine, id: AssignId, sent: bool, e': Engine)
    requires Safe(e) && Move(e, Quarantined(id, sent), e') && PlanSound(e'.plan)
    ensures Safe(e')
  {}

  lemma MoveSafe(e: Engine, s: Step, e': Engine)
    requires Safe(e) && Move(e, s, e')
    ensures Safe(e')
  {
    PlanStaysSound(e, s, e');
    match s
    case Claimed(req, o, sent) => ClaimMoveSafe(e, e', req, o, sent);
    case Rebalanced(ids, notified) => RebalanceMoveSafe(e, e', ids, notified);
    case PlanOnly(event) => PlanOnlySafe(e, e', event);
    case Quarantined(id, sent) => QuarantineSafe(e, id, sent, e');
    case HandledVerified(_) => EndMoveSafe(e, s, e');
    case HandledFailed(_, _) => EndMoveSafe(e, s, e');
    case _ => TaskMoveSafe(e, s, e');
  }

  lemma {:induction false} EngineSafe(es: seq<Engine>, steps: seq<Step>, n: nat)
    requires IsEngineRun(es, steps) && n < |es|
    ensures Safe(es[n])
  {
    if n == 0 {
      InitInv(es[0].plan);
    } else {
      EngineSafe(es, steps, n - 1);
      MoveSafe(es[n - 1], steps[n - 1], es[n]);
    }
  }

  // ---------------------------------------------------------------- the theorems

  /** For every interleaving of cuts, delayed or lost truncations and deliveries, no
      running fetch is ever told to stop before the end the plan currently assigns. */
  lemma FlagNeverBelowPlan(es: seq<Engine>, steps: seq<Step>, n: nat, id: AssignId)
    requires IsEngineRun(es, steps) && n < |es|
    requires id in es[n].tasks && id in es[n].plan.live && es[n].tasks[id].flag.Some?
    ensures es[n].plan.live[id].range.end <= es[n].tasks[id].flag.value
  {
    EngineSafe(es, steps, n);
  }

  /** A reported success has delivered the whole range the plan still assigns, so finishing it
      credits exactly that range, all of it new, and un-claims nothing. */
  lemma FinishReleasesNothing(es: seq<Engine>, steps: seq<Step>, n: nat)
    requires IsEngineRun(es, steps) && n < |steps| && steps[n].HandledVerified?
    requires steps[n].id in es[n].plan.live
    ensures steps[n].id in es[n].tasks && es[n].tasks[steps[n].id].fetch.Reported?
    ensures var range, t := es[n].plan.live[steps[n].id].range, es[n].tasks[steps[n].id];
            && Span(range) <= Span(ByteRange(t.Wire().start, t.fetch.delivered))
            && Span(range) <= Span(t.fetch.verified)
            && es[n + 1].plan.completed == es[n].plan.completed + Span(range)
            && es[n].plan.completed !! Span(range)
            && es[n + 1].plan.claimed == es[n].plan.claimed
  {
    EngineSafe(es, steps, n);
    assert Move(es[n], steps[n], es[n + 1]);
    VerifiedCovers(es[n], steps[n].id);
  }

  lemma VerifiedCovers(e: Engine, id: AssignId)
    requires Safe(e) && id in e.tasks && id in e.plan.live && e.tasks[id].fetch.Reported?
    ensures var a, t := e.plan.live[id], e.tasks[id];
            var v' := VerifyFinishView(e.plan, id, t.fetch.verified);
            && Span(a.range) <= Span(t.fetch.verified)
            && Span(a.range) <= Span(ByteRange(t.Wire().start, t.fetch.delivered))
            && v'.completed == e.plan.completed + Span(a.range)
            && e.plan.completed !! Span(a.range)
            && v'.claimed == e.plan.claimed
  {
    ReportSpans(e.tasks[id], e.plan.live[id].range);
    WholeFinish(e.plan, id, e.tasks[id].fetch.verified);
  }

  lemma ReportSpans(t: Task, r: ByteRange)
    requires t.fetch.Reported? && Covers(t, r)
    ensures Span(r) <= Span(t.fetch.verified) && Span(r) <= Span(ByteRange(t.Wire().start, t.fetch.delivered))
  {}

  /** Finishing a wholly verified worker credits its range and un-claims nothing. */
  lemma WholeFinish(v: View, id: AssignId, verified: ByteRange)
    requires PlanSound(v) && id in v.live && Span(v.live[id].range) <= Span(verified)
    ensures VerifyFinishView(v, id, verified).completed == v.completed + Span(v.live[id].range)
    ensures v.completed !! Span(v.live[id].range)
    ensures VerifyFinishView(v, id, verified).claimed == v.claimed
  {
    VerifyFinishIs(v, id, verified);
    DropLive(v.live, id);
    OrderedIsSafe(v, id);
    assert Credited(v.live[id], verified) == Span(v.live[id].range);
  }

  // ---------------------------------------------------------------- only accepted bytes are completed

  /** The bytes a sink accepts in this step. */
  function AcceptedBy(e: Engine, s: Step): set<int> {
    if s.Accepted? && s.id in e.tasks && e.tasks[s.id].fetch.Reading?
    then Span(ByteRange(e.tasks[s.id].fetch.offset, e.tasks[s.id].fetch.offset + e.tasks[s.id].fetch.pending))
    else {}
  }

  function AcceptedSets(es: seq<Engine>, steps: seq<Step>): (sets: seq<set<int>>)
    requires |steps| <= |es|
    ensures |sets| == |steps|
  {
    seq(|steps|, k requires 0 <= k < |steps| => AcceptedBy(es[k], steps[k]))
  }

  function UnionTo(sets: seq<set<int>>, n: nat): set<int>
    requires n <= |sets|
  {
    if n == 0 then {} else UnionTo(sets, n - 1) + sets[n - 1]
  }

  /** The bytes sinks accept in the first `n` steps. */
  function AcceptedIn(es: seq<Engine>, steps: seq<Step>, n: nat): set<int>
    requires n <= |steps| <= |es|
  {
    UnionTo(AcceptedSets(es, steps), n)
  }

  /** Everything a fetch has passed was accepted. */
  predicate Backed(t: Task, accepted: set<int>) {
    match t.fetch
    case Reading(offset, _, _, _) => Span(ByteRange(t.Wire().start, offset)) <= accepted
    case Reported(_, delivered) => Span(ByteRange(t.Wire().start, delivered)) <= accepted
    case _ => true
  }

  ghost predicate AllBacked(e: Engine, start: set<int>, accepted: set<int>) {
    && e.plan.completed <= start + accepted
    && forall id :: id in e.tasks ==> Backed(e.tasks[id], accepted)
  }

  lemma BackedMore(t: Task, accepted: set<int>, more: set<int>)
    requires Backed(t, accepted) && accepted <= more
    ensures Backed(t, more)
  {}

  lemma AcceptBacked(t: Task, t': Task, accepted: set<int>)
    requires AcceptStep(t, t') && Consistent(t) && Backed(t, accepted)
    ensures Backed(t', accepted + Span(ByteRange(t.fetch.offset, t.fetch.offset + t.fetch.pending)))
  {}

  /** A task step other than an acceptance passes nothing. */
  lemma TaskStaysBacked(t: Task, t': Task, amount: nat, accepted: set<int>)
    requires Consistent(t) && Backed(t, accepted) && t.request.start <= t.request.end
    requires (t.queue != [] && t' == Receive(t)) || SizeStep(t, t', amount) || BodyEndStep(t, t')
             || t' == t.(flag := None, fetch := Broken)
    ensures Backed(t', accepted)
  {
    assert Span(ByteRange(t.Wire().start, t.Wire().start)) == {};
  }

  lemma TaskMoveBacked(e: Engine, s: Step, e': Engine, start: set<int>, accepted: set<int>)
    requires Safe(e) && Move(e, s, e') && AllBacked(e, start, accepted)
    requires s.Received? || s.Sized? || s.Accepted? || s.BodyEnded? || s.Failed?
    ensures AllBacked(e', start, accepted + AcceptedBy(e, s))
  {
    var t, t' := e.tasks[s.id], e'.tasks[s.id];
    forall id | id in e'.tasks ensures Backed(e'.tasks[id], accepted + AcceptedBy(e, s)) {
      if id != s.id {
        BackedMore(e.tasks[id], accepted, accepted + AcceptedBy(e, s));
      } else if s.Accepted? {
        AcceptBacked(t, t', accepted);
      } else {
        TaskStaysBacked(t, t', if s.Sized? then s.amount else 0, accepted);
        BackedMore(t', accepted, accepted + AcceptedBy(e, s));
      }
    }
  }

  /** What a plan step can complete is what a handled success had delivered. */
  lemma PlanMoveBacked(e: Engine, s: Step, e': Engine, start: set<int>, accepted: set<int>)
    requires Safe(e) && Move(e, s, e') && AllBacked(e, start, accepted)
    ensures e'.plan.completed <= start + accepted
  {
    MoveIsPlanStep(e, s, e');
    var event := PlanEvent(e, s);
    if event.Some? {
      StepCredit(e.plan, event.value, e'.plan);
      if s.HandledVerified? {
        if s.id in e.plan.live { VerifiedCovers(e, s.id); } else { LateResultIgnored(e, e', s.id); }
      }
    }
  }

  lemma OtherMoveBacked(e: Engine, s: Step, e': Engine, start: set<int>, accepted: set<int>)
    requires Safe(e) && Move(e, s, e') && AllBacked(e, start, accepted)
    requires !(s.Received? || s.Sized? || s.Accepted? || s.BodyEnded? || s.Failed?)
    ensures AllBacked(e', start, accepted)
  {
    PlanMoveBacked(e, s, e', start, accepted);
    forall id | id in e'.tasks ensures Backed(e'.tasks[id], accepted) {
      OnlyQueues(e, s, e', id);
    }
  }

  /** Such a step starts a task or adds to its queue. */
  lemma OnlyQueues(e: Engine, s: Step, e': Engine, id: AssignId)
    requires Move(e, s, e') && id in e'.tasks
    requires !(s.Received? || s.Sized? || s.Accepted? || s.BodyEnded? || s.Failed?)
    ensures e'.tasks[id].fetch.NotStarted? || (id in e.tasks && e'.tasks[id] == e.tasks[id].(queue := e'.tasks[id].queue))
  {}

  lemma MoveBacked(e: Engine, s: Step, e': Engine, start: set<int>, accepted: set<int>)
    requires Safe(e) && Move(e, s, e') && AllBacked(e, start, accepted)
    ensures AllBacked(e', start, accepted + AcceptedBy(e, s))
  {
    if s.Received? || s.Sized? || s.Accepted? || s.BodyEnded? || s.Failed? {
      TaskMoveBacked(e, s, e', start, accepted);
    } else {
      OtherMoveBacked(e, s, e', start, accepted);
      assert accepted + AcceptedBy(e, s) == accepted;
    }
  }

  ghost predicate StepBacks(e: Engine, e': Engine, start: set<int>, more: set<int>) {
    forall accepted :: AllBacked(e, start, accepted) ==> AllBacked(e', start, accepted + more)
  }

  lemma {:induction false} ChainBacked(es: seq<Engine>, start: set<int>, sets: seq<set<int>>, n: nat)
    requires |es| == |sets| + 1 && n <= |sets| && AllBacked(es[0], start, {})
    requires forall k :: 0 <= k < |sets| ==> StepBacks(es[k], es[k + 1], start, sets[k])
    ensures AllBacked(es[n], start, UnionTo(sets, n))
  {
    if n > 0 {
      ChainBacked(es, start, sets, n - 1);
      assert StepBacks(es[n - 1], es[n - 1 + 1], start, sets[n - 1]);
    }
  }

  lemma RunStepBacks(es: seq<Engine>, steps: seq<Step>, k: nat, start: set<int>)
    requires IsEngineRun(es, steps) && k < |steps|
    ensures StepBacks(es[k], es[k + 1], start, AcceptedBy(es[k], steps[k]))
  {
    EngineSafe(es, steps, k);
    forall accepted | AllBacked(es[k], start, accepted)
      ensures AllBacked(es[k + 1], start, accepted + AcceptedBy(es[k], steps[k]))
    {
      MoveBacked(es[k], steps[k], es[k + 1], start, accepted);
    }
  }

  /** Over any engine run, every completed byte was completed at the start or has been
      accepted by a sink since. */
  lemma CompletedWasAccepted(es: seq<Engine>, steps: seq<Step>, n: nat)
    requires IsEngineRun(es, steps) && n < |es|
    ensures es[n].plan.completed <= es[0].plan.completed + AcceptedIn(es, steps, n)
  {
    var sets := AcceptedSets(es, steps);
    forall k | 0 <= k < |sets| ensures StepBacks(es[k], es[k + 1], es[0].plan.completed, sets[k]) {
      RunStepBacks(es, steps, k, es[0].plan.completed);
    }
    ChainBacked(es, es[0].plan.completed, sets, n);
  }

  // ---------------------------------------------------------------- when a fetch succeeds

  /** What step `k` adds to what was accepted for `id`; `None` where there is no such task yet. */
  function Grant(es: seq<Engine>, steps: seq<Step>, k: nat, id: AssignId): Option<set<int>>
    requires k < |steps| <= |es|
  {
    if id !in es[k].tasks then None
    else Some(if steps[k] == Accepted(id) then AcceptedBy(es[k], steps[k]) else {})
  }

  function Grants(es: seq<Engine>, steps: seq<Step>, id: AssignId): (gs: seq<Option<set<int>>>)
    requires |steps| <= |es|
    ensures |gs| == |steps|
  {
    seq(|steps|, k requires 0 <= k < |steps| => Grant(es, steps, k, id))
  }

  function SinceStart(gs: seq<Option<set<int>>>, n: nat): set<int>
    requires n <= |gs|
  {
    if n == 0 || gs[n - 1].None? then {} else SinceStart(gs, n - 1) + gs[n - 1].value
  }

  /** The bytes a sink has accepted for the task `id` since it was started. */
  function AcceptedFor(es: seq<Engine>, steps: seq<Step>, n: nat, id: AssignId): set<int>
    requires n <= |steps| <= |es|
  {
    SinceStart(Grants(es, steps, id), n)
  }

  /** A fetch has passed exactly what was accepted for it. */
  predicate Tracks(t: Task, accepted: set<int>) {
    match t.fetch
    case NotStarted => accepted == {}
    case Reading(offset, _, _, _) => accepted == Span(ByteRange(t.Wire().start, offset))
    case Reported(_, delivered) => accepted == Span(ByteRange(t.Wire().start, delivered))
    case Broken => true
  }

  ghost predicate TracksAt(e: Engine, id: AssignId, accepted: set<int>) { id in e.tasks ==> Tracks(e.tasks[id], accepted) }

  lemma AcceptTracks(t: Task, t': Task, accepted: set<int>)
    requires AcceptStep(t, t') && Consistent(t) && Tracks(t, accepted)
    ensures Tracks(t', accepted + Span(ByteRange(t.fetch.offset, t.fetch.offset + t.fetch.pending)))
  {}

  lemma TaskStaysTracked(t: Task, t': Task, amount: nat, accepted: set<int>)
    requires Consistent(t) && Tracks(t, accepted) && t.request.start <= t.request.end
    requires (t.queue != [] && t' == Receive(t)) || SizeStep(t, t', amount) || BodyEndStep(t, t')
             || t' == t.(flag := None, fetch := Broken) || t' == t.(queue := t'.queue)
    ensures Tracks(t', accepted)
  {
    assert Span(ByteRange(t.Wire().start, t.Wire().start)) == {};
  }

  lemma MoveTracks(e: Engine, s: Step, e': Engine, id: AssignId, accepted: set<int>)
    requires Safe(e) && Move(e, s, e') && TracksAt(e, id, accepted)
    ensures TracksAt(e', id, if id !in e.tasks then {} else accepted + (if s == Accepted(id) then AcceptedBy(e, s) else {}))
  {
    assert accepted + {} == accepted;
    if id in e'.tasks {
      if !(s.Received? || s.Sized? || s.Accepted? || s.BodyEnded? || s.Failed?) {
        IdleTracks(e, s, e', id, accepted);
      } else if s.id == id {
        OwnMoveTracks(e, s, e', id, accepted);
      } else {
        OtherTask(e, s, e', id);
      }
    }
  }

  lemma OtherTask(e: Engine, s: Step, e': Engine, id: AssignId)
    requires Move(e, s, e') && (s.Received? || s.Sized? || s.Accepted? || s.BodyEnded? || s.Failed?) && s.id != id && id in e'.tasks
    ensures id in e.tasks && e'.tasks[id] == e.tasks[id]
  {}

  lemma IdleTracks(e: Engine, s: Step, e': Engine, id: AssignId, accepted: set<int>)
    requires Safe(e) && Move(e, s, e') && TracksAt(e, id, accepted) && id in e'.tasks
    requires !(s.Received? || s.Sized? || s.Accepted? || s.BodyEnded? || s.Failed?)
    ensures TracksAt(e', id, if id in e.tasks then accepted else {})
  {
    OnlyQueues(e, s, e', id);
    if id in e.tasks { Requeued(e, s, e', id); }
  }

  lemma Requeued(e: Engine, s: Step, e': Engine, id: AssignId)
    requires Move(e, s, e') && id in e'.tasks && id in e.tasks
    requires !(s.Received? || s.Sized? || s.Accepted? || s.BodyEnded? || s.Failed?)
    ensures e'.tasks[id] == e.tasks[id].(queue := e'.tasks[id].queue)
  {}

  lemma OwnMoveTracks(e: Engine, s: Step, e': Engine, id: AssignId, accepted: set<int>)
    requires Safe(e) && Move(e, s, e') && id in e.tasks && Tracks(e.tasks[id], accepted)
    requires (s.Received? || s.Sized? || s.Accepted? || s.BodyEnded? || s.Failed?) && s.id == id
    ensures id in e'.tasks && Tracks(e'.tasks[id], accepted + (if s == Accepted(id) then AcceptedBy(e, s) else {}))
  {
    if s.Accepted? {
      AcceptTracks(e.tasks[id], e'.tasks[id], accepted);
    } else {
      TaskStaysTracked(e.tasks[id], e'.tasks[id], if s.Sized? then s.amount else 0, accepted);
      assert accepted + {} == accepted;
    }
  }

  ghost predicate StepTracks(e: Engine, e': Engine, id: AssignId, g: Option<set<int>>) {
    forall accepted :: TracksAt(e, id, accepted) ==> TracksAt(e', id, if g.None? then {} else accepted + g.value)
  }

  lemma {:induction false} ChainTracks(es: seq<Engine>, id: AssignId, gs: seq<Option<set<int>>>, n: nat)
    requires |es| == |gs| + 1 && n <= |gs| && TracksAt(es[0], id, {})
    requires forall k :: 0 <= k < |gs| ==> StepTracks(es[k], es[k + 1], id, gs[k])
    ensures TracksAt(es[n], id, SinceStart(gs, n))
  {
    if n > 0 {
      ChainTracks(es, id, gs, n - 1);
      assert StepTracks(es[n - 1], es[n - 1 + 1], id, gs[n - 1]);
    }
  }

  lemma RunStepTracks(es: seq<Engine>, steps: seq<Step>, k: nat, id: AssignId)
    requires IsEngineRun(es, steps) && k < |steps|
    ensures StepTracks(es[k], es[k + 1], id, Grant(es, steps, k, id))
  {
    EngineSafe(es, steps, k);
    forall accepted | TracksAt(es[k], id, accepted)
      ensures TracksAt(es[k + 1], id, if Grant(es, steps, k, id).None? then {} else accepted + Grant(es, steps, k, id).value)
    {
      MoveTracks(es[k], steps[k], es[k + 1], id, accepted);
    }
  }

  lemma RunTracks(es: seq<Engine>, steps: seq<Step>, n: nat, id: AssignId)
    requires IsEngineRun(es, steps) && n < |es|
    ensures TracksAt(es[n], id, AcceptedFor(es, steps, n, id))
  {
    var gs := Grants(es, steps, id);
    forall k | 0 <= k < |gs| ensures StepTracks(es[k], es[k + 1], id, gs[k]) {
      RunStepTracks(es, steps, k, id);
    }
    ChainTracks(es, id, gs, n);
  }

  /** The end of a body is a success exactly if every byte of the wire range has been accepted
      for the task, and then it reports the whole request; otherwise the fetch has failed. */
  lemma BodyEndDecides(es: seq<Engine>, steps: seq<Step>, n: nat, id: AssignId)
    requires IsEngineRun(es, steps) && n < |steps| && steps[n] == BodyEnded(id)
    ensures id in es[n].tasks && id in es[n + 1].tasks
    ensures var t := es[n].tasks[id];
            es[n + 1].tasks[id].fetch ==
              if Span(t.Wire()) <= AcceptedFor(es, steps, n, id) then Reported(t.request, t.request.end) else Broken
  {
    assert Move(es[n], steps[n], es[n + 1]);
    EngineSafe(es, steps, n);
    RunTracks(es, steps, n, id);
    BodyEndAt(es[n].tasks[id], es[n + 1].tasks[id], AcceptedFor(es, steps, n, id));
  }

  lemma BodyEndAt(t: Task, t': Task, accepted: set<int>)
    requires BodyEndStep(t, t') && Consistent(t) && Tracks(t, accepted) && t.request.start <= t.request.end
    ensures t'.fetch == if Span(t.Wire()) <= accepted then Reported(t.request, t.request.end) else Broken
  {
    var end := t.Wire().end;
    assert t.fetch.offset < end ==> end - 1 in Span(t.Wire()) && end - 1 !in accepted;
  }

  /** Before the end of the body a fetch stops exactly if the flag lies before the wire's end and
      everything up to it has been accepted; it then reports what it has, and otherwise goes on. */
  lemma FlagStopDecides(es: seq<Engine>, steps: seq<Step>, n: nat, id: AssignId)
    requires IsEngineRun(es, steps) && n < |steps| && steps[n].Sized? && steps[n].id == id
    ensures id in es[n].tasks && id in es[n + 1].tasks && es[n].tasks[id].flag.Some? && es[n].tasks[id].fetch.Reading?
    ensures var t, t' := es[n].tasks[id], es[n + 1].tasks[id];
            var end := Min(t.flag.value, t.Wire().end);
            if Span(ByteRange(t.Wire().start, end)) <= AcceptedFor(es, steps, n, id)
            then t'.fetch == if t.flag.value < t.Wire().end
                             then Reported(ByteRange(t.request.start, Max(t.request.start, Min(t.fetch.offset, t.request.end))), t.fetch.offset)
                             else t.fetch
            else t'.fetch == t.fetch.(pending := steps[n].amount) && 0 < steps[n].amount <= end - t.fetch.offset
  {
    assert Move(es[n], steps[n], es[n + 1]);
    EngineSafe(es, steps, n);
    RunTracks(es, steps, n, id);
    FlagStopAt(es[n].tasks[id], es[n + 1].tasks[id], steps[n].amount, AcceptedFor(es, steps, n, id));
  }

  lemma FlagStopAt(t: Task, t': Task, amount: nat, accepted: set<int>)
    requires SizeStep(t, t', amount) && Consistent(t) && Tracks(t, accepted) && t.request.start <= t.request.end
    ensures var end := Min(t.flag.value, t.Wire().end);
            if Span(ByteRange(t.Wire().start, end)) <= accepted
            then t'.fetch == if t.flag.value < t.Wire().end
                             then Reported(ByteRange(t.request.start, Max(t.request.start, Min(t.fetch.offset, t.request.end))), t.fetch.offset)
                             else t.fetch
            else t'.fetch == t.fetch.(pending := amount) && 0 < amount <= end - t.fetch.offset
  {
    var end := Min(t.flag.value, t.Wire().end);
    assert t.fetch.offset < end ==> end - 1 in Span(ByteRange(t.Wire().start, end)) && end - 1 !in accepted;
  }

  /** A fetch that delivered everything, once it is handled, completes its worker's whole range. */
  lemma CompleteFetchCompletes(es: seq<Engine>, steps: seq<Step>, n: nat, id: AssignId)
    requires IsEngineRun(es, steps) && n + 1 < |steps| && steps[n] == BodyEnded(id) && id in es[n].plan.live
    requires id in es[n].tasks && Span(es[n].tasks[id].Wire()) <= AcceptedFor(es, steps, n, id)
    ensures steps[n + 1] == HandledVerified(id) ==>
              es[n + 2].plan.completed == es[n].plan.completed + Span(es[n].plan.live[id].range)
    ensures steps[n + 1] != HandledFailed(id, None) && forall r :: steps[n + 1] != HandledFailed(id, Some(r))
  {
    BodyEndDecides(es, steps, n, id);
    assert Move(es[n], steps[n], es[n + 1]) && Move(es[n + 1], steps[n + 1], es[n + 2]);
    if steps[n + 1] == HandledVerified(id) { FinishReleasesNothing(es, steps, n + 1); }
  }

  // ---------------------------------------------------------------- cuts arrive

  /** No truncation is lost in this step. */
  predicate Sent(s: Step) {
    && (s.Claimed? ==> s.sent)
    && (s.Rebalanced? ==> forall id :: id in s.stragglers ==> id in s.notified)
  }

  function Word(c: Command): nat {
    match c
    case StartRange(end) => end
    case Truncate(newEnd) => newEnd
  }

  /** The last word a task has been given, on the way or in the flag. */
  function LastWord(t: Task): Option<nat> { if t.queue == [] then t.flag else Some(Word(t.queue[|t.queue| - 1])) }

  predicate OnlyCuts(queue: seq<Command>) { forall i :: 0 <= i < |queue| ==> queue[i].Truncate? }

  /** The last word is `end`; a start comes before all cuts. */
  predicate Told(t: Task, end: nat) {
    && (t.fetch.NotStarted? ==> t.queue != [] && t.queue[0].StartRange? && OnlyCuts(t.queue[1..]) && LastWord(t) == Some(end))
    && (t.fetch.Reading? ==> t.flag.Some? && OnlyCuts(t.queue) && LastWord(t) == Some(end))
  }

  ghost predicate AllTold(e: Engine) {
    forall id :: id in e.tasks && id in e.plan.live ==> Told(e.tasks[id], e.plan.live[id].range.end)
  }

  lemma NewTold(a: Assignment)
    ensures Told(NewTask(a), a.range.end)
  {}

  lemma CutTold(t: Task, end: nat, newEnd: nat)
    requires Told(t, end)
    ensures Told(t.(queue := t.queue + [Truncate(newEnd)]), newEnd)
  {
    var queue := t.queue + [Truncate(newEnd)];
    assert t.queue != [] ==> queue[1..] == t.queue[1..] + [Truncate(newEnd)];
  }

  lemma ReceiveTold(t: Task, end: nat)
    requires t.queue != [] && Told(t, end)
    ensures Told(Receive(t), end)
  {}

  /** A rebalance shortens nobody but the given stragglers. */
  lemma {:induction false} RebalanceOthers(v: View, ids: seq<AssignId>, id: AssignId)
    requires id in v.live && id !in ids
    ensures id in RebalanceView(v, ids).live && RebalanceView(v, ids).live[id] == v.live[id]
  {
    if ids != [] { RebalanceOthers(v, ids[..|ids| - 1], id); }
  }

  lemma ClaimTold(e: Engine, e': Engine, req: Request, o: Claim)
    requires AllTold(e) && Move(e, Claimed(req, o, true), e')
    ensures AllTold(e')
  {
    match o
    case Fresh(id) =>
      FreshGrows(e.plan, e'.plan, req, id);
      NewTold(e'.plan.live[id]);
    case Stolen(new_, from) =>
      StealGrows(e.plan, e'.plan, req, new_, from);
      NewTold(e'.plan.live[new_]);
      if from in e.tasks { CutTold(e.tasks[from], e.plan.live[from].range.end, e'.plan.live[from].range.end); }
    case _ =>
  }

  lemma RebalanceTold(e: Engine, e': Engine, ids: seq<AssignId>, notified: set<AssignId>)
    requires Safe(e) && AllTold(e) && Move(e, Rebalanced(ids, notified), e') && forall id :: id in ids ==> id in notified
    ensures AllTold(e')
  {
    RebalanceInv(e.plan, ids);
    forall id | id in e'.tasks && id in e'.plan.live ensures Told(e'.tasks[id], e'.plan.live[id].range.end) {
      ShortenedTold(e.tasks[id], e.plan, ids, id, notified);
    }
  }

  lemma ShortenedTold(t: Task, v: View, ids: seq<AssignId>, id: AssignId, notified: set<AssignId>)
    requires Inv(v) && id in v.live && Told(t, v.live[id].range.end) && forall i :: i in ids ==> i in notified
    ensures id in RebalanceView(v, ids).live
    ensures var end := RebalanceView(v, ids).live[id].range.end;
            Told(if id in notified && end < v.live[id].range.end then t.(queue := t.queue + [Truncate(end)]) else t, end)
  {
    RebalanceShortens(v, ids, id);
    if id !in ids { RebalanceOthers(v, ids, id); }
    CutTold(t, v.live[id].range.end, RebalanceView(v, ids).live[id].range.end);
  }

  lemma TaskTold(e: Engine, s: Step, e': Engine)
    requires AllTold(e) && Move(e, s, e') && (s.Received? || s.Sized? || s.Accepted? || s.BodyEnded? || s.Failed?)
    ensures AllTold(e')
  {
    if s.Received? && s.id in e.plan.live { ReceiveTold(e.tasks[s.id], e.plan.live[s.id].range.end); }
  }

  lemma EndTold(e: Engine, s: Step, e': Engine)
    requires AllTold(e) && Move(e, s, e') && (s.HandledVerified? || s.HandledFailed? || s.Quarantined? || s.PlanOnly?)
    ensures AllTold(e')
  {
    if s.PlanOnly? { EventKeepsRanges(e.plan, s.event, e'.plan); }
  }

  lemma MoveTold(e: Engine, s: Step, e': Engine)
    requires Safe(e) && AllTold(e) && Move(e, s, e') && Sent(s)
    ensures AllTold(e')
  {
    match s
    case Claimed(req, o, _) => ClaimTold(e, e', req, o);
    case Rebalanced(ids, notified) => RebalanceTold(e, e', ids, notified);
    case Received(_) => TaskTold(e, s, e');
    case Sized(_, _) => TaskTold(e, s, e');
    case Accepted(_) => TaskTold(e, s, e');
    case BodyEnded(_) => TaskTold(e, s, e');
    case Failed(_) => TaskTold(e, s, e');
    case _ => EndTold(e, s, e');
  }

  lemma {:induction false} RunTold(es: seq<Engine>, steps: seq<Step>, n: nat)
    requires IsEngineRun(es, steps) && n < |es| && forall k :: 0 <= k < |steps| ==> Sent(steps[k])
    ensures AllTold(es[n])
  {
    if n > 0 {
      RunTold(es, steps, n - 1);
      EngineSafe(es, steps, n - 1);
      MoveTold(es[n - 1], steps[n - 1], es[n]);
    }
  }

  /** Where no truncation is lost, a running fetch that has received all its commands stops exactly
      at the end the plan assigns to it now. */
  lemma FlagCatchesUp(es: seq<Engine>, steps: seq<Step>, n: nat, id: AssignId)
    requires IsEngineRun(es, steps) && n < |es| && forall k :: 0 <= k < |steps| ==> Sent(steps[k])
    requires id in es[n].tasks && id in es[n].plan.live && es[n].tasks[id].fetch.Reading? && es[n].tasks[id].queue == []
    ensures es[n].tasks[id].flag == Some(es[n].plan.live[id].range.end)
  {
    RunTold(es, steps, n);
  }

  /** And one that has not been started yet will be by its next command. */
  lemma StartComesFirst(es: seq<Engine>, steps: seq<Step>, n: nat, id: AssignId)
    requires IsEngineRun(es, steps) && n < |steps| && forall k :: 0 <= k < |steps| ==> Sent(steps[k])
    requires id in es[n].tasks && id in es[n].plan.live && es[n].tasks[id].fetch.NotStarted?
    ensures es[n].tasks[id].queue != []
    ensures steps[n] == Received(id) ==>
              id in es[n + 1].tasks && es[n + 1].tasks[id].fetch == Reading(es[n].tasks[id].Wire().start, 0, 0, 0)
  {
    RunTold(es, steps, n);
    assert Move(es[n], steps[n], es[n + 1]);
  }

  /** A quarantined worker's fetch, once told, stops where it is. */
  lemma QuarantineStops(e: Engine, e': Engine, id: AssignId)
    requires Move(e, Quarantined(id, true), e') && id in e.tasks
    ensures id !in e'.plan.live && id in e'.tasks && LastWord(e'.tasks[id]) == Some(e.plan.live[id].Cursor())
  {}

  // ---------------------------------------------------------------- a run from start to end

  const WHOLE := ByteRange(0, 8)

  function Eight(live: map<AssignId, Assignment>, completed: set<int>, tasks: map<AssignId, Task>): Engine {
    Engine(EIGHT.(live := live, completed := completed, claimed := Upto(8)), tasks)
  }

  function At8(queue: seq<Command>, flag: Option<nat>, fetch: Fetch): Engine {
    Eight(map[0 := Owner8()], {}, map[0 := Task(WHOLE, 0, queue, flag, fetch)])
  }

  /** One worker claims a file of 8 bytes, is started, delivers it in one chunk and reports it; the
      file is complete then. */
  lemma OneFetchCompletes() returns (es: seq<Engine>, steps: seq<Step>)
    ensures IsEngineRun(es, steps) && es[0] == Engine(EIGHT, map[]) && es[|steps|].plan.completed == Upto(8)
  {
    var e0 := Engine(EIGHT, map[]);
    var e1 := At8([StartRange(8)], None, NotStarted);
    var e2 := At8([], Some(8), Reading(0, 0, 0, 0));
    var e3 := At8([], Some(8), Reading(0, 0, 0, 8));
    var e4 := At8([], Some(8), Reading(8, 8, 8, 0));
    var e5 := At8([], None, Reported(WHOLE, 8));
    var e6 := Eight(map[], Upto(8), map[]);
    FirstClaim8(e0, e1);
    Deliver8(e1, e2, e3, e4, e5);
    LastFinish8(e5, e6);
    es, steps := [e0], [];
    es, steps := OneStepOn(es, steps, Claimed(ASK, Fresh(0), true), e1);
    es, steps := OneStepOn(es, steps, Received(0), e2);
    es, steps := OneStepOn(es, steps, Sized(0, 8), e3);
    es, steps := OneStepOn(es, steps, Accepted(0), e4);
    es, steps := OneStepOn(es, steps, BodyEnded(0), e5);
    es, steps := OneStepOn(es, steps, HandledVerified(0), e6);
  }

  lemma OneStepOn(es: seq<Engine>, steps: seq<Step>, s: Step, e: Engine) returns (es': seq<Engine>, steps': seq<Step>)
    requires IsEngineRun(es, steps) && Move(es[|steps|], s, e)
    ensures IsEngineRun(es', steps') && es'[0] == es[0] && |steps'| == |steps| + 1 && es'[|steps'|] == e
  {
    es', steps' := es + [e], steps + [s];
    forall i | 0 <= i < |steps'| ensures Move(es'[i], steps'[i], es'[i + 1]) {
      if i < |steps| { assert es'[i] == es[i] && steps'[i] == steps[i] && es'[i + 1] == es[i + 1]; }
    }
  }

  lemma FirstClaim8(e0: Engine, e1: Engine)
    requires e0 == Engine(EIGHT, map[]) && e1 == At8([StartRange(8)], None, NotStarted)
    ensures Init(e0.plan) && Move(e0, Claimed(ASK, Fresh(0), true), e1)
  {
    ClaimsAllEight();
    assert e1.plan == Claimed8();
    assert NewTask(Owner8()) == Task(WHOLE, 0, [StartRange(8)], None, NotStarted);
  }

  lemma Deliver8(e1: Engine, e2: Engine, e3: Engine, e4: Engine, e5: Engine)
    requires e1 == At8([StartRange(8)], None, NotStarted) && e2 == At8([], Some(8), Reading(0, 0, 0, 0))
    requires e3 == At8([], Some(8), Reading(0, 0, 0, 8)) && e4 == At8([], Some(8), Reading(8, 8, 8, 0))
    requires e5 == At8([], None, Reported(WHOLE, 8))
    ensures Move(e1, Received(0), e2) && Move(e2, Sized(0, 8), e3) && Move(e3, Accepted(0), e4) && Move(e4, BodyEnded(0), e5)
  {
    assert [StartRange(8)][1..] == [];
  }

  lemma LastFinish8(e5: Engine, e6: Engine)
    requires e5 == At8([], None, Reported(WHOLE, 8)) && e6 == Eight(map[], Upto(8), map[])
    ensures Move(e5, HandledVerified(0), e6)
  {
    var v := e5.plan;
    assert Bytes([]) == {};
    assert Span(WHOLE) == Upto(8);
    assert VerifiedView(v, 0, WHOLE) == v.(completed := Upto(8));
    assert v.live - {0} == map[];
    assert VerifyFinishView(v, 0, WHOLE) == e6.plan;
  }

  /** The combined system keeps the partition at all times. */
  lemma EngineIsPartitioned(es: seq<Engine>, steps: seq<Step>, n: nat)
    requires IsEngineRun(es, steps) && n < |es|
    ensures Partitioned(es[n].plan)
  {
    EngineSafe(es, steps, n);
    InvPartitions(es[n].plan);
  }

  /** Results of an assignment the plan has dropped change nothing. */
  lemma LateResultIgnored(e: Engine, e': Engine, id: AssignId)
    requires Move(e, HandledVerified(id), e') && id !in e.plan.live
    ensures e'.plan == e.plan
  {}

  // ---------------------------------------------------------------- an engine that reports no progress

  /** Nothing was ever reported about this assignment while it ran. */
  predicate Blank(a: Assignment) {
    a.rate == Cold && a.wireReceived == 0 && a.submitted == 0 && a.committed == []
  }

  ghost predicate AllBlank(v: View) { forall id :: id in v.live ==> Blank(v.live[id]) }

  /** No wire, submit or commit report reaches the plan.  The engine sends it none. */
  predicate Silent(s: Step) { s.PlanOnly? ==> s.event.ReleaseEvent? || s.event.ClampEvent? }

  lemma {:induction false} BlankRebalance(v: View, ids: seq<AssignId>)
    requires AllBlank(v)
    ensures RebalanceView(v, ids) == v
  {
    if ids != [] { BlankRebalance(v, ids[..|ids| - 1]); }
  }

  lemma BlankClaim(v: View, v': View, req: Request, o: Claim)
    requires AllBlank(v) && ClaimStep(v, v', req, o)
    ensures AllBlank(v')
  {
    if o.Fresh? && !(Upto(v.total) <= v.completed) {
      var gap :| GapFor(v, gap, req.now) && v' == Added(v, o.id, FreshAssignment(v, req, gap));
    }
  }

  lemma BlankStep(e: Engine, s: Step, e': Engine)
    requires AllBlank(e.plan) && Move(e, s, e') && Silent(s)
    ensures AllBlank(e'.plan)
  {
    match s
    case Claimed(req, o, _) => BlankClaim(e.plan, e'.plan, req, o);
    case Rebalanced(ids, _) => BlankRebalance(e.plan, ids);
    case _ =>
  }

  lemma {:induction false} SilentRunIsBlank(es: seq<Engine>, steps: seq<Step>, n: nat)
    requires IsEngineRun(es, steps) && n < |es|
    requires forall k :: 0 <= k < |steps| ==> Silent(steps[k])
    ensures AllBlank(es[n].plan)
  {
    if n > 0 {
      SilentRunIsBlank(es, steps, n - 1);
      BlankStep(es[n - 1], steps[n - 1], es[n - 1 + 1]);
    }
  }

  lemma BlankFleet(f: Fleet, ids: seq<AssignId>, v: View)
    requires AllBlank(v) && Segments.FleetOf(f, ids, v.live)
    ensures f.Nobody?
  {}

  /** Without progress reports no rate ever warms up: whatever fleet is measured is empty,
      so nobody is a straggler, a rebalance changes nothing, and a steal protects nothing
      of its victim. */
  lemma SilentEngineNeverRebalances(es: seq<Engine>, steps: seq<Step>, n: nat)
    requires IsEngineRun(es, steps) && n < |es|
    requires forall k :: 0 <= k < |steps| ==> Silent(steps[k])
    ensures forall f, ids :: Segments.FleetOf(f, ids, es[n].plan.live) ==> f.Nobody?
    ensures forall ids :: RebalanceView(es[n].plan, ids) == es[n].plan
    ensures forall id :: id in es[n].plan.live ==> Protected(es[n].plan.live[id]) == es[n].plan.live[id].range.start
  {
    SilentRunIsBlank(es, steps, n);
    forall ids ensures RebalanceView(es[n].plan, ids) == es[n].plan {
      BlankRebalance(es[n].plan, ids);
    }
    forall f, ids | Segments.FleetOf(f, ids, es[n].plan.live) ensures f.Nobody? {
      BlankFleet(f, ids, es[n].plan);
    }
  }
}
