/** The controller's slot accounting: the engine-wide ceiling, the per-connection
    in-flight counters and the pump that fills them. */
module Slots {
  import opened Basics
  import opened Tallies
  import opened Fairness
  import opened Jobs

  type ConnId = nat

  datatype Protocol = Http1 | Http2 | Http3

  datatype Status = Connecting | Ready | Retired

  datatype Connection = Connection(origin: OriginId, status: Status, protocol: Protocol)

  /** `after` is `before` and further assignments on `conns`. */
  predicate Extends(after: map<Ticket, ConnId>, before: map<Ticket, ConnId>, conns: seq<ConnId>) {
    && before.Items <= after.Items
    && forall t :: t in after && t !in before ==> after[t] in conns
  }

  /** Each of the steps is a claim for the least served of the jobs that turn sees. */
  ghost predicate AreClaims(steps: seq<Step>, eligible: nat -> set<JobId>, transferring: set<JobId>) {
    forall k :: 0 <= k < |steps| ==> steps[k].Claim? && steps[k].runnable == eligible(k) * transferring
  }

  /** A run of claims, one for each turn of a pump. */
  ghost predicate Pumping(from: State, to: State, ss: seq<State>, steps: seq<Step>, eligible: nat -> set<JobId>, transferring: set<JobId>) {
    Moves(from, to, ss, steps) && AreClaims(steps, eligible, transferring)
  }

  lemma PumpingOn(from: State, mid: State, ss: seq<State>, steps: seq<Step>, eligible: nat -> set<JobId>,
                  transferring: set<JobId>, job: JobId, to: State)
    requires Pumping(from, mid, ss, steps, eligible, transferring)
    requires Next(mid, Fairness.Claim(eligible(|steps|) * transferring, job), to)
    ensures Pumping(from, to, ss + [to], steps + [Fairness.Claim(eligible(|steps|) * transferring, job)], eligible, transferring)
  {
    MovesOn(from, mid, ss, steps, Fairness.Claim(eligible(|steps|) * transferring, job), to);
  }

  lemma ExtendsOn(a: map<Ticket, ConnId>, b: map<Ticket, ConnId>, c: map<Ticket, ConnId>, conns: seq<ConnId>)
    requires Extends(b, a, conns) && Extends(c, b, conns)
    ensures Extends(c, a, conns)
  {
    forall t | t in c && t !in a ensures c[t] in conns {
      assert t in b ==> (t, b[t]) in b.Items;
    }
  }

  /** The tables after the end of an assignment of `job`: weight times what a live job's service
      grew by is what was verified, while the connection is `known`; nobody else's service moves. */
  ghost predicate Settled(before: State, after: State, job: JobId, known: bool, bytes: nat, weight: real) {
    && after.service.Keys == before.service.Keys
    && (forall j :: j in after.service && j != job ==> after.service[j] == before.service[j])
    && (job in after.service ==> (after.service[job] - before.service[job]) * weight == if known then bytes as real else 0.0)
    && weight > 0.0
    && if job !in before.service then after == before
       else Next(before, if known then Fairness.Verified(job, bytes, weight) else Fairness.Failed(job), after)
  }

  // ---------------------------------------------------------------- what the controller keeps

  function On(inFlight: map<ConnId, nat>, c: ConnId): nat { if c in inFlight then inFlight[c] else 0 }

  /** The counters count what is outstanding. */
  ghost predicate Counting(ceiling: nat, active: nat, connections: map<ConnId, Connection>,
                           inFlight: map<ConnId, nat>, outstanding: map<Ticket, ConnId>)
  {
    && active == |outstanding| && active <= ceiling && inFlight.Keys <= connections.Keys
    && forall c :: c in connections ==> On(inFlight, c) == CountOn(outstanding, c)
  }

  ghost predicate OneEach(connections: map<ConnId, Connection>, inFlight: map<ConnId, nat>) {
    forall c :: c in connections && connections[c].protocol.Http1? ==> On(inFlight, c) <= 1
  }

  /** Ids are below the ones that come next. */
  ghost predicate Numbered(connections: map<ConnId, Connection>, outstanding: map<Ticket, ConnId>,
                           nextConn: ConnId, nextTicket: Ticket)
  {
    && (forall c :: c in connections ==> c < nextConn)
    && (forall t :: t in outstanding ==> t < nextTicket && outstanding[t] < nextConn)
  }

  lemma BookKeeps(ceiling: nat, active: nat, connections: map<ConnId, Connection>,
                  inFlight: map<ConnId, nat>, outstanding: map<Ticket, ConnId>, c: ConnId, t: Ticket)
    requires Counting(ceiling, active, connections, inFlight, outstanding) && OneEach(connections, inFlight)
    requires c in connections && active < ceiling && t !in outstanding
    requires connections[c].protocol.Http1? ==> On(inFlight, c) == 0
    ensures Counting(ceiling, active + 1, connections, inFlight[c := On(inFlight, c) + 1], outstanding[t := c])
    ensures OneEach(connections, inFlight[c := On(inFlight, c) + 1])
  {
    CountsAfterStart(outstanding, t, c);
  }

  function Returned(inFlight: map<ConnId, nat>, c: ConnId): map<ConnId, nat> {
    if c in inFlight then inFlight[c := Minus(inFlight[c], 1)] else inFlight
  }

  lemma ReturnKeeps(ceiling: nat, active: nat, connections: map<ConnId, Connection>,
                    inFlight: map<ConnId, nat>, outstanding: map<Ticket, ConnId>, t: Ticket)
    requires Counting(ceiling, active, connections, inFlight, outstanding) && OneEach(connections, inFlight)
    requires t in outstanding
    ensures active > 0 && (outstanding[t] in connections ==> On(inFlight, outstanding[t]) > 0)
    ensures Counting(ceiling, active - 1, connections, Returned(inFlight, outstanding[t]), outstanding - {t})
    ensures OneEach(connections, Returned(inFlight, outstanding[t]))
  {
    CountsAfterEnd(outstanding, t);
  }

  lemma DropKeeps(ceiling: nat, active: nat, connections: map<ConnId, Connection>, inFlight: map<ConnId, nat>,
                  outstanding: map<Ticket, ConnId>, nextConn: ConnId, nextTicket: Ticket,
                  c: ConnId, connections': map<ConnId, Connection>, inFlight': map<ConnId, nat>)
    requires Counting(ceiling, active, connections, inFlight, outstanding) && OneEach(connections, inFlight)
    requires Numbered(connections, outstanding, nextConn, nextTicket)
    requires connections' == connections - {c} && inFlight' == inFlight - {c}
    ensures Counting(ceiling, active, connections', inFlight', outstanding) && OneEach(connections', inFlight')
    ensures Numbered(connections', outstanding, nextConn, nextTicket)
  {}

  class Controller {
    var ceiling: nat
    var active: nat
    var connections: map<ConnId, Connection>
    var inFlight: map<ConnId, nat>
    var targetStreams: map<OriginId, nat>
    const jobs: JobTable
    /** Started assignments without a terminal observation, and their connection. */
    var outstanding: map<Ticket, ConnId>
    /** Ids of connections and assignments are never reused. */
    var nextConn: ConnId
    var nextTicket: Ticket

    ghost predicate Counted()
      reads this, jobs
    {
      && jobs.Valid() && jobs.owners.Keys == outstanding.Keys
      && Counting(ceiling, active, connections, inFlight, outstanding)
      && Numbered(connections, outstanding, nextConn, nextTicket)
    }

    ghost predicate Valid()
      reads this, jobs
    {
      Counted() && OneEach(connections, inFlight)
    }

    constructor (maxActive: nat)
      ensures Valid() && fresh(jobs) && active == 0 && outstanding == map[] && ceiling == if maxActive < 1 then 1 else maxActive
      ensures connections == map[] && inFlight == map[] && targetStreams == map[]
      ensures jobs.Tables() == State(map[], map[], map[], {})
    {
      ceiling := if maxActive < 1 then 1 else maxActive;
      active, connections, inFlight, targetStreams, outstanding := 0, map[], map[], map[], map[];
      nextConn, nextTicket := 0, 0;
      jobs := new JobTable();
    }

    method SetTargetStreams(origin: OriginId, target: nat)
      requires Valid()
      modifies this`targetStreams
      ensures Valid() && targetStreams == old(targetStreams)[origin := target]
    {
      targetStreams := targetStreams[origin := target];
    }

    // ---------------------------------------------------------------- connections

    function InFlightOn(c: ConnId): nat
      reads this
    {
      On(inFlight, c)
    }

    /** One request at a time on HTTP/1.1, the origin's stream target on the others. */
    function StreamCapacity(c: ConnId): nat
      reads this
    {
      if c !in connections || !connections[c].status.Ready? then 0
      else if connections[c].protocol.Http1? then 1
      else if connections[c].origin in targetStreams && targetStreams[connections[c].origin] > 1
      then targetStreams[connections[c].origin] else 1
    }

    method Dial(origin: OriginId) returns (c: ConnId)
      requires Valid()
      modifies this`connections, this`nextConn
      ensures Valid() && c !in old(connections)
      ensures connections == old(connections)[c := Connection(origin, Connecting, Http1)]
    {
      c := nextConn;
      nextConn := nextConn + 1;
      NoneOn(outstanding, c);
      connections := connections[c := Connection(origin, Connecting, Http1)];
    }

    /** The first report finds the connection idle.  A later one that turns a connection
        with several assignments into HTTP/1.1 would break the rule of one at a time, and
        nothing else does. */
    method ConnectionReady(c: ConnId, protocol: Protocol)
      requires Valid()
      modifies this`connections
      ensures Counted()
      ensures OneEach(connections, inFlight) <==> c !in old(connections) || !protocol.Http1? || InFlightOn(c) <= 1
      ensures connections == if c in old(connections)
                             then old(connections)[c := old(connections)[c].(status := Ready, protocol := protocol)]
                             else old(connections)
    {
      if c in connections {
        ghost var before := connections;
        connections := connections[c := connections[c].(status := Ready, protocol := protocol)];
        assert connections[c].protocol == protocol;
        assert forall o :: o in connections && o != c ==> connections[o] == before[o];
      }
    }

    method Retire(c: ConnId)
      requires Valid()
      modifies this`connections
      ensures Valid()
      ensures connections == if c in old(connections) then old(connections)[c := old(connections)[c].(status := Retired)] else old(connections)
    {
      if c in connections {
        connections := connections[c := connections[c].(status := Retired)];
      }
    }

    method DropConnection(c: ConnId)
      requires Counting(ceiling, active, connections, inFlight, outstanding) && OneEach(connections, inFlight)
      requires Numbered(connections, outstanding, nextConn, nextTicket)
      modifies this`connections, this`inFlight
      ensures Counting(ceiling, active, connections, inFlight, outstanding) && OneEach(connections, inFlight)
      ensures Numbered(connections, outstanding, nextConn, nextTicket)
      ensures connections == old(connections) - {c}
    {
      var conns, flights := connections - {c}, inFlight - {c};
      DropKeeps(ceiling, active, connections, inFlight, outstanding, nextConn, nextTicket, c, conns, flights);
      connections, inFlight := conns, flights;
    }

    /** No HTTP/1.1 connection ever carries two assignments at once. */
    lemma Http1CarriesOne(c: ConnId, t: Ticket, u: Ticket)
      requires Valid() && c in connections && connections[c].protocol.Http1?
      requires t in outstanding && u in outstanding && outstanding[t] == c && outstanding[u] == c
      ensures t == u
    {
      AtMostOne(outstanding, c, t, u);
    }

    // ---------------------------------------------------------------- claiming

    method PickWfqJob(runnable: set<JobId>) returns (best: JobId, found: bool)
      requires runnable <= jobs.service.Keys
      ensures found <==> active < ceiling && runnable != {}
      ensures found ==> best in runnable && forall o :: o in runnable ==>
                jobs.service[best] < jobs.service[o] || (jobs.service[best] == jobs.service[o] && best <= o)
    {
      if active >= ceiling {
        return 0, false;
      }
      best, found := PickLeast(jobs.service, runnable);
    }

    /** Claims at most one assignment on `c`.  `eligible` are the jobs that could use the
        connection's origin if they are transferring; `claims` says whether the picked job's
        plan hands out a piece. */
    method ClaimOne(c: ConnId, eligible: set<JobId>, claims: bool) returns (started: bool, job: JobId)
      requires Valid()
      requires InFlightOn(c) < StreamCapacity(c)
      modifies this`active, this`inFlight, this`outstanding, this`nextTicket, jobs
      ensures Valid()
      ensures started <==> old(active) < ceiling && eligible * old(jobs.transferring) != {} && claims
      ensures outstanding == if started then old(outstanding)[old(nextTicket) := c] else old(outstanding)
      ensures active == old(active) + (if started then 1 else 0)
      ensures if started then Next(old(jobs.Tables()), Fairness.Claim(eligible * old(jobs.transferring), job), jobs.Tables())
              else jobs.Tables() == old(jobs.Tables())
    {
      started, job := false, 0;
      if c !in connections || !connections[c].status.Ready? {
        return;
      }
      var found;
      job, found := PickWfqJob(eligible * jobs.transferring);
      if !found || !claims {
        return;
      }
      jobs.Claim(nextTicket, eligible * jobs.transferring, job);
      Book(c);
      started := true;
    }

    /** Counts a new assignment on `c`. */
    method Book(c: ConnId)
      requires Counting(ceiling, active, connections, inFlight, outstanding) && OneEach(connections, inFlight)
      requires Numbered(connections, outstanding, nextConn, nextTicket)
      requires c in connections && active < ceiling && InFlightOn(c) < StreamCapacity(c)
      modifies this`active, this`inFlight, this`outstanding, this`nextTicket
      ensures Counting(ceiling, active, connections, inFlight, outstanding) && OneEach(connections, inFlight)
      ensures Numbered(connections, outstanding, nextConn, nextTicket)
      ensures outstanding == old(outstanding)[old(nextTicket) := c] && active == old(active) + 1
    {
      BookKeeps(ceiling, active, connections, inFlight, outstanding, c, nextTicket);
      inFlight, active := inFlight[c := On(inFlight, c) + 1], active + 1;
      outstanding, nextTicket := outstanding[nextTicket := c], nextTicket + 1;
    }

    /** No free stream: not ready, or its one request is out on HTTP/1.1, or as many as its origin
        aims for, one at least, on the others. */
    predicate Busy(c: ConnId)
      reads this
    {
      c in connections && connections[c].status.Ready? ==>
        if connections[c].protocol.Http1? then InFlightOn(c) >= 1
        else
          InFlightOn(c) >= 1 &&
          (connections[c].origin in targetStreams ==> InFlightOn(c) >= targetStreams[connections[c].origin])
    }

    /** The least loaded ready connection of `conns` with a free stream. */
    method BestConnection(conns: seq<ConnId>) returns (best: ConnId, found: bool)
      ensures found ==> best in conns && InFlightOn(best) < StreamCapacity(best) && !Busy(best)
      ensures found ==> forall c :: c in conns && !Busy(c) ==> InFlightOn(best) <= InFlightOn(c)
      ensures !found ==> forall c :: c in conns ==> Busy(c)
    {
      best, found := 0, false;
      for i := 0 to |conns|
        invariant found ==> best in conns[..i] && InFlightOn(best) < StreamCapacity(best)
        invariant found ==> forall c :: c in conns[..i] && InFlightOn(c) < StreamCapacity(c) ==> InFlightOn(best) <= InFlightOn(c)
        invariant !found ==> forall c :: c in conns[..i] ==> InFlightOn(c) >= StreamCapacity(c)
      {
        var c := conns[i];
        assert conns[..i + 1] == conns[..i] + [c];
        if InFlightOn(c) < StreamCapacity(c) && (!found || InFlightOn(c) < InFlightOn(best)) {
          best, found := c, true;
        }
      }
      assert conns[..|conns|] == conns;
    }

    /** Fills free streams until the ceiling, the connections or the jobs run out.  Turn
        `k` sees the eligible jobs `eligible(k)` and the plan's answer `claims(k)`. */
    method Pump(conns: seq<ConnId>, eligible: nat -> set<JobId>, claims: nat -> bool)
      returns (started: nat, ghost ss: seq<State>, ghost steps: seq<Step>)
      requires Valid()
      modifies this`active, this`inFlight, this`outstanding, this`nextTicket, jobs
      ensures Valid()
      ensures active == old(active) + started
      ensures Extends(outstanding, old(outstanding), conns)
      // every start is a claim for the least served of the jobs that turn sees
      ensures Pumping(old(jobs.Tables()), jobs.Tables(), ss, steps, eligible, jobs.transferring) && |steps| == started
      // it stops only when nothing more can be started
      ensures active == ceiling || (forall c :: c in conns ==> Busy(c))
              || eligible(started) * jobs.transferring == {} || !claims(started)
    {
      started, ss, steps := 0, [jobs.Tables()], [];
      while active < ceiling
        invariant Valid() && active == old(active) + started
        invariant Extends(outstanding, old(outstanding), conns) && jobs.transferring == old(jobs.transferring)
        invariant Pumping(old(jobs.Tables()), jobs.Tables(), ss, steps, eligible, jobs.transferring) && |steps| == started
        decreases ceiling - active
      {
        ghost var mid, given := jobs.Tables(), outstanding;
        var ok, job := PumpOnce(conns, eligible(started), claims(started));
        if !ok {
          return;
        }
        ExtendsOn(old(outstanding), given, outstanding, conns);
        PumpingOn(old(jobs.Tables()), mid, ss, steps, eligible, jobs.transferring, job, jobs.Tables());
        ss, steps := ss + [jobs.Tables()], steps + [Fairness.Claim(eligible(started) * jobs.transferring, job)];
        started := started + 1;
      }
    }

    /** One turn of the pump. */
    method PumpOnce(conns: seq<ConnId>, eligible: set<JobId>, claims: bool) returns (ok: bool, job: JobId)
      requires Valid() && active < ceiling
      modifies this`active, this`inFlight, this`outstanding, this`nextTicket, jobs
      ensures Valid() && jobs.transferring == old(jobs.transferring)
      ensures Extends(outstanding, old(outstanding), conns)
      ensures active == old(active) + (if ok then 1 else 0)
      ensures ok ==> Next(old(jobs.Tables()), Fairness.Claim(eligible * jobs.transferring, job), jobs.Tables())
      ensures !ok ==> jobs.Tables() == old(jobs.Tables()) && outstanding == old(outstanding)
      ensures !ok ==> (forall c :: c in conns ==> Busy(c)) || eligible * jobs.transferring == {} || !claims
    {
      ok, job := false, 0;
      var best, found := BestConnection(conns);
      if found {
        ok, job := ClaimOne(best, eligible, claims);
      }
    }

    // ---------------------------------------------------------------- terminal observations

    /** Gives back the slot of `ticket`; neither subtraction can clip. */
    method ReleaseSlot(ticket: Ticket, connection: ConnId)
      requires Counting(ceiling, active, connections, inFlight, outstanding) && OneEach(connections, inFlight)
      requires Numbered(connections, outstanding, nextConn, nextTicket)
      requires ticket in outstanding && outstanding[ticket] == connection
      modifies this`active, this`inFlight, this`outstanding
      ensures Counting(ceiling, active, connections, inFlight, outstanding) && OneEach(connections, inFlight)
      ensures Numbered(connections, outstanding, nextConn, nextTicket)
      ensures outstanding == old(outstanding) - {ticket} && active == old(active) - 1
      ensures connection in connections ==> InFlightOn(connection) == old(InFlightOn(connection)) - 1
    {
      ReturnKeeps(ceiling, active, connections, inFlight, outstanding, ticket);
      active := Minus(active, 1);
      inFlight := Returned(inFlight, connection);
      outstanding := outstanding - {ticket};
    }

    /** A verified response: the slot comes back, a live job pays its bytes over its weight if
        the connection is still known, and a spent HTTP/1.1 or drained retired connection is
        closed. */
    method AssignmentVerified(ticket: Ticket, connection: ConnId, bytes: nat, weight: real, reusable: bool)
      requires Valid() && ticket in outstanding && outstanding[ticket] == connection && weight > 0.0
      modifies this`active, this`inFlight, this`outstanding, this`connections, jobs
      ensures Valid()
      ensures outstanding == old(outstanding) - {ticket} && active == old(active) - 1
      ensures Settled(old(jobs.Tables()), jobs.Tables(), old(jobs.owners)[ticket], connection in old(connections), bytes, weight)
      ensures connections == if connection in old(connections) &&
                                ((old(connections)[connection].protocol.Http1? && !reusable) ||
                                 (old(connections)[connection].status.Retired? && old(InFlightOn(connection)) == 1))
                             then old(connections) - {connection} else old(connections)
    {
      ReleaseSlot(ticket, connection);
      Settle(ticket, connection in connections, bytes, weight);
      CloseSpent(connection, reusable);
    }

    /** The job's part of it. */
    method Settle(ticket: Ticket, known: bool, bytes: nat, weight: real)
      requires jobs.Valid() && ticket in jobs.owners && weight > 0.0
      modifies jobs
      ensures jobs.Valid() && jobs.owners == old(jobs.owners) - {ticket}
      ensures Settled(old(jobs.Tables()), jobs.Tables(), old(jobs.owners)[ticket], known, bytes, weight)
    {
      var job := jobs.owners[ticket];
      if known {
        jobs.Charge(ticket, bytes, weight);
        if job in old(jobs.service) { ChargeIs(old(jobs.Tables()), job, bytes, weight, jobs.Tables()); }
      } else {
        jobs.Return(ticket);
      }
    }

    method CloseSpent(c: ConnId, reusable: bool)
      requires Valid()
      modifies this`connections, this`inFlight
      ensures Valid()
      ensures connections == if c in old(connections) &&
                                ((old(connections)[c].protocol.Http1? && !reusable) ||
                                 (old(connections)[c].status.Retired? && old(InFlightOn(c)) == 0))
                             then old(connections) - {c} else old(connections)
    {
      if c in connections && ((connections[c].protocol.Http1? && !reusable) ||
                              (connections[c].status.Retired? && InFlightOn(c) == 0)) {
        DropConnection(c);
      }
    }

    method AssignmentFailed(ticket: Ticket, connection: ConnId, poisoned: bool)
      requires Valid() && ticket in outstanding && outstanding[ticket] == connection
      modifies this`active, this`inFlight, this`outstanding, this`connections, jobs
      ensures Valid()
      ensures outstanding == old(outstanding) - {ticket} && active == old(active) - 1
      ensures jobs.service == old(jobs.service)
      ensures var job := old(jobs.owners)[ticket];
              if job !in jobs.service then jobs.Tables() == old(jobs.Tables())
              else Next(old(jobs.Tables()), Fairness.Failed(job), jobs.Tables())
      ensures connections == if poisoned then old(connections) - {connection} else old(connections)
    {
      jobs.Return(ticket);
      ReleaseSlot(ticket, connection);
      if poisoned {
        DropConnection(connection);
      }
    }
  }

  // ---------------------------------------------------------------- whole runs

  datatype Event =
    | Admit(origin: OriginId)
    | Start(job: JobId)
    | Stop(job: JobId)
    | Remove(job: JobId)
    | Target(origin: OriginId, streams: nat)
    | Dialed(origin: OriginId)
    | Handshaken(conn: ConnId, protocol: Protocol)
    | Surplus(conn: ConnId)
    | Lost(conn: ConnId)
    | Pumped(conns: seq<ConnId>, eligible: nat -> set<JobId>, claims: nat -> bool)
    | Verified(ticket: Ticket, bytes: nat, weight: real, reusable: bool)
    | Failed(ticket: Ticket, poisoned: bool)

  lemma OneMove(from: State, a: Step, to: State)
    requires Next(from, a, to)
    ensures Moves(from, to, [from, to], [a])
  {}

  /** What happens to the jobs. */
  method HandleJob(jobs: JobTable, e: Event) returns (ghost ss: seq<State>, ghost steps: seq<Step>)
    requires jobs.Valid() && (e.Admit? || e.Start? || e.Stop? || e.Remove?)
    modifies jobs
    ensures jobs.Valid() && jobs.owners == old(jobs.owners) && Moves(old(jobs.Tables()), jobs.Tables(), ss, steps)
  {
    ghost var a: Step;
    match e {
      case Admit(origin) =>
        var job := jobs.Admit(origin);
        a := Fairness.Admit(job, origin);
      case Start(job) =>
        if job !in jobs.service {
          return [jobs.Tables()], [];
        }
        jobs.Start(job);
        a := Fairness.Start(job);
      case Stop(job) =>
        jobs.Stop(job);
        a := Fairness.Stop(job);
      case Remove(job) =>
        jobs.Remove(job);
        a := Fairness.Remove(job);
    }
    OneMove(old(jobs.Tables()), a, jobs.Tables());
    return [old(jobs.Tables()), jobs.Tables()], [a];
  }

  /** What happens to the connections leaves the job tables alone. */
  method HandleConnection(c: Controller, e: Event)
    requires c.Valid() && (e.Target? || e.Dialed? || e.Handshaken? || e.Surplus? || e.Lost?)
    modifies c`connections, c`inFlight, c`targetStreams, c`nextConn
    ensures c.Valid()
  {
    match e {
      case Target(origin, streams) => c.SetTargetStreams(origin, streams);
      case Dialed(origin) => var _ := c.Dial(origin);
      case Handshaken(conn, protocol) => if protocol != Http1 || c.InFlightOn(conn) <= 1 { c.ConnectionReady(conn, protocol); }
      case Surplus(conn) => c.Retire(conn);
      case Lost(conn) => c.DropConnection(conn);
    }
  }

  /** The end of an assignment; one that is not outstanding has reported already. */
  method HandleEnd(c: Controller, e: Event) returns (ghost ss: seq<State>, ghost steps: seq<Step>)
    requires c.Valid() && (e.Verified? || e.Failed?)
    modifies c`active, c`inFlight, c`outstanding, c`connections, c.jobs
    ensures c.Valid() && Moves(old(c.jobs.Tables()), c.jobs.Tables(), ss, steps)
  {
    ss, steps := [c.jobs.Tables()], [];
    if e.ticket in c.outstanding && (e.Verified? ==> e.weight > 0.0) {
      var conn, job := c.outstanding[e.ticket], c.jobs.owners[e.ticket];
      ghost var known := conn in c.connections;
      match e {
        case Verified(ticket, bytes, weight, reusable) => c.AssignmentVerified(ticket, conn, bytes, weight, reusable);
        case Failed(ticket, poisoned) => c.AssignmentFailed(ticket, conn, poisoned);
      }
      if job in c.jobs.service {
        ghost var a := if e.Verified? && known then Fairness.Verified(job, e.bytes, e.weight) else Fairness.Failed(job);
        OneMove(old(c.jobs.Tables()), a, c.jobs.Tables());
        ss, steps := [old(c.jobs.Tables()), c.jobs.Tables()], [a];
      }
    }
  }

  method Handle(c: Controller, e: Event) returns (ghost ss: seq<State>, ghost steps: seq<Step>)
    requires c.Valid()
    modifies c, c.jobs
    ensures c.Valid() && c.ceiling == old(c.ceiling)
    ensures Moves(old(c.jobs.Tables()), c.jobs.Tables(), ss, steps)
  {
    match e {
      case Pumped(conns, eligible, claims) =>
        var started;
        started, ss, steps := c.Pump(conns, eligible, claims);
      case Verified(_, _, _, _) => ss, steps := HandleEnd(c, e);
      case Failed(_, _) => ss, steps := HandleEnd(c, e);
      case Admit(_) => ss, steps := HandleJob(c.jobs, e);
      case Start(_) => ss, steps := HandleJob(c.jobs, e);
      case Stop(_) => ss, steps := HandleJob(c.jobs, e);
      case Remove(_) => ss, steps := HandleJob(c.jobs, e);
      case _ =>
        HandleConnection(c, e);
        ss, steps := [c.jobs.Tables()], [];
    }
  }

  /** Two assignments are on the same HTTP/1.1 connection. */
  predicate SameHttp1(outstanding: map<Ticket, ConnId>, connections: map<ConnId, Connection>, t: Ticket, u: Ticket) {
    && t in outstanding && u in outstanding && outstanding[t] == outstanding[u]
    && outstanding[t] in connections && connections[outstanding[t]].protocol.Http1?
  }

  /** Over any events the engine-wide count is exactly what is outstanding and stays within the
      ceiling, every connection's count is exactly what it carries, and an HTTP/1.1 connection
      carries one assignment at most; and the job tables go through a run of the fair queueing
      machine, fair on every origin that is kept busy. */
  method Serve(maxActive: nat, events: seq<Event>)
    returns (active: nat, outstanding: map<Ticket, ConnId>, connections: map<ConnId, Connection>, inFlight: map<ConnId, nat>,
             tables: State, ghost ss: seq<State>, ghost steps: seq<Step>)
    ensures active == |outstanding| && active <= (if maxActive < 1 then 1 else maxActive)
    ensures forall c :: c in connections ==> CountOn(outstanding, c) == if c in inFlight then inFlight[c] else 0
    ensures forall t, u :: SameHttp1(outstanding, connections, t, u) ==> t == u
    ensures Moves(State(map[], map[], map[], {}), tables, ss, steps)
    ensures FairWhereBusy(ss, steps)
  {
    var c := new Controller(maxActive);
    ss, steps := [c.jobs.Tables()], [];
    for n := 0 to |events|
      invariant fresh(c) && fresh(c.jobs) && c.Valid() && c.ceiling == if maxActive < 1 then 1 else maxActive
      invariant Moves(State(map[], map[], map[], {}), c.jobs.Tables(), ss, steps)
    {
      ghost var mid := c.jobs.Tables();
      ghost var tt, more := Handle(c, events[n]);
      MovesJoin(State(map[], map[], map[], {}), mid, c.jobs.Tables(), ss, steps, tt, more);
      ss, steps := ss + tt[1..], steps + more;
    }
    RunsAreFair(ss, steps);
    active, outstanding, connections, inFlight := c.active, c.outstanding, c.connections, c.inFlight;
    tables := c.jobs.Tables();
    forall t, u | SameHttp1(outstanding, connections, t, u) ensures t == u {
      c.Http1CarriesOne(outstanding[t], t, u);
    }
  }

  /** Such runs do start work: an idle engine with a transferring job and a ready connection
      starts a piece. */
  method OnePieceStarts(maxActive: nat, origin: OriginId, protocol: Protocol) returns (outstanding: map<Ticket, ConnId>)
    ensures outstanding != map[]
  {
    var c := new Controller(maxActive);
    var job := c.jobs.Admit(origin);
    c.jobs.Start(job);
    var conn := c.Dial(origin);
    c.ConnectionReady(conn, protocol);
    NoneOn(c.outstanding, conn);
    outstanding := PumpOne(c, conn, job);
  }

  method PumpOne(c: Controller, conn: ConnId, job: JobId) returns (outstanding: map<Ticket, ConnId>)
    requires c.Valid() && c.active == 0 && conn in c.connections && c.connections[conn].status.Ready?
    requires job in c.jobs.transferring && c.InFlightOn(conn) == 0 && c.ceiling > 0
    modifies c, c.jobs
    ensures outstanding != map[]
  {
    assert conn in [conn] && !c.Busy(conn);
    assert job in {job} * c.jobs.transferring;
    var ok, picked := c.PumpOnce([conn], {job}, true);
    outstanding := c.outstanding;
  }
}
