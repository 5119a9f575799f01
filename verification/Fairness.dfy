/** Weighted fair queueing over virtual service.  A job is charged when a response is
    verified, not when it is claimed, so a job may run ahead by what it has in flight. */
module Fairness {
  import Rates

  type JobId = nat
  type OriginId = nat

  /** The job a claim goes to: least service, ties to the smaller id. */
  ghost predicate Picks(service: map<JobId, real>, runnable: set<JobId>, id: JobId)
    requires runnable <= service.Keys
  {
    id in runnable &&
    forall o :: o in runnable ==> service[id] < service[o] || (service[id] == service[o] && id <= o)
  }

  /** The linear scan of `pick_wfq_job`. */
  method PickLeast(service: map<JobId, real>, runnable: set<JobId>) returns (best: JobId, found: bool)
    requires runnable <= service.Keys
    ensures found <==> runnable != {}
    ensures found ==> Picks(service, runnable, best)
  {
    best, found := 0, false;
    var todo := runnable;
    while todo != {}
      invariant todo <= runnable
      invariant found <==> todo != runnable
      invariant found ==> Picks(service, runnable - todo, best)
      decreases todo
    {
      var id :| id in todo;
      todo := todo - {id};
      var better := !found || service[id] < service[best] || (service[id] == service[best] && id < best);
      if better {
        best := id;
      }
      found := true;
    }
    assert runnable - todo == runnable;
  }

  // ---------------------------------------------------------------- admission

  /** The service a newcomer is admitted with: that of the least served transferring peer. */
  ghost predicate AdmittedAt(service: map<JobId, real>, peers: set<JobId>, x: real)
    requires peers <= service.Keys
  {
    if peers == {} then x == 0.0
    else (exists p :: p in peers && service[p] == x) && forall p :: p in peers ==> x <= service[p]
  }

  /** The fold over the peers when a job is admitted. */
  method LeastService(service: map<JobId, real>, peers: set<JobId>) returns (least: real)
    requires peers <= service.Keys
    ensures AdmittedAt(service, peers, least)
  {
    least := 0.0;
    var todo := peers;
    while todo != {}
      invariant todo <= peers
      invariant AdmittedAt(service, peers - todo, least)
      decreases todo
    {
      ghost var done := peers - todo;
      var id :| id in todo;
      todo := todo - {id};
      if todo + {id} == peers || service[id] < least {
        least := service[id];
      }
      assert peers - todo == done + {id};
    }
    assert peers - todo == peers;
  }

  // ---------------------------------------------------------------- the machine

  /** The job tables: virtual service, pieces in flight, primary origin, and who transfers. */
  datatype State = State(service: map<JobId, real>, inFlight: map<JobId, nat>,
                         home: map<JobId, OriginId>, transferring: set<JobId>)
  {
    /** The transferring jobs of one origin. */
    function Peers(origin: OriginId): set<JobId> {
      set j | j in home && j in transferring && home[j] == origin
    }
  }

  datatype Step =
    | Admit(id: JobId, origin: OriginId)
    | Start(id: JobId)
    | Stop(id: JobId)
    | Remove(id: JobId)
    | Claim(runnable: set<JobId>, id: JobId)
    | Verified(id: JobId, bytes: nat, weight: real)
    | Failed(id: JobId)

  ghost predicate Known(s: State, id: JobId) { id in s.service && id in s.inFlight }

  ghost predicate Next(s: State, a: Step, s': State) {
    match a
    case Admit(id, origin) =>
      && s.Peers(origin) <= s.service.Keys && !(id in s.service || id in s.inFlight || id in s.home || id in s.transferring)
      && id in s'.service && AdmittedAt(s.service, s.Peers(origin), s'.service[id])
      && s' == State(s.service[id := s'.service[id]], s.inFlight[id := 0], s.home[id := origin], s.transferring)
    case Start(id) => Known(s, id) && id in s.home && s' == s.(transferring := s.transferring + {id})
    case Stop(id) => s' == s.(transferring := s.transferring - {id})
    case Remove(id) => s' == State(s.service - {id}, s.inFlight - {id}, s.home - {id}, s.transferring - {id})
    case Claim(runnable, id) =>
      && runnable <= s.service.Keys && Picks(s.service, runnable, id) && Known(s, id)
      && s' == s.(inFlight := s.inFlight[id := s.inFlight[id] + 1])
    case Verified(id, bytes, weight) =>
      && Known(s, id) && s.inFlight[id] > 0 && weight > 0.0
      && s' == s.(service := s.service[id := s.service[id] + bytes as real / weight],
                  inFlight := s.inFlight[id := s.inFlight[id] - 1])
    case Failed(id) =>
      && Known(s, id) && s.inFlight[id] > 0
      && s' == s.(inFlight := s.inFlight[id := s.inFlight[id] - 1])
  }

  ghost predicate IsRun(ss: seq<State>, steps: seq<Step>) {
    && |ss| == |steps| + 1
    && forall k :: 0 <= k < |steps| ==> Next(ss[k], steps[k], ss[k + 1])
  }

  /** A newcomer is level with the least served peer and behind every other, so anybody's
      lead over it is the lead over that peer. */
  lemma AdmittedLevel(s: State, id: JobId, origin: OriginId, s': State, cost: real)
    requires Next(s, Admit(id, origin), s') && s.Peers(origin) != {}
    ensures Known(s', id) && s'.inFlight[id] == 0
    ensures forall p :: p in s.Peers(origin) ==> s'.service[id] <= s.service[p]
    ensures exists p :: p in s.Peers(origin) && s'.service[id] == s.service[p]
             && forall i :: Known(s, i) ==> Ahead(s', i, cost) - s'.service[id] == Ahead(s, i, cost) - s.service[p]
  {
    var p :| p in s.Peers(origin) && s.service[p] == s'.service[id];
    assert forall i :: Known(s, i) ==> Ahead(s', i, cost) == Ahead(s, i, cost);
  }

  /** Over the whole run: whenever `i` is picked `j` was runnable too, `i` never has more
      than `depth` in flight, and a verified piece of `i` costs at most `cost` service. */
  ghost predicate Contended(ss: seq<State>, steps: seq<Step>, i: JobId, j: JobId, depth: nat, cost: real) {
    && IsRun(ss, steps) && i != j && cost >= 0.0
    && (forall k :: 0 <= k < |ss| ==> Known(ss[k], i) && Known(ss[k], j) && ss[k].inFlight[i] <= depth)
    && (forall k :: 0 <= k < |steps| ==> Polite(steps[k], i, j, cost))
  }

  ghost predicate Polite(a: Step, i: JobId, j: JobId, cost: real) {
    && (a.Claim? && a.id == i ==> j in a.runnable)
    && (a.Verified? && a.id == i && a.weight > 0.0 ==> a.bytes as real / a.weight <= cost)
  }

  /** Service of `i` counting everything it has in flight at full cost. */
  ghost function Ahead(s: State, i: JobId, cost: real): real
    requires Known(s, i)
  {
    s.service[i] + s.inFlight[i] as real * cost
  }

  /** The largest lead `i` may have over `j`. */
  function Lead(start: real, depth: nat, cost: real): real {
    if start >= depth as real * cost then start else depth as real * cost
  }

  lemma OneMore(n: nat, cost: real)
    ensures (n + 1) as real * cost == n as real * cost + cost
  {}

  lemma InFlightCost(n: nat, depth: nat, cost: real)
    requires n <= depth && cost >= 0.0
    ensures 0.0 <= n as real * cost <= depth as real * cost
  {
    assert (depth - n) as real * cost >= 0.0;
    assert depth as real * cost == n as real * cost + (depth - n) as real * cost;
  }

  lemma StepKeepsLead(s: State, a: Step, s': State, i: JobId, j: JobId, depth: nat, cost: real, lead: real)
    requires Next(s, a, s') && i != j && Known(s, i) && Known(s, j) && Known(s', i) && Known(s', j)
    requires cost >= 0.0 && s'.inFlight[i] <= depth && lead >= depth as real * cost && Polite(a, i, j, cost)
    requires Ahead(s, i, cost) - s.service[j] <= lead
    ensures Ahead(s', i, cost) - s'.service[j] <= lead
  {
    match a
    case Admit(_, _) =>
    case Start(_) =>
    case Stop(_) =>
    case Remove(_) =>
    case Claim(_, _) => ClaimKeepsLead(s, a, s', i, j, depth, cost, lead);
    case Verified(id, bytes, weight) =>
      ChargeNotNegative(bytes, weight);
      if id == i { PaidLead(s.service[i], s.service[j], bytes as real / weight, s'.inFlight[i], cost, lead); }
    case Failed(id) =>
      if id == i { PaidLead(s.service[i], s.service[j], 0.0, s'.inFlight[i], cost, lead); }
  }

  lemma ClaimKeepsLead(s: State, a: Step, s': State, i: JobId, j: JobId, depth: nat, cost: real, lead: real)
    requires a.Claim? && Next(s, a, s') && i != j && Known(s, i) && Known(s, j) && Known(s', i) && Known(s', j)
    requires cost >= 0.0 && s'.inFlight[i] <= depth && lead >= depth as real * cost && Polite(a, i, j, cost)
    requires Ahead(s, i, cost) - s.service[j] <= lead
    ensures Ahead(s', i, cost) - s'.service[j] <= lead
  {
    if a.id == i {
      assert j in a.runnable;
      ClaimLead(s.service[i], s.service[j], s'.inFlight[i], depth, cost, lead);
    }
  }

  /** A picked job was not ahead, so its lead is at most what it has in flight. */
  lemma ClaimLead(si: real, sj: real, n: nat, depth: nat, cost: real, lead: real)
    requires si <= sj && n <= depth && cost >= 0.0 && lead >= depth as real * cost
    ensures si + n as real * cost - sj <= lead
  {
    InFlightCost(n, depth, cost);
  }

  /** A finished piece was counted at full cost already. */
  lemma PaidLead(si: real, sj: real, charge: real, n: nat, cost: real, lead: real)
    requires si + (n + 1) as real * cost - sj <= lead && charge <= cost
    ensures si + charge + n as real * cost - sj <= lead
  {
    OneMore(n, cost);
  }

  lemma ChargeNotNegative(bytes: nat, weight: real)
    requires weight > 0.0
    ensures bytes as real / weight >= 0.0
  {}

  lemma {:induction false} LeadBound(ss: seq<State>, steps: seq<Step>, i: JobId, j: JobId, depth: nat, cost: real, lead: real, n: nat)
    requires Contended(ss, steps, i, j, depth, cost) && n < |ss|
    requires lead >= depth as real * cost && Ahead(ss[0], i, cost) - ss[0].service[j] <= lead
    ensures Ahead(ss[n], i, cost) - ss[n].service[j] <= lead
  {
    if n > 0 {
      LeadBound(ss, steps, i, j, depth, cost, lead, n - 1);
      assert Next(ss[n - 1], steps[n - 1], ss[n - 1 + 1]);
      assert Polite(steps[n - 1], i, j, cost);
      StepKeepsLead(ss[n - 1], steps[n - 1], ss[n], i, j, depth, cost, lead);
    }
  }

  /** While `j` stays runnable alongside `i`, the service of `i` never exceeds that of `j`
      by more than its in-flight depth times the dearest piece, or by what it was ahead
      (in flight included) when the contention began, if that was more: a job that could not
      run for a while has fallen behind. */
  lemma FairnessBound(ss: seq<State>, steps: seq<Step>, i: JobId, j: JobId, depth: nat, cost: real, n: nat)
    requires Contended(ss, steps, i, j, depth, cost) && n < |ss|
    ensures ss[n].service[i] - ss[n].service[j] <=
            Lead(Ahead(ss[0], i, cost) - ss[0].service[j], depth, cost)
  {
    var lead := Lead(Ahead(ss[0], i, cost) - ss[0].service[j], depth, cost);
    LeadBound(ss, steps, i, j, depth, cost, lead, n);
    AheadIsMore(ss[n], i, cost);
  }

  /** The start of the contention cannot be forgotten: while `1` alone is runnable it runs
      ahead of `2` by two whole pieces with one in flight at a time. */
  lemma UnrunnableFallsBehind()
    ensures var s0 := State(map[1 := 0.0, 2 := 0.0], map[1 := 0, 2 := 0], map[1 := 0, 2 := 0], {1, 2});
            var s1, s3 := s0.(inFlight := map[1 := 1, 2 := 0]), s0.(service := map[1 := 5.0, 2 := 0.0], inFlight := map[1 := 1, 2 := 0]);
            var s2, s4 := s3.(inFlight := s0.inFlight), s0.(service := map[1 := 10.0, 2 := 0.0]);
            && IsRun([s0, s1, s2, s3, s4], [Claim({1}, 1), Verified(1, 5, 1.0), Claim({1}, 1), Verified(1, 5, 1.0)])
            && s4.service[1] - s4.service[2] > 1 as real * 5.0
  {
    var s0 := State(map[1 := 0.0, 2 := 0.0], map[1 := 0, 2 := 0], map[1 := 0, 2 := 0], {1, 2});
    var s1, s3 := s0.(inFlight := map[1 := 1, 2 := 0]), s0.(service := map[1 := 5.0, 2 := 0.0], inFlight := map[1 := 1, 2 := 0]);
    var s2, s4 := s3.(inFlight := s0.inFlight), s0.(service := map[1 := 10.0, 2 := 0.0]);
    var claim, paid := Claim({1}, 1), Verified(1, 5, 1.0);
    assert Next(s0, claim, s1) && Next(s1, paid, s2) && Next(s2, claim, s3) && Next(s3, paid, s4);
  }

  // ---------------------------------------------------------------- a whole origin, newcomers included

  /** `id` starts within the field: no further behind than the last peer and no further
      ahead than the first. */
  ghost predicate StartsInField(s: State, o: OriginId, id: JobId, cost: real) {
    Known(s, id) &&
    (s.Peers(o) == {} || exists p, q :: p in s.Peers(o) && q in s.Peers(o) && Known(s, p) && Known(s, q)
                               && s.service[p] <= s.service[id] && Ahead(s, id, cost) <= Ahead(s, q, cost))
  }

  /** While a job of origin `o` is picked all its peers are runnable; jobs start within the field
      and have at most `depth` pieces in flight. */
  ghost predicate Busy(s: State, a: Step, s': State, o: OriginId, depth: nat, cost: real) {
    && (a.Claim? && a.id in s.Peers(o) ==> s.Peers(o) <= a.runnable)
    && (a.Start? && a.id in s.home && s.home[a.id] == o ==> StartsInField(s, o, a.id, cost))
    && (forall i :: i in s'.Peers(o) && i in s'.inFlight ==> s'.inFlight[i] <= depth)
  }

  /** Samples are at most `largest` bytes and weights at least `smallest`. */
  predicate Sampled(a: Step, largest: nat, smallest: real) {
    a.Verified? ==> a.bytes <= largest && smallest <= a.weight
  }

  predicate ChargesAtMost(a: Step, cost: real) {
    a.Verified? && a.weight > 0.0 ==> a.bytes as real / a.weight <= cost
  }

  lemma SampledCharge(a: Step, largest: nat, smallest: real)
    requires Sampled(a, largest, smallest) && smallest > 0.0
    ensures ChargesAtMost(a, largest as real / smallest) && largest as real / smallest >= 0.0
  {
    ChargeNotNegative(largest, smallest);
    if a.Verified? { CostOfPieces(a.bytes, largest, a.weight, smallest); }
  }

  /** The lead of `i` over `j`, in flight included, is at most `lead`. */
  ghost predicate Leads(s: State, i: JobId, j: JobId, lead: real, cost: real) {
    Known(s, i) && Known(s, j) && Ahead(s, i, cost) - s.service[j] <= lead
  }

  /** No transferring job of the origin leads another by more than `lead`. */
  ghost predicate Level(s: State, o: OriginId, lead: real, cost: real) {
    forall i, j :: i in s.Peers(o) && j in s.Peers(o) ==> Leads(s, i, j, lead, cost)
  }

  /** An admitted job starts within the field if it starts before the field moves on. */
  lemma NewcomerInField(s: State, id: JobId, o: OriginId, s': State, lead: real, cost: real)
    requires Next(s, Admit(id, o), s') && Level(s, o, lead, cost) && cost >= 0.0
    ensures StartsInField(s', o, id, cost)
  {
    if s.Peers(o) != {} {
      AdmittedLevel(s, id, o, s', cost);
      var p :| p in s.Peers(o) && s'.service[id] == s.service[p];
      assert Leads(s, p, p, lead, cost) && Known(s', p);
      InFlightCost(s.inFlight[p], s.inFlight[p], cost);
      assert s'.service[p] <= s'.service[id] && Ahead(s', id, cost) <= Ahead(s', p, cost);
    }
  }

  lemma BusyStep(s: State, a: Step, s': State, o: OriginId, depth: nat, cost: real, lead: real)
    requires Next(s, a, s') && Busy(s, a, s', o, depth, cost) && ChargesAtMost(a, cost)
    requires cost >= 0.0 && lead >= depth as real * cost && Level(s, o, lead, cost)
    ensures Level(s', o, lead, cost)
  {
    forall i, j | i in s'.Peers(o) && j in s'.Peers(o) ensures Leads(s', i, j, lead, cost) {
      BusyPair(s, a, s', o, depth, cost, lead, i, j);
    }
  }

  lemma BusyPair(s: State, a: Step, s': State, o: OriginId, depth: nat, cost: real, lead: real, i: JobId, j: JobId)
    requires Next(s, a, s') && Busy(s, a, s', o, depth, cost) && ChargesAtMost(a, cost)
    requires cost >= 0.0 && lead >= depth as real * cost && Level(s, o, lead, cost)
    requires i in s'.Peers(o) && j in s'.Peers(o)
    ensures Leads(s', i, j, lead, cost)
  {
    PeerKnown(s, a, s', o, lead, cost, i);
    PeerKnown(s, a, s', o, lead, cost, j);
    if i == j {
      OwnLead(s', i, depth, cost, lead);
    } else if i in s.Peers(o) && j in s.Peers(o) {
      assert Leads(s, i, j, lead, cost);
      PairKeeps(s, a, s', o, depth, cost, lead, i, j);
    } else {
      StartLevel(s, o, a.id, i, j, lead, cost);
      StartKeeps(s, a, s', i, j, lead, cost);
    }
  }

  lemma PairKeeps(s: State, a: Step, s': State, o: OriginId, depth: nat, cost: real, lead: real, i: JobId, j: JobId)
    requires Next(s, a, s') && Busy(s, a, s', o, depth, cost) && ChargesAtMost(a, cost)
    requires cost >= 0.0 && lead >= depth as real * cost && i != j && Leads(s, i, j, lead, cost)
    requires i in s.Peers(o) && j in s.Peers(o) && i in s'.Peers(o) && Known(s', i) && Known(s', j)
    ensures Leads(s', i, j, lead, cost)
  {
    assert s'.inFlight[i] <= depth;
    assert Polite(a, i, j, cost) by {
      assert a.Claim? && a.id == i ==> j in a.runnable;
    }
    StepKeepsLead(s, a, s', i, j, depth, cost, lead);
    assert Ahead(s', i, cost) - s'.service[j] <= lead;
  }

  lemma StartKeeps(s: State, a: Step, s': State, i: JobId, j: JobId, lead: real, cost: real)
    requires Next(s, a, s') && a.Start? && Leads(s, i, j, lead, cost)
    ensures Leads(s', i, j, lead, cost)
  {
    assert s'.service == s.service && s'.inFlight == s.inFlight;
    assert Ahead(s', i, cost) == Ahead(s, i, cost);
  }

  lemma PeerKnown(s: State, a: Step, s': State, o: OriginId, lead: real, cost: real, i: JobId)
    requires Next(s, a, s') && Level(s, o, lead, cost) && i in s'.Peers(o)
    ensures Known(s', i)
    ensures i in s.Peers(o) || (a.Start? && a.id == i && i in s.home && s.home[i] == o)
  {
    assert i in s.Peers(o) ==> Leads(s, i, i, lead, cost);
  }

  lemma OwnLead(s: State, i: JobId, depth: nat, cost: real, lead: real)
    requires Known(s, i) && s.inFlight[i] <= depth && cost >= 0.0 && lead >= depth as real * cost
    ensures Leads(s, i, i, lead, cost)
  {
    InFlightCost(s.inFlight[i], depth, cost);
  }

  lemma StartLevel(s: State, o: OriginId, id: JobId, i: JobId, j: JobId, lead: real, cost: real)
    requires Level(s, o, lead, cost) && StartsInField(s, o, id, cost) && i != j
    requires (i == id && j in s.Peers(o)) || (j == id && i in s.Peers(o))
    ensures Leads(s, i, j, lead, cost)
  {
    var p, q :| p in s.Peers(o) && q in s.Peers(o) && Known(s, p) && Known(s, q)
             && s.service[p] <= s.service[id] && Ahead(s, id, cost) <= Ahead(s, q, cost);
    assert i == id ==> Leads(s, q, j, lead, cost);
    assert j == id ==> Leads(s, i, p, lead, cost);
  }

  lemma AheadIsMore(s: State, i: JobId, cost: real)
    requires Known(s, i) && cost >= 0.0
    ensures s.service[i] <= Ahead(s, i, cost)
  {
    InFlightCost(s.inFlight[i], s.inFlight[i], cost);
  }

  ghost predicate IsBusyRun(ss: seq<State>, steps: seq<Step>, o: OriginId, depth: nat, cost: real) {
    && IsRun(ss, steps) && ss[0].Peers(o) == {}
    && forall k :: 0 <= k < |steps| ==> Busy(ss[k], steps[k], ss[k + 1], o, depth, cost)
  }

  lemma {:induction false} BusyRunLevel(ss: seq<State>, steps: seq<Step>, o: OriginId, depth: nat, cost: real, lead: real, n: nat)
    requires IsBusyRun(ss, steps, o, depth, cost) && n < |ss|
    requires forall k :: 0 <= k < |steps| ==> ChargesAtMost(steps[k], cost)
    requires cost >= 0.0 && lead >= depth as real * cost
    ensures Level(ss[n], o, lead, cost)
  {
    if n > 0 {
      BusyRunLevel(ss, steps, o, depth, cost, lead, n - 1);
      assert Next(ss[n - 1], steps[n - 1], ss[n - 1 + 1]);
      assert Busy(ss[n - 1], steps[n - 1], ss[n - 1 + 1], o, depth, cost);
      BusyStep(ss[n - 1], steps[n - 1], ss[n], o, depth, cost, lead);
    }
  }

  /** On an origin whose jobs stay runnable while they transfer, newcomers admitted at any
      time included, no job's service ever exceeds another's by more than its in-flight
      depth times the largest sample over the smallest weight. */
  lemma OriginStaysFair(ss: seq<State>, steps: seq<Step>, o: OriginId, depth: nat, largest: nat, smallest: real,
                        n: nat, i: JobId, j: JobId)
    requires smallest > 0.0 && IsBusyRun(ss, steps, o, depth, largest as real / smallest) && n < |ss|
    requires forall k :: 0 <= k < |steps| ==> Sampled(steps[k], largest, smallest)
    requires i in ss[n].Peers(o) && j in ss[n].Peers(o)
    ensures Known(ss[n], i) && Known(ss[n], j)
    ensures ss[n].service[i] - ss[n].service[j] <= depth as real * (largest as real / smallest)
  {
    var cost := largest as real / smallest;
    ChargeNotNegative(largest, smallest);
    forall k | 0 <= k < |steps| ensures ChargesAtMost(steps[k], cost) {
      SampledCharge(steps[k], largest, smallest);
    }
    BusyRunLevel(ss, steps, o, depth, cost, depth as real * cost, n);
    assert Leads(ss[n], i, j, depth as real * cost, cost);
    AheadIsMore(ss[n], i, cost);
  }

  /** Two jobs of which `j` contends from its admission on: a lead that `i` does not exceed
      over the peers it has then, it never exceeds over `j`. */
  lemma FairnessFromAdmission(s: State, ss: seq<State>, steps: seq<Step>, i: JobId, j: JobId, o: OriginId,
                              depth: nat, cost: real, lead: real, n: nat)
    requires n < |ss| && Next(s, Admit(j, o), ss[0]) && i in s.Peers(o) && Known(s, i)
    requires Contended(ss, steps, i, j, depth, cost) && lead >= depth as real * cost
    requires forall p :: p in s.Peers(o) && p in s.service ==> Ahead(s, i, cost) - s.service[p] <= lead
    ensures ss[n].service[i] - ss[n].service[j] <= lead
  {
    AdmittedLevel(s, j, o, ss[0], cost);
    assert Ahead(ss[0], i, cost) - ss[0].service[j] <= lead;
    LeadBound(ss, steps, i, j, depth, cost, lead, n);
    AheadIsMore(ss[n], i, cost);
  }

  /** `i` and `j` are there throughout, `j` is runnable whenever `i` is picked, and `i`
      starts level or behind. */
  ghost predicate LevelStart(ss: seq<State>, steps: seq<Step>, i: JobId, j: JobId, depth: nat) {
    && IsRun(ss, steps) && i != j
    && (forall k :: 0 <= k < |ss| ==> Known(ss[k], i) && Known(ss[k], j) && ss[k].inFlight[i] <= depth)
    && (forall k :: 0 <= k < |steps| ==> steps[k].Claim? && steps[k].id == i ==> j in steps[k].runnable)
    && Known(ss[0], i) && Known(ss[0], j) && ss[0].service[i] <= ss[0].service[j]
  }

  /** With samples of at most `largest` bytes and weights of at least `smallest`. */
  lemma FairnessBySamples(ss: seq<State>, steps: seq<Step>, i: JobId, j: JobId, depth: nat,
                          largest: nat, smallest: real, n: nat)
    requires LevelStart(ss, steps, i, j, depth) && smallest > 0.0 && n < |ss|
    requires forall k :: 0 <= k < |steps| ==> Sampled(steps[k], largest, smallest)
    ensures Known(ss[n], i) && Known(ss[n], j)
    ensures ss[n].service[i] - ss[n].service[j] <= depth as real * (largest as real / smallest)
  {
    var cost := largest as real / smallest;
    ChargeNotNegative(largest, smallest);
    forall k | 0 <= k < |steps| ensures Polite(steps[k], i, j, cost) {
      SampledCharge(steps[k], largest, smallest);
    }
    ClaimLead(ss[0].service[i], ss[0].service[j], ss[0].inFlight[i], depth, cost, depth as real * cost);
    assert Contended(ss, steps, i, j, depth, cost);
    LeadBound(ss, steps, i, j, depth, cost, depth as real * cost, n);
    AheadIsMore(ss[n], i, cost);
  }

  /** Largest piece over smallest weight is a valid cost. */
  lemma CostOfPieces(bytes: nat, largest: nat, weight: real, smallest: real)
    requires bytes <= largest && 0.0 < smallest <= weight
    ensures bytes as real / weight <= largest as real / smallest
  {
    var q, c := bytes as real / weight, largest as real / smallest;
    ChargeNotNegative(bytes, weight);
    assert q * weight == bytes as real;
    assert c * smallest == largest as real;
    Compare(q, c, weight, smallest);
  }

  lemma Compare(q: real, c: real, weight: real, smallest: real)
    requires 0.0 < smallest <= weight && q >= 0.0 && q * weight <= c * smallest
    ensures q <= c
  {
    Rates.Product(q, weight - smallest);
    Rates.CancelFactor(smallest, q, c);
  }

  // ---------------------------------------------------------------- putting runs together

  lemma RunMore(ss: seq<State>, steps: seq<Step>, a: Step, s': State)
    requires IsRun(ss, steps) && Next(ss[|steps|], a, s')
    ensures IsRun(ss + [s'], steps + [a])
  {
    var tt, more := ss + [s'], steps + [a];
    forall k | 0 <= k < |more| ensures Next(tt[k], more[k], tt[k + 1]) {
      assert k < |steps| ==> tt[k] == ss[k] && more[k] == steps[k] && tt[k + 1] == ss[k + 1];
    }
  }

  lemma RunJoin(ss: seq<State>, steps: seq<Step>, tt: seq<State>, more: seq<Step>)
    requires IsRun(ss, steps) && IsRun(tt, more) && ss[|steps|] == tt[0]
    ensures IsRun(ss + tt[1..], steps + more)
    ensures (ss + tt[1..])[0] == ss[0] && (ss + tt[1..])[|steps + more|] == tt[|more|]
  {
    var uu, all := ss + tt[1..], steps + more;
    forall k | 0 <= k < |all| ensures Next(uu[k], all[k], uu[k + 1]) {
      if k < |steps| {
        assert uu[k] == ss[k] && uu[k + 1] == ss[k + 1];
      } else {
        var l := k - |steps|;
        assert uu[k] == tt[l] && uu[k + 1] == tt[l + 1] && all[k] == more[l];
      }
    }
  }

  /** The origin is kept busy, with samples and weights within bounds. */
  ghost predicate BusyOrigin(ss: seq<State>, steps: seq<Step>, o: OriginId, depth: nat, largest: nat, smallest: real) {
    && smallest > 0.0 && IsBusyRun(ss, steps, o, depth, largest as real / smallest)
    && forall k :: 0 <= k < |steps| ==> Sampled(steps[k], largest, smallest)
  }

  ghost predicate FairWithin(s: State, o: OriginId, bound: real) {
    forall i, j :: i in s.Peers(o) && j in s.Peers(o) ==>
      i in s.service && j in s.service && s.service[i] - s.service[j] <= bound
  }

  /** On every origin that is kept busy the run is fair. */
  ghost predicate FairWhereBusy(ss: seq<State>, steps: seq<Step>) {
    forall o, depth, largest, smallest :: BusyOrigin(ss, steps, o, depth, largest, smallest) ==>
      forall n :: 0 <= n < |ss| ==> FairWithin(ss[n], o, depth as real * (largest as real / smallest))
  }

  lemma RunsAreFair(ss: seq<State>, steps: seq<Step>)
    ensures FairWhereBusy(ss, steps)
  {
    forall o, depth, largest, smallest | BusyOrigin(ss, steps, o, depth, largest, smallest)
      ensures forall n :: 0 <= n < |ss| ==> FairWithin(ss[n], o, depth as real * (largest as real / smallest))
    {
      forall n, i, j | 0 <= n < |ss| && i in ss[n].Peers(o) && j in ss[n].Peers(o)
        ensures i in ss[n].service && j in ss[n].service
        ensures ss[n].service[i] - ss[n].service[j] <= depth as real * (largest as real / smallest)
      {
        OriginStaysFair(ss, steps, o, depth, largest, smallest, n, i, j);
      }
    }
  }
}
