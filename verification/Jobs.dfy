/** The controller's job tables: virtual service, what is in flight, the primary origin and who
    transfers.  Every change is a step of the fair queueing machine. */
module Jobs {
  import opened Basics
  import opened Tallies
  import opened Fairness
  import Rates

  /** Names one started assignment until its terminal observation. */
  type Ticket = nat

  // ---------------------------------------------------------------- steps of the machine

  /** The tables went from `from` to `to` by the given steps. */
  ghost predicate Moves(from: State, to: State, ss: seq<State>, steps: seq<Step>) {
    IsRun(ss, steps) && ss[0] == from && ss[|steps|] == to
  }

  lemma OneMove(from: State, a: Step, to: State)
    requires Next(from, a, to)
    ensures Moves(from, to, [from, to], [a])
  {}

  lemma MovesOn(from: State, mid: State, ss: seq<State>, steps: seq<Step>, a: Step, to: State)
    requires Moves(from, mid, ss, steps) && Next(mid, a, to)
    ensures Moves(from, to, ss + [to], steps + [a])
  {
    RunMore(ss, steps, a, to);
  }

  lemma MovesJoin(from: State, mid: State, to: State, ss: seq<State>, steps: seq<Step>, tt: seq<State>, more: seq<Step>)
    requires Moves(from, mid, ss, steps) && Moves(mid, to, tt, more)
    ensures Moves(from, to, ss + tt[1..], steps + more)
  {
    RunJoin(ss, steps, tt, more);
  }

  /** What a charge means: weight times what the job's service grew by is what was verified, and
      nobody else's moves. */
  lemma ChargeIs(s: State, job: JobId, bytes: nat, weight: real, s': State)
    requires Next(s, Fairness.Verified(job, bytes, weight), s')
    ensures s'.service.Keys == s.service.Keys && job in s.service
    ensures (s'.service[job] - s.service[job]) * weight == bytes as real
    ensures forall j :: j in s.service && j != job ==> s'.service[j] == s.service[j]
  {
    Rates.DivideMultiply(bytes as real, weight);
    assert s'.service[job] - s.service[job] == bytes as real / weight;
  }

  // ---------------------------------------------------------------- the tables

  /** Every job's count is how many assignments it owns. */
  ghost predicate Tallied(inFlight: map<JobId, nat>, owners: map<Ticket, JobId>) {
    forall j :: j in inFlight ==> inFlight[j] == CountOn(owners, j)
  }

  lemma TalliedStart(inFlight: map<JobId, nat>, owners: map<Ticket, JobId>, t: Ticket, job: JobId)
    requires Tallied(inFlight, owners) && t !in owners && job in inFlight
    ensures Tallied(inFlight[job := inFlight[job] + 1], owners[t := job])
  {
    CountsAfterStart(owners, t, job);
  }

  function Without(inFlight: map<JobId, nat>, job: JobId): map<JobId, nat> {
    if job in inFlight then inFlight[job := Minus(inFlight[job], 1)] else inFlight
  }

  lemma TalliedEnd(inFlight: map<JobId, nat>, owners: map<Ticket, JobId>, t: Ticket)
    requires Tallied(inFlight, owners) && t in owners
    ensures owners[t] in inFlight ==> inFlight[owners[t]] > 0
    ensures Tallied(Without(inFlight, owners[t]), owners - {t})
  {
    CountsAfterEnd(owners, t);
  }

  class JobTable {
    var service: map<JobId, real>
    var inFlight: map<JobId, nat>
    var home: map<JobId, OriginId>
    var transferring: set<JobId>
    /** Started assignments without a terminal observation, and their job. */
    var owners: map<Ticket, JobId>
    /** Ids of jobs are never reused. */
    var nextJob: JobId

    ghost predicate Valid()
      reads this
    {
      && transferring <= service.Keys && service.Keys == home.Keys && service.Keys == inFlight.Keys
      && (forall t :: t in owners ==> owners[t] < nextJob)
      && (forall j :: j in service ==> j < nextJob)
      && Tallied(inFlight, owners)
    }

    function Tables(): State
      reads this
    {
      State(service, inFlight, home, transferring)
    }

    constructor ()
      ensures Valid() && Tables() == State(map[], map[], map[], {}) && owners == map[]
    {
      service, inFlight, home, transferring, owners, nextJob := map[], map[], map[], {}, map[], 0;
    }

    /** A new job is put level with the least served transferring peer of its origin. */
    method Admit(origin: OriginId) returns (job: JobId)
      requires Valid()
      modifies this
      ensures Valid() && owners == old(owners) && job in service
      ensures Next(old(Tables()), Fairness.Admit(job, origin), Tables())
    {
      job := nextJob;
      nextJob := nextJob + 1;
      NoneOn(owners, job);
      var least := LeastService(service, Tables().Peers(origin));
      service, inFlight, home := service[job := least], inFlight[job := 0], home[job := origin];
    }

    method Start(job: JobId)
      requires Valid() && job in service
      modifies this
      ensures Valid() && owners == old(owners) && transferring == old(transferring) + {job}
      ensures Next(old(Tables()), Fairness.Start(job), Tables())
    {
      transferring := transferring + {job};
    }

    method Stop(job: JobId)
      requires Valid()
      modifies this
      ensures Valid() && owners == old(owners) && transferring == old(transferring) - {job}
      ensures Next(old(Tables()), Fairness.Stop(job), Tables())
    {
      transferring := transferring - {job};
    }

    /** A job that ends leaves; what it has outstanding is nobody's until it reports. */
    method Remove(job: JobId)
      requires Valid()
      modifies this
      ensures Valid() && owners == old(owners) && service == old(service) - {job} && transferring == old(transferring) - {job}
      ensures Next(old(Tables()), Fairness.Remove(job), Tables())
    {
      service, inFlight, home, transferring := service - {job}, inFlight - {job}, home - {job}, transferring - {job};
    }

    /** The least served of the runnable jobs gets the assignment `ticket`. */
    method Claim(ticket: Ticket, runnable: set<JobId>, job: JobId)
      requires Valid() && ticket !in owners && runnable <= service.Keys && Picks(service, runnable, job)
      modifies this
      ensures Valid() && owners == old(owners)[ticket := job]
      ensures Next(old(Tables()), Fairness.Claim(runnable, job), Tables())
    {
      Note(ticket, job);
    }

    method Note(ticket: Ticket, job: JobId)
      requires Valid() && ticket !in owners && job in service
      modifies this`owners, this`inFlight
      ensures Valid() && owners == old(owners)[ticket := job] && inFlight == old(inFlight)[job := old(inFlight)[job] + 1]
    {
      TalliedStart(inFlight, owners, ticket, job);
      owners := owners[ticket := job];
      inFlight := inFlight[job := inFlight[job] + 1];
    }

    /** An assignment has ended; a job that is gone does not notice. */
    method Return(ticket: Ticket)
      requires Valid() && ticket in owners
      modifies this
      ensures Valid() && owners == old(owners) - {ticket}
      ensures service == old(service)
      ensures var job := old(owners)[ticket];
              if job in old(service) then Next(old(Tables()), Fairness.Failed(job), Tables()) else Tables() == old(Tables())
    {
      TalliedEnd(inFlight, owners, ticket);
      inFlight := Without(inFlight, owners[ticket]);
      owners := owners - {ticket};
    }

    /** A verified assignment: a job that is still there pays its bytes over its weight. */
    method Charge(ticket: Ticket, bytes: nat, weight: real)
      requires Valid() && ticket in owners && weight > 0.0
      modifies this
      ensures Valid() && owners == old(owners) - {ticket}
      ensures var job := old(owners)[ticket];
              if job in old(service) then Next(old(Tables()), Fairness.Verified(job, bytes, weight), Tables()) else Tables() == old(Tables())
    {
      var job := owners[ticket];
      Return(ticket);
      if job in service {
        Pay(job, bytes, weight);
      }
    }

    method Pay(job: JobId, bytes: nat, weight: real)
      requires Valid() && job in service && weight > 0.0
      modifies this`service
      ensures Valid() && service == old(service)[job := old(service)[job] + bytes as real / weight]
    {
      service := service[job := service[job] + bytes as real / weight];
    }
  }
}
