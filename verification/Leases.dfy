/** Jobs, destination leases and job termination. */
module Leases {
  import opened Basics

  type JobId = nat
  type DestId = nat

  datatype Phase = Created | Probing | Transferring | Committing | Cancelling | Failing {
    predicate IsDraining() { Cancelling? || Failing? }
  }

  /** A live job; `pendingTerminal` is the outcome a drain will end with. */
  datatype Job = Job(destination: DestId, phase: Phase, pendingTerminal: Option<Outcome>)

  datatype Destination = Destination(key: string, leasedBy: Option<JobId>)

  datatype Outcome = Complete(bytes: nat) | Fail(reason: string)

  datatype Terminal = Terminal(job: JobId, outcome: Outcome)

  datatype AdmitResult = Admitted(job: JobId) | Busy(key: string) | NoSource

  const CANCELLED := "cancelled"

  class World {
    var jobs: map<JobId, Job>
    var destinations: map<DestId, Destination>
    var index: map<string, DestId>
    var nextJob: JobId
    var nextDestination: DestId
    /** The CompleteJob and FailJob actions so far. */
    var terminals: seq<Terminal>

    /** A destination is leased by `j` exactly while `j` is live and targets it. */
    ghost predicate LeasesMatch()
      reads this
    {
      && (forall j :: j in jobs ==>
            jobs[j].destination in destinations && destinations[jobs[j].destination].leasedBy == Some(j))
      && (forall d :: d in destinations && destinations[d].leasedBy.Some? ==>
            destinations[d].leasedBy.value in jobs && jobs[destinations[d].leasedBy.value].destination == d)
    }

    /** The index names every destination by its key. */
    ghost predicate IndexMatches()
      reads this
    {
      && (forall k :: k in index ==> index[k] in destinations && destinations[index[k]].key == k)
      && (forall d :: d in destinations ==> destinations[d].key in index && index[destinations[d].key] == d)
    }

    /** Every terminal action is about a job that is gone, and no two about the same one. */
    ghost predicate EndedOnce()
      reads this
    {
      && (forall i :: 0 <= i < |terminals| ==> terminals[i].job < nextJob && terminals[i].job !in jobs)
      && (forall i, k :: 0 <= i < k < |terminals| ==> terminals[i].job != terminals[k].job)
    }

    ghost predicate Valid()
      reads this
    {
      && LeasesMatch() && IndexMatches() && EndedOnce()
      && (forall j :: j in jobs ==> j < nextJob)
      && (forall d :: d in destinations ==> d < nextDestination)
    }

    constructor ()
      ensures Valid() && jobs == map[] && terminals == []
    {
      jobs, destinations, index, nextJob, nextDestination, terminals := map[], map[], map[], 0, 0, [];
    }

    lemma LeasedIffLive(d: DestId, j: JobId)
      requires Valid() && d in destinations
      ensures destinations[d].leasedBy == Some(j) <==> j in jobs && jobs[j].destination == d
    {
      if j in jobs && jobs[j].destination == d {
        assert destinations[jobs[j].destination].leasedBy == Some(j);
      }
    }

    /** No two live jobs target the same destination. */
    lemma LiveJobsHaveDistinctDestinations(i: JobId, j: JobId)
      requires Valid() && i in jobs && j in jobs && jobs[i].destination == jobs[j].destination
      ensures i == j
    {
      var d := jobs[i].destination;
      assert destinations[d].leasedBy == Some(i);
      assert destinations[d].leasedBy == Some(j);
    }

    /** After its terminal action a job holds no lease, and gets no second one. */
    lemma EndedJobHoldsNothing(k: nat, d: DestId)
      requires Valid() && k < |terminals| && d in destinations
      ensures destinations[d].leasedBy != Some(terminals[k].job)
      ensures forall i :: 0 <= i < |terminals| && terminals[i].job == terminals[k].job ==> i == k
    {}

    /** Looks the key up, or registers a new destination for it. */
    method FindDestination(key: string) returns (dest: DestId)
      requires Valid()
      modifies this`destinations, this`index, this`nextDestination
      ensures Valid()
      ensures key in index && dest == index[key]
      ensures destinations == if key in old(index) then old(destinations) else old(destinations)[dest := Destination(key, None)]
    {
      if key in index {
        return index[key];
      }
      dest := nextDestination;
      nextDestination := nextDestination + 1;
      destinations := destinations[dest := Destination(key, None)];
      index := index[key := dest];
    }

    /** A new job takes the lease of a free destination. */
    method Lease(dest: DestId) returns (job: JobId)
      requires Valid() && dest in destinations && destinations[dest].leasedBy == None
      modifies this`jobs, this`destinations, this`nextJob
      ensures Valid()
      ensures job !in old(jobs) && jobs == old(jobs)[job := Job(dest, Created, None)]
      ensures destinations == old(destinations)[dest := old(destinations)[dest].(leasedBy := Some(job))]
    {
      job := nextJob;
      nextJob := nextJob + 1;
      jobs := jobs[job := Job(dest, Created, None)];
      destinations := destinations[dest := destinations[dest].(leasedBy := Some(job))];
    }

    /** Refused while another live job holds the destination; a job without sources is
        refused only after that. */
    method AdmitJob(key: string, hasSource: bool) returns (r: AdmitResult)
      requires Valid()
      modifies this`jobs, this`destinations, this`index, this`nextJob, this`nextDestination
      ensures Valid()
      ensures r.Busy? <==> exists j :: j in old(jobs) && old(destinations)[old(jobs)[j].destination].key == key
      ensures r.NoSource? <==> !r.Busy? && !hasSource
      ensures !r.Admitted? ==> jobs == old(jobs)
      ensures r.Admitted? ==>
                && r.job !in old(jobs) && key in index
                && jobs == old(jobs)[r.job := Job(index[key], Created, None)]
                && destinations[index[key]] == Destination(key, Some(r.job))
                && forall d :: d in old(destinations) && d != index[key] ==> d in destinations && destinations[d] == old(destinations)[d]
    {
      if key in index && destinations[index[key]].leasedBy.Some? {
        assert destinations[index[key]].leasedBy.value in jobs;
        return Busy(key);
      }
      var dest := FindDestination(key);
      if !hasSource {
        return NoSource;
      }
      var job := Lease(dest);
      return Admitted(job);
    }

    /** Terminal transition: release the lease, report once, forget the job. */
    method FinishJob(job: JobId, outcome: Outcome)
      requires Valid()
      modifies this`jobs, this`destinations, this`terminals
      ensures Valid()
      ensures jobs == old(jobs) - {job}
      ensures terminals == old(terminals) + (if job in old(jobs) then [Terminal(job, outcome)] else [])
      ensures job in old(jobs) ==>
                destinations == old(destinations)[old(jobs)[job].destination :=
                  old(destinations)[old(jobs)[job].destination].(leasedBy := None)]
      ensures job !in old(jobs) ==> destinations == old(destinations)
    {
      if job !in jobs {
        assert jobs - {job} == jobs;
        return;
      }
      var d := jobs[job].destination;
      jobs := jobs - {job};
      if destinations[d].leasedBy == Some(job) {
        destinations := destinations[d := destinations[d].(leasedBy := None)];
      }
      terminals := terminals + [Terminal(job, outcome)];
    }

    /** Ends a draining job once nothing of it is in flight. */
    method TryCompleteDrain(job: JobId, inFlight: nat)
      requires Valid()
      modifies this`jobs, this`destinations, this`terminals
      ensures Valid()
      ensures jobs == if job in old(jobs) && old(jobs)[job].phase in {Cancelling, Failing} && inFlight == 0
                      then old(jobs) - {job} else old(jobs)
      ensures terminals == old(terminals) + (if job in old(jobs) && job !in jobs
                then [Terminal(job, if old(jobs)[job].pendingTerminal.Some? then old(jobs)[job].pendingTerminal.value
                                    else Fail("drained"))]
                else [])
    {
      if job !in jobs || !jobs[job].phase.IsDraining() || inFlight > 0 {
        return;
      }
      var outcome := if jobs[job].pendingTerminal.Some? then jobs[job].pendingTerminal.value else Fail("drained");
      FinishJob(job, outcome);
    }

    /** Moves a live job to another phase; admission order and leases are untouched. */
    method SetPhase(job: JobId, phase: Phase, pending: Option<Outcome>)
      requires Valid() && job in jobs
      modifies this`jobs
      ensures Valid()
      ensures jobs == old(jobs)[job := old(jobs)[job].(phase := phase, pendingTerminal := pending)]
    {
      jobs := jobs[job := jobs[job].(phase := phase, pendingTerminal := pending)];
    }

    method JobCancelled(job: JobId, inFlight: nat)
      requires Valid()
      modifies this`jobs, this`destinations, this`terminals
      ensures Valid()
      ensures jobs == if job in old(jobs) && inFlight > 0
                      then old(jobs)[job := old(jobs)[job].(phase := Cancelling, pendingTerminal := Some(Fail(CANCELLED)))]
                      else old(jobs) - {job}
      ensures terminals == old(terminals) +
                (if job in old(jobs) && inFlight == 0 then [Terminal(job, Fail(CANCELLED))] else [])
    {
      if job !in jobs {
        return;
      }
      SetPhase(job, Cancelling, Some(Fail(CANCELLED)));
      TryCompleteDrain(job, inFlight);
    }

    /** A failure drains first; a job already draining keeps the outcome it has. */
    method BeginFail(job: JobId, reason: string, inFlight: nat)
      requires Valid()
      modifies this`jobs, this`destinations, this`terminals
      ensures Valid()
      ensures job in old(jobs) && old(jobs)[job].phase !in {Cancelling, Failing} ==>
                if inFlight == 0 then jobs == old(jobs) - {job} && terminals == old(terminals) + [Terminal(job, Fail(reason))]
                else jobs == old(jobs)[job := old(jobs)[job].(phase := Failing, pendingTerminal := Some(Fail(reason)))]
                     && terminals == old(terminals)
      ensures job !in old(jobs) || old(jobs)[job].phase in {Cancelling, Failing} ==> jobs == old(jobs) && terminals == old(terminals)
    {
      if job !in jobs || jobs[job].phase.IsDraining() {
        return;
      }
      SetPhase(job, Failing, Some(Fail(reason)));
      TryCompleteDrain(job, inFlight);
    }
  }

  // ---------------------------------------------------------------- whole runs

  datatype Command =
    | Admit(key: string, hasSource: bool)
    | Finish(job: JobId, outcome: Outcome)
    | Cancel(job: JobId, inFlight: nat)
    | Break(job: JobId, reason: string, inFlight: nat)
    | Drain(job: JobId, inFlight: nat)

  /** Any sequence of commands, well-timed or not: a destination is leased by `j` exactly
      while `j` is live and targets it, so no two live jobs share one; and no job ends
      twice, or is live, or holds a lease after it has ended. */
  method Serve(commands: seq<Command>)
    returns (live: map<JobId, Job>, destinations: map<DestId, Destination>, terminals: seq<Terminal>)
    ensures forall d, j :: d in destinations ==>
              (destinations[d].leasedBy == Some(j) <==> j in live && live[j].destination == d)
    ensures forall j :: j in live ==> live[j].destination in destinations
    ensures forall i, j :: i in live && j in live && i != j ==> live[i].destination != live[j].destination
    ensures forall i, k :: 0 <= i < k < |terminals| ==> terminals[i].job != terminals[k].job
    ensures forall i :: 0 <= i < |terminals| ==> terminals[i].job !in live
    ensures forall i, d :: 0 <= i < |terminals| && d in destinations ==> destinations[d].leasedBy != Some(terminals[i].job)
  {
    var w := new World();
    for n := 0 to |commands|
      invariant w.Valid()
    {
      match commands[n] {
        case Admit(key, hasSource) => var _ := w.AdmitJob(key, hasSource);
        case Finish(job, outcome) => w.FinishJob(job, outcome);
        case Cancel(job, inFlight) => w.JobCancelled(job, inFlight);
        case Break(job, reason, inFlight) => w.BeginFail(job, reason, inFlight);
        case Drain(job, inFlight) => w.TryCompleteDrain(job, inFlight);
      }
    }
    live, destinations, terminals := w.jobs, w.destinations, w.terminals;
    forall d, j | d in destinations
      ensures destinations[d].leasedBy == Some(j) <==> j in live && live[j].destination == d
    {
      w.LeasedIffLive(d, j);
    }
    forall i, d | 0 <= i < |terminals| && d in destinations ensures destinations[d].leasedBy != Some(terminals[i].job) {
      w.EndedJobHoldsNothing(i, d);
    }
    forall i, j | i in live && j in live && live[i].destination == live[j].destination ensures i == j {
      w.LiveJobsHaveDistinctDestinations(i, j);
    }
  }
}
