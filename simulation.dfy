/** The event loop of simulate (src/main.rs): a run state updated one step at a
    time, and the driver that checks the distribution, runs steps until enough
    jobs completed and returns the mean response time. The samples the source
    draws from its seeded generator (job sizes and inter-arrival gaps) are
    inputs here. */
module Simulation {
  import opened Options
  import opened Distribution
  import opened JobQueue

  /** Every job has non-negative remaining size and arrived no later than t. */
  predicate Admissible(q: seq<Job>, t: real) {
    |q| == 0 || (q[0].remSize >= 0.0 && q[0].arrivalTime <= t && Admissible(q[1..], t))
  }

  /** Admissible, stated job by job. */
  lemma {:induction false} AdmissibleIff(q: seq<Job>, t: real)
    ensures Admissible(q, t) <==> forall i :: 0 <= i < |q| ==> q[i].remSize >= 0.0 && q[i].arrivalTime <= t
  {
    if q != [] {
      AdmissibleIff(q[1..], t);
      assert forall i :: 1 <= i < |q| ==> q[i] == q[1..][i - 1];
    }
  }

  /** Jobs drawn from an admissible queue (any sub-multiset, so any
      permutation or filter of it) are admissible, at t or any later time. */
  lemma SubmultisetAdmissible(a: seq<Job>, b: seq<Job>, t: real, t': real)
    requires multiset(a) <= multiset(b) && Admissible(b, t) && t <= t'
    ensures Admissible(a, t')
  {
    AdmissibleIff(b, t);
    forall i | 0 <= i < |a|
      ensures a[i].remSize >= 0.0 && a[i].arrivalTime <= t'
    {
      assert a[i] in multiset(b);
      var j :| 0 <= j < |b| && b[j] == a[i];
    }
    AdmissibleIff(a, t');
  }

  /** The effect of the time advance, drain and removal of one iteration on a
      queue already sorted by remaining size. */
  datatype StepEffect = StepEffect(duration: real, wasArrival: bool, remaining: seq<Job>, completed: seq<Job>)

  /** One iteration after the sort: step length and kind, then drain the
      in-service prefix and split it into survivors and completions. */
  function Plan(served: seq<Job>, numServers: nat, untilArrival: real): StepEffect
  {
    var k := InService(numServers, |served|);
    var nc := NextCompletion(served, numServers);
    var d := StepDuration(nc, untilArrival);
    var drained := Drained(served, k, ServiceShare(d, numServers));
    StepEffect(d, IsArrival(nc, untilArrival), Unfinished(drained[..k]) + drained[k..], Finished(drained[..k]))
  }

  /** A job with non-negative work has a non-negative completion time. */
  lemma CompletionTimeNonNegative(j: Job, numServers: nat)
    requires j.remSize >= 0.0
    ensures CompletionTime(j, numServers) >= 0.0
  {
    assert j.remSize * (numServers as real) >= 0.0;
  }

  /** With work and the time to the next arrival non-negative, a step is never
      negative and never passes the next arrival. */
  lemma PlanDurationBounds(served: seq<Job>, numServers: nat, untilArrival: real)
    requires forall i :: 0 <= i < |served| ==> served[i].remSize >= 0.0
    requires untilArrival >= 0.0
    ensures 0.0 <= Plan(served, numServers, untilArrival).duration <= untilArrival
  {
    var nc := NextCompletion(served, numServers);
    if nc.Some? && nc.value < untilArrival {
      NextCompletionIsMinimum(served, numServers);
      var j :| 0 <= j < InService(numServers, |served|) && nc.value == CompletionTime(served[j], numServers);
      CompletionTimeNonNegative(served[j], numServers);
    }
  }

  /** Removal splits the queue into the survivors with the tail and the
      completed jobs, losing none. */
  lemma RemovalConserves(q: seq<Job>, k: nat)
    requires k <= |q|
    ensures multiset(Unfinished(q[..k]) + q[k..]) + multiset(Finished(q[..k])) == multiset(q)
  {
    UnfinishedFinishedPartition(q[..k]);
    assert q == q[..k] + q[k..];
  }

  /** Jobs are conserved: every drained job either remains or completes. */
  lemma PlanConservesJobs(served: seq<Job>, numServers: nat, untilArrival: real)
    ensures var p := Plan(served, numServers, untilArrival);
      var k := InService(numServers, |served|);
      var d := StepDuration(NextCompletion(served, numServers), untilArrival);
      multiset(p.remaining) + multiset(p.completed) == multiset(Drained(served, k, ServiceShare(d, numServers)))
  {
    var k := InService(numServers, |served|);
    var d := StepDuration(NextCompletion(served, numServers), untilArrival);
    RemovalConserves(Drained(served, k, ServiceShare(d, numServers)), k);
  }

  /** A completion step lasts exactly the next completion time and completes
      at least one job. */
  lemma PlanCompletionStep(served: seq<Job>, numServers: nat, untilArrival: real)
    ensures var p := Plan(served, numServers, untilArrival);
      !p.wasArrival ==> NextCompletion(served, numServers) == Some(p.duration) && |p.completed| >= 1
  {
    if !Plan(served, numServers, untilArrival).wasArrival {
      CompletionStepFinishesAJob(served, numServers, untilArrival);
    }
  }

  /** Draining at most each job's remaining size from the first k jobs of an
      admissible queue keeps it admissible. */
  lemma DrainedAdmissible(q: seq<Job>, k: nat, amount: real, t: real)
    requires k <= |q| && Admissible(q, t)
    requires forall i :: 0 <= i < k ==> amount <= q[i].remSize
    ensures Admissible(Drained(q, k, amount), t)
  {
    AdmissibleIff(q, t);
    DrainedAt(q, k, amount);
    var r := Drained(q, k, amount);
    forall i | 0 <= i < |r|
      ensures r[i].remSize >= 0.0 && r[i].arrivalTime <= t
    {
      if i >= k {
        assert r[i] == q[i];
      }
    }
    AdmissibleIff(r, t);
  }

  /** Both halves of an admissible queue are admissible. */
  lemma AdmissibleSplit(q: seq<Job>, k: nat, t: real)
    requires k <= |q| && Admissible(q, t)
    ensures Admissible(q[..k], t) && Admissible(q[k..], t)
  {
    AdmissibleIff(q, t);
    AdmissibleIff(q[..k], t);
    AdmissibleIff(q[k..], t);
    assert forall i :: 0 <= i < k ==> q[..k][i] == q[i];
    assert forall i :: 0 <= i < |q| - k ==> q[k..][i] == q[k + i];
  }

  /** Two admissible queues joined are admissible. */
  lemma AdmissibleConcat(a: seq<Job>, b: seq<Job>, t: real)
    requires Admissible(a, t) && Admissible(b, t)
    ensures Admissible(a + b, t)
  {
    AdmissibleIff(a, t);
    AdmissibleIff(b, t);
    AdmissibleIff(a + b, t);
  }

  /** Removing the finished jobs from the first k of an admissible queue leaves
      an admissible queue at any later time t'; the completed jobs have each
      arrived by t' with non-negative work, so each response time at t' is
      non-negative, and so is their sum. */
  lemma RemovalKeepsAdmissible(q: seq<Job>, k: nat, t: real, t': real)
    requires k <= |q| && Admissible(q, t) && t <= t'
    ensures Admissible(Unfinished(q[..k]) + q[k..], t')
    ensures Admissible(Finished(q[..k]), t')
    ensures ResponseSum(Finished(q[..k]), t') >= 0.0
  {
    AdmissibleSplit(q, k, t);
    var u, f := Unfinished(q[..k]), Finished(q[..k]);
    UnfinishedFinishedPartition(q[..k]);
    SubmultisetAdmissible(u, q[..k], t, t');
    SubmultisetAdmissible(f, q[..k], t, t');
    SubmultisetAdmissible(q[k..], q[k..], t, t');
    AdmissibleConcat(u, q[k..], t');
    AdmissibleIff(f, t');
    ResponseSumNonNegative(f, t');
  }

  /** From an admissible queue at time t, a step is non-negative and does not
      pass the next arrival, the survivors are admissible at the new time
      t + duration, every completed job arrived by t + duration, so each
      recorded response time is non-negative, and so is their sum. */
  lemma PlanKeepsAdmissible(served: seq<Job>, numServers: nat, untilArrival: real, t: real)
    requires Admissible(served, t) && untilArrival >= 0.0
    ensures var p := Plan(served, numServers, untilArrival);
      && 0.0 <= p.duration <= untilArrival
      && Admissible(p.remaining, t + p.duration)
      && Admissible(p.completed, t + p.duration)
      && ResponseSum(p.completed, t + p.duration) >= 0.0
  {
    AdmissibleIff(served, t);
    var k := InService(numServers, |served|);
    var d := StepDuration(NextCompletion(served, numServers), untilArrival);
    var a := ServiceShare(d, numServers);
    PlanDurationBounds(served, numServers, untilArrival);
    ShareWithinServed(served, numServers, untilArrival);
    DrainedAdmissible(served, k, a, t);
    RemovalKeepsAdmissible(Drained(served, k, a), k, t, t + d);
  }

  /** Steps 2 to 6 of an iteration on the sorted queue at clock `time`:
      choose the step, drain the in-service prefix, remove its finished jobs
      and sum their response times at the new clock. */
  method ServeQueue(served: seq<Job>, numServers: nat, time: real, nextArrivalTime: real)
    returns (duration: real, wasArrival: bool, remaining: seq<Job>, completed: nat, response: real)
    ensures var p := Plan(served, numServers, nextArrivalTime - time);
      && duration == p.duration && wasArrival == p.wasArrival && remaining == p.remaining
      && completed == |p.completed| && response == ResponseSum(p.completed, time + duration)
  {
    var k := InService(numServers, |served|);
    var nextCompletion := NextCompletion(served, numServers);
    duration := StepDuration(nextCompletion, nextArrivalTime - time);
    wasArrival := IsArrival(nextCompletion, nextArrivalTime - time);
    var drained := DrainServed(served, k, ServiceShare(duration, numServers));
    remaining, completed, response := RemoveFinished(drained, k, time + duration);
  }

  /** The loop variables of simulate at the top of an iteration. */
  datatype State = State(queue: seq<Job>, time: real, numCompletions: nat,
                         totalResponse: real, nextArrivalTime: real)

  /** The clock never passes the next arrival, recorded response is
      non-negative, and every queued job has non-negative work and has
      already arrived. */
  predicate ValidState(s: State) {
    s.time <= s.nextArrivalTime && s.totalResponse >= 0.0 && Admissible(s.queue, s.time)
  }

  /** The state before the loop: empty queue, clock 0, first arrival after
      the first sampled gap. */
  function Initial(firstGap: real): State {
    State([], 0.0, 0, 0.0, firstGap)
  }

  /** Step 1 of an iteration: the queue sorted by remaining size. */
  function SortState(s: State): State {
    s.(queue := InsertionSorted(s.queue))
  }

  /** The time advance from s, on its queue as it stands. */
  function PlanOf(s: State, numServers: nat): StepEffect {
    Plan(s.queue, numServers, s.nextArrivalTime - s.time)
  }

  /** The effect of one iteration's time advance on the sorted queue. */
  function IterationPlan(s: State, numServers: nat): StepEffect {
    PlanOf(SortState(s), numServers)
  }

  /** The loop variables after the step effect p from state s: the clock
      moves by p.duration, the completions and their response times are
      added, and on an arrival step a job of size newSize arriving now joins
      the survivors and the next arrival is gap later. */
  function ApplyEffect(s: State, p: StepEffect, newSize: real, gap: real): State {
    var t := s.time + p.duration;
    State(p.remaining + (if p.wasArrival then [Job(t, newSize)] else []), t,
          s.numCompletions + |p.completed|, s.totalResponse + ResponseSum(p.completed, t),
          if p.wasArrival then t + gap else s.nextArrivalTime)
  }

  /** Steps 2 to 7 of an iteration from s: the time advance on its queue,
      applied. */
  function TimeStepState(s: State, numServers: nat, newSize: real, gap: real): State {
    ApplyEffect(s, PlanOf(s, numServers), newSize, gap)
  }

  /** One iteration of the loop: sort, advance, and on an arrival step enqueue
      the new job. A completion step ignores newSize and gap. */
  function NextState(s: State, numServers: nat, newSize: real, gap: real): State {
    TimeStepState(SortState(s), numServers, newSize, gap)
  }

  /** Sorting an admissible queue keeps it admissible. */
  lemma SortKeepsAdmissible(q: seq<Job>, t: real)
    requires Admissible(q, t)
    ensures Admissible(InsertionSorted(q), t)
  {
    InsertionSortedIsSortedPermutation(q);
    SubmultisetAdmissible(InsertionSorted(q), q, t, t);
  }

  /** What a step effect p from clock t, with untilArrival left before the
      next arrival, must guarantee: a step up to the next arrival, admissible
      survivors and non-negative response at the new clock, and a completion
      on every completion step. */
  predicate BoundedEffect(p: StepEffect, t: real, untilArrival: real) {
    && 0.0 <= p.duration <= untilArrival
    && Admissible(p.remaining, t + p.duration)
    && ResponseSum(p.completed, t + p.duration) >= 0.0
    && (!p.wasArrival ==> |p.completed| >= 1)
  }

  /** Plan on an admissible queue gives such an effect. */
  lemma PlanBounds(served: seq<Job>, numServers: nat, untilArrival: real, t: real)
    requires Admissible(served, t) && untilArrival >= 0.0
    ensures BoundedEffect(Plan(served, numServers, untilArrival), t, untilArrival)
  {
    PlanKeepsAdmissible(served, numServers, untilArrival, t);
    PlanCompletionStep(served, numServers, untilArrival);
  }

  /** So does the time advance from a valid state. */
  lemma PlanOfBounds(s: State, numServers: nat)
    requires ValidState(s)
    ensures BoundedEffect(PlanOf(s, numServers), s.time, s.nextArrivalTime - s.time)
  {
    PlanBounds(s.queue, numServers, s.nextArrivalTime - s.time, s.time);
  }

  /** Sorting keeps the invariant. */
  lemma SortStateKeepsValid(s: State)
    requires ValidState(s)
    ensures ValidState(SortState(s))
  {
    SortKeepsAdmissible(s.queue, s.time);
  }

  /** Applying an effect with those guarantees keeps the invariant, never
      moves the clock or the total response back, and adds a completion on
      every completion step. */
  lemma ApplyEffectKeepsValid(s: State, p: StepEffect, newSize: real, gap: real)
    requires ValidState(s) && newSize >= 0.0 && gap >= 0.0
    requires BoundedEffect(p, s.time, s.nextArrivalTime - s.time)
    ensures var s' := ApplyEffect(s, p, newSize, gap);
      && ValidState(s')
      && s.time <= s'.time && s.totalResponse <= s'.totalResponse
      && (!p.wasArrival ==> s'.numCompletions > s.numCompletions)
  {
    var t := s.time + p.duration;
    if p.wasArrival {
      assert [Job(t, newSize)][1..] == [];
      AdmissibleConcat(p.remaining, [Job(t, newSize)], t);
    } else {
      assert p.remaining + [] == p.remaining;
    }
  }

  /** The time advance keeps the invariant, never moves the clock or the
      total response back, and completes a job on every completion step. */
  lemma TimeStepKeepsValid(s: State, numServers: nat, newSize: real, gap: real)
    requires ValidState(s) && newSize >= 0.0 && gap >= 0.0
    ensures var s' := TimeStepState(s, numServers, newSize, gap);
      && ValidState(s')
      && s.time <= s'.time && s.totalResponse <= s'.totalResponse
      && (!PlanOf(s, numServers).wasArrival ==> s'.numCompletions > s.numCompletions)
  {
    PlanOfBounds(s, numServers);
    ApplyEffectKeepsValid(s, PlanOf(s, numServers), newSize, gap);
  }

  /** An iteration keeps the invariant, never moves the clock or the total
      response back, and completes a job on every completion step. */
  lemma NextStateKeepsValid(s: State, numServers: nat, newSize: real, gap: real)
    requires ValidState(s) && newSize >= 0.0 && gap >= 0.0
    ensures var s' := NextState(s, numServers, newSize, gap);
      && ValidState(s')
      && s.time <= s'.time && s.totalResponse <= s'.totalResponse
      && (!IterationPlan(s, numServers).wasArrival ==> s'.numCompletions > s.numCompletions)
  {
    SortStateKeepsValid(s);
    TimeStepKeepsValid(SortState(s), numServers, newSize, gap);
  }

  /** total_response / num_completions; with no completion the f64 quotient
      0/0 is NaN, which is None here. */
  function MeanResponse(totalResponse: real, numCompletions: nat): (r: Option<real>)
    ensures r.None? <==> numCompletions == 0
    ensures r.Some? ==> r.value * numCompletions as real == totalResponse
    ensures r.Some? && totalResponse >= 0.0 ==> r.value >= 0.0
  {
    if numCompletions == 0 then None else Some(totalResponse / numCompletions as real)
  }

  /** The samples one arrival step consumes: the new job's size and the gap to
      the following arrival. */
  datatype Arrival = Arrival(size: real, gap: real)

  datatype RunResult =
    | Aborted                                        // the normalisation assertion failed
    | OutOfInput(completions: nat)                   // fuel or samples ran out first
    | Completed(meanResponse: Option<real>, completions: nat, totalResponse: real)

  /** The loop of simulate from state s, for at most fuel iterations and while
      arrival samples remain: stop as soon as numJobs jobs have completed and
      return the mean response; otherwise run one iteration. */
  function Run(s: State, numServers: nat, numJobs: nat, arrivals: seq<Arrival>, fuel: nat): RunResult
    decreases fuel, 0
  {
    if s.numCompletions >= numJobs then
      Completed(MeanResponse(s.totalResponse, s.numCompletions), s.numCompletions, s.totalResponse)
    else if fuel == 0 || |arrivals| == 0 then
      OutOfInput(s.numCompletions)
    else
      RunIteration(s, numServers, numJobs, arrivals, fuel - 1)
  }

  /** The body of the loop, step 1: sort the queue, then advance. */
  function RunIteration(s: State, numServers: nat, numJobs: nat, arrivals: seq<Arrival>, fuel: nat): RunResult
    requires |arrivals| > 0
    decreases fuel, 2
  {
    RunTimeStep(SortState(s), numServers, numJobs, arrivals, fuel)
  }

  /** The body of the loop, steps 2 to 7 on the sorted state, then back to
      the loop test. An arrival step consumes the head sample. */
  function RunTimeStep(s: State, numServers: nat, numJobs: nat, arrivals: seq<Arrival>, fuel: nat): RunResult
    requires |arrivals| > 0
    decreases fuel, 1
  {
    Run(TimeStepState(s, numServers, arrivals[0].size, arrivals[0].gap), numServers, numJobs,
        if PlanOf(s, numServers).wasArrival then arrivals[1..] else arrivals, fuel)
  }

  /** One unfolding of the loop: an iteration runs unless the jobs are done
      or the input is exhausted, and the next sample is that of the head. */
  lemma RunStep(s: State, numServers: nat, numJobs: nat, arrivals: seq<Arrival>, fuel: nat)
    requires s.numCompletions < numJobs && fuel > 0 && |arrivals| > 0
    ensures Run(s, numServers, numJobs, arrivals, fuel)
         == Run(NextState(s, numServers, arrivals[0].size, arrivals[0].gap), numServers, numJobs,
                if IterationPlan(s, numServers).wasArrival then arrivals[1..] else arrivals, fuel - 1)
  {
    assert Run(s, numServers, numJobs, arrivals, fuel) == RunIteration(s, numServers, numJobs, arrivals, fuel - 1);
    assert RunIteration(s, numServers, numJobs, arrivals, fuel - 1) == RunTimeStep(SortState(s), numServers, numJobs, arrivals, fuel - 1);
  }

  /** RunStep on the samples from index i on, with the next state named:
      an arrival step moves on to the sample after i. */
  lemma RunStepAt(s: State, s': State, numServers: nat, numJobs: nat, arrivals: seq<Arrival>, i: nat, fuel: nat)
    requires s.numCompletions < numJobs && fuel > 0 && i < |arrivals|
    requires s' == NextState(s, numServers, arrivals[i].size, arrivals[i].gap)
    ensures Run(s, numServers, numJobs, arrivals[i..], fuel)
         == Run(s', numServers, numJobs, arrivals[if IterationPlan(s, numServers).wasArrival then i + 1 else i..], fuel - 1)
  {
    RunStep(s, numServers, numJobs, arrivals[i..], fuel);
    assert arrivals[i..][1..] == arrivals[i + 1..];
  }

  /** A run finishes with at least numJobs completions and the mean of its
      total, or runs out of input short of numJobs; it never aborts and
      completions never drop. */
  lemma {:induction false} RunOutcome(s: State, numServers: nat, numJobs: nat, arrivals: seq<Arrival>, fuel: nat)
    ensures var r := Run(s, numServers, numJobs, arrivals, fuel);
      && !r.Aborted?
      && r.completions >= s.numCompletions
      && (r.Completed? ==> r.completions >= numJobs && r.meanResponse == MeanResponse(r.totalResponse, r.completions))
      && (r.OutOfInput? ==> r.completions < numJobs)
    decreases fuel
  {
    if s.numCompletions < numJobs && fuel > 0 && |arrivals| > 0 {
      var next := NextState(s, numServers, arrivals[0].size, arrivals[0].gap);
      RunStep(s, numServers, numJobs, arrivals, fuel);
      if IterationPlan(s, numServers).wasArrival {
        RunOutcome(next, numServers, numJobs, arrivals[1..], fuel - 1);
      } else {
        RunOutcome(next, numServers, numJobs, arrivals, fuel - 1);
      }
    }
  }

  /** The per-run state of simulate: the loop variables, updated in place. */
  class RunState {
    const numServers: nat
    var queue: seq<Job>
    var time: real
    var numCompletions: nat
    var totalResponse: real
    var nextArrivalTime: real

    function Snapshot(): State
      reads this
    {
      State(queue, time, numCompletions, totalResponse, nextArrivalTime)
    }

    ghost predicate Valid()
      reads this
    {
      ValidState(Snapshot())
    }

    constructor (numServers: nat, firstGap: real)
      requires firstGap >= 0.0
      ensures Valid()
      ensures this.numServers == numServers && Snapshot() == Initial(firstGap)
    {
      this.numServers := numServers;
      queue := [];
      time := 0.0;
      numCompletions := 0;
      totalResponse := 0.0;
      nextArrivalTime := firstGap;
    }

    /** Step 1 of an iteration: sort the queue by remaining size. */
    method SortQueue()
      requires Valid()
      modifies this
      ensures Valid()
      ensures Snapshot() == SortState(old(Snapshot()))
    {
      queue := SortByRemaining(queue);
      SubmultisetAdmissible(queue, old(queue), time, time);
    }

    /** Steps 2 to 7 of an iteration on the current queue: advance the clock,
        drain and remove, add up the completions and, on an arrival step,
        enqueue a job of size newSize and schedule the next arrival gap later. */
    method TimeStep(newSize: real, gap: real) returns (wasArrival: bool)
      requires Valid() && newSize >= 0.0 && gap >= 0.0
      modifies this
      ensures Valid()
      ensures wasArrival == PlanOf(old(Snapshot()), numServers).wasArrival
      ensures Snapshot() == TimeStepState(old(Snapshot()), numServers, newSize, gap)
    {
      ghost var s0 := Snapshot();
      ghost var p := PlanOf(s0, numServers);
      var duration, completed, response, remaining;
      duration, wasArrival, remaining, completed, response := ServeQueue(queue, numServers, time, nextArrivalTime);
      assert duration == p.duration && wasArrival == p.wasArrival && remaining == p.remaining;
      TimeStepKeepsValid(s0, numServers, newSize, gap);
      time := time + duration;
      numCompletions := numCompletions + completed;
      totalResponse := totalResponse + response;
      if wasArrival {
        queue := remaining + [Job(time, newSize)];
        nextArrivalTime := time + gap;
      } else {
        queue := remaining;
        assert remaining + [] == remaining;
      }
      assert Snapshot() == ApplyEffect(s0, p, newSize, gap);
    }

    /** One iteration of the while loop. newSize and gap are the samples the
        source draws on an arrival step; a completion step ignores them. */
    method Step(newSize: real, gap: real) returns (wasArrival: bool)
      requires Valid() && newSize >= 0.0 && gap >= 0.0
      modifies this
      ensures Valid()
      ensures wasArrival == IterationPlan(old(Snapshot()), numServers).wasArrival
      ensures Snapshot() == NextState(old(Snapshot()), numServers, newSize, gap)
    {
      SortQueue();
      wasArrival := TimeStep(newSize, gap);
    }

    /** The while loop of simulate, for at most fuel iterations and while
        arrival samples remain: it returns what Run promises from the state
        it starts in. */
    method RunLoop(numJobs: nat, arrivals: seq<Arrival>, fuel: nat) returns (r: RunResult)
      requires Valid()
      requires forall i :: 0 <= i < |arrivals| ==> arrivals[i].size >= 0.0 && arrivals[i].gap >= 0.0
      modifies this
      ensures r == Run(old(Snapshot()), numServers, numJobs, arrivals, fuel)
      ensures r.Completed? ==> r.totalResponse >= 0.0
    {
      var next, steps := 0, 0;
      while numCompletions < numJobs && steps < fuel && next < |arrivals|
        invariant Valid() && 0 <= next <= |arrivals| && steps <= fuel
        invariant Run(Snapshot(), numServers, numJobs, arrivals[next..], fuel - steps)
               == Run(old(Snapshot()), numServers, numJobs, arrivals, fuel)
        decreases fuel - steps
      {
        ghost var s := Snapshot();
        ghost var before := Run(s, numServers, numJobs, arrivals[next..], fuel - steps);
        var wasArrival := Step(arrivals[next].size, arrivals[next].gap);
        RunStepAt(s, Snapshot(), numServers, numJobs, arrivals, next, fuel - steps);
        if wasArrival {
          next := next + 1;
        }
        steps := steps + 1;
        assert Run(Snapshot(), numServers, numJobs, arrivals[next..], fuel - steps) == before;
      }
      if numCompletions < numJobs {
        return OutOfInput(numCompletions);
      }
      return Completed(MeanResponse(totalResponse, numCompletions), numCompletions, totalResponse);
    }
  }

  /** simulate, bounded by `fuel` iterations and by the supplied samples: fail
      before creating any state unless the distribution is normalised, then
      step until num_completions reaches num_jobs and divide the total response
      by num_completions. */
  method Simulate(numServers: nat, numJobs: nat, dist: Dist, firstGap: real,
                  arrivals: seq<Arrival>, fuel: nat) returns (r: RunResult)
    requires firstGap >= 0.0
    requires forall i :: 0 <= i < |arrivals| ==> arrivals[i].size >= 0.0 && arrivals[i].gap >= 0.0
    ensures r == if Normalized(dist) then Run(Initial(firstGap), numServers, numJobs, arrivals, fuel) else Aborted
    ensures r.Aborted? <==> !Normalized(dist)
    ensures r.Completed? ==> r.completions >= numJobs && r.totalResponse >= 0.0
    ensures r.Completed? ==> r.meanResponse == MeanResponse(r.totalResponse, r.completions)
    ensures r.OutOfInput? ==> r.completions < numJobs
  {
    if !Normalized(dist) {
      return Aborted;
    }
    RunOutcome(Initial(firstGap), numServers, numJobs, arrivals, fuel);
    var state := new RunState(numServers, firstGap);
    r := state.RunLoop(numJobs, arrivals, fuel);
  }
}
