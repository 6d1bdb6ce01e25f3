# srptk-simple in Dafny

A model of `simulate` in `src/main.rs` of srptk-simple. The program simulates a
multi-server queue under SRPT-k: shortest remaining processing time with k
servers. At every event the queue is sorted by remaining size. The first
`num_servers` jobs are served, and each receives work at rate
`1/num_servers`. The clock jumps to whichever comes first: the next
completion or the next arrival. Jobs whose remaining size falls below
`EPSILON` (1e-8) are removed, and their response times are summed. The
result is the mean response time.

The model has five modules:

- `Options` (`options.dfy`): the `Option` datatype. `None` stands for the f64
  infinities and NaNs of the source.
- `Tolerance` (`tolerance.dfy`): the constant `EPSILON`, shared by the
  normalisation assertion and the completion test.
- `Distribution` (`distribution.dfy`): the `Dist` enum (`Hyperexp`), its
  `mean`, the phase selection of `sample`, and the normalisation guard at the
  start of `simulate`.
- `JobQueue` (`queue.dfy`): the `Job` record and the operations of one loop
  iteration on the queue:
  - the sort by remaining size, an insertion sort on a sequence;
  - the next completion over the in-service prefix;
  - the step length and kind;
  - the drain of the in-service prefix, a loop that updates one index at a
    time;
  - the reverse removal loop.

  The drain and removal loops are proved equal to recursive specification
  functions (`Drained`, `Unfinished`, `Finished`, `ResponseSum`). The sort is
  proved equal to the insertion sort `InsertionSorted`, and it also states
  outright that its result is sorted and a permutation of its input.
- `Simulation` (`simulation.dfy`):
  - `Plan`, the value-level effect of one iteration after the sort;
  - `NextState`, one whole iteration on the loop variables, and `Run`, the
    loop as a function of its input samples;
  - the class `RunState`, whose fields are the loop variables of `simulate`,
    with one method per iteration (`Step` = `SortQueue` then `TimeStep`)
    and the loop itself (`RunLoop`), each proved to compute what `NextState`
    or `Run` says;
  - the invariant `ValidState`: the clock never passes the next arrival,
    response totals are non-negative, every queued job has non-negative work
    and has already arrived;
  - the driver `Simulate`.

Numbers are mathematical reals; f64 rounding is not modelled. The random
generator is not modelled. The samples it would produce are parameters: the
first inter-arrival gap, then one `(size, gap)` pair per arrival step.

The result of `simulate` is `total_response / num_completions`
(src/main.rs:81). It is not divided by `num_jobs`: one step can complete
several jobs, so more than `num_jobs` jobs can complete before the loop
stops. `MeanResponse` divides by the completion count.

## Model

| member | source | states |
|---|---|---|
| Distribution.PhaseMean | src/main.rs:29 | the mean of an exponential phase is the reciprocal of its rate (m * mu == 1) |
| Distribution.MixtureMean | src/main.rs:29 | the mean of the mixture that uses the low-rate phase with weight w and the high-rate phase with weight 1 - w: w / low_mu + (1 - w) / high_mu |
| Distribution.Mean | src/main.rs:26-31 | `mean` is undefined (infinite or NaN) exactly when a rate is zero; otherwise it is the mixture mean that weights the low-rate phase by prob_low |
| Distribution.PhaseRate | src/main.rs:17-21 | the sampler picks one of the two rates; with distinct rates it picks low_mu exactly when the uniform draw is strictly above prob_low; for a draw in [0, 1) it picks low_mu above prob_low clamped to [0, 1] and high_mu below it |
| Distribution.SamplerMean | src/main.rs:14-22 | for positive rates, the expected size the sampler draws: the low-rate phase weighted by the length of the draws in [0, 1) that select it, 1 - prob_low clamped to [0, 1] |
| Distribution.SamplerMeanAgreesIff | src/main.rs:17-29 | for positive rates and every prob_low, the expected size the sampler draws equals `mean()` if and only if prob_low is 1/2 or the two rates are equal |
| Distribution.Normalized | src/main.rs:41 | the assertion that opens `simulate`: `mean()` is finite and within EPSILON of 1 |
| Distribution.NormalizedButSamplerMeanDiffers | src/main.rs:41 | Hyperexp(0.5, 1.5, 0.25) passes the normalisation assertion (mean exactly 1), but the sampler's mean is 5/3, at least EPSILON away from 1 |
| Distribution.IntendedPhaseRate | src/main.rs:17-21 | corrected selection: with distinct rates, low_mu exactly when the draw is below prob_low; for a draw in [0, 1), low_mu below prob_low clamped to [0, 1] and high_mu from it on |
| Distribution.IntendedSamplerMean | src/main.rs:14-22 | for positive rates, the expected size the corrected sampler draws: the low-rate phase weighted by prob_low clamped to [0, 1] |
| Distribution.IntendedSamplerMeanAgreesIff | src/main.rs:17-29 | for positive rates, the corrected sampler's mean equals `mean()` if and only if prob_low lies in [0, 1] or the two rates are equal |
| Distribution.IntendedSamplerKeepsNormalization | src/main.rs:41 | with the corrected selection, positive rates and prob_low in [0, 1], the sampler's mean equals `mean()`, so every such distribution that passes the assertion draws sizes of mean within EPSILON of 1 |
| JobQueue.InService | src/main.rs:64 | the in-service count is min(num_servers, queue length) |
| JobQueue.InsertKeepsSorted | src/main.rs:50 | inserting a job after all no-larger jobs and before a larger one keeps the queue sorted by remaining size |
| JobQueue.InsertPos | src/main.rs:50 | the insertion position follows every job no larger than the new one and precedes the first larger one, so equal sizes keep their order |
| JobQueue.InsertedSortedPermutation | src/main.rs:50 | inserting into a sorted queue gives a sorted queue whose multiset is the old one plus the new job |
| JobQueue.InsertionSorted | src/main.rs:50 | the stable insertion sort by remaining size: the jobs are inserted in queue order, each after the equal ones already placed |
| JobQueue.InsertionSortedIsSortedPermutation | src/main.rs:50 | the insertion sort's result is sorted by remaining size and is a permutation of the queue |
| JobQueue.InsertByRemaining | src/main.rs:50 | one insertion step of the sort: a linear scan for the first larger job computes exactly the insertion of the new job |
| JobQueue.SortByRemaining | src/main.rs:50 | `sort_by_key(rem_size)`: the loop computes the insertion sort of the queue, so the result is sorted by remaining size and is a permutation of the queue |
| JobQueue.CompletionTime | src/main.rs:54 | the time an in-service job needs to finish at rate 1/num_servers: rem_size * num_servers |
| JobQueue.CompletionTimeMonotone | src/main.rs:54 | rem_size * num_servers is monotone in rem_size, so the order by size is the order by completion time |
| JobQueue.MinCompletion | src/main.rs:51-56 | the least completion time of a non-empty run of jobs, defined recursively |
| JobQueue.MinCompletionIsMinimum | src/main.rs:51-56 | the recursive minimum of completion times is a lower bound for every job and is attained by one of them |
| JobQueue.NextCompletion | src/main.rs:51-56 | the next completion is infinite (None) exactly when no job is in service |
| JobQueue.NextCompletionIsMinimum | src/main.rs:51-56 | when a job is in service, the next completion is the least completion time among the first min(num_servers, len) jobs, and one of them attains it |
| JobQueue.SortedNextCompletion | src/main.rs:50-56 | on the sorted queue with servers, the next completion is that of the head job |
| JobQueue.StepDuration | src/main.rs:57 | the step is the minimum of the next completion and the time to the next arrival: at most both, and equal to one of them |
| JobQueue.IsArrival | src/main.rs:58 | a step is an arrival step exactly when nothing is in service or the arrival comes strictly before the next completion; a tie is a completion step |
| JobQueue.ServiceShare | src/main.rs:63 | the work each in-service job receives in a step: next_duration / num_servers (0 with no server, when nothing is served) |
| JobQueue.Drained | src/main.rs:60-63 | draining keeps the queue's length |
| JobQueue.DrainedAt | src/main.rs:60-63 | exactly the first k jobs lose the given amount; arrival times and the later jobs are unchanged |
| JobQueue.DrainServed | src/main.rs:60-63 | the index-by-index update loop produces exactly the drained queue |
| JobQueue.ShareWithinRemaining | src/main.rs:63 | a job served no longer than its own completion time receives at most its remaining size |
| JobQueue.ShareWithinServed | src/main.rs:57-63 | in a step, every in-service job receives at most its remaining size |
| JobQueue.DrainKeepsServedNonNegative | src/main.rs:57-63 | after the drain, no in-service job has negative remaining size |
| JobQueue.Unfinished | src/main.rs:64-70 | the in-service jobs that survive a step, in their order: those at or above EPSILON |
| JobQueue.Finished | src/main.rs:64-70 | the in-service jobs that complete in a step, in their order: those below EPSILON |
| JobQueue.RemovalThreshold | src/main.rs:64-70 | survivors of the removal have remaining size at least EPSILON; removed jobs have less |
| JobQueue.UnfinishedFinishedPartition | src/main.rs:64-70 | removal loses no job: survivors plus completions are the scanned prefix, as a multiset and in count |
| JobQueue.FinishedNonEmpty | src/main.rs:65 | a prefix job below EPSILON is certain to be completed |
| JobQueue.ShareOfOwnCompletion | src/main.rs:54-63 | serving a job for exactly its completion time drains exactly its remaining size |
| JobQueue.CompletionStepFinishesAJob | src/main.rs:57-70 | on a completion step at least one in-service job is removed |
| JobQueue.ResponseSum | src/main.rs:67 | the sum of time - arrival_time over the completed jobs, defined recursively |
| JobQueue.ResponseSumNonNegative | src/main.rs:67 | jobs that arrived no later than the clock contribute non-negative response time |
| JobQueue.RemoveFinished | src/main.rs:64-70 | the reverse `queue.remove(i)` loop leaves the prefix survivors in order followed by the jobs past the prefix; it counts the prefix jobs below EPSILON and sums their response times |
| Simulation.Plan | src/main.rs:51-70 | one iteration after the sort, on values: step length and kind, then the drained in-service prefix split into survivors (followed by the unserved jobs) and completions |
| Simulation.PlanDurationBounds | src/main.rs:57 | with non-negative work and time to the next arrival, a step is non-negative and never passes the next arrival |
| Simulation.RemovalConserves | src/main.rs:64-70 | removal over the first k jobs splits the queue into survivors with the tail and completions, equal as a multiset to the whole queue |
| Simulation.PlanConservesJobs | src/main.rs:60-70 | the survivors and the completed jobs of a step are, as a multiset, exactly the drained queue |
| Simulation.PlanCompletionStep | src/main.rs:57-70 | a completion step lasts exactly the next completion time and completes at least one job |
| Simulation.PlanKeepsAdmissible | src/main.rs:57-70 | from an admissible queue, the step is non-negative and up to the next arrival, the survivors stay admissible at the new clock, and every completed job has arrived by the new clock, so each recorded response time (line 67) is non-negative, and so is their sum |
| Simulation.PlanBounds | src/main.rs:51-70 | from an admissible queue, a step is non-negative and up to the next arrival, the survivors are admissible and the response non-negative at the new clock, and a step that is not an arrival completes a job |
| Simulation.ServeQueue | src/main.rs:51-70 | steps 2 to 6 of the loop body: the step length, kind, survivors, completion count and response sum are those of `Plan` on the queue as it stands |
| Simulation.SortKeepsAdmissible | src/main.rs:50 | sorting an admissible queue keeps it admissible |
| Simulation.Initial | src/main.rs:42-48 | the loop variables before the loop: empty queue, clock 0, no completions, zero total, next arrival at the first sampled gap |
| Simulation.SortState | src/main.rs:50 | step 1 of an iteration: the state with its queue insertion-sorted by remaining size and every other variable unchanged |
| Simulation.ApplyEffect | src/main.rs:59-79 | the loop variables after a step's effect: the clock moves by the step, the completions and their response times are added, and on an arrival step exactly `Job(time, size)` is pushed and the next arrival is `time + gap`; a completion step adds no job and keeps the next arrival |
| Simulation.TimeStepState | src/main.rs:51-79 | steps 2 to 7 of an iteration from a state: `Plan` of its queue as it stands, applied by `ApplyEffect` |
| Simulation.ApplyEffectKeepsValid | src/main.rs:59-79 | applying a bounded step effect (clock, completions, response, and on an arrival step the new job and the next arrival) keeps the invariant, never moves the clock or the total back, and adds a completion on a completion step |
| Simulation.TimeStepKeepsValid | src/main.rs:51-79 | the time advance from a valid state keeps the invariant, never moves the clock or the total back, and completes a job on a completion step |
| Simulation.NextStateKeepsValid | src/main.rs:49-80 | one whole iteration keeps the invariant, never moves the clock or the total back, and completes a job on a completion step |
| Simulation.NextState | src/main.rs:49-80 | one iteration of the loop on the loop variables: sort, then the time advance, then on an arrival step enqueue the new job and schedule the next arrival |
| Simulation.MeanResponse | src/main.rs:81 | the result is undefined (NaN) exactly when no job completed; otherwise it times the completion count gives the total, and it is non-negative when the total is |
| Simulation.Run | src/main.rs:49-81 | the loop as a function of the samples: stop once num_jobs jobs have completed and return the mean of the totals, else run one iteration, consuming a sample on an arrival step |
| Simulation.RunStep | src/main.rs:49-80 | while jobs remain and input lasts, the loop from s is the loop from the next state, with the head sample consumed exactly on an arrival step |
| Simulation.RunOutcome | src/main.rs:49-81 | a run never aborts and never loses completions; a finished run has at least num_jobs completions and its mean is MeanResponse of its final totals; a run that ran out of input has fewer than num_jobs |
| Simulation.RunState.constructor | src/main.rs:42-48 | the state before the loop: empty queue, clock 0, no completions, first arrival at the first sampled gap; it satisfies the invariant |
| Simulation.RunState.SortQueue | src/main.rs:50 | the new state is the old one with its queue insertion-sorted (a sorted permutation); the invariant holds |
| Simulation.RunState.TimeStep | src/main.rs:51-79 | the new state is the time advance of the old one (`Plan` of its queue, plus the new job and the rescheduled arrival on an arrival step); the invariant holds |
| Simulation.RunState.Step | src/main.rs:49-80 | one loop iteration: the new state is `NextState` of the old one and the invariant holds |
| Simulation.RunState.RunLoop | src/main.rs:49-81 | the while loop returns exactly `Run` of the state it starts in, and a finished run has a non-negative total response |
| Simulation.Simulate | src/main.rs:40-82 | the run aborts exactly when the distribution fails the normalisation assertion, and otherwise returns `Run` from the initial state; a finished run has at least num_jobs completions, a non-negative total and the mean of its totals; a run that ran out of input has fewer than num_jobs completions |

## Left out

- Random sampling (`StdRng`, `Exp::new(..).sample`, `rng.gen::<f64>()`) is not modelled. The driver takes the first gap and one `(size, gap)` pair per arrival step as input, all non-negative as exponential samples are. The phase selection that consumes the uniform draw is modelled separately by `Distribution.PhaseRate`.
- `Exp::new(rate).unwrap()` panics on a non-positive or non-finite rate. The arrival rate `rho` only enters through the supplied gaps, which are non-negative; the panic itself is not modelled.
- Distribution.SamplerMean, Distribution.IntendedSamplerMean, Distribution.SamplerMeanAgreesIff, Distribution.IntendedSamplerMeanAgreesIff and Distribution.IntendedSamplerKeepsNormalization require both phase rates positive: with any other rate `Exp::new(mu).unwrap()` (src/main.rs:22) panics on a draw from that phase, so the sampler has no mean. `mean()` and the normalisation assertion still accept such rates (Hyperexp(-1, 1/3, 0.5) has mean 1), and the model does not describe the resulting panic, nor the corner case of prob_low outside [0, 1] with a non-positive rate on a phase that is then never drawn.
- f64 arithmetic is not modelled: rounding, and the infinities other than the ones written as `None`. `n64` panics on NaN; with the model's finite reals there is no NaN to sort or compare.
- Simulation.Simulate: termination of `simulate` is not modelled. The loop is bounded by a `fuel` count of iterations and by the supplied samples, and it returns `OutOfInput` when either runs out first. With zero servers the source never completes a job and loops forever.
- JobQueue.SortByRemaining, Simulation.RunState.SortQueue and Simulation.RunState.Step: stability of `sort_by_key` (equal sizes keep their order) is not stated as a property. The sort computes the insertion sort `InsertionSorted`, which places each job after the equal ones already placed, but only sortedness and permutation are proved about it.
- Distribution.IntendedSamplerKeepsNormalization: holds only when prob_low lies in [0, 1]; `IntendedSamplerMeanAgreesIff` shows that outside that range even the corrected sampler's mean differs from `mean()` (unless the rates are equal).
- JobQueue.ServiceShare: with zero servers the source never evaluates `next_duration / 0.0`. The model returns 0 there, and that value is never applied because nothing is in service.
- The widths of `u64` and `usize` are not modelled; counts are unbounded naturals.
- `main` is not modelled: the sweep over `rho` values, the printing and the fixed parameters.

## Findings

| source | as written | input that shows it | evidently intended | confidence | as-written member | corrected member |
|---|---|---|---|---|---|---|
| src/main.rs:17-21 | `sample` uses low_mu when the uniform draw exceeds prob_low, so with probability 1 - prob_low, while `mean()` (src/main.rs:29) weights low_mu by prob_low | Hyperexp(0.5, 1.5, 0.25): `mean()` is 1, so it passes the assertion at src/main.rs:41, but the sizes drawn have mean 5/3 | low_mu with probability prob_low, so that the assertion normalises the size distribution actually sampled | medium (the two definitions agree for the distributions used in `main`, where prob_low is 1/2 or the rates are equal); not executed | Distribution.PhaseRate, Distribution.SamplerMeanAgreesIff, Distribution.NormalizedButSamplerMeanDiffers | Distribution.IntendedPhaseRate, Distribution.IntendedSamplerKeepsNormalization |
