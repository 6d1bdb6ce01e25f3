/** The queue of jobs in simulate (src/main.rs) and the operations one
    event-loop iteration performs on it: sort by remaining size, compute the
    next completion over the in-service prefix, drain work from that prefix,
    and remove the prefix jobs that have finished. */
module JobQueue {
  import opened Options
  import opened Tolerance

  datatype Job = Job(arrivalTime: real, remSize: real)

  predicate SortedByRemaining(q: seq<Job>) {
    forall i, j :: 0 <= i < j < |q| ==> q[i].remSize <= q[j].remSize
  }

  /** The number of jobs in service: the first min(numServers, |queue|). */
  function InService(numServers: nat, len: nat): (k: nat)
    ensures k <= len && k <= numServers
    ensures k == len || k == numServers
  {
    if numServers < len then numServers else len
  }

  /** Putting x at position j of a sorted queue keeps it sorted when the jobs
      before j are no larger than x and the job at j, if any, is larger. */
  lemma InsertKeepsSorted(r: seq<Job>, j: nat, x: Job)
    requires SortedByRemaining(r) && j <= |r|
    requires forall m :: 0 <= m < j ==> r[m].remSize <= x.remSize
    requires j < |r| ==> x.remSize < r[j].remSize
    ensures SortedByRemaining(r[..j] + [x] + r[j..])
  {
    var t := r[..j] + [x] + r[j..];
    forall a, b | 0 <= a < b < |t|
      ensures t[a].remSize <= t[b].remSize
    {
      if b < j {
        assert t[a] == r[a] && t[b] == r[b];
      } else if b == j {
        assert t[a] == r[a] && t[b] == x;
      } else if a < j {
        assert t[a] == r[a] && t[b] == r[b - 1];
      } else if a == j {
        assert t[a] == x && t[b] == r[b - 1];
      } else {
        assert t[a] == r[a - 1] && t[b] == r[b - 1];
      }
    }
  }

  /** Where x goes in a queue: after the leading jobs whose remaining size is
      at most x's, so that x follows every equal job and precedes the first
      larger one. */
  function InsertPos(r: seq<Job>, x: Job): (j: nat)
    ensures j <= |r|
    ensures forall m :: 0 <= m < j ==> r[m].remSize <= x.remSize
    ensures j < |r| ==> x.remSize < r[j].remSize
  {
    if |r| == 0 || x.remSize < r[0].remSize then 0 else 1 + InsertPos(r[1..], x)
  }

  /** The insertion position is the only one with those two properties. */
  lemma InsertPosUnique(r: seq<Job>, x: Job, j: nat)
    requires j <= |r|
    requires forall m :: 0 <= m < j ==> r[m].remSize <= x.remSize
    requires j < |r| ==> x.remSize < r[j].remSize
    ensures j == InsertPos(r, x)
  {
  }

  /** r with x inserted at its insertion position. */
  function Inserted(r: seq<Job>, x: Job): seq<Job>
  {
    var j := InsertPos(r, x);
    r[..j] + [x] + r[j..]
  }

  /** Inserting into a sorted queue gives a sorted queue holding one more job. */
  lemma InsertedSortedPermutation(r: seq<Job>, x: Job)
    requires SortedByRemaining(r)
    ensures SortedByRemaining(Inserted(r, x))
    ensures multiset(Inserted(r, x)) == multiset(r) + multiset{x}
  {
    var j := InsertPos(r, x);
    InsertKeepsSorted(r, j, x);
    assert r == r[..j] + r[j..];
    calc {
      multiset(Inserted(r, x));
      multiset(r[..j] + [x] + r[j..]);
      multiset(r[..j]) + multiset{x} + multiset(r[j..]);
      multiset(r[..j] + r[j..]) + multiset{x};
      multiset(r) + multiset{x};
    }
  }

  /** The stable insertion sort by remaining size: the jobs are inserted in
      queue order, each after the equal ones already placed. */
  function InsertionSorted(q: seq<Job>): seq<Job>
  {
    if |q| == 0 then [] else Inserted(InsertionSorted(q[..|q| - 1]), q[|q| - 1])
  }

  /** The insertion sort orders the queue by remaining size and loses no job. */
  lemma {:induction false} InsertionSortedIsSortedPermutation(q: seq<Job>)
    ensures SortedByRemaining(InsertionSorted(q))
    ensures multiset(InsertionSorted(q)) == multiset(q)
  {
    if |q| > 0 {
      var init := q[..|q| - 1];
      InsertionSortedIsSortedPermutation(init);
      InsertedSortedPermutation(InsertionSorted(init), q[|q| - 1]);
      assert q == init + [q[|q| - 1]];
    }
  }

  /** One insertion: a linear scan for the first job larger than x, then x is
      placed before it. */
  method InsertByRemaining(r: seq<Job>, x: Job) returns (t: seq<Job>)
    ensures t == Inserted(r, x)
  {
    var j := 0;
    while j < |r| && r[j].remSize <= x.remSize
      invariant 0 <= j <= |r|
      invariant forall m :: 0 <= m < j ==> r[m].remSize <= x.remSize
    {
      j := j + 1;
    }
    InsertPosUnique(r, x, j);
    t := r[..j] + [x] + r[j..];
  }

  /** queue.sort_by_key(rem_size), a stable sort, as the insertion sort: the
      result is sorted by remaining size and is a permutation of the queue. */
  method SortByRemaining(q: seq<Job>) returns (r: seq<Job>)
    ensures r == InsertionSorted(q)
    ensures SortedByRemaining(r) && multiset(r) == multiset(q)
  {
    r := [];
    var i := 0;
    while i < |q|
      invariant 0 <= i <= |q|
      invariant r == InsertionSorted(q[..i])
    {
      r := InsertByRemaining(r, q[i]);
      assert q[..i + 1][..i] == q[..i];
      i := i + 1;
    }
    assert q[..|q|] == q;
    InsertionSortedIsSortedPermutation(q);
  }

  /** The time a job needs to finish when served at rate 1/numServers. */
  function CompletionTime(j: Job, numServers: nat): real
  {
    j.remSize * numServers as real
  }

  /** Serving order by remaining size is serving order by completion time. */
  lemma CompletionTimeMonotone(x: Job, y: Job, numServers: nat)
    requires x.remSize <= y.remSize
    ensures CompletionTime(x, numServers) <= CompletionTime(y, numServers)
  {
    var n := numServers as real;
    assert (y.remSize - x.remSize) * n >= 0.0;
  }

  /** The smallest completion time over a non-empty run of jobs. */
  function MinCompletion(s: seq<Job>, numServers: nat): real
    requires |s| > 0
  {
    if |s| == 1 then CompletionTime(s[0], numServers)
    else
      var rest := MinCompletion(s[1..], numServers);
      var first := CompletionTime(s[0], numServers);
      if first <= rest then first else rest
  }

  /** MinCompletion is a lower bound attained by one of the jobs. */
  lemma {:induction false} MinCompletionIsMinimum(s: seq<Job>, numServers: nat)
    requires |s| > 0
    ensures forall i :: 0 <= i < |s| ==> MinCompletion(s, numServers) <= CompletionTime(s[i], numServers)
    ensures exists i :: 0 <= i < |s| && MinCompletion(s, numServers) == CompletionTime(s[i], numServers)
  {
    var m := MinCompletion(s, numServers);
    if |s| == 1 {
      assert m == CompletionTime(s[0], numServers);
    } else {
      var rest := MinCompletion(s[1..], numServers);
      MinCompletionIsMinimum(s[1..], numServers);
      var j :| 0 <= j < |s[1..]| && rest == CompletionTime(s[1..][j], numServers);
      assert s[1..][j] == s[j + 1];
      forall i | 1 <= i < |s|
        ensures rest <= CompletionTime(s[i], numServers)
      {
        assert s[i] == s[1..][i - 1];
      }
      if m == rest {
        assert m == CompletionTime(s[j + 1], numServers);
      } else {
        assert m == CompletionTime(s[0], numServers);
      }
    }
  }

  /** Time until the first in-service job would finish at rate 1/numServers:
      the minimum of remSize * numServers over the in-service prefix, or None
      (f64 infinity) when nothing is in service. */
  function NextCompletion(q: seq<Job>, numServers: nat): (r: Option<real>)
    ensures r.None? <==> InService(numServers, |q|) == 0
  {
    var k := InService(numServers, |q|);
    if k == 0 then None else Some(MinCompletion(q[..k], numServers))
  }

  /** The next completion is the least completion time of the in-service
      jobs, and some in-service job attains it. */
  lemma NextCompletionIsMinimum(q: seq<Job>, numServers: nat)
    requires InService(numServers, |q|) > 0
    ensures var k, c := InService(numServers, |q|), NextCompletion(q, numServers);
      && c.Some?
      && (forall i :: 0 <= i < k ==> c.value <= CompletionTime(q[i], numServers))
      && (exists i :: 0 <= i < k && c.value == CompletionTime(q[i], numServers))
  {
    var k := InService(numServers, |q|);
    var prefix := q[..k];
    MinCompletionIsMinimum(prefix, numServers);
    assert forall i :: 0 <= i < k ==> prefix[i] == q[i];
  }

  /** On a sorted queue the next completion is that of the head job. */
  lemma SortedNextCompletion(q: seq<Job>, numServers: nat)
    requires SortedByRemaining(q) && numServers > 0 && |q| > 0
    ensures NextCompletion(q, numServers) == Some(CompletionTime(q[0], numServers))
  {
    var c := NextCompletion(q, numServers);
    NextCompletionIsMinimum(q, numServers);
    var i :| 0 <= i < InService(numServers, |q|) && c.value == CompletionTime(q[i], numServers);
    CompletionTimeMonotone(q[0], q[i], numServers);
  }

  /** next_completion.min(next_arrival_time - time), None being infinity. */
  function StepDuration(nextCompletion: Option<real>, untilArrival: real): (d: real)
    ensures d <= untilArrival
    ensures nextCompletion.Some? ==> d <= nextCompletion.value
    ensures d == untilArrival || (nextCompletion.Some? && d == nextCompletion.value)
  {
    match nextCompletion
    case None => untilArrival
    case Some(c) => if c <= untilArrival then c else untilArrival
  }

  /** was_arrival = next_duration < next_completion: an arrival step exactly when
      the arrival comes strictly first, so a tie is a completion step. */
  function IsArrival(nextCompletion: Option<real>, untilArrival: real): (b: bool)
    ensures b <==> nextCompletion.None? || untilArrival < nextCompletion.value
  {
    match nextCompletion
    case None => true
    case Some(c) => StepDuration(nextCompletion, untilArrival) < c
  }

  /** The work each in-service job receives in a step of the given duration:
      duration / numServers, whatever the number of jobs in service. With no
      servers nothing is in service and the share is never applied. */
  function ServiceShare(duration: real, numServers: nat): real
  {
    if numServers == 0 then 0.0 else duration / numServers as real
  }

  /** The queue after the first k jobs each lose `amount` of remaining size. */
  function Drained(q: seq<Job>, k: nat, amount: real): (r: seq<Job>)
    requires k <= |q|
    ensures |r| == |q|
  {
    if k == 0 then q
    else [Job(q[0].arrivalTime, q[0].remSize - amount)] + Drained(q[1..], k - 1, amount)
  }

  /** Exactly the first k jobs lose `amount`; arrival times and the jobs past
      the prefix are unchanged. */
  lemma {:induction false} DrainedAt(q: seq<Job>, k: nat, amount: real)
    requires k <= |q|
    ensures forall i :: 0 <= i < k ==> Drained(q, k, amount)[i] == Job(q[i].arrivalTime, q[i].remSize - amount)
    ensures forall i :: k <= i < |q| ==> Drained(q, k, amount)[i] == q[i]
  {
    if k > 0 {
      DrainedAt(q[1..], k - 1, amount);
      var r := Drained(q, k, amount);
      forall i | 1 <= i < |q|
        ensures r[i] == Drained(q[1..], k - 1, amount)[i - 1] && q[i] == q[1..][i - 1]
      {
      }
    }
  }

  /** queue.iter_mut().take(num_servers).for_each(|job| job.rem_size -= amount). */
  method DrainServed(q: seq<Job>, k: nat, amount: real) returns (r: seq<Job>)
    requires k <= |q|
    ensures r == Drained(q, k, amount)
  {
    r := q;
    var i := 0;
    while i < k
      invariant 0 <= i <= k && |r| == |q|
      invariant forall m :: 0 <= m < i ==> r[m] == Job(q[m].arrivalTime, q[m].remSize - amount)
      invariant forall m :: i <= m < |q| ==> r[m] == q[m]
    {
      r := r[i := Job(r[i].arrivalTime, r[i].remSize - amount)];
      i := i + 1;
    }
    DrainedAt(q, k, amount);
    var spec := Drained(q, k, amount);
    assert forall m :: 0 <= m < |q| ==> r[m] == spec[m];
  }

  /** The work received in a step no longer than a job's completion time
      does not exceed that job's remaining size. */
  lemma ShareWithinRemaining(j: Job, numServers: nat, duration: real)
    requires numServers > 0 && duration <= CompletionTime(j, numServers)
    ensures ServiceShare(duration, numServers) <= j.remSize
  {
    var n := numServers as real;
    var a := duration / n;
    assert a * n == duration;
    assert (j.remSize - a) * n >= 0.0;
  }

  /** The work each in-service job receives in a step never exceeds its
      remaining size, the step being no longer than the next completion. */
  lemma ShareWithinServed(q: seq<Job>, numServers: nat, untilArrival: real)
    ensures var d := StepDuration(NextCompletion(q, numServers), untilArrival);
      forall i :: 0 <= i < InService(numServers, |q|) ==> ServiceShare(d, numServers) <= q[i].remSize
  {
    var d := StepDuration(NextCompletion(q, numServers), untilArrival);
    if InService(numServers, |q|) > 0 {
      NextCompletionIsMinimum(q, numServers);
      forall i | 0 <= i < InService(numServers, |q|)
        ensures ServiceShare(d, numServers) <= q[i].remSize
      {
        ShareWithinRemaining(q[i], numServers, d);
      }
    }
  }

  /** Hence no served job is left with negative remaining size. */
  lemma DrainKeepsServedNonNegative(q: seq<Job>, numServers: nat, untilArrival: real)
    ensures var k := InService(numServers, |q|);
      var d := StepDuration(NextCompletion(q, numServers), untilArrival);
      var r := Drained(q, k, ServiceShare(d, numServers));
      forall i :: 0 <= i < k ==> r[i].remSize >= 0.0
  {
    var k := InService(numServers, |q|);
    var d := StepDuration(NextCompletion(q, numServers), untilArrival);
    ShareWithinServed(q, numServers, untilArrival);
    DrainedAt(q, k, ServiceShare(d, numServers));
  }

  /** The in-service jobs that survive a step, in their order. */
  function Unfinished(s: seq<Job>): seq<Job>
  {
    if |s| == 0 then []
    else (if s[0].remSize < EPSILON then [] else [s[0]]) + Unfinished(s[1..])
  }

  /** The in-service jobs that complete in a step, in their order. */
  function Finished(s: seq<Job>): seq<Job>
  {
    if |s| == 0 then []
    else (if s[0].remSize < EPSILON then [s[0]] else []) + Finished(s[1..])
  }

  /** Survivors are exactly the jobs at or above the threshold, completions
      exactly those below it. */
  lemma {:induction false} RemovalThreshold(s: seq<Job>)
    ensures forall i :: 0 <= i < |Unfinished(s)| ==> Unfinished(s)[i].remSize >= EPSILON
    ensures forall i :: 0 <= i < |Finished(s)| ==> Finished(s)[i].remSize < EPSILON
  {
    if s != [] {
      RemovalThreshold(s[1..]);
      var u, f := Unfinished(s[1..]), Finished(s[1..]);
      var hu := if s[0].remSize < EPSILON then [] else [s[0]];
      var hf := if s[0].remSize < EPSILON then [s[0]] else [];
      assert forall i :: |hu| <= i < |hu + u| ==> (hu + u)[i] == u[i - |hu|];
      assert forall i :: |hf| <= i < |hf + f| ==> (hf + f)[i] == f[i - |hf|];
    }
  }

  /** Removal loses no job: every job is either kept or completed. */
  lemma {:induction false} UnfinishedFinishedPartition(s: seq<Job>)
    ensures multiset(Unfinished(s)) + multiset(Finished(s)) == multiset(s)
    ensures |Unfinished(s)| + |Finished(s)| == |s|
  {
    if s != [] {
      UnfinishedFinishedPartition(s[1..]);
      assert s == [s[0]] + s[1..];
    }
  }

  /** A job below EPSILON is certain to be among the completed ones. */
  lemma {:induction false} FinishedNonEmpty(s: seq<Job>, j: nat)
    requires j < |s| && s[j].remSize < EPSILON
    ensures |Finished(s)| >= 1
  {
    if j > 0 {
      FinishedNonEmpty(s[1..], j - 1);
    }
  }

  /** A job served for exactly its completion time receives all its work. */
  lemma ShareOfOwnCompletion(j: Job, numServers: nat)
    requires numServers > 0
    ensures ServiceShare(CompletionTime(j, numServers), numServers) == j.remSize
  {
    var n := numServers as real;
    var a := CompletionTime(j, numServers) / n;
    assert a * n == j.remSize * n;
    assert (a - j.remSize) * n == 0.0;
  }

  /** On a completion step (the next completion comes no later than the next
      arrival) the job attaining the minimum is drained to zero, so at least
      one in-service job finishes. */
  lemma CompletionStepFinishesAJob(q: seq<Job>, numServers: nat, untilArrival: real)
    requires !IsArrival(NextCompletion(q, numServers), untilArrival)
    ensures var k := InService(numServers, |q|);
      var d := StepDuration(NextCompletion(q, numServers), untilArrival);
      |Finished(Drained(q, k, ServiceShare(d, numServers))[..k])| >= 1
  {
    var k := InService(numServers, |q|);
    var nc := NextCompletion(q, numServers);
    var d := StepDuration(nc, untilArrival);
    var r := Drained(q, k, ServiceShare(d, numServers));
    NextCompletionIsMinimum(q, numServers);
    DrainedAt(q, k, ServiceShare(d, numServers));
    var j :| 0 <= j < k && nc.value == CompletionTime(q[j], numServers);
    ShareOfOwnCompletion(q[j], numServers);
    assert r[..k][j].remSize == 0.0;
    FinishedNonEmpty(r[..k], j);
  }

  /** Sum of the response times time - arrivalTime of the given jobs. */
  function ResponseSum(s: seq<Job>, time: real): real
  {
    if |s| == 0 then 0.0 else (time - s[0].arrivalTime) + ResponseSum(s[1..], time)
  }

  /** Jobs that arrived no later than `time` contribute non-negative response. */
  lemma {:induction false} ResponseSumNonNegative(s: seq<Job>, time: real)
    requires forall i :: 0 <= i < |s| ==> s[i].arrivalTime <= time
    ensures ResponseSum(s, time) >= 0.0
  {
    if s != [] {
      ResponseSumNonNegative(s[1..], time);
    }
  }

  /** Scanning one more index i of the prefix q[i..k] from the top: q[i] is
      kept in front of the survivors exactly when it has not finished. */
  lemma UnfinishedStep(q: seq<Job>, i: nat, k: nat)
    requires i < k <= |q|
    ensures Unfinished(q[i..k]) ==
      (if q[i].remSize < EPSILON then [] else [q[i]]) + Unfinished(q[i + 1..k])
  {
    assert q[i..k][0] == q[i] && q[i..k][1..] == q[i + 1..k];
  }

  /** ... and it is counted, with its response time, exactly when it has. */
  lemma FinishedStep(q: seq<Job>, i: nat, k: nat, time: real)
    requires i < k <= |q|
    ensures q[i].remSize < EPSILON ==>
      |Finished(q[i..k])| == 1 + |Finished(q[i + 1..k])| &&
      ResponseSum(Finished(q[i..k]), time) == (time - q[i].arrivalTime) + ResponseSum(Finished(q[i + 1..k]), time)
    ensures q[i].remSize >= EPSILON ==> Finished(q[i..k]) == Finished(q[i + 1..k])
  {
    assert q[i..k][0] == q[i] && q[i..k][1..] == q[i + 1..k];
    if q[i].remSize < EPSILON {
      var f := Finished(q[i + 1..k]);
      assert Finished(q[i..k]) == [q[i]] + f;
      assert ([q[i]] + f)[1..] == f;
    }
  }

  /** Removing the element at index |a| from a + ([x] + b) leaves a + b. */
  lemma SpliceOut(a: seq<Job>, x: Job, b: seq<Job>)
    ensures (a + ([x] + b))[|a|] == x
    ensures (a + ([x] + b))[..|a|] + (a + ([x] + b))[|a| + 1..] == a + b
  {
    var t := a + ([x] + b);
    assert t[..|a|] == a;
    assert t[|a| + 1..] == b;
  }

  /** The queue after the scan has passed index i, with survivors u above i:
      removing q[i] when it has finished, keeping it otherwise, gives the
      queue with survivors u' from i on. */
  lemma RemovalQueueStep(q: seq<Job>, i: nat, k: nat, r: seq<Job>, u: seq<Job>, u': seq<Job>)
    requires i < k <= |q|
    requires r == q[..i + 1] + (u + q[k..])
    requires u' == (if q[i].remSize < EPSILON then [] else [q[i]]) + u
    ensures r[i] == q[i]
    ensures q[i].remSize < EPSILON ==> r[..i] + r[i + 1..] == q[..i] + (u' + q[k..])
    ensures q[i].remSize >= EPSILON ==> r == q[..i] + (u' + q[k..])
  {
    var tail := q[k..];
    assert q[..i + 1] == q[..i] + [q[i]];
    assert r == q[..i] + ([q[i]] + (u + tail));
    SpliceOut(q[..i], q[i], u + tail);
  }

  /** The reverse loop `for i in (0..k).rev()` that removes every in-service
      job below EPSILON with queue.remove(i), counting it and adding its
      response time. Survivors keep their order; jobs past the prefix stay. */
  method RemoveFinished(q: seq<Job>, k: nat, time: real) returns (r: seq<Job>, completed: nat, response: real)
    requires k <= |q|
    ensures r == Unfinished(q[..k]) + q[k..]
    ensures completed == |Finished(q[..k])|
    ensures response == ResponseSum(Finished(q[..k]), time)
  {
    r, completed, response := q, 0, 0.0;
    var i := k;
    assert q[k..k] == [] && q == q[..k] + q[k..];
    while i > 0
      invariant 0 <= i <= k
      invariant r == q[..i] + (Unfinished(q[i..k]) + q[k..])
      invariant completed == |Finished(q[i..k])|
      invariant response == ResponseSum(Finished(q[i..k]), time)
    {
      i := i - 1;
      FinishedStep(q, i, k, time);
      UnfinishedStep(q, i, k);
      RemovalQueueStep(q, i, k, r, Unfinished(q[i + 1..k]), Unfinished(q[i..k]));
      if r[i].remSize < EPSILON {
        var job := r[i];
        r := r[..i] + r[i + 1..];
        response := response + (time - job.arrivalTime);
        completed := completed + 1;
      }
    }
    assert q[0..k] == q[..k];
  }
}
