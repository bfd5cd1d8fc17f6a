/** The request loop of `worker`, the sampling loop of `monitor`, and a run
    of several workers whose atomic updates of the table are interleaved in
    an arbitrary order. How many iterations a loop makes is decided by the
    clock in the source; here it is the length of the sequence of outcomes
    (or samples) the loop is given. */
module Worker {
  import opened Prompts
  import opened Records
  import opened Stats

  /** The `try`/`except` of one iteration of `worker`: a generated response
      runs the success block, a raised exception the failure block. */
  method Record(stats: RunStats, workerId: int, prompt: string, outcome: Outcome)
    modifies stats
    ensures stats.requestHistory == old(stats.requestHistory) + [RecordOf(workerId, prompt, outcome)]
    ensures stats.totalRequests == old(stats.totalRequests) + 1
    ensures stats.successfulRequests == old(stats.successfulRequests) + (if outcome.Generated? then 1 else 0)
    ensures stats.failedRequests == old(stats.failedRequests) + (if outcome.Generated? then 0 else 1)
    ensures stats.totalTokens == old(stats.totalTokens) + (if outcome.Generated? then outcome.tokens else 0)
    ensures stats.totalLatency == old(stats.totalLatency) + (if outcome.Generated? then outcome.latency else 0.0)
    ensures stats.systemStats == old(stats.systemStats)
    ensures old(stats.Valid()) ==> stats.Valid()
  {
    match outcome {
      case Generated(latency, tokens) =>
        stats.RecordSuccess(workerId, prompt, latency, tokens);
      case Raised(error) =>
        stats.RecordFailure(workerId, prompt, error);
    }
  }

  /** `worker(worker_id, prompts)`: the k-th request uses the k-th prompt of
      the cycle and its outcome is recorded as a success or a failure. */
  method Work(stats: RunStats, workerId: int, prompts: seq<string>, outcomes: seq<Outcome>)
    requires prompts != []
    modifies stats
    ensures stats.requestHistory == old(stats.requestHistory) + WorkerRecords(workerId, prompts, outcomes)
    ensures stats.totalRequests == old(stats.totalRequests) + |outcomes|
    ensures stats.successfulRequests == old(stats.successfulRequests) + Successes(WorkerRecords(workerId, prompts, outcomes))
    ensures stats.failedRequests == old(stats.failedRequests) + |outcomes| - Successes(WorkerRecords(workerId, prompts, outcomes))
    ensures stats.totalTokens == old(stats.totalTokens) + TokenSum(WorkerRecords(workerId, prompts, outcomes))
    ensures stats.totalLatency == old(stats.totalLatency) + LatencySum(WorkerRecords(workerId, prompts, outcomes))
    ensures stats.systemStats == old(stats.systemStats)
    ensures old(stats.Valid()) ==> stats.Valid()
  {
    var promptIndex: nat := 0;
    ghost var done: seq<RequestRecord> := [];
    while promptIndex < |outcomes|
      invariant promptIndex <= |outcomes|
      invariant done == WorkerRecords(workerId, prompts, outcomes[..promptIndex])
      invariant stats.requestHistory == old(stats.requestHistory) + done
      invariant stats.totalRequests == old(stats.totalRequests) + promptIndex
      invariant stats.successfulRequests == old(stats.successfulRequests) + Successes(done)
      invariant stats.failedRequests + Successes(done) == old(stats.failedRequests) + promptIndex
      invariant stats.totalTokens == old(stats.totalTokens) + TokenSum(done)
      invariant stats.totalLatency == old(stats.totalLatency) + LatencySum(done)
      invariant stats.systemStats == old(stats.systemStats)
    {
      var prompt := prompts[promptIndex % |prompts|];
      var k := promptIndex;
      promptIndex := promptIndex + 1;
      Record(stats, workerId, prompt, outcomes[k]);
      var r := RecordOf(workerId, prompt, outcomes[k]);
      TalliesSnoc(done, workerId, prompt, outcomes[k]);
      WorkerRecordsPrefix(workerId, prompts, outcomes, k);
      done := done + [r];
    }
    assert outcomes[..promptIndex] == outcomes;
    TalliesAppend(old(stats.requestHistory), done);
  }

  /** `monitor`: each tick appends one resource sample. */
  method Monitor(stats: RunStats, samples: seq<Snapshot>)
    modifies stats
    ensures stats.systemStats == old(stats.systemStats) + samples
    ensures stats.requestHistory == old(stats.requestHistory)
    ensures stats.totalRequests == old(stats.totalRequests) && stats.successfulRequests == old(stats.successfulRequests)
    ensures stats.failedRequests == old(stats.failedRequests) && stats.totalTokens == old(stats.totalTokens)
    ensures stats.totalLatency == old(stats.totalLatency)
    ensures old(stats.Valid()) ==> stats.Valid()
  {
    var i := 0;
    while i < |samples|
      invariant i <= |samples|
      invariant stats.systemStats == old(stats.systemStats) + samples[..i]
      invariant stats.requestHistory == old(stats.requestHistory)
      invariant stats.totalRequests == old(stats.totalRequests) && stats.successfulRequests == old(stats.successfulRequests)
      invariant stats.failedRequests == old(stats.failedRequests) && stats.totalTokens == old(stats.totalTokens)
      invariant stats.totalLatency == old(stats.totalLatency)
      invariant old(stats.Valid()) ==> stats.Valid()
    {
      stats.AppendSnapshot(samples[i]);
      assert samples[..i + 1] == samples[..i] + [samples[i]];
      i := i + 1;
    }
    assert samples[..i] == samples;
  }

  // ---------------------------------------------------------------------
  // Several workers, their atomic steps in some order
  // ---------------------------------------------------------------------

  /** One atomic step of a run: worker `workerId` finished a request. */
  datatype Step = Step(workerId: int, outcome: Outcome)

  /** The outcomes of worker `w`'s requests, in the order of the run. */
  function OutcomesOf(steps: seq<Step>, w: int): seq<Outcome> {
    if steps == [] then []
    else
      var last := steps[|steps| - 1];
      OutcomesOf(steps[..|steps| - 1], w) + (if last.workerId == w then [last.outcome] else [])
  }

  /** The records of worker `w`, in the order of the history. */
  function RecordsBy(h: seq<RequestRecord>, w: int): seq<RequestRecord> {
    if h == [] then []
    else
      var last := h[|h| - 1];
      RecordsBy(h[..|h| - 1], w) + (if last.workerId == w then [last] else [])
  }

  /** The records a run appends: each step uses the prompt its own worker
      has reached, that is, as many prompts along the cycle as that worker
      has had earlier steps. */
  function ScheduleRecords(prompts: seq<string>, steps: seq<Step>): (h: seq<RequestRecord>)
    requires prompts != []
    ensures |h| == |steps|
  {
    if steps == [] then []
    else
      var init := steps[..|steps| - 1];
      var last := steps[|steps| - 1];
      ScheduleRecords(prompts, init)
        + [RecordOf(last.workerId, PromptAt(prompts, |OutcomesOf(init, last.workerId)|), last.outcome)]
  }

  /** However the steps of the workers interleave, the records of each
      worker are exactly those it would have appended running alone: every
      worker keeps its own deterministic walk through the prompts. */
  lemma {:induction false} ScheduleKeepsWorkerOrder(prompts: seq<string>, steps: seq<Step>, w: int)
    requires prompts != []
    ensures RecordsBy(ScheduleRecords(prompts, steps), w) == WorkerRecords(w, prompts, OutcomesOf(steps, w))
  {
    if steps != [] {
      var init := steps[..|steps| - 1];
      var last := steps[|steps| - 1];
      var h := ScheduleRecords(prompts, steps);
      var hInit := ScheduleRecords(prompts, init);
      ScheduleKeepsWorkerOrder(prompts, init, w);
      var o := OutcomesOf(init, last.workerId);
      var r := RecordOf(last.workerId, PromptAt(prompts, |o|), last.outcome);
      assert h == hInit + [r];
      assert h[..|h| - 1] == hInit;
      if last.workerId == w {
        assert OutcomesOf(steps, w) == o + [last.outcome];
        WorkerRecordsAppendOne(w, prompts, o, last.outcome);
        assert RecordsBy(h, w) == RecordsBy(hInit, w) + [r];
      } else {
        assert OutcomesOf(steps, w) == OutcomesOf(init, w);
        assert RecordsBy(h, w) == RecordsBy(hInit, w);
      }
    }
  }

  /** The next prompt index of worker `w` (0 before its first request). */
  function IndexOf(promptIndex: map<int, nat>, w: int): nat {
    if w in promptIndex then promptIndex[w] else 0
  }

  /** A run of several workers against one table, their steps applied one
      at a time in the order given: each step is a whole success or failure
      block. */
  method RunSchedule(stats: RunStats, prompts: seq<string>, steps: seq<Step>)
    requires prompts != []
    modifies stats
    ensures stats.requestHistory == old(stats.requestHistory) + ScheduleRecords(prompts, steps)
    ensures stats.totalRequests == old(stats.totalRequests) + |steps|
    ensures stats.successfulRequests == old(stats.successfulRequests) + Successes(ScheduleRecords(prompts, steps))
    ensures stats.totalTokens == old(stats.totalTokens) + TokenSum(ScheduleRecords(prompts, steps))
    ensures stats.systemStats == old(stats.systemStats)
    ensures old(stats.Valid()) ==> stats.Valid()
  {
    var promptIndex: map<int, nat> := map[];
    var i: nat := 0;
    ghost var done: seq<RequestRecord> := [];
    while i < |steps|
      invariant i <= |steps|
      invariant forall w :: IndexOf(promptIndex, w) == |OutcomesOf(steps[..i], w)|
      invariant done == ScheduleRecords(prompts, steps[..i])
      invariant stats.requestHistory == old(stats.requestHistory) + done
      invariant stats.totalRequests == old(stats.totalRequests) + i
      invariant stats.successfulRequests == old(stats.successfulRequests) + Successes(done)
      invariant stats.failedRequests + Successes(done) == old(stats.failedRequests) + i
      invariant stats.totalTokens == old(stats.totalTokens) + TokenSum(done)
      invariant stats.totalLatency == old(stats.totalLatency) + LatencySum(done)
      invariant stats.systemStats == old(stats.systemStats)
    {
      var step := steps[i];
      var k := IndexOf(promptIndex, step.workerId);
      var prompt := prompts[k % |prompts|];
      IndexStep(promptIndex, promptIndex[step.workerId := k + 1], steps, i);
      promptIndex := promptIndex[step.workerId := k + 1];
      Record(stats, step.workerId, prompt, step.outcome);
      var r := RecordOf(step.workerId, prompt, step.outcome);
      TalliesSnoc(done, step.workerId, prompt, step.outcome);
      ScheduleSnoc(prompts, steps, i);
      done := done + [r];
      i := i + 1;
    }
    assert steps[..i] == steps;
    TalliesAppend(old(stats.requestHistory), done);
  }

  /** One more step adds its record at the end. */
  lemma ScheduleSnoc(prompts: seq<string>, steps: seq<Step>, i: nat)
    requires prompts != [] && i < |steps|
    ensures ScheduleRecords(prompts, steps[..i + 1]) == ScheduleRecords(prompts, steps[..i])
      + [RecordOf(steps[i].workerId, PromptAt(prompts, |OutcomesOf(steps[..i], steps[i].workerId)|), steps[i].outcome)]
  {
    assert steps[..i + 1][..i] == steps[..i];
  }

  /** Advancing the stepping worker's index keeps every worker's index equal
      to the number of its steps so far. */
  lemma IndexStep(promptIndex: map<int, nat>, next: map<int, nat>, steps: seq<Step>, i: nat)
    requires i < |steps|
    requires forall w :: IndexOf(promptIndex, w) == |OutcomesOf(steps[..i], w)|
    requires next == promptIndex[steps[i].workerId := IndexOf(promptIndex, steps[i].workerId) + 1]
    ensures forall w :: IndexOf(next, w) == |OutcomesOf(steps[..i + 1], w)|
  {
    assert steps[..i + 1][..i] == steps[..i];
    forall w ensures IndexOf(next, w) == |OutcomesOf(steps[..i + 1], w)| {
      assert OutcomesOf(steps[..i + 1], w)
        == OutcomesOf(steps[..i], w) + (if steps[i].workerId == w then [steps[i].outcome] else []);
    }
  }

  /** A run in which every request succeeds with the same token count has
      one success and that many tokens per step, whatever the latencies. */
  lemma {:induction false} AllSucceededTallies(prompts: seq<string>, steps: seq<Step>, tokens: nat)
    requires prompts != []
    requires forall i :: 0 <= i < |steps| ==> steps[i].outcome.Generated? && steps[i].outcome.tokens == tokens
    ensures Successes(ScheduleRecords(prompts, steps)) == |steps|
    ensures TokenSum(ScheduleRecords(prompts, steps)) == tokens * |steps|
  {
    if steps != [] {
      var n := |steps| - 1;
      var init := steps[..n];
      assert steps[..n + 1] == steps;
      assert forall i :: 0 <= i < |init| ==> init[i].outcome.Generated? && init[i].outcome.tokens == tokens;
      AllSucceededTallies(prompts, init, tokens);
      ScheduleSnoc(prompts, steps, n);
      TalliesSnoc(ScheduleRecords(prompts, init), steps[n].workerId,
        PromptAt(prompts, |OutcomesOf(init, steps[n].workerId)|), steps[n].outcome);
      MulSucc(tokens, n);
    }
  }
}
