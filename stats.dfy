/** The shared `stats` table of ollama_stress_test.py (lines 24-33) and the
    three blocks that change it in place: the success block and the failure
    block of `worker`, and the append of `monitor`. Each method is one
    atomic step; the invariants are stated for any sequence of such steps. */
module Stats {
  import opened Prompts
  import opened Records

  /** A point-in-time copy of what the reporter and the summary read. */
  datatype View = View(
    totalRequests: nat,
    successfulRequests: nat,
    failedRequests: nat,
    totalTokens: nat,
    totalLatency: real,
    systemStats: seq<Snapshot>)

  /** From `a` to `b` no counter went down and no sample went away. */
  predicate Grows(a: View, b: View) {
    && a.totalRequests <= b.totalRequests
    && a.successfulRequests <= b.successfulRequests
    && a.failedRequests <= b.failedRequests
    && a.totalTokens <= b.totalTokens
    && a.systemStats <= b.systemStats
  }

  /** Growth composes: a table that grew twice grew from the first view to
      the last. */
  lemma GrowsTrans(a: View, b: View, c: View)
    requires Grows(a, b) && Grows(b, c)
    ensures Grows(a, c)
  {
  }

  /** `0 if successful == 0 else (total_latency / successful) * 1000`, the
      guarded mean latency in milliseconds that the reporter and the
      summary both print. */
  function AverageLatencyMs(totalLatency: real, successes: nat): (ms: real)
    ensures successes == 0 ==> ms == 0.0
    ensures totalLatency >= 0.0 ==> ms >= 0.0
  {
    if successes == 0 then 0.0 else (totalLatency / successes as real) * 1000.0
  }

  /** The mean latency is zero without successes and otherwise the
      per-success share of the total, in milliseconds. */
  lemma AverageLatencyMeaning(totalLatency: real, successes: nat)
    ensures successes == 0 ==> AverageLatencyMs(totalLatency, successes) == 0.0
    ensures successes > 0 ==> AverageLatencyMs(totalLatency, successes) * successes as real == totalLatency * 1000.0
  {
    if successes > 0 {
      var n := successes as real;
      assert (totalLatency / n) * n == totalLatency;
    }
  }

  class RunStats {
    /** `start_time`, captured once when the table is created. */
    const startTime: real
    var totalRequests: nat
    var successfulRequests: nat
    var failedRequests: nat
    var totalTokens: nat
    var totalLatency: real
    var requestHistory: seq<RequestRecord>
    var systemStats: seq<Snapshot>

    /** The table's invariants: the request counters add up, there is one
        record per request, and the success counters agree with the
        success-tagged records. */
    ghost predicate Valid()
      reads this
      ensures Valid() ==> successfulRequests <= totalRequests && failedRequests <= totalRequests
    {
      && totalRequests == successfulRequests + failedRequests
      && |requestHistory| == totalRequests
      && Successes(requestHistory) == successfulRequests
      && TokenSum(requestHistory) == totalTokens
      && LatencySum(requestHistory) == totalLatency
    }

    function CurrentView(): View
      reads this
    {
      View(totalRequests, successfulRequests, failedRequests, totalTokens, totalLatency, systemStats)
    }

    /** The initial table: all counters zero, both lists empty. */
    constructor (startTime: real)
      ensures Valid()
      ensures this.startTime == startTime
      ensures totalRequests == 0 && successfulRequests == 0 && failedRequests == 0
      ensures totalTokens == 0 && totalLatency == 0.0
      ensures requestHistory == [] && systemStats == []
    {
      this.startTime := startTime;
      totalRequests, successfulRequests, failedRequests := 0, 0, 0;
      totalTokens, totalLatency := 0, 0.0;
      requestHistory, systemStats := [], [];
    }

    /** The success block of `worker`. */
    method RecordSuccess(workerId: int, prompt: string, latency: real, tokens: nat)
      modifies this
      ensures totalRequests == old(totalRequests) + 1
      ensures successfulRequests == old(successfulRequests) + 1
      ensures failedRequests == old(failedRequests)
      ensures totalTokens == old(totalTokens) + tokens
      ensures totalLatency == old(totalLatency) + latency
      ensures requestHistory == old(requestHistory) + [Succeeded(workerId, Excerpt(prompt), latency, tokens)]
      ensures systemStats == old(systemStats)
      ensures Grows(old(CurrentView()), CurrentView())
      ensures old(Valid()) ==> Valid()
    {
      totalRequests := totalRequests + 1;
      successfulRequests := successfulRequests + 1;
      totalTokens := totalTokens + tokens;
      totalLatency := totalLatency + latency;
      var r := Succeeded(workerId, Excerpt(prompt), latency, tokens);
      assert (requestHistory + [r])[..|requestHistory|] == requestHistory;
      requestHistory := requestHistory + [r];
    }

    /** The failure block of `worker`: the counters of successful requests,
        tokens and latency stay as they are. */
    method RecordFailure(workerId: int, prompt: string, error: string)
      modifies this
      ensures totalRequests == old(totalRequests) + 1
      ensures failedRequests == old(failedRequests) + 1
      ensures successfulRequests == old(successfulRequests)
      ensures totalTokens == old(totalTokens)
      ensures totalLatency == old(totalLatency)
      ensures requestHistory == old(requestHistory) + [Failed(workerId, Excerpt(prompt), error)]
      ensures systemStats == old(systemStats)
      ensures Grows(old(CurrentView()), CurrentView())
      ensures old(Valid()) ==> Valid()
    {
      totalRequests := totalRequests + 1;
      failedRequests := failedRequests + 1;
      var r := Failed(workerId, Excerpt(prompt), error);
      assert (requestHistory + [r])[..|requestHistory|] == requestHistory;
      requestHistory := requestHistory + [r];
    }

    /** The append of `monitor`: one more sample, nothing else changes. */
    method AppendSnapshot(s: Snapshot)
      modifies this
      ensures systemStats == old(systemStats) + [s]
      ensures totalRequests == old(totalRequests) && successfulRequests == old(successfulRequests)
      ensures failedRequests == old(failedRequests) && totalTokens == old(totalTokens)
      ensures totalLatency == old(totalLatency) && requestHistory == old(requestHistory)
      ensures Grows(old(CurrentView()), CurrentView())
      ensures old(Valid()) ==> Valid()
    {
      systemStats := systemStats + [s];
    }
  }

  /** What the invariants give a reader: at most every request succeeded,
      the failures are the records that are not successes, and all requests
      succeeded exactly when every record is success-tagged. */
  lemma ValidCounters(s: RunStats)
    requires s.Valid()
    ensures s.successfulRequests <= s.totalRequests
    ensures s.failedRequests == |s.requestHistory| - Successes(s.requestHistory)
    ensures s.failedRequests == 0 <==> forall i :: 0 <= i < |s.requestHistory| ==> s.requestHistory[i].Succeeded?
  {
    SuccessesBound(s.requestHistory);
  }
}
