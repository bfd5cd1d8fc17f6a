/** The entries of the `stats` table of ollama_stress_test.py: one request
    record per finished request and one resource sample per monitor tick,
    with the tallies that the table's counters must agree with. */
module Records {
  import opened Prompts

  /** What one `ollama.generate` call gives the worker: the measured latency
      and the number of whitespace-separated words of the generated text, or
      the text of the exception it raised. */
  datatype Outcome = Generated(latency: real, tokens: nat) | Raised(error: string)

  /** One entry of `request_history`; the constructor is its `success` flag. */
  datatype RequestRecord =
    | Succeeded(workerId: int, prompt: string, latency: real, tokens: nat)
    | Failed(workerId: int, prompt: string, error: string)

  /** One entry of `system_stats`, as `get_system_stats` returns it. */
  datatype Snapshot = Snapshot(
    cpuPercent: real,
    memPercent: real,
    memUsedGb: real,
    gpuUtil: real,
    gpuMemPercent: real,
    gpuTemp: real)

  /** The record a worker appends for one request: the prompt is stored as its excerpt. */
  function RecordOf(workerId: int, prompt: string, o: Outcome): (r: RequestRecord)
    ensures r.workerId == workerId && r.prompt == Excerpt(prompt)
    ensures r.Succeeded? <==> o.Generated?
  {
    match o
    case Generated(latency, tokens) => Succeeded(workerId, Excerpt(prompt), latency, tokens)
    case Raised(error) => Failed(workerId, Excerpt(prompt), error)
  }

  /** The number of success-tagged records. */
  function Successes(h: seq<RequestRecord>): nat {
    if h == [] then 0
    else Successes(h[..|h| - 1]) + (if h[|h| - 1].Succeeded? then 1 else 0)
  }

  /** The tokens of the success-tagged records, added up. */
  function TokenSum(h: seq<RequestRecord>): nat {
    if h == [] then 0
    else TokenSum(h[..|h| - 1]) + (if h[|h| - 1].Succeeded? then h[|h| - 1].tokens else 0)
  }

  /** The latencies of the success-tagged records, added up. */
  function LatencySum(h: seq<RequestRecord>): real {
    if h == [] then 0.0
    else LatencySum(h[..|h| - 1]) + (if h[|h| - 1].Succeeded? then h[|h| - 1].latency else 0.0)
  }

  /** At most every record is a success, and a history of successes only
      has exactly as many successes as records. */
  lemma {:induction false} SuccessesBound(h: seq<RequestRecord>)
    ensures Successes(h) <= |h|
    ensures Successes(h) == |h| <==> forall i :: 0 <= i < |h| ==> h[i].Succeeded?
  {
    if h != [] {
      var init := h[..|h| - 1];
      SuccessesBound(init);
      if forall i :: 0 <= i < |h| ==> h[i].Succeeded? {
        assert forall i :: 0 <= i < |init| ==> init[i].Succeeded? by {
          forall i | 0 <= i < |init| ensures init[i].Succeeded? {
            assert init[i] == h[i];
          }
        }
      }
      if Successes(h) == |h| {
        assert Successes(init) == |init| && h[|h| - 1].Succeeded?;
        forall i | 0 <= i < |h| ensures h[i].Succeeded? {
          if i < |init| {
            assert init[i] == h[i];
          }
        }
      }
    }
  }

  /** The tallies of a history that grew by appending `b` are those of the
      old history plus those of `b`. */
  lemma {:induction false} TalliesAppend(a: seq<RequestRecord>, b: seq<RequestRecord>)
    ensures Successes(a + b) == Successes(a) + Successes(b)
    ensures TokenSum(a + b) == TokenSum(a) + TokenSum(b)
    ensures LatencySum(a + b) == LatencySum(a) + LatencySum(b)
    decreases |b|
  {
    if b == [] {
      assert a + b == a;
    } else {
      var init := b[..|b| - 1];
      TalliesAppend(a, init);
      assert (a + b)[..|a + b| - 1] == a + init;
    }
  }

  /** Appending the record of one outcome adds one success, its tokens and
      its latency exactly when the outcome is a generated response. */
  lemma TalliesSnoc(h: seq<RequestRecord>, workerId: int, prompt: string, o: Outcome)
    ensures Successes(h + [RecordOf(workerId, prompt, o)]) == Successes(h) + (if o.Generated? then 1 else 0)
    ensures TokenSum(h + [RecordOf(workerId, prompt, o)]) == TokenSum(h) + (if o.Generated? then o.tokens else 0)
    ensures LatencySum(h + [RecordOf(workerId, prompt, o)]) == LatencySum(h) + (if o.Generated? then o.latency else 0.0)
  {
    assert (h + [RecordOf(workerId, prompt, o)])[..|h|] == h;
  }

  /** The records one worker appends for its outcomes, in order, the k-th
      one made from the k-th prompt of the cycle. */
  function WorkerRecords(workerId: int, prompts: seq<string>, outcomes: seq<Outcome>): (h: seq<RequestRecord>)
    requires prompts != []
    ensures |h| == |outcomes|
  {
    if outcomes == [] then []
    else
      var n := |outcomes| - 1;
      WorkerRecords(workerId, prompts, outcomes[..n]) + [RecordOf(workerId, PromptAt(prompts, n), outcomes[n])]
  }

  /** The k-th record of a worker comes from its k-th outcome and the k-th
      prompt of the cycle, carries its worker id and stores the prompt's
      excerpt. */
  lemma {:induction false} WorkerRecordsAt(workerId: int, prompts: seq<string>, outcomes: seq<Outcome>, k: nat)
    requires prompts != [] && k < |outcomes|
    ensures WorkerRecords(workerId, prompts, outcomes)[k] == RecordOf(workerId, PromptAt(prompts, k), outcomes[k])
    ensures WorkerRecords(workerId, prompts, outcomes)[k].workerId == workerId
    ensures WorkerRecords(workerId, prompts, outcomes)[k].prompt == Excerpt(prompts[k % |prompts|])
    ensures WorkerRecords(workerId, prompts, outcomes)[k].Succeeded? <==> outcomes[k].Generated?
  {
    var n := |outcomes| - 1;
    if k < n {
      WorkerRecordsAt(workerId, prompts, outcomes[..n], k);
      assert outcomes[..n][k] == outcomes[k];
    }
  }

  /** One more outcome at the end adds its record at the end. */
  lemma WorkerRecordsAppendOne(workerId: int, prompts: seq<string>, outcomes: seq<Outcome>, o: Outcome)
    requires prompts != []
    ensures WorkerRecords(workerId, prompts, outcomes + [o])
      == WorkerRecords(workerId, prompts, outcomes) + [RecordOf(workerId, PromptAt(prompts, |outcomes|), o)]
  {
    assert (outcomes + [o])[..|outcomes|] == outcomes;
  }

  /** The records of the first k + 1 outcomes are those of the first k and
      the record of the k-th. */
  lemma WorkerRecordsPrefix(workerId: int, prompts: seq<string>, outcomes: seq<Outcome>, k: nat)
    requires prompts != [] && k < |outcomes|
    ensures WorkerRecords(workerId, prompts, outcomes[..k + 1])
      == WorkerRecords(workerId, prompts, outcomes[..k]) + [RecordOf(workerId, PromptAt(prompts, k), outcomes[k])]
  {
    assert outcomes[..k + 1][..k] == outcomes[..k];
  }

  lemma MulSucc(a: nat, n: nat)
    ensures a * (n + 1) == a * n + a
  {
  }
}
