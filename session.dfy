/** `main` of ollama_stress_test.py (lines 273-299) as one sequential run:
    load the prompts, let the workers' atomic steps happen in the order
    given, let the monitor take its samples, then compute the summary. The
    threads, the sleep of TEST_DURATION and the printing are not modelled. */
module Session {
  import opened Results
  import opened Prompts
  import opened Records
  import opened Stats
  import opened Worker
  import opened Summary

  /** Why a run ends without a report. */
  datatype RunError =
    | PromptFileError(reason: string)   // an error of `open` other than a missing file
    | ReportError(cause: SummaryError)  // `save_results` found no resource sample

  /** The records the workers append. With no prompt at all, every worker
      raises ZeroDivisionError on its first `prompt_index % len(prompts)`
      and its thread ends without a record; `main` carries on. */
  function RunRecords(prompts: seq<string>, steps: seq<Step>): (h: seq<RequestRecord>)
    ensures prompts == [] ==> h == []
    ensures prompts != [] ==> |h| == |steps|
  {
    if prompts == [] then [] else ScheduleRecords(prompts, steps)
  }

  /** The table's final state as the tallies of its records `h` and the
      monitor's samples. */
  function FinalView(h: seq<RequestRecord>, samples: seq<Snapshot>): View {
    SuccessesBound(h);
    View(|h|, Successes(h), |h| - Successes(h), TokenSum(h), LatencySum(h), samples)
  }

  /** The whole run. The report's counts are the tallies of the records the
      workers appended, and its success rate is a percentage. */
  method RunTest(file: PromptFile, steps: seq<Step>, samples: seq<Snapshot>, startTime: real)
    returns (r: Result<TestReport, RunError>)
    ensures file.Unreadable? ==> r == Failure(PromptFileError(file.reason))
    ensures !file.Unreadable? && samples == [] ==> r == Failure(ReportError(NoSystemSamples))
    ensures !file.Unreadable? && samples != [] ==>
      var h := RunRecords(LoadPrompts(file).value, steps);
      && r.Success?
      && r.value.totalRequests == |h|
      && r.value.successfulRequests == Successes(h)
      && r.value.failedRequests == |h| - Successes(h)
      && r.value.totalTokens == TokenSum(h)
      && r.value == Summarize(FinalView(h, samples)).value
      && r.value.successRate == SuccessRate(Successes(h), |h|)
      && r.value.avgLatencyMs == AverageLatencyMs(LatencySum(h), Successes(h))
      && 0.0 <= r.value.successRate <= 100.0
      && r.value.avgTps * 600.0 == TokenSum(h) as real
  {
    var loaded := LoadPrompts(file);
    if loaded.Failure? {
      return Failure(PromptFileError(loaded.error));
    }
    var prompts := loaded.value;
    var stats := new RunStats(startTime);
    if prompts != [] {
      RunSchedule(stats, prompts, steps);
    }
    Monitor(stats, samples);
    var report := Summarize(stats.CurrentView());
    if report.Failure? {
      return Failure(ReportError(report.error));
    }
    ghost var h := RunRecords(prompts, steps);
    FinalReport(stats, h);
    assert stats.systemStats == samples;
    ghost var v := FinalView(h, samples);
    assert stats.CurrentView() == v;
    assert report == Summarize(v);
    r := Success(report.value);
  }

  /** The report of a table that holds exactly the records `h` and at least
      one sample is the summary of the records' tallies: a percentage
      success rate, the guarded mean latency, and an average TPS that times
      TEST_DURATION gives the token total. */
  lemma FinalReport(s: RunStats, h: seq<RequestRecord>)
    requires s.Valid() && s.requestHistory == h && s.systemStats != []
    ensures var v := FinalView(h, s.systemStats);
      && s.CurrentView() == v
      && Summarize(v).Success?
      && Summarize(v).value.totalRequests == |h|
      && Summarize(v).value.successfulRequests == Successes(h)
      && Summarize(v).value.failedRequests == |h| - Successes(h)
      && Summarize(v).value.totalTokens == TokenSum(h)
      && Summarize(v).value.successRate == SuccessRate(Successes(h), |h|)
      && Summarize(v).value.avgLatencyMs == AverageLatencyMs(LatencySum(h), Successes(h))
      && 0.0 <= Summarize(v).value.successRate <= 100.0
      && Summarize(v).value.avgTps * 600.0 == TokenSum(h) as real
  {
    var v := FinalView(h, s.systemStats);
    assert s.CurrentView() == v;
    SummaryOfValidStats(s);
    SummaryThroughput(v);
  }

  /** The run of two workers, twenty requests each, every request answered
      with ten tokens: forty successes, four hundred tokens, a success rate
      of 100. */
  lemma TwoWorkersAllSucceed(steps: seq<Step>)
    requires |steps| == 40
    requires forall i :: 0 <= i < |steps| ==> steps[i] == Step(i % 2, Generated(1.0, 10))
    ensures var h := RunRecords(LoadPrompts(Missing).value, steps);
      |h| == 40 && Successes(h) == 40 && TokenSum(h) == 400 && SuccessRate(Successes(h), |h|) == 100.0
  {
    var prompts := LoadPrompts(Missing).value;
    AllSucceededTallies(prompts, steps, 10);
    SuccessRateExtremes(40, 40);
  }
}
