/** The summary of `save_results` in ollama_stress_test.py (lines 195-224):
    rates over the configured test duration, guarded ratios, and the GPU
    maxima over all resource samples. */
module Summary {
  import opened Results
  import opened Records
  import opened Stats
  import Config

  /** The numbers of the report document. */
  datatype TestReport = TestReport(
    model: string,
    testDuration: nat,
    concurrentThreads: nat,
    totalRequests: nat,
    successfulRequests: nat,
    failedRequests: nat,
    successRate: real,
    totalTokens: nat,
    avgTps: real,
    avgRps: real,
    avgLatencyMs: real,
    maxGpuTemp: real,
    maxGpuUtil: real,
    maxGpuMem: real)

  /** `save_results` fails before writing the report when no resource sample
      was taken: `stats["system_stats"][0]` (the system CSV header) raises
      IndexError, as `max` over an empty list would raise ValueError. */
  datatype SummaryError = NoSystemSamples

  /** `(successful / total) * 100 if total > 0 else 0`. */
  function SuccessRate(successful: nat, total: nat): (rate: real)
    ensures total == 0 || successful == 0 ==> rate == 0.0
  {
    if total > 0 then (successful as real / total as real) * 100.0 else 0.0
  }

  /** The largest of the values (Python's `max`). */
  function MaxOf(xs: seq<real>): (m: real)
    requires xs != []
    ensures m in xs
    ensures forall i :: 0 <= i < |xs| ==> xs[i] <= m
  {
    if |xs| == 1 then xs[0]
    else
      var rest := MaxOf(xs[1..]);
      if xs[0] >= rest then xs[0] else rest
  }

  function GpuTemps(s: seq<Snapshot>): (r: seq<real>)
    ensures |r| == |s| && forall i :: 0 <= i < |s| ==> r[i] == s[i].gpuTemp
  {
    seq(|s|, i requires 0 <= i < |s| => s[i].gpuTemp)
  }

  function GpuUtils(s: seq<Snapshot>): (r: seq<real>)
    ensures |r| == |s| && forall i :: 0 <= i < |s| ==> r[i] == s[i].gpuUtil
  {
    seq(|s|, i requires 0 <= i < |s| => s[i].gpuUtil)
  }

  function GpuMems(s: seq<Snapshot>): (r: seq<real>)
    ensures |r| == |s| && forall i :: 0 <= i < |s| ==> r[i] == s[i].gpuMemPercent
  {
    seq(|s|, i requires 0 <= i < |s| => s[i].gpuMemPercent)
  }

  /** The report computed from the final table. Token and request rates are
      divided by the configured TEST_DURATION, not by the measured run time. */
  function Summarize(v: View): (r: Result<TestReport, SummaryError>)
    ensures r.Failure? <==> v.systemStats == []
  {
    if v.systemStats == [] then Failure(NoSystemSamples)
    else
      var duration := Config.TestDuration as real;
      Success(TestReport(
        Config.ModelName, Config.TestDuration, Config.ConcurrentThreads,
        v.totalRequests, v.successfulRequests, v.failedRequests,
        SuccessRate(v.successfulRequests, v.totalRequests),
        v.totalTokens,
        v.totalTokens as real / duration,
        v.successfulRequests as real / duration,
        AverageLatencyMs(v.totalLatency, v.successfulRequests),
        MaxOf(GpuTemps(v.systemStats)),
        MaxOf(GpuUtils(v.systemStats)),
        MaxOf(GpuMems(v.systemStats))))
  }

  /** With at most as many successes as requests, the success rate is a
      percentage. */
  lemma SuccessRateBounds(successful: nat, total: nat)
    requires successful <= total
    ensures 0.0 <= SuccessRate(successful, total) <= 100.0
  {
    if total > 0 {
      var s, t := successful as real, total as real;
      assert s / t <= 1.0 by {
        assert s <= t;
        assert (s / t) * t == s;
      }
    }
  }

  /** The rate is 100 exactly when there were requests and all succeeded,
      and 0 exactly when nothing succeeded. */
  lemma SuccessRateExtremes(successful: nat, total: nat)
    requires successful <= total
    ensures SuccessRate(successful, total) == 100.0 <==> total > 0 && successful == total
    ensures SuccessRate(successful, total) == 0.0 <==> successful == 0
  {
    if total > 0 {
      var s, t := successful as real, total as real;
      assert t > 0.0;
      var q := s / t;
      assert q * t == s;
      if q == 1.0 {
        assert s == 1.0 * t;
      }
      if s == t {
        assert (q - 1.0) * t == 0.0;
      }
      if q == 0.0 {
        assert s == 0.0 * t;
      }
      if s == 0.0 {
        assert q == 0.0 / t;
      }
      assert SuccessRate(successful, total) == q * 100.0;
    }
  }

  /** The throughput figures times TEST_DURATION give back the totals. */
  lemma SummaryThroughput(v: View)
    requires v.systemStats != []
    ensures Summarize(v).value.avgTps * Config.TestDuration as real == v.totalTokens as real
    ensures Summarize(v).value.avgRps * Config.TestDuration as real == v.successfulRequests as real
  {
  }

  /** Each maximum is the reading of some sample and no sample exceeds it. */
  lemma SummaryMaxima(v: View)
    requires v.systemStats != []
    ensures var r := Summarize(v).value;
      && (exists i :: 0 <= i < |v.systemStats| && v.systemStats[i].gpuTemp == r.maxGpuTemp)
      && (exists i :: 0 <= i < |v.systemStats| && v.systemStats[i].gpuUtil == r.maxGpuUtil)
      && (exists i :: 0 <= i < |v.systemStats| && v.systemStats[i].gpuMemPercent == r.maxGpuMem)
    ensures var r := Summarize(v).value;
      forall i :: 0 <= i < |v.systemStats| ==>
        && v.systemStats[i].gpuTemp <= r.maxGpuTemp
        && v.systemStats[i].gpuUtil <= r.maxGpuUtil
        && v.systemStats[i].gpuMemPercent <= r.maxGpuMem
  {
    var s := v.systemStats;
    var r := Summarize(v).value;
    var temps, utils, mems := GpuTemps(s), GpuUtils(s), GpuMems(s);
    var a :| 0 <= a < |temps| && temps[a] == r.maxGpuTemp;
    var b :| 0 <= b < |utils| && utils[b] == r.maxGpuUtil;
    var c :| 0 <= c < |mems| && mems[c] == r.maxGpuMem;
    assert s[a].gpuTemp == r.maxGpuTemp && s[b].gpuUtil == r.maxGpuUtil && s[c].gpuMemPercent == r.maxGpuMem;
  }

  /** The summary of a table that keeps its invariants: the counts add up,
      the success rate is a percentage, it is 100 exactly when no request
      failed and there was one, and the mean latency is zero without
      successes. */
  lemma SummaryOfValidStats(s: RunStats)
    requires s.Valid() && s.systemStats != []
    ensures var r := Summarize(s.CurrentView()).value;
      && r.totalRequests == r.successfulRequests + r.failedRequests
      && 0.0 <= r.successRate <= 100.0
      && (r.successRate == 100.0 <==> s.totalRequests > 0 && s.failedRequests == 0)
      && (s.successfulRequests == 0 ==> r.avgLatencyMs == 0.0)
  {
    SuccessRateBounds(s.successfulRequests, s.totalRequests);
    SuccessRateExtremes(s.successfulRequests, s.totalRequests);
  }
}
