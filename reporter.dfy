/** The arithmetic of `reporter` in ollama_stress_test.py (lines 136-179):
    every interval it reads the table, computes the tokens and successful
    requests since the previous interval, the guarded mean latency and the
    latest GPU reading, and prints one progress line. The sleeping and the
    elapsed-time formatting are not modelled; the views the loop reads are
    its input. */
module Reporter {
  import opened Records
  import opened Stats
  import Config

  /** The numbers of one progress line. */
  datatype Progress = Progress(
    successful: nat,
    total: nat,
    failed: nat,
    intervalTokens: int,
    intervalRequests: int,
    tps: real,
    rps: real,
    avgLatencyMs: real,
    gpuUtil: real,
    gpuTemp: real,
    gpuMem: real)

  /** One iteration of the loop, given the totals the previous one saw. The
      GPU fields come from the latest sample, or are all zero when there is none. */
  function Tick(lastTokens: nat, lastRequests: nat, v: View): (p: Progress)
    ensures lastTokens + p.intervalTokens == v.totalTokens
    ensures lastRequests + p.intervalRequests == v.successfulRequests
    ensures p.successful == v.successfulRequests && p.total == v.totalRequests && p.failed == v.failedRequests
    ensures v.systemStats == [] ==> p.gpuUtil == 0.0 && p.gpuTemp == 0.0 && p.gpuMem == 0.0
    ensures v.systemStats != [] ==>
      var latest := v.systemStats[|v.systemStats| - 1];
      p.gpuUtil == latest.gpuUtil && p.gpuTemp == latest.gpuTemp && p.gpuMem == latest.gpuMemPercent
  {
    var intervalTokens := v.totalTokens - lastTokens;
    var intervalRequests := v.successfulRequests - lastRequests;
    var interval := Config.ReportInterval as real;
    var util, temp, mem :=
      if v.systemStats == [] then 0.0 else v.systemStats[|v.systemStats| - 1].gpuUtil,
      if v.systemStats == [] then 0.0 else v.systemStats[|v.systemStats| - 1].gpuTemp,
      if v.systemStats == [] then 0.0 else v.systemStats[|v.systemStats| - 1].gpuMemPercent;
    Progress(
      v.successfulRequests, v.totalRequests, v.failedRequests,
      intervalTokens, intervalRequests,
      intervalTokens as real / interval, intervalRequests as real / interval,
      AverageLatencyMs(v.totalLatency, v.successfulRequests),
      util, temp, mem)
  }

  /** The rates are the interval counts per second of the fixed ten-second
      interval (not of the time that actually passed), and the latency is the
      guarded mean of the view. */
  lemma TickRates(lastTokens: nat, lastRequests: nat, v: View)
    ensures var p := Tick(lastTokens, lastRequests, v);
      && p.tps * 10.0 == p.intervalTokens as real
      && p.rps * 10.0 == p.intervalRequests as real
      && p.avgLatencyMs == AverageLatencyMs(v.totalLatency, v.successfulRequests)
  {
  }

  /** Consecutive views never go back: what the table's update steps
      guarantee (each ensures `Grows` of the view before and after it). */
  predicate Chain(views: seq<View>) {
    forall i :: 0 < i < |views| ==> Grows(views[i - 1], views[i])
  }

  /** In a chain of views, any later view has grown from any earlier one,
      so the reporter's deltas between any two of its reads are never
      negative. */
  lemma {:induction false} ChainSpan(views: seq<View>, i: nat, j: nat)
    requires Chain(views) && i <= j < |views|
    ensures Grows(views[i], views[j])
    ensures views[i].totalTokens <= views[j].totalTokens
    ensures views[i].successfulRequests <= views[j].successfulRequests
    decreases j - i
  {
    if i < j {
      ChainSpan(views, i, j - 1);
      assert Grows(views[j - 1], views[j]);
      GrowsTrans(views[i], views[j - 1], views[j]);
    }
  }

  /** The token total of the view before the i-th (0 before the first). */
  function TokensBefore(views: seq<View>, i: nat): nat
    requires i <= |views|
  {
    if i == 0 then 0 else views[i - 1].totalTokens
  }

  /** The successful-request total of the view before the i-th (0 before the first). */
  function RequestsBefore(views: seq<View>, i: nat): nat
    requires i <= |views|
  {
    if i == 0 then 0 else views[i - 1].successfulRequests
  }

  /** The interval token counts of the lines, added up. */
  function IntervalTokenSum(lines: seq<Progress>): int {
    if lines == [] then 0 else IntervalTokenSum(lines[..|lines| - 1]) + lines[|lines| - 1].intervalTokens
  }

  /** The interval request counts of the lines, added up. */
  function IntervalRequestSum(lines: seq<Progress>): int {
    if lines == [] then 0 else IntervalRequestSum(lines[..|lines| - 1]) + lines[|lines| - 1].intervalRequests
  }

  /** The lines of the reporter loop over the views it reads: one line per
      view, each measured against the view before it. */
  function ReportLines(views: seq<View>): (lines: seq<Progress>)
    ensures |lines| == |views|
  {
    if views == [] then []
    else
      var n := |views| - 1;
      ReportLines(views[..n]) + [Tick(TokensBefore(views, n), RequestsBefore(views, n), views[n])]
  }

  /** The i-th line is the i-th view measured against the one before it. */
  lemma {:induction false} ReportLinesAt(views: seq<View>, i: nat)
    requires i < |views|
    ensures ReportLines(views)[i] == Tick(TokensBefore(views, i), RequestsBefore(views, i), views[i])
  {
    var n := |views| - 1;
    if i < n {
      ReportLinesAt(views[..n], i);
      assert ReportLines(views)[i] == ReportLines(views[..n])[i];
    }
  }

  /** The interval counts add up to the last view's totals. */
  lemma {:induction false} ReportLinesTelescope(views: seq<View>)
    requires views != []
    ensures IntervalTokenSum(ReportLines(views)) == views[|views| - 1].totalTokens
    ensures IntervalRequestSum(ReportLines(views)) == views[|views| - 1].successfulRequests
  {
    var n := |views| - 1;
    var lines := ReportLines(views);
    var p := Tick(TokensBefore(views, n), RequestsBefore(views, n), views[n]);
    SumsSnoc(ReportLines(views[..n]), p);
    if n > 0 {
      ReportLinesTelescope(views[..n]);
    }
  }

  /** Over views that never go back, no line shows a negative interval count. */
  lemma ReportLinesNonNegative(views: seq<View>, i: nat)
    requires Chain(views) && i < |views|
    ensures ReportLines(views)[i].intervalTokens >= 0 && ReportLines(views)[i].intervalRequests >= 0
  {
    ReportLinesAt(views, i);
    if i > 0 {
      assert Grows(views[i - 1], views[i]);
    }
  }

  /** The reporter loop: `last_tokens` and `last_requests` carry the totals
      of one interval into the next. */
  method Report(views: seq<View>) returns (lines: seq<Progress>)
    ensures lines == ReportLines(views)
    ensures views != [] ==> IntervalTokenSum(lines) == views[|views| - 1].totalTokens
    ensures views != [] ==> IntervalRequestSum(lines) == views[|views| - 1].successfulRequests
  {
    var lastTokens: nat, lastRequests: nat := 0, 0;
    lines := [];
    var i: nat := 0;
    while i < |views|
      invariant i <= |views|
      invariant lastTokens == TokensBefore(views, i) && lastRequests == RequestsBefore(views, i)
      invariant lines == ReportLines(views[..i])
    {
      var p := Tick(lastTokens, lastRequests, views[i]);
      ReportLinesSnoc(views, i);
      lines := lines + [p];
      lastTokens, lastRequests := views[i].totalTokens, views[i].successfulRequests;
      i := i + 1;
    }
    assert views[..i] == views;
    if views != [] {
      ReportLinesTelescope(views);
    }
  }

  lemma ReportLinesSnoc(views: seq<View>, i: nat)
    requires i < |views|
    ensures ReportLines(views[..i + 1])
      == ReportLines(views[..i]) + [Tick(TokensBefore(views, i), RequestsBefore(views, i), views[i])]
  {
    assert views[..i + 1][..i] == views[..i];
  }

  lemma SumsSnoc(lines: seq<Progress>, p: Progress)
    ensures IntervalTokenSum(lines + [p]) == IntervalTokenSum(lines) + p.intervalTokens
    ensures IntervalRequestSum(lines + [p]) == IntervalRequestSum(lines) + p.intervalRequests
  {
    assert (lines + [p])[..|lines|] == lines;
  }
}
