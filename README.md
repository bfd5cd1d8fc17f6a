# Ollama stress test, modelled in Dafny

`ollama_stress_test.py` puts load on one model served by Ollama. For
TEST_DURATION (600 s), eight worker threads send generation requests. Each
worker cycles through a list of prompts and records every request's outcome
in a shared `stats` table. A monitor thread appends a resource sample every
5 s. A reporter thread prints a progress line every 10 s. At the end,
`save_results` computes a summary report from the table.

This project models that core:

- prompt loading: `str.strip`, `readlines`, the blank-line filter and the
  built-in defaults (`prompts.dfy`);
- the request records and their tallies (`records.dfy`);
- the `stats` table as a class whose methods are the critical sections of
  `worker` and `monitor` (`stats.dfy`);
- the worker and monitor loops, and any interleaving of the workers' atomic
  steps (`worker.dfy`);
- the reporter's interval arithmetic (`reporter.dfy`);
- the summary of `save_results` (`summary.dfy`);
- `main`, run sequentially (`session.dfy`).

The constants are in `config.dfy`; `Result` is in `results.dfy`.

Each critical section in the source takes a brand-new `threading.Lock()`, so
nothing actually excludes concurrent writers. The model therefore treats
every critical section as one atomic step and proves its invariants over any
order of those steps. `Worker.RunSchedule` takes that order as its input.
`Stats.RunStats.Valid` states how the counters relate to the request
history:

- `total_requests == successful_requests + failed_requests`;
- there is exactly one record per request;
- the success, token and latency tallies of the records equal the counters.

Every state change preserves it.

Behaviour of the code worth noting:

- `save_results` fails when no resource sample was taken. Line 191 indexes
  `system_stats[0]`, and `max` over an empty list raises as well. It does not
  fall back to a default.
- `load_prompts` falls back to the default prompts only when the file is
  missing. Any other read error propagates and ends `main`.
- `main` does not join the worker threads. It sleeps TEST_DURATION and then
  calls `save_results`, which reads the table field by field and without a
  lock. A request still in flight at the deadline records its outcome late,
  and the daemon monitor can append one more sample up to 5 s after its last
  deadline check. Those appends can overlap the summary's reads.
- Average throughput is divided by the configured TEST_DURATION, not by
  the measured run time.

## Model

| member | source | states |
|---|---|---|
| Prompts.TrimStart | ollama_stress_test.py:67 | the left-stripped string is never longer than the string (its full characterisation is `TrimStartSpec`) |
| Prompts.TrimStartSpec | ollama_stress_test.py:67 | left stripping drops exactly the maximal whitespace prefix: the result is a suffix, every dropped character is Python whitespace and the result does not start with one |
| Prompts.TrimEnd | ollama_stress_test.py:67 | the right-stripped string is never longer than the string (its full characterisation is `TrimEndSpec`) |
| Prompts.TrimEndSpec | ollama_stress_test.py:67 | right stripping drops exactly the maximal whitespace suffix: the result is a prefix, every dropped character is whitespace and the result does not end with one |
| Prompts.Strip | ollama_stress_test.py:67 | `line.strip()` is never longer than the line |
| Prompts.StripIsInfix | ollama_stress_test.py:67 | `line.strip()` is a contiguous slice of the line, and a non-empty stripped line neither starts nor ends with whitespace |
| Prompts.StripEmptyIffBlank | ollama_stress_test.py:67 | `line.strip()` is falsy exactly when the line consists of whitespace only |
| Prompts.StripIdempotent | ollama_stress_test.py:67 | stripping twice is stripping once |
| Prompts.FirstLineLength | ollama_stress_test.py:67 | the first line of `readlines` ends at the first newline, which it keeps, or at the end of the text |
| Prompts.ReadLines | ollama_stress_test.py:67 | `f.readlines()` gives no lines exactly for an empty text, and never more lines than characters |
| Prompts.ReadLinesRoundTrip | ollama_stress_test.py:67 | concatenating the lines of `readlines` gives back the whole text |
| Prompts.ReadLinesShape | ollama_stress_test.py:67 | every line is non-empty; every line but the last ends in a newline, and no line has a newline before its end |
| Prompts.ConcatBlank | ollama_stress_test.py:67 | a text is blank exactly when each of its lines is blank |
| Prompts.KeepNonBlank | ollama_stress_test.py:67 | the comprehension keeps at most as many prompts as lines, each non-empty and already stripped |
| Prompts.KeepNonBlankSources | ollama_stress_test.py:67 | every kept prompt is the stripped form of some line |
| Prompts.KeepNonBlankAppend | ollama_stress_test.py:67 | filtering distributes over concatenation of line lists, so the order of lines is kept |
| Prompts.KeepNonBlankIdempotent | ollama_stress_test.py:67 | filtering an already filtered list changes nothing |
| Prompts.KeepNonBlankEmpty | ollama_stress_test.py:67 | the comprehension is empty exactly when every line is blank |
| Prompts.LoadPrompts | ollama_stress_test.py:63-76 | `load_prompts` fails exactly when opening or reading the file raises an error other than FileNotFoundError |
| Prompts.LoadPromptsMissing | ollama_stress_test.py:68-76 | a missing file gives the five built-in prompts, in order |
| Prompts.LoadedPromptsClean | ollama_stress_test.py:63-76 | every prompt `load_prompts` returns is non-empty and free of surrounding whitespace |
| Prompts.LoadPromptsEmptyIff | ollama_stress_test.py:63-76 | the prompt list is empty exactly when the file exists and contains only whitespace |
| Prompts.PromptAt | ollama_stress_test.py:82 | `prompts[prompt_index % len(prompts)]` is always one of the prompts |
| Prompts.PromptAtPeriodic | ollama_stress_test.py:80-83 | a worker's prompt sequence repeats with period `len(prompts)` |
| Prompts.CycleCoversAll | ollama_stress_test.py:80-83 | from any starting index, every prompt comes up within the next `len(prompts)` requests |
| Prompts.Excerpt | ollama_stress_test.py:111 | the stored prompt is the prompt itself when it has at most 50 characters, and never longer than 53 characters |
| Prompts.ExcerptShape | ollama_stress_test.py:111 | prompts of up to 50 characters are stored unchanged; longer ones become their first 50 characters followed by `...` (53 in all) |
| Prompts.ExcerptIdempotent | ollama_stress_test.py:111 | shortening a stored excerpt again changes nothing |
| Prompts.ExcerptCollision | ollama_stress_test.py:111 | two prompts get the same stored text exactly when they are equal, or both are longer than 50 and agree on their first 50 characters |
| Records.RecordOf | ollama_stress_test.py:108-127 | the appended record carries the worker id and the prompt's excerpt, and is tagged as a success exactly when the call returned |
| Records.SuccessesBound | ollama_stress_test.py:108-127 | a history has at most as many success-tagged records as records, and as many exactly when every record is a success |
| Records.TalliesAppend | ollama_stress_test.py:103-106 | success, token and latency tallies add up over concatenated histories |
| Records.TalliesSnoc | ollama_stress_test.py:101-127 | appending one request's record adds 1 success, its tokens and its latency when the call returned, and nothing when it raised |
| Records.WorkerRecords | ollama_stress_test.py:78-127 | a worker appends exactly one record per request it finishes |
| Records.WorkerRecordsAt | ollama_stress_test.py:80-127 | the worker's k-th record carries its worker id and the excerpt of `prompts[k % len(prompts)]`, and is a success exactly when the k-th call returned |
| Records.WorkerRecordsPrefix | ollama_stress_test.py:80-127 | the records of a worker's first k + 1 requests are those of its first k followed by the record of request k |
| Records.WorkerRecordsAppendOne | ollama_stress_test.py:80-127 | one more finished request appends exactly one record to the worker's history |
| Stats.AverageLatencyMs | ollama_stress_test.py:176 | the mean latency is 0 without successes and never negative for a non-negative total latency |
| Stats.AverageLatencyMeaning | ollama_stress_test.py:176 | the displayed mean latency is 0 without successes, and otherwise times the successes gives the total latency in ms |
| Stats.RunStats.Valid | ollama_stress_test.py:24-33 | the table's invariant: the counters add up, there is one record per request and the tallies of the records equal the counters; it implies that successes and failures each stay within the total |
| Stats.RunStats.constructor | ollama_stress_test.py:24-33 | the table starts with all counters zero, both lists empty, and its invariants hold |
| Stats.RunStats.RecordSuccess | ollama_stress_test.py:102-115 | a success adds one to the total and success counters, adds the tokens and latency, and appends one success record holding the prompt excerpt; the failure counter and the samples are unchanged, no counter decreases and the invariants are kept |
| Stats.RunStats.RecordFailure | ollama_stress_test.py:117-127 | a failure adds one to the total and failure counters and appends one failure record with the error text; the success counter, tokens, latency and samples are unchanged and the invariants are kept |
| Stats.RunStats.AppendSnapshot | ollama_stress_test.py:133-134 | a monitor tick appends one sample and leaves every counter and the request history unchanged |
| Stats.GrowsTrans | ollama_stress_test.py:101-134 | counters that only grow over two stretches of updates grow over both together |
| Stats.ValidCounters | ollama_stress_test.py:24-33 | in a consistent table, successes never exceed requests, failures equal the failure-tagged records, and there are none exactly when every record is a success |
| Worker.Record | ollama_stress_test.py:85-127 | one request's outcome takes the success branch exactly when the call returned, and the failure branch when it raised |
| Worker.Work | ollama_stress_test.py:78-127 | a worker that finishes n requests appends exactly its n records in order, raises the counters by their tallies, leaves the samples alone and keeps the invariants |
| Worker.Monitor | ollama_stress_test.py:129-134 | the monitor appends its samples in order and changes no counter and no record |
| Worker.ScheduleRecords | ollama_stress_test.py:78-127 | any interleaving of the workers' steps appends one record per step |
| Worker.ScheduleKeepsWorkerOrder | ollama_stress_test.py:78-83 | in any interleaving, each worker's own records appear in its own order with its own independent prompt cycle |
| Worker.RunSchedule | ollama_stress_test.py:78-127 | running the steps of all workers in any order appends their records, raises the counters by the records' tallies and keeps the invariants |
| Worker.IndexStep | ollama_stress_test.py:80-83 | each worker's `prompt_index` equals the number of requests it has finished so far |
| Worker.AllSucceededTallies | ollama_stress_test.py:101-106 | when every call returns, each with the same token count and any latency, the successes equal the steps and the tokens equal count times steps |
| Reporter.Tick | ollama_stress_test.py:148-168 | the interval deltas are the current totals minus the previous ones; the GPU fields are those of the latest sample, or all zero when there is none |
| Reporter.TickRates | ollama_stress_test.py:153-156 | TPS and RPS times the 10-second interval are the token and request deltas; the latency is guarded against zero successes |
| Reporter.ReportLines | ollama_stress_test.py:142-179 | the reporter prints one line per interval |
| Reporter.ReportLinesAt | ollama_stress_test.py:139-159 | each line's deltas are taken against the totals the previous line saw, or 0 for the first |
| Reporter.ReportLinesTelescope | ollama_stress_test.py:149-159 | the interval deltas add up to the totals of the last view |
| Reporter.ChainSpan | ollama_stress_test.py:149-154 | when each read sees a table that grew from the previous read's, any later read sees at least the tokens and successes of any earlier one |
| Reporter.ReportLinesNonNegative | ollama_stress_test.py:149-156 | over a run whose views never shrink, no interval delta is negative |
| Reporter.Report | ollama_stress_test.py:136-179 | the reporter loop's lines are those of its specification, and their deltas add up to the final totals |
| Summary.MaxOf | ollama_stress_test.py:216-218 | `max` returns an element of the list that is at least every other element |
| Summary.Summarize | ollama_stress_test.py:181-224 | `save_results` fails exactly when no resource sample was taken |
| Summary.SuccessRate | ollama_stress_test.py:200 | the success rate is 0 when there was no request or no success |
| Summary.SuccessRateBounds | ollama_stress_test.py:200 | the success rate is between 0 and 100 |
| Summary.SuccessRateExtremes | ollama_stress_test.py:200 | the rate is 100 exactly when there were requests and all succeeded, and 0 exactly when none succeeded |
| Summary.SummaryThroughput | ollama_stress_test.py:196-198 | avg_tps and avg_rps times TEST_DURATION give the total tokens and successes |
| Summary.SummaryMaxima | ollama_stress_test.py:216-218 | each GPU maximum is the reading of some sample, and no sample exceeds it |
| Summary.SummaryOfValidStats | ollama_stress_test.py:196-212 | the summary of a consistent table has counts that add up, a success rate that is a percentage and is 100 exactly when there were requests and none failed, and a zero latency without successes |
| Session.RunRecords | ollama_stress_test.py:78-83 | with no prompt at all the workers die on `0 % 0` and append nothing; otherwise there is one record per step |
| Session.FinalReport | ollama_stress_test.py:196-212 | the summary of a consistent table holding records `h` is the summary of `h`'s tallies: its counts, success rate, guarded mean latency and average TPS are those of the records |
| Session.RunTest | ollama_stress_test.py:273-299 | a run fails on an unreadable prompt file or when no sample was taken; otherwise its report is the summary of the records' tallies and the samples, so its counts are the tallies, its success rate is `SuccessRate` of them and a percentage, its mean latency is the guarded mean, and its average TPS times 600 is the token total |
| Session.TwoWorkersAllSucceed | ollama_stress_test.py:78-115 | two workers, twenty requests each, all returning ten tokens, give 40 successes, 400 tokens and a 100% success rate |

## Left out

- Floating point: latencies, rates, the success rate and the mean latency
  are exact real arithmetic. Identities such as avg_tps * 600 == total_tokens
  hold in the model, not bit for bit in the program's IEEE doubles.
- The request options TEMPERATURE and MAX_TOKENS, and the monitor's 5 s
  sleep: they only matter to the inference service and the clock, which are
  not modelled.
- Threads and `threading.Lock()`: each critical section is one atomic step.
  The model does not capture lost updates from unsynchronised `+=` on the
  counters, which the per-call lock does not prevent.
- The clock: the deadline checks, `time.sleep`, the measured latency and the
  timestamps of records and samples. How many requests each worker finishes,
  and in what order the steps interleave, are inputs.
- `ollama.generate` and the token count `len(response["response"].split())`:
  an `Outcome` carries the latency and the token count, or the error text.
- `get_system_stats` (psutil, NVML): samples are inputs. Integer readings
  (`gpu_util`, `gpu_temp`) are modelled as reals.
- File I/O: the CSV and JSON exports, and the prompt file's decoding.
  `Prompts.ReadLines` splits only at `\n`; universal-newline translation of
  `\r` and `\r\n` is not modelled.
- Console output: the progress and start-up lines, their number formatting,
  and the elapsed minutes and seconds. The summary keeps the numbers, not the
  formatted strings.
- `generate_visual_report`: chart drawing with pandas and matplotlib.
- `start_time` and `end_time` of the report: clock readings.
- `Worker.Work`: requires a non-empty prompt list. With none, `prompts[0 % 0]`
  raises ZeroDivisionError outside the `try` and ends the worker's thread
  before it records anything. `Session.RunRecords` models that case as no
  records at all.
- `Worker.RunSchedule`: its contract does not repeat the latency and failure
  tallies stated for `Worker.Work`; they follow from the kept invariants.
- `Session.RunTest`: the workers' and the monitor's steps run one after the
  other rather than interleaved. The summary reads only totals, so it is the
  same for any interleaving. The model summarises one consistent view of the
  table taken after all steps. The program's field-by-field reads in
  `save_results` can interleave with late appends. Its report need not be
  consistent: `total_requests` can differ from `successful_requests +
  failed_requests`, and `avg_tps` can disagree with `total_tokens`.
