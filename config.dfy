/** The static test configuration of ollama_stress_test.py (lines 15-17) and the
    fixed constants of its reporter and request records. */
module Config {

  const ModelName: string := "deepseek-r1:32b"

  /** TEST_DURATION, in seconds; the summary divides by it. */
  const TestDuration: nat := 600

  /** CONCURRENT_THREADS: the number of request workers. */
  const ConcurrentThreads: nat := 8

  /** The reporter sleeps this long between progress lines and divides by it. */
  const ReportInterval: nat := 10

  /** A stored prompt keeps at most this many characters before the "..." marker. */
  const ExcerptLength: nat := 50
}
