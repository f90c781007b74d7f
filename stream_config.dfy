/** The stream's fixed configuration: the sample rate chosen once at start-up,
    the byte size of one chunk, and the pacing interval between chunks. Audio is
    mono, signed 16-bit, so one sample is two bytes. */
module StreamConfig {

  /** Candidate rates in priority order, and the rate used when none is accepted. */
  const Candidates: seq<nat> := [48000, 44100]
  const DefaultRate: nat := 48000
  const ChunkDurationMs: nat := 5
  const BytesPerSample: nat := 2
  const NanosPerSecond: nat := 1_000_000_000

  /** rate is the rate chosen for the probe: the first candidate the probe
      accepts (reports a positive minimum buffer size for), else the default. */
  ghost predicate Selected(probe: int -> int, rate: nat)
  {
    if probe(48000) > 0 then rate == 48000
    else if probe(44100) > 0 then rate == 44100
    else rate == DefaultRate
  }

  /** Probes the candidates in order and returns the first one the platform
      accepts; the probe stands for the platform's minimum-buffer-size query. */
  method SupportedSampleRate(probe: int -> int) returns (rate: nat)
    ensures Selected(probe, rate)
    ensures rate in Candidates
  {
    assert Candidates[0] == 48000 && Candidates[1] == 44100;
    for i := 0 to |Candidates|
      invariant forall j :: 0 <= j < i ==> probe(Candidates[j]) <= 0
    {
      if probe(Candidates[i]) > 0 {
        return Candidates[i];
      }
    }
    return DefaultRate;
  }

  /** Bytes in one chunk: the whole number of samples in ChunkDurationMs, two
      bytes each. As the rate is positive, truncating the quotient towards zero
      (as the Kotlin code's conversion of a double does) is integer division. */
  function ChunkBytes(rate: nat): (n: nat)
    ensures n % BytesPerSample == 0
    ensures (n / BytesPerSample) * 1000 <= rate * ChunkDurationMs < (n / BytesPerSample + 1) * 1000
  {
    (rate * ChunkDurationMs / 1000) * BytesPerSample
  }

  /** Nanoseconds of audio in a chunk of the given size, rounded down: the
      interval the capture loop waits between chunks. */
  function TargetDelayNs(rate: nat, bytes: nat): (d: nat)
    requires rate > 0
    ensures d * (rate * BytesPerSample) <= NanosPerSecond * bytes < (d + 1) * (rate * BytesPerSample)
  {
    NanosPerSecond * bytes / (rate * BytesPerSample)
  }

  /** The values at the two supported rates. */
  lemma SupportedRateTimings()
    ensures ChunkBytes(48000) == 480 && TargetDelayNs(48000, 480) == 5_000_000
    ensures ChunkBytes(44100) == 440 && TargetDelayNs(44100, 440) == 4_988_662
  {
  }

  /** Whatever the rate, the pacing interval never exceeds the chunk duration,
      so chunks are never sent slower than real time. */
  lemma IntervalWithinChunkDuration(rate: nat)
    requires rate > 0
    ensures TargetDelayNs(rate, ChunkBytes(rate)) <= ChunkDurationMs * 1_000_000
  {
    var n := ChunkBytes(rate);
    var q := n / BytesPerSample;
    var d := TargetDelayNs(rate, n);
    var w := rate * BytesPerSample;
    assert NanosPerSecond * n == 2_000_000 * (q * 1000);
    ScaleLe(q * 1000, rate * 5, 2_000_000);
    assert 2_000_000 * (rate * 5) == 5_000_000 * w;
    assert d * w <= 5_000_000 * w;
    CancelLe(d, 5_000_000, w);
  }

  /** At any rate of at least 200 Hz a chunk holds at least one sample and the
      pacing interval is positive. */
  lemma ChunkAndIntervalPositive(rate: nat)
    requires rate >= 200
    ensures ChunkBytes(rate) >= BytesPerSample
    ensures TargetDelayNs(rate, ChunkBytes(rate)) > 0
  {
    var n := ChunkBytes(rate);
    var q := n / BytesPerSample;
    var d := TargetDelayNs(rate, n);
    var w := rate * BytesPerSample;
    assert q >= 1;
    assert rate < (q + 1) * 200;
    assert w < (q + 1) * 400 <= q * 800;
    assert NanosPerSecond * n == 2 * NanosPerSecond * q;
    assert 1 * w < (d + 1) * w;
    CancelLt(1, d + 1, w);
  }

  lemma ScaleLe(a: int, b: int, c: nat)
    requires a <= b
    ensures c * a <= c * b
  {
  }

  lemma CancelLe(a: int, b: int, c: int)
    requires c > 0 && a * c <= b * c
    ensures a <= b
  {
  }

  lemma CancelLt(a: int, b: int, c: int)
    requires c > 0 && a * c < b * c
    ensures a < b
  {
  }
}
