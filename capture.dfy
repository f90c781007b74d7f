/** One iteration of the capture loop, with the clock and the device turned
    into inputs: forward what the device read, then advance the absolute
    deadline by one interval and either sleep until it or, when the loop has
    fallen behind, move the deadline to the current time. */
module Capture {
  import opened Wire

  /** The outcome of the pacing step: sleep for millis milliseconds plus nanos
      nanoseconds until the deadline, or resynchronise the deadline. */
  datatype Tick =
    | Sleep(deadline: int, millis: int, nanos: int)
    | Resync(deadline: int)

  /** The inputs of one iteration: the device's return value, the buffer it
      filled, and the two clock readings the loop takes (the first to compute
      the sleep, the second, taken only when behind, to resynchronise). */
  datatype TickInput = TickInput(read: int, chunk: seq<byte>, now: int, later: int)

  /** The device fills a buffer of the chunk size and never reports more bytes
      than it holds. */
  predicate Fits(t: TickInput, size: nat)
  {
    |t.chunk| == size && t.read <= size
  }

  /** The pacing step. The sleep is split into whole milliseconds and the
      remaining nanoseconds, as the sleep call wants it; the
      remaining time is positive there, so Kotlin's truncating division and
      remainder agree with Dafny's. */
  function Pace(nextTime: int, delay: int, now: int, later: int): (t: Tick)
    ensures t.Sleep? <==> now < nextTime + delay
    ensures t.Sleep? ==> t.deadline == nextTime + delay
                         && t.millis >= 0 && 0 <= t.nanos < 1_000_000
                         && t.millis * 1_000_000 + t.nanos == t.deadline - now
    ensures t.Resync? ==> t.deadline == later
  {
    var deadline := nextTime + delay;
    var sleepNs := deadline - now;
    if sleepNs > 0 then Sleep(deadline, sleepNs / 1_000_000, sleepNs % 1_000_000)
    else Resync(later)
  }

  /** What one iteration sends: the first read bytes of the buffer as one audio
      frame when the device returned a positive count, nothing otherwise (a zero
      or an error code). */
  function TickFrames(t: TickInput): (fs: seq<Frame>)
    requires t.read <= |t.chunk|
    ensures |fs| == (if t.read > 0 then 1 else 0)
    ensures t.read > 0 ==> fs[0].Binary? && fs[0].payload == t.chunk[..t.read] && |fs[0].payload| == t.read
  {
    if t.read > 0 then [Binary(t.chunk[..t.read])] else []
  }

  /** The deadline after the first n iterations of a run that starts from
      deadline start. */
  function RunPacing(start: int, delay: int, ticks: seq<TickInput>, n: nat): int
    requires n <= |ticks|
  {
    if n == 0 then start
    else Pace(RunPacing(start, delay, ticks, n - 1), delay, ticks[n - 1].now, ticks[n - 1].later).deadline
  }

  /** What the first n iterations of a run send, in order. */
  function ForwardedFrames(ticks: seq<TickInput>, n: nat, size: nat): seq<Frame>
    requires n <= |ticks|
    requires forall i :: 0 <= i < |ticks| ==> Fits(ticks[i], size)
  {
    if n == 0 then []
    else
      assert Fits(ticks[n - 1], size);
      ForwardedFrames(ticks, n - 1, size) + TickFrames(ticks[n - 1])
  }

  /** No drift: when every iteration finishes before its deadline, the k-th
      deadline is exactly k intervals after the start, whatever the jitter. */
  lemma {:induction false} NoDrift(start: int, delay: int, ticks: seq<TickInput>, n: nat)
    requires n <= |ticks|
    requires forall i :: 0 <= i < n ==> ticks[i].now < start + (i + 1) * delay
    ensures RunPacing(start, delay, ticks, n) == start + n * delay
  {
    if n > 0 {
      NoDrift(start, delay, ticks, n - 1);
      assert start + (n - 1) * delay + delay == start + n * delay;
    }
  }

  /** Recovery from a stall: when iteration k finishes at or after its
      deadline, the deadline moves to the time of the resynchronising reading
      and later on-time iterations are paced from there; no catch-up
      iterations are scheduled for the time lost. */
  lemma {:induction false} RecoversFromStall(start: int, delay: int, ticks: seq<TickInput>, k: nat, n: nat)
    requires k < n <= |ticks|
    requires ticks[k].now >= RunPacing(start, delay, ticks, k) + delay
    requires forall i :: k < i < n ==> ticks[i].now < ticks[k].later + (i - k) * delay
    ensures RunPacing(start, delay, ticks, n) == ticks[k].later + (n - 1 - k) * delay
  {
    if n > k + 1 {
      RecoversFromStall(start, delay, ticks, k, n - 1);
      assert ticks[k].later + (n - 2 - k) * delay + delay == ticks[k].later + (n - 1 - k) * delay;
    }
  }

  /** Only positive reads are forwarded, each as one audio frame of exactly the
      bytes read: no empty frame, none longer than the buffer. */
  lemma {:induction false} ForwardedFramesShape(ticks: seq<TickInput>, n: nat, size: nat)
    requires n <= |ticks|
    requires forall i :: 0 <= i < |ticks| ==> Fits(ticks[i], size)
    ensures |ForwardedFrames(ticks, n, size)| <= n
    ensures forall k :: 0 <= k < |ForwardedFrames(ticks, n, size)| ==>
              ForwardedFrames(ticks, n, size)[k].Binary?
              && 0 < |ForwardedFrames(ticks, n, size)[k].payload| <= size
  {
    if n > 0 {
      ForwardedFramesShape(ticks, n - 1, size);
    }
  }
}
