/** The streaming controller of the activity: its connection and recording
    flags, the socket it holds, and the events that change them (the toggle
    button, the four socket callbacks, teardown and one iteration of the
    capture loop). Events are serialised method calls. */
module Activity {
  import opened Optional
  import opened Messages
  import opened Wire
  import opened StreamConfig
  import opened Capture

  /** The state of the socket the activity holds, as the socket library tracks it. */
  datatype Link = Absent | Connecting | Open | Ended

  /** What the activity does to the outside world, in the order it does it: a
      message the socket library accepted, a recorder created, a recorder
      released. */
  datatype Effect = Sent(frame: Frame) | RecorderStarted | RecorderReleased

  /** The effects of sending the given frames, in order. */
  function SentAll(fs: seq<Frame>): (r: seq<Effect>)
    ensures |r| == |fs|
    ensures forall i :: 0 <= i < |fs| ==> r[i] == Sent(fs[i])
  {
    if fs == [] then [] else [Sent(fs[0])] + SentAll(fs[1..])
  }

  lemma {:induction false} SentAllAppend(a: seq<Frame>, b: seq<Frame>)
    ensures SentAll(a + b) == SentAll(a) + SentAll(b)
  {
    if a == [] {
      assert a + b == b;
    } else {
      assert (a + b)[0] == a[0];
      assert (a + b)[1..] == a[1..] + b;
      SentAllAppend(a[1..], b);
    }
  }

  lemma AppendAssoc<T>(a: seq<T>, b: seq<T>, c: seq<T>)
    ensures a + b + c == a + (b + c)
  {
  }

  class MainActivity {
    const hostname: string
    const sampleRate: nat
    const bufferSize: nat
    /** Nanoseconds between chunks, fixed by the rate and the chunk size. */
    const targetDelayNs: nat

    var isConnected: bool
    var isRecording: bool
    /** A recorder object exists (audioRecord != null). */
    var hasRecorder: bool
    /** The held socket's library state and whether a close was accepted on it. */
    var link: Link
    var closing: bool
    /** Every socket dialled and every message the library accepted for sending. */
    var wire: seq<Frame>
    /** Notices shown to the user, oldest first. */
    var notices: seq<string>
    /** The capture loop's absolute deadline. */
    var nextTime: int

    /** Recorders created and released so far. */
    ghost var recordersOpened: nat
    ghost var recordersReleased: nat
    /** Everything sent and every recorder created or released, oldest first. */
    ghost var effects: seq<Effect>

    ghost predicate Valid()
      reads this
    {
      && isRecording == hasRecorder
      && (isRecording ==> isConnected && link == Open)
      // every recorder created and no longer held was released, and none twice
      && recordersOpened == recordersReleased + (if hasRecorder then 1 else 0)
      && ProtocolOk(wire, sampleRate)
      && (link == Absent ==> wire == [] && !closing)
      && (closing ==> link != Absent && Phase(wire, sampleRate) == Closed)
      && (!closing && link == Connecting ==> Phase(wire, sampleRate) == Dialled)
      && (!closing && link == Open ==> Phase(wire, sampleRate) == Announced)
      && (!closing && link == Ended ==> Phase(wire, sampleRate) == Dialled || Phase(wire, sampleRate) == Announced)
    }

    /** The library still accepts messages on the held socket. */
    predicate Live()
      reads this
    {
      (link == Connecting || link == Open) && !closing
    }

    /** Start-up: choose the sample rate with the platform's probe and size the chunk. */
    constructor (host: string, probe: int -> int)
      ensures Valid()
      ensures hostname == host && Selected(probe, sampleRate) && sampleRate in Candidates
      ensures bufferSize == ChunkBytes(sampleRate)
      ensures targetDelayNs == TargetDelayNs(sampleRate, bufferSize)
      ensures !isConnected && !isRecording && !hasRecorder && link == Absent && !closing
      ensures wire == [] && notices == [] && effects == []
    {
      var rate := SupportedSampleRate(probe);
      hostname := host;
      sampleRate := rate;
      bufferSize := ChunkBytes(rate);
      targetDelayNs := TargetDelayNs(rate, ChunkBytes(rate));
      isConnected, isRecording, hasRecorder := false, false, false;
      link, closing := Absent, false;
      wire, notices := [], [];
      effects := [];
      nextTime := 0;
      recordersOpened, recordersReleased := 0, 0;
    }

    // -------------------------------------------------------------------------
    // The socket library: a send or a close after a close was accepted, or after
    // the socket failed or closed, is refused and changes nothing.

    method Send(f: Frame)
      modifies this`wire, this`effects
      ensures wire == old(wire) + (if Live() then [f] else [])
      ensures effects == old(effects) + (if Live() then [Sent(f)] else [])
      ensures Live() ==> Phase(wire, sampleRate) == Step(Phase(old(wire), sampleRate), f, sampleRate)
      ensures !Live() ==> wire == old(wire)
    {
      if Live() {
        wire := wire + [f];
        effects := effects + [Sent(f)];
        PhaseSnoc(old(wire), f, sampleRate);
      }
    }

    method CloseSocket(code: int, reason: Option<string>)
      modifies this`wire, this`closing, this`effects
      ensures wire == old(wire) + (if old(Live()) then [Close(code, reason)] else [])
      ensures effects == old(effects) + (if old(Live()) then [Sent(Close(code, reason))] else [])
      ensures closing == (old(closing) || old(Live()))
      ensures old(Live()) ==> Phase(wire, sampleRate) == Step(Phase(old(wire), sampleRate), Close(code, reason), sampleRate)
      ensures !old(Live()) ==> wire == old(wire)
    {
      if Live() {
        wire := wire + [Close(code, reason)];
        effects := effects + [Sent(Close(code, reason))];
        PhaseSnoc(old(wire), Close(code, reason), sampleRate);
        closing := true;
      }
    }

    /** The two texts sent on open: the request token, then the config record. */
    method SendHandshake()
      modifies this`wire, this`effects
      ensures wire == old(wire) + (if Live() then [Text(RequestToken), Text(ConfigRecord(sampleRate))] else [])
      ensures effects == old(effects) + (if Live() then [Sent(Text(RequestToken)), Sent(Text(ConfigRecord(sampleRate)))] else [])
      ensures Live() && Phase(old(wire), sampleRate) == Dialled ==> Phase(wire, sampleRate) == Announced
      ensures !Live() ==> wire == old(wire)
    {
      Send(Text(RequestToken));
      Send(Text(ConfigRecord(sampleRate)));
    }

    // -------------------------------------------------------------------------
    // The recorder

    method StartAudioRecording(startTime: int)
      modifies this`hasRecorder, this`isRecording, this`nextTime, this`recordersOpened, this`effects
      ensures hasRecorder && isRecording && nextTime == startTime
      ensures recordersOpened == old(recordersOpened) + 1
      ensures effects == old(effects) + [RecorderStarted]
    {
      hasRecorder := true;
      effects := effects + [RecorderStarted];
      recordersOpened := recordersOpened + 1;
      isRecording := true;
      nextTime := startTime;
    }

    /** Stops capture and releases the recorder if there is one. A second call
        changes nothing. */
    method StopAudioRecording()
      modifies this`isRecording, this`hasRecorder, this`recordersReleased, this`effects
      ensures !isRecording && !hasRecorder
      ensures recordersReleased == old(recordersReleased) + (if old(hasRecorder) then 1 else 0)
      ensures effects == old(effects) + (if old(hasRecorder) then [RecorderReleased] else [])
      ensures !old(isRecording) && !old(hasRecorder) ==> unchanged(this)
    {
      isRecording := false;
      if hasRecorder {
        recordersReleased := recordersReleased + 1;
        effects := effects + [RecorderReleased];
      }
      hasRecorder := false;
    }

    // -------------------------------------------------------------------------
    // Events

    /** The toggle button. While connected: clear the flag, stop recording, then
        close the socket with the user's reason. Otherwise: dial a new socket to
        the host's address (any socket held before is dropped). */
    method Toggle()
      requires Valid()
      modifies this
      ensures Valid()
      ensures old(isConnected) ==>
                && !isConnected && !isRecording && !hasRecorder && link == old(link)
                && closing == (old(closing) || old(Live()))
                && wire == old(wire) + (if old(Live()) then [Close(NormalClosure, Some(UserClosedReason))] else [])
                && recordersReleased == old(recordersReleased) + (if old(hasRecorder) then 1 else 0)
      ensures old(isConnected) ==>
                effects == old(effects) + (if old(hasRecorder) then [RecorderReleased] else [])
                           + (if old(Live()) then [Sent(Close(NormalClosure, Some(UserClosedReason)))] else [])
      ensures !old(isConnected) ==>
                && !isConnected && !isRecording && !hasRecorder && link == Connecting && !closing
                && wire == old(wire) + [Dial(WsUrl(hostname))]
                && recordersReleased == old(recordersReleased)
                && effects == old(effects) + [Sent(Dial(WsUrl(hostname)))]
      ensures notices == old(notices) && nextTime == old(nextTime) && recordersOpened == old(recordersOpened)
    {
      if isConnected {
        isConnected := false;
        StopAudioRecording();
        CloseSocket(NormalClosure, Some(UserClosedReason));
      } else {
        wire := wire + [Dial(WsUrl(hostname))];
        effects := effects + [Sent(Dial(WsUrl(hostname)))];
        PhaseSnoc(old(wire), Dial(WsUrl(hostname)), sampleRate);
        link, closing := Connecting, false;
      }
    }

    /** The socket opened: send the request token, then the config record, and
        only then start recording. */
    method OnOpen(startTime: int)
      requires Valid() && link == Connecting
      modifies this
      ensures Valid()
      ensures isConnected && link == Open && closing == old(closing)
      ensures wire == old(wire) + (if old(closing) then [] else [Text(RequestToken), Text(ConfigRecord(sampleRate))])
      ensures isRecording && hasRecorder && nextTime == startTime
      ensures recordersOpened == old(recordersOpened) + 1 && recordersReleased == old(recordersReleased)
      ensures effects == old(effects)
                         + (if old(closing) then [] else [Sent(Text(RequestToken)), Sent(Text(ConfigRecord(sampleRate)))])
                         + [RecorderStarted]
      ensures notices == old(notices)
    {
      link := Open;
      isConnected := true;
      SendHandshake();
      StartAudioRecording(startTime);
    }

    /** The socket failed: clear the flag, show the failure notice, stop recording. */
    method OnFailure(message: Option<string>)
      requires Valid() && (link == Connecting || link == Open)
      modifies this
      ensures Valid()
      ensures !isConnected && !isRecording && !hasRecorder && link == Ended
      ensures notices == old(notices) + [FailureNotice(hostname, message)]
      ensures wire == old(wire) && closing == old(closing) && nextTime == old(nextTime)
      ensures recordersReleased == old(recordersReleased) + (if old(hasRecorder) then 1 else 0)
      ensures recordersOpened == old(recordersOpened)
      ensures effects == old(effects) + (if old(hasRecorder) then [RecorderReleased] else [])
    {
      isConnected := false;
      notices := notices + [FailureNotice(hostname, message)];
      StopAudioRecording();
      link := Ended;
    }

    /** The socket closed: clear the flag and stop recording. */
    method OnClosed()
      requires Valid() && link == Open
      modifies this
      ensures Valid()
      ensures !isConnected && !isRecording && !hasRecorder && link == Ended
      ensures notices == old(notices) && wire == old(wire) && closing == old(closing) && nextTime == old(nextTime)
      ensures recordersReleased == old(recordersReleased) + (if old(hasRecorder) then 1 else 0)
      ensures recordersOpened == old(recordersOpened)
      ensures effects == old(effects) + (if old(hasRecorder) then [RecorderReleased] else [])
    {
      isConnected := false;
      StopAudioRecording();
      link := Ended;
    }

    /** A text from the server. The rejection token clears the flag, shows the
        in-use notice, stops recording and then closes the socket; any other text
        changes nothing. */
    method OnMessage(text: string)
      requires Valid() && link == Open
      modifies this
      ensures Valid()
      ensures text == RejectedToken ==>
                && !isConnected && !isRecording && !hasRecorder && link == old(link)
                && closing == (old(closing) || old(Live()))
                && wire == old(wire) + (if old(Live()) then [Close(NormalClosure, Some(RejectedReason))] else [])
                && notices == old(notices) + [InUseNotice]
                && nextTime == old(nextTime) && recordersOpened == old(recordersOpened)
                && recordersReleased == old(recordersReleased) + (if old(hasRecorder) then 1 else 0)
      ensures text == RejectedToken ==>
                effects == old(effects) + (if old(hasRecorder) then [RecorderReleased] else [])
                           + (if old(Live()) then [Sent(Close(NormalClosure, Some(RejectedReason)))] else [])
      ensures text != RejectedToken ==> unchanged(this)
    {
      if text == RejectedToken {
        notices := notices + [InUseNotice];
        isConnected := false;
        StopAudioRecording();
        CloseSocket(NormalClosure, Some(RejectedReason));
      }
    }

    /** Teardown: close the held socket (no reason), then stop recording. The
        connection flag is left as it was. */
    method OnDestroy()
      requires Valid()
      modifies this
      ensures Valid()
      ensures !isRecording && !hasRecorder && isConnected == old(isConnected) && link == old(link)
      ensures closing == (old(closing) || old(Live()))
      ensures wire == old(wire) + (if old(Live()) then [Close(NormalClosure, None)] else [])
      ensures notices == old(notices) && nextTime == old(nextTime) && recordersOpened == old(recordersOpened)
      ensures recordersReleased == old(recordersReleased) + (if old(hasRecorder) then 1 else 0)
      ensures effects == old(effects) + (if old(Live()) then [Sent(Close(NormalClosure, None))] else [])
                         + (if old(hasRecorder) then [RecorderReleased] else [])
    {
      CloseSocket(NormalClosure, None);
      StopAudioRecording();
    }

    /** One iteration of the capture loop, which runs only while recording with
        a recorder: forward the positive read as one audio frame, then pace. */
    method CaptureTick(t: TickInput) returns (step: Option<Tick>)
      requires Valid() && Fits(t, bufferSize)
      modifies this`wire, this`nextTime, this`effects
      ensures Valid()
      ensures isRecording ==> step == Some(Pace(old(nextTime), targetDelayNs, t.now, t.later))
      ensures isRecording ==> nextTime == step.value.deadline
      ensures isRecording && Live() ==> wire == old(wire) + TickFrames(t)
      ensures isRecording && Live() ==> effects == old(effects) + SentAll(TickFrames(t))
      ensures !(isRecording && Live()) ==> wire == old(wire) && effects == old(effects)
      ensures !isRecording ==> step == None && nextTime == old(nextTime)
    {
      if isRecording && hasRecorder {
        if t.read > 0 {
          Send(Binary(t.chunk[..t.read]));
        }
        var tick := Pace(nextTime, targetDelayNs, t.now, t.later);
        nextTime := tick.deadline;
        step := Some(tick);
      } else {
        step := None;
      }
    }

    /** The capture loop over a run of iterations: while recording, every
        positive read is forwarded in order and the deadline follows the pacing
        rule; when not recording it does nothing. */
    method CaptureLoop(ticks: seq<TickInput>)
      requires Valid()
      requires forall i :: 0 <= i < |ticks| ==> Fits(ticks[i], bufferSize)
      modifies this`wire, this`nextTime, this`effects
      ensures Valid()
      ensures isRecording ==> nextTime == RunPacing(old(nextTime), targetDelayNs, ticks, |ticks|)
      ensures isRecording && Live() ==> wire == old(wire) + ForwardedFrames(ticks, |ticks|, bufferSize)
      ensures isRecording && Live() ==> effects == old(effects) + SentAll(ForwardedFrames(ticks, |ticks|, bufferSize))
      ensures !(isRecording && Live()) ==> wire == old(wire) && effects == old(effects)
      ensures !isRecording ==> nextTime == old(nextTime)
    {
      if !isRecording {
        return;
      }
      ghost var sent: seq<Frame> := [];
      ghost var wire0, effects0 := wire, effects;
      var i := 0;
      while i < |ticks| && isRecording && hasRecorder
        invariant 0 <= i <= |ticks|
        invariant Valid() && isRecording
        invariant nextTime == RunPacing(old(nextTime), targetDelayNs, ticks, i)
        invariant sent == ForwardedFrames(ticks, i, bufferSize)
        invariant Live() ==> wire == wire0 + sent
        invariant Live() ==> effects == effects0 + SentAll(sent)
        invariant !Live() ==> wire == wire0 && effects == effects0
      {
        ghost var frames := TickFrames(ticks[i]);
        var step := CaptureTick(ticks[i]);
        SentAllAppend(sent, frames);
        AppendAssoc(wire0, sent, frames);
        AppendAssoc(effects0, SentAll(sent), SentAll(frames));
        sent := sent + frames;
        i := i + 1;
      }
    }
  }
}
