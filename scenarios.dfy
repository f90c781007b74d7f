/** Concrete runs of the activity, each stating exactly what went out on the
    wire and what the user was shown. */
module Scenarios {
  import opened Optional
  import opened Messages
  import opened Wire
  import opened StreamConfig
  import opened Capture
  import opened Activity

  const Host: string := "mic.local"

  /** Open, stream one chunk, be rejected, then a further capture iteration:
      the close goes out after the one chunk and nothing follows it. The
      recorder starts after the handshake and is released before the close. */
  method RejectedAfterOneChunk(chunk: seq<byte>) returns (log: seq<Frame>, shown: seq<string>, recording: bool,
                                                          ghost trace: seq<Effect>)
    requires |chunk| == 480
    ensures log == [Dial(WsUrl(Host)), Text(RequestToken), Text(ConfigRecord(48000)), Binary(chunk),
                    Close(NormalClosure, Some(RejectedReason))]
    ensures trace == [Sent(log[0]), Sent(log[1]), Sent(log[2]), RecorderStarted, Sent(log[3]),
                      RecorderReleased, Sent(log[4])]
    ensures shown == [InUseNotice]
    ensures !recording
  {
    SupportedRateTimings();
    var a := new MainActivity(Host, r => 1);
    a.Toggle();
    a.OnOpen(0);
    var first := a.CaptureTick(TickInput(480, chunk, 1_000_000, 1_000_000));
    assert chunk[..480] == chunk;
    a.OnMessage(RejectedToken);
    var second := a.CaptureTick(TickInput(480, chunk, 6_000_000, 6_000_000));
    log, shown, recording := a.wire, a.notices, a.isRecording;
    trace := a.effects;
  }

  /** At 44100 Hz (the probe refuses 48000) a partial read is forwarded as
      it is, a zero read sends nothing, the user's stop closes with the user's
      reason, and a read after the stop sends nothing. */
  method UserStop(chunk: seq<byte>) returns (log: seq<Frame>, recording: bool, ghost trace: seq<Effect>)
    requires |chunk| == 440
    ensures log == [Dial(WsUrl(Host)), Text(RequestToken), Text(ConfigRecord(44100)), Binary(chunk[..100]),
                    Close(NormalClosure, Some(UserClosedReason))]
    ensures trace == [Sent(log[0]), Sent(log[1]), Sent(log[2]), RecorderStarted, Sent(log[3]),
                      RecorderReleased, Sent(log[4])]
    ensures !recording
  {
    SupportedRateTimings();
    var a := new MainActivity(Host, r => if r == 44100 then 1 else -2);
    var url := WsUrl(Host);
    a.Toggle();
    a.OnOpen(0);
    var handshake := [Dial(url), Text(RequestToken), Text(ConfigRecord(44100))];
    assert a.wire == handshake;
    var first := a.CaptureTick(TickInput(100, chunk, 1_000_000, 1_000_000));
    var idle := a.CaptureTick(TickInput(0, chunk, 5_000_000, 5_000_000));
    assert a.wire == handshake + [Binary(chunk[..100])];
    a.Toggle();
    var late := a.CaptureTick(TickInput(440, chunk, 9_000_000, 9_000_000));
    log, recording := a.wire, a.isRecording;
    trace := a.effects;
    assert log == handshake + [Binary(chunk[..100]), Close(NormalClosure, Some(UserClosedReason))];
  }

  /** A tap after the user's stop dials a new socket rather than doing nothing. */
  method TapAfterStop() returns (log: seq<Frame>, connected: bool)
    ensures log == [Dial(WsUrl(Host)), Text(RequestToken), Text(ConfigRecord(48000)),
                    Close(NormalClosure, Some(UserClosedReason)), Dial(WsUrl(Host))]
    ensures !connected
  {
    var a := new MainActivity(Host, r => 1);
    var url := WsUrl(Host);
    a.Toggle();
    a.OnOpen(0);
    var handshake := [Dial(url), Text(RequestToken), Text(ConfigRecord(48000))];
    assert a.wire == handshake;
    a.Toggle();
    assert a.wire == handshake + [Close(NormalClosure, Some(UserClosedReason))];
    a.Toggle();
    log, connected := a.wire, a.isConnected;
    assert log == handshake + [Close(NormalClosure, Some(UserClosedReason)), Dial(url)];
  }

  /** A failure to resolve the host: the user sees the host-unresolved notice
      naming the configured host, and nothing but the dial went out. */
  method HostNotResolved() returns (log: seq<Frame>, shown: seq<string>, connected: bool)
    ensures log == [Dial(WsUrl(Host))]
    ensures shown == [ResolvePrefix + Host]
    ensures !connected
  {
    var a := new MainActivity(Host, r => 1);
    a.Toggle();
    var message := HostErrorMarker + " \"mic.local\": No address associated with hostname";
    assert message[..|HostErrorMarker|] == HostErrorMarker;
    assert OccursAt(message, HostErrorMarker, 0);
    a.OnFailure(Some(message));
    log, shown, connected := a.wire, a.notices, a.isConnected;
  }

  /** A failure without a message gets the generic notice. */
  method FailureWithoutMessage() returns (shown: seq<string>)
    ensures shown == [GenericPrefix + "null"]
  {
    var a := new MainActivity(Host, r => 0);
    a.Toggle();
    a.OnFailure(None);
    shown := a.notices;
  }

  /** Teardown while the socket is still connecting: the close is accepted, so
      the handshake the late open tries to send is refused by the library; the
      recorder it starts is still created. */
  method DestroyWhileConnecting() returns (log: seq<Frame>, recording: bool)
    ensures log == [Dial(WsUrl(Host)), Close(NormalClosure, None)]
    ensures recording
  {
    var a := new MainActivity(Host, r => 1);
    a.Toggle();
    a.OnDestroy();
    a.OnOpen(0);
    log, recording := a.wire, a.isRecording;
  }

  /** Teardown while streaming: the close (with no reason) goes out first and
      the recorder is released after it; the connection flag stays set. */
  method DestroyWhileStreaming() returns (log: seq<Frame>, connected: bool, recording: bool,
                                          ghost trace: seq<Effect>)
    ensures log == [Dial(WsUrl(Host)), Text(RequestToken), Text(ConfigRecord(48000)), Close(NormalClosure, None)]
    ensures trace == [Sent(log[0]), Sent(log[1]), Sent(log[2]), RecorderStarted, Sent(log[3]), RecorderReleased]
    ensures connected && !recording
  {
    var a := new MainActivity(Host, r => 1);
    a.Toggle();
    a.OnOpen(0);
    a.OnDestroy();
    log, connected, recording := a.wire, a.isConnected, a.isRecording;
    trace := a.effects;
  }
}
