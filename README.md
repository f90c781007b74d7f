# PhoneMicrophone streaming controller, modelled in Dafny

PhoneMicrophone is an Android app that streams microphone audio to one
listener over a WebSocket. The model covers its streaming core, which lives in
`MainActivity`. It has four parts:

- **Stream configuration** (`stream_config.dfy`). This is how the sample rate is chosen
  from the candidates 48000 and 44100. It also gives the byte size of one 5 ms chunk
  of 16-bit mono audio and the pacing interval between chunks.
- **The capture loop** (`capture.dfy`). One iteration forwards what the recorder read.
  It then advances an absolute deadline by one interval. Last, it either sleeps until
  that deadline or, if it has fallen behind, resets the deadline to the current time.
- **The controller** (`activity.dfy`). The class `MainActivity` holds the flags
  `isConnected` and `isRecording`, whether a recorder exists, and the socket's state.
  It also holds the log of everything that goes out on the sockets and the notices
  shown to the user. Its methods are the events: the toggle button, `onOpen`,
  `onFailure`, `onClosed`, `onMessage`, `onDestroy`, and one capture-loop iteration or
  a run of them.
- **The messages** (`messages.dfy`). These are the address `ws://<host>/ws`, the
  request token, the config record `{"type":"config","rate":<rate>}`, the close
  reasons and the failure notices.

`wire.dfy` defines the transport log and an automaton for the order the protocol
needs on each socket:

1. the dial;
2. `"request"`;
3. the config record;
4. audio frames;
5. at most one close.

The controller's invariant `Valid()` includes that the log is accepted by this
automaton. Lemmas then turn that into the properties that matter. They hold for runs
in which the activity has at most one socket outstanding at a time, which is the only
kind of run the model follows. In the app, a double tap before the first socket opens
breaks the first of them, and the release property below (see the
`Activity.MainActivity.OnOpen` line under "## Left out").

- no audio frame goes out before the handshake on its socket;
- nothing goes out after a close;
- the handshake is sent once per socket.

The invariant also keeps a count of recorders created and released. For the same
one-socket runs, that count shows that each recorder is released at most once, and
that every recorder the activity no longer holds was released. Start never replaces a
recorder that was never released.

Each event's contract also states a ghost trace of effects, in the order they happen:
a message the socket library accepted, a recorder created, a recorder released.
This is what pins the orders that matter:

- the toggle and the rejection release the recorder before the close goes out;
- `onOpen` sends the two handshake texts before it starts the recorder;
- `onDestroy` sends its close first and releases the recorder after it.

Treated as inputs or parameters:

- the clock: the two `System.nanoTime` readings of an iteration;
- the recorder's `read` result and buffer;
- the platform's minimum-buffer-size probe, as a function `int -> int`;
- the host name, fixed when the activity is constructed.

The socket library is modelled by its contract: `send` or `close` after a close was
accepted, or after the socket failed or closed, is refused and changes nothing.

Four facts about the code shape the model:

- **When the loop resynchronises.** The loop resets its deadline as soon as an
  iteration ends at or after its deadline (`sleepNs <= 0`), not only once it is a
  whole interval behind. See `Capture.Pace`.
- **A second toggle after a stop.** It is not a no-op: the code dials a new socket,
  because `isConnected` is already false. See `Scenarios.TapAfterStop`. What is
  idempotent is `StopAudioRecording`: its contract says a second call changes nothing.
- **No explicit states.** There are no Connecting, AwaitingAdmission, Streaming or
  Closing states. There are only the two flags plus the socket's own state.
  Recording starts as soon as the socket opens, before the server has said anything.
- **Teardown.** `onDestroy` closes the socket without a reason, and only then stops
  recording. It leaves `isConnected` unchanged. See `Scenarios.DestroyWhileStreaming`.

## Model

| member | source | states |
|---|---|---|
| StreamConfig.SupportedSampleRate | app/src/main/java/com/example/phonemicrophone/MainActivity.kt:131-146 | returns 48000 if the probe accepts it, else 44100 if the probe accepts that, else the default 48000; the result is always one of the candidates |
| StreamConfig.ChunkBytes | app/src/main/java/com/example/phonemicrophone/MainActivity.kt:56-57 | the chunk size is even, and half of it is the whole number of samples in 5 ms at the rate (floor of rate*5/1000) |
| StreamConfig.TargetDelayNs | app/src/main/java/com/example/phonemicrophone/MainActivity.kt:239-240 | the interval is the nanoseconds of audio in the chunk, rounded down: d*(2*rate) <= 10^9*bytes < (d+1)*(2*rate) |
| StreamConfig.SupportedRateTimings | app/src/main/java/com/example/phonemicrophone/MainActivity.kt:239-240 | 480 bytes and 5 000 000 ns at 48000 Hz; 440 bytes and 4 988 662 ns at 44100 Hz |
| StreamConfig.IntervalWithinChunkDuration | app/src/main/java/com/example/phonemicrophone/MainActivity.kt:239-240 | at every positive rate the pacing interval is at most the 5 ms chunk duration, so chunks are never sent slower than real time |
| StreamConfig.ChunkAndIntervalPositive | app/src/main/java/com/example/phonemicrophone/MainActivity.kt:56-57 | from 200 Hz up a chunk holds at least one sample and the interval is positive |
| Capture.Pace | app/src/main/java/com/example/phonemicrophone/MainActivity.kt:249-255 | it sleeps exactly when the current time is before the advanced deadline; the sleep is split into ms and ns with ms*10^6+ns equal to the time left and 0 <= ns < 10^6; otherwise the deadline becomes the second clock reading |
| Capture.TickFrames | app/src/main/java/com/example/phonemicrophone/MainActivity.kt:243-247 | an iteration sends one frame exactly when read > 0, and that frame is the first read bytes of the buffer |
| Capture.NoDrift | app/src/main/java/com/example/phonemicrophone/MainActivity.kt:249-252 | if each of the first n iterations ends before its deadline, the deadline after them is start + n*interval |
| Capture.RecoversFromStall | app/src/main/java/com/example/phonemicrophone/MainActivity.kt:250-255 | when iteration k of a run ends at or after its deadline, the deadline after it is that iteration's resynchronising reading, and each later on-time iteration advances it by one interval from there, with no catch-up |
| Capture.ForwardedFramesShape | app/src/main/java/com/example/phonemicrophone/MainActivity.kt:243-247 | a run sends at most one frame per iteration; every frame is audio, is non-empty and is no longer than the buffer |
| Messages.WsUrl | app/src/main/java/com/example/phonemicrophone/MainActivity.kt:157 | the address is ws:// + host + /ws, and the host can be read back from it |
| Messages.Decimal | app/src/main/java/com/example/phonemicrophone/MainActivity.kt:172-173 | the rate is printed as a non-empty string of digits with no leading zero |
| Messages.DecimalRoundTrip | app/src/main/java/com/example/phonemicrophone/MainActivity.kt:172-173 | reading back the printed rate gives the rate |
| Messages.ConfigRecord | app/src/main/java/com/example/phonemicrophone/MainActivity.kt:170-173 | the config record starts with {"type":"config","rate": and ends with } |
| Messages.ConfigRoundTrip | app/src/main/java/com/example/phonemicrophone/MainActivity.kt:170-173 | the rate can be read back out of the config record |
| Messages.ConfigRecordInjective | app/src/main/java/com/example/phonemicrophone/MainActivity.kt:170-173 | different rates give different config records |
| Messages.ConfigRecordAt48000 | app/src/main/java/com/example/phonemicrophone/MainActivity.kt:170-173 | at 48000 Hz the record is exactly {"type":"config","rate":48000} |
| Messages.Contains | app/src/main/java/com/example/phonemicrophone/MainActivity.kt:184 | the substring test is true exactly when the marker occurs at some position of the message |
| Messages.FailureNotice | app/src/main/java/com/example/phonemicrophone/MainActivity.kt:184-188 | the notice is "Could not resolve host: <host>" exactly when the message exists and contains "Unable to resolve host"; otherwise it is "WebSocket failed: <message>", with "null" for a missing message; the two kinds never look alike |
| Wire.AnnouncedShape | app/src/main/java/com/example/phonemicrophone/MainActivity.kt:162-175 | while audio may be sent, the current socket's entries are the dial, "request", the config record and then audio frames only |
| Wire.BinaryFollowsHandshake | app/src/main/java/com/example/phonemicrophone/MainActivity.kt:169-174 | in a log the protocol accepts, every audio frame comes after its socket's dial, "request" and config record, with only audio frames between them |
| Wire.CloseEndsSocket | app/src/main/java/com/example/phonemicrophone/MainActivity.kt:149-153 | in a log the protocol accepts, the only thing that can follow a close is a new dial |
| Wire.RequestFollowsDial | app/src/main/java/com/example/phonemicrophone/MainActivity.kt:169 | the request token is always the first thing sent on its socket, so the handshake happens once per socket |
| Activity.MainActivity.constructor | app/src/main/java/com/example/phonemicrophone/MainActivity.kt:54-57 | the rate is the chosen one, the buffer size is its chunk size and the pacing interval is the one for that rate and chunk; the activity starts disconnected, not recording and with no socket |
| Activity.MainActivity.Send | app/src/main/java/com/example/phonemicrophone/MainActivity.kt:246 | a message is logged only while the socket still accepts sends |
| Activity.MainActivity.CloseSocket | app/src/main/java/com/example/phonemicrophone/MainActivity.kt:153 | a close is logged and marks the socket closing only while the socket still accepts it; otherwise nothing changes |
| Activity.MainActivity.SendHandshake | app/src/main/java/com/example/phonemicrophone/MainActivity.kt:169-173 | while the socket accepts sends, the request token and then the config record for the activity's rate are appended, taking a freshly dialled socket to the phase where audio may follow |
| Activity.MainActivity.StartAudioRecording | app/src/main/java/com/example/phonemicrophone/MainActivity.kt:223-241 | it creates a recorder, sets isRecording and starts the loop's deadline at the given time |
| Activity.MainActivity.StopAudioRecording | app/src/main/java/com/example/phonemicrophone/MainActivity.kt:263-273 | afterwards nothing is recording and there is no recorder; a release is counted and traced only if a recorder existed; when nothing was recording, the call changes nothing |
| Activity.MainActivity.Toggle | app/src/main/java/com/example/phonemicrophone/MainActivity.kt:148-160 | while connected: it clears the flag, stops recording, and its effect trace has the recorder's release before the close with code 1000 and "User closed connection"; otherwise it dials ws://host/ws; the invariant is kept either way |
| Activity.MainActivity.OnOpen | app/src/main/java/com/example/phonemicrophone/MainActivity.kt:162-175 | it sets connected, appends exactly "request" and then the config record for the activity's rate (unless a close was already accepted); its effect trace has both sends before the recorder is started |
| Activity.MainActivity.OnFailure | app/src/main/java/com/example/phonemicrophone/MainActivity.kt:177-193 | it clears the flag, appends the failure notice for the host and message, stops recording and sends nothing |
| Activity.MainActivity.OnClosed | app/src/main/java/com/example/phonemicrophone/MainActivity.kt:195-203 | it clears the flag and stops recording; nothing is sent and no notice is shown |
| Activity.MainActivity.OnMessage | app/src/main/java/com/example/phonemicrophone/MainActivity.kt:205-218 | "rejected" shows "Mic is already in use", clears the flag and stops recording; its effect trace has the recorder's release before the close with code 1000 and "Rejected by server"; any other text changes nothing |
| Activity.MainActivity.OnDestroy | app/src/main/java/com/example/phonemicrophone/MainActivity.kt:275-280 | it closes with code 1000 and no reason, and its effect trace has that close before the recorder's release; afterwards nothing is recording; isConnected is unchanged |
| Activity.MainActivity.CaptureTick | app/src/main/java/com/example/phonemicrophone/MainActivity.kt:243-255 | it does anything only while recording with a recorder; then it forwards a positive read as one frame and sets the deadline by the pacing step; otherwise nothing changes |
| Activity.MainActivity.CaptureLoop | app/src/main/java/com/example/phonemicrophone/MainActivity.kt:237-257 | while recording, the frames sent are exactly those for the positive reads, in order, and the final deadline follows the pacing rule over the run |
| Scenarios.RejectedAfterOneChunk | app/src/main/java/com/example/phonemicrophone/MainActivity.kt:205-218 | after open, one chunk and a rejection, the log is dial, "request", config, the chunk, close(1000, "Rejected by server"); the recorder starts after the config and is released before the close; a later iteration sends nothing |
| Scenarios.UserStop | app/src/main/java/com/example/phonemicrophone/MainActivity.kt:148-155 | at 44100 Hz a partial read is sent as it is, a zero read sends nothing, the recorder is released and then the stop sends close(1000, "User closed connection"), and a later read sends nothing |
| Scenarios.TapAfterStop | app/src/main/java/com/example/phonemicrophone/MainActivity.kt:148-161 | a tap after the user's stop dials a new socket: the log is dial, "request", config, close(1000, "User closed connection"), dial |
| Scenarios.HostNotResolved | app/src/main/java/com/example/phonemicrophone/MainActivity.kt:177-193 | a resolution failure shows "Could not resolve host: mic.local" and leaves the activity disconnected, with only the dial sent |
| Scenarios.FailureWithoutMessage | app/src/main/java/com/example/phonemicrophone/MainActivity.kt:184-188 | a failure with no message shows "WebSocket failed: null" |
| Scenarios.DestroyWhileStreaming | app/src/main/java/com/example/phonemicrophone/MainActivity.kt:275-280 | teardown while streaming sends close(1000) with no reason and only then releases the recorder; the connection flag stays set |
| Scenarios.DestroyWhileConnecting | app/src/main/java/com/example/phonemicrophone/MainActivity.kt:275-280 | after teardown during connect, a late open sends nothing on the wire but still starts a recorder |

## Left out

- **Screen and settings.** Left out as presentation: the screen layout, button colours
  and texts, the settings field, and the click handler's check against `inSettings`.
  Because of this, the host name is fixed when the activity is constructed.
  Notices are kept as a list instead of being drawn as toasts.
- **Runtime permission.** The permission check and the request launcher are left out.
  The model assumes that recording permission was granted. For the same reason, the
  `SecurityException` branch of `startAudioRecording` is left out.
- **Library internals.** OkHttp, `AudioRecord` and `JSONObject` internals are left
  out. The socket is an entry log plus its library state. The recorder is a flag. The
  config record is the fixed text that the JSON writer prints for one integer field.
  A failure of `AudioRecord.stop`, which the Kotlin code catches, changes no modelled state.
- **Threads.** The capture thread, the `runOnUiThread` deferral and the race between
  the loop and `stopAudioRecording` are left out. The flags set on the UI thread take
  effect at once. For that reason the extra frame a real race could send after a stop
  is not modelled.
- **Superseded sockets.** The model follows only the socket the activity holds.
  Callbacks of any socket it no longer holds are not modelled. This covers a socket
  replaced by a second tap before it opened, which in the app could still open and
  start a second recorder and capture thread. It also covers a socket that the user or
  a rejection closed and a new tap then replaced: in the app its late `onClosed` or
  `onFailure` still clears the shared `isConnected` and calls `stopAudioRecording`,
  which would stop the new socket's recording.
- Activity.MainActivity.OnOpen: its `requires link == Connecting` follows only the
  socket the activity holds, so the model does not capture this run of the app. Tap
  once, and tap again before the first socket opens: `isConnected` is still false, so
  the second tap dials a second socket and stores it in `socket`. Then the first socket
  opens: it sends its handshake on itself and starts recording. The capture loop sends
  on the field `socket`, which is the second socket, still connecting; the library
  queues those audio frames and writes them before that socket's own `"request"`. When
  the second socket opens, `startAudioRecording` overwrites `audioRecord` without
  releasing it, so the first recorder is never released. In that run "no audio before
  the handshake" and "every recorder no longer held was released" both fail.
- **Events after teardown.** These are allowed, because the listener outlives the
  activity. `Scenarios.DestroyWhileConnecting` shows that a late `onOpen` still
  creates a recorder.
- **Unused callback arguments.** The `onClosed` code and reason, and the `Response`
  objects, are left out. The code only logs them.
- **Clock and sleeping.** `System.nanoTime` and `Thread.sleep` are replaced by inputs
  and by the returned `Tick`. Overflow of the 64-bit clock arithmetic is not modelled.
  The rate arithmetic stays far inside 32 bits for the two candidate rates.
- **Floating point in the chunk size.** `(rate*5/1000.0).toInt()` is integer
  division. For non-negative values this gives the same result.
- **Logging.** All logging is left out.
