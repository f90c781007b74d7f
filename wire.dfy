/** What goes out on the client's sockets, as one log, and the order the
    streaming protocol requires of it: on each socket the request token, then
    the config record, then audio frames, then at most one close. */
module Wire {
  import opened Optional
  import opened Messages

  newtype byte = b: int | 0 <= b < 256

  /** One entry of the transport log: a new socket dialled to an address, or a
      message sent on the most recently dialled socket. */
  datatype Frame =
    | Dial(url: string)
    | Text(text: string)
    | Binary(payload: seq<byte>)
    | Close(code: int, reason: Option<string>)

  /** How far the current socket has got through the protocol. */
  datatype WirePhase =
    | NoSocket    // nothing dialled yet
    | Dialled     // socket dialled, nothing sent on it
    | Requested   // request token sent
    | Announced   // config record sent; audio may follow
    | Closed      // close sent; nothing more may follow on this socket
    | Broken      // an entry out of order was sent

  function Step(p: WirePhase, f: Frame, rate: nat): WirePhase
  {
    if p == Broken then Broken
    else if f.Dial? then Dialled
    else if f.Text? then
      (if p == Dialled && f.text == RequestToken then Requested
       else if p == Requested && f.text == ConfigRecord(rate) then Announced
       else Broken)
    else if f.Binary? then (if p == Announced then Announced else Broken)
    else if p == Dialled || p == Requested || p == Announced then Closed
    else Broken
  }

  /** The phase the automaton is in after the whole log. */
  function Phase(log: seq<Frame>, rate: nat): WirePhase
  {
    if log == [] then NoSocket else Step(Phase(log[..|log| - 1], rate), log[|log| - 1], rate)
  }

  /** Every socket in the log followed the protocol. */
  predicate ProtocolOk(log: seq<Frame>, rate: nat)
  {
    Phase(log, rate) != Broken
  }

  lemma PhaseSnoc(log: seq<Frame>, f: Frame, rate: nat)
    ensures Phase(log + [f], rate) == Step(Phase(log, rate), f, rate)
  {
    assert (log + [f])[..|log|] == log;
  }

  /** An out-of-order entry cannot be repaired by what follows it. */
  lemma {:induction false} BrokenStays(log: seq<Frame>, n: nat, rate: nat)
    requires n <= |log|
    requires Phase(log[..n], rate) == Broken
    ensures Phase(log, rate) == Broken
    decreases |log| - n
  {
    if n < |log| {
      assert log[..n + 1][..n] == log[..n];
      BrokenStays(log, n + 1, rate);
    } else {
      assert log[..n] == log;
    }
  }

  lemma PrefixOk(log: seq<Frame>, n: nat, rate: nat)
    requires ProtocolOk(log, rate) && n <= |log|
    ensures ProtocolOk(log[..n], rate)
  {
    if Phase(log[..n], rate) == Broken {
      BrokenStays(log, n, rate);
    }
  }

  /** Entries j - 1, j and j + 1 of the log are a dial, the request token and
      the config record, and every entry from j + 2 up to (not including) end is
      an audio frame. */
  ghost predicate HandshakeAt(log: seq<Frame>, j: int, end: int, rate: nat)
  {
    1 <= j && j + 1 < end <= |log| && log[j - 1].Dial? && log[j] == Text(RequestToken)
    && log[j + 1] == Text(ConfigRecord(rate))
    && forall k :: j + 1 < k < end ==> log[k].Binary?
  }

  lemma HandshakeInPrefix(log: seq<Frame>, n: nat, j: int, end: int, rate: nat)
    requires n <= |log| && end <= n
    requires HandshakeAt(log[..n], j, end, rate)
    ensures HandshakeAt(log, j, end, rate)
  {
    forall k | j - 1 <= k < end ensures log[k] == log[..n][k] { }
  }

  /** In phase Announced the log ends with a dial, the request token, the config
      record and then audio frames only. */
  lemma {:induction false} AnnouncedShape(log: seq<Frame>, rate: nat)
    requires Phase(log, rate) == Announced
    ensures exists j :: HandshakeAt(log, j, |log|, rate)
  {
    var n := |log|;
    var init := log[..n - 1];
    var p := Phase(init, rate);
    if log[n - 1].Binary? {
      assert p == Announced;
      AnnouncedShape(init, rate);
      var j :| HandshakeAt(init, j, n - 1, rate);
      HandshakeInPrefix(log, n - 1, j, n - 1, rate);
      assert HandshakeAt(log, j, n, rate);
    } else {
      assert log[n - 1] == Text(ConfigRecord(rate)) && p == Requested;
      assert init != [];
      var init2 := init[..n - 2];
      assert init[n - 2] == Text(RequestToken) && Phase(init2, rate) == Dialled;
      assert init2 != [];
      assert init2[n - 3].Dial?;
      assert HandshakeAt(log, n - 2, n, rate);
    }
  }

  /** No audio frame precedes the handshake on its socket: every audio frame of
      a log that follows the protocol comes after a dial, the request token and
      the config record, with only audio frames in between. */
  lemma BinaryFollowsHandshake(log: seq<Frame>, i: nat, rate: nat)
    requires ProtocolOk(log, rate)
    requires i < |log| && log[i].Binary?
    ensures exists j :: HandshakeAt(log, j, i, rate)
  {
    PrefixOk(log, i + 1, rate);
    assert log[..i + 1][..i] == log[..i];
    assert Phase(log[..i], rate) == Announced;
    AnnouncedShape(log[..i], rate);
    var j :| HandshakeAt(log[..i], j, i, rate);
    HandshakeInPrefix(log, i, j, i, rate);
  }

  /** Nothing is sent on a socket after its close: in a log that follows the
      protocol, a close is the last entry or is followed by a new dial. */
  lemma CloseEndsSocket(log: seq<Frame>, c: nat, rate: nat)
    requires ProtocolOk(log, rate)
    requires c + 1 < |log| && log[c].Close?
    ensures log[c + 1].Dial?
  {
    PrefixOk(log, c + 2, rate);
    assert log[..c + 2][..c + 1] == log[..c + 1];
    assert log[..c + 1][..c] == log[..c];
    assert Phase(log[..c + 1], rate) == Closed;
  }

  /** On each socket the handshake is sent at most once: a request token is
      always directly after the dial. */
  lemma RequestFollowsDial(log: seq<Frame>, i: nat, rate: nat)
    requires ProtocolOk(log, rate)
    requires i < |log| && log[i] == Text(RequestToken)
    ensures i >= 1 && log[i - 1].Dial?
  {
    PrefixOk(log, i + 1, rate);
    assert log[..i + 1][..i] == log[..i];
    var pre := log[..i];
    assert Phase(pre, rate) == Dialled;
    assert pre != [];
    assert pre[i - 1] == log[i - 1];
  }
}
