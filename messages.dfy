/** The texts the streaming client builds: the socket address, the handshake
    texts, the config record, the close reasons and the failure notices. */
module Messages {
  import opened Optional

  /** Text tokens exchanged on the socket and the fixed close reasons. */
  const RequestToken: string := "request"
  const RejectedToken: string := "rejected"
  const NormalClosure: int := 1000
  const UserClosedReason: string := "User closed connection"
  const RejectedReason: string := "Rejected by server"

  /** Notices shown to the user. */
  const InUseNotice: string := "Mic is already in use"
  const ResolvePrefix: string := "Could not resolve host: "
  const GenericPrefix: string := "WebSocket failed: "
  const HostErrorMarker: string := "Unable to resolve host"

  /** The fixed parts of the socket address. */
  const UrlScheme: string := "ws://"
  const UrlPath: string := "/ws"

  /** The config record up to the decimal rate; the record ends with '}'. */
  const ConfigPrefix: string := "{\"type\":\"config\",\"rate\":"

  // ---------------------------------------------------------------------------
  // Socket address

  /** The address the client dials: scheme, the user's host (with port) and the fixed path. */
  function WsUrl(host: string): (url: string)
    ensures |url| == |UrlScheme| + |host| + |UrlPath|
    ensures HostOf(url) == Some(host)
  {
    UrlScheme + host + UrlPath
  }

  /** Recovers the host part of an address built by WsUrl. */
  function HostOf(url: string): Option<string>
  {
    if |url| >= |UrlScheme| + |UrlPath| && url[..|UrlScheme|] == UrlScheme && url[|url| - |UrlPath|..] == UrlPath
    then Some(url[|UrlScheme|..|url| - |UrlPath|])
    else None
  }

  // ---------------------------------------------------------------------------
  // Decimal numbers, as a JSON writer prints a non-negative integer

  predicate IsDigit(c: char) { '0' <= c <= '9' }

  function DigitChar(d: int): (c: char)
    requires 0 <= d < 10
    ensures IsDigit(c) && DigitValue(c) == d
  {
    (('0' as int) + d) as char
  }

  function DigitValue(c: char): (d: nat)
    requires IsDigit(c)
    ensures d < 10
  {
    c as int - '0' as int
  }

  /** The shortest decimal numeral of n. */
  function Decimal(n: nat): (s: string)
    ensures |s| > 0
    ensures forall i :: 0 <= i < |s| ==> IsDigit(s[i])
    ensures |s| > 1 ==> s[0] != '0'
  {
    if n < 10 then [DigitChar(n)] else Decimal(n / 10) + [DigitChar(n % 10)]
  }

  /** The number a string of digits denotes, read left to right. */
  function DigitsValue(s: string): nat
    requires forall i :: 0 <= i < |s| ==> IsDigit(s[i])
  {
    if s == [] then 0 else DigitsValue(s[..|s| - 1]) * 10 + DigitValue(s[|s| - 1])
  }

  /** Reads a numeral without leading zeros; the partner of Decimal. */
  function ParseDecimal(s: string): Option<nat>
  {
    if |s| > 0 && (forall i :: 0 <= i < |s| ==> IsDigit(s[i])) && (|s| == 1 || s[0] != '0')
    then Some(DigitsValue(s))
    else None
  }

  lemma {:induction false} DigitsValueOfDecimal(n: nat)
    ensures DigitsValue(Decimal(n)) == n
  {
    if n >= 10 {
      var s := Decimal(n);
      assert s[..|s| - 1] == Decimal(n / 10);
      DigitsValueOfDecimal(n / 10);
    }
  }

  /** Printing a number and reading it back gives the number. */
  lemma DecimalRoundTrip(n: nat)
    ensures ParseDecimal(Decimal(n)) == Some(n)
  {
    DigitsValueOfDecimal(n);
  }

  // ---------------------------------------------------------------------------
  // The config record sent after the request token

  /** The JSON text of the config record {type: "config", rate: rate}; the
      keys appear in insertion order, as the record is built. */
  function ConfigRecord(rate: nat): (s: string)
    ensures |s| > |ConfigPrefix| + 1 && s[..|ConfigPrefix|] == ConfigPrefix && s[|s| - 1] == '}'
  {
    ConfigPrefix + Decimal(rate) + "}"
  }

  /** Reads the rate back out of a config record. */
  function ParseConfig(s: string): Option<nat>
  {
    if |s| > |ConfigPrefix| + 1 && s[..|ConfigPrefix|] == ConfigPrefix && s[|s| - 1] == '}'
    then ParseDecimal(s[|ConfigPrefix|..|s| - 1])
    else None
  }

  /** The config record carries its rate: reading it back gives the rate. */
  lemma ConfigRoundTrip(rate: nat)
    ensures ParseConfig(ConfigRecord(rate)) == Some(rate)
  {
    var s := ConfigRecord(rate);
    assert s[|ConfigPrefix|..|s| - 1] == Decimal(rate);
    DecimalRoundTrip(rate);
  }

  /** Two config records are equal only if their rates are. */
  lemma ConfigRecordInjective(r1: nat, r2: nat)
    requires ConfigRecord(r1) == ConfigRecord(r2)
    ensures r1 == r2
  {
    ConfigRoundTrip(r1);
    ConfigRoundTrip(r2);
  }

  /** The record the client sends at 48000 Hz, written out. */
  lemma ConfigRecordAt48000()
    ensures ConfigRecord(48000) == "{\"type\":\"config\",\"rate\":48000}"
  {
    assert Decimal(4) == "4";
    assert Decimal(48) == "48";
    assert Decimal(480) == "480";
    assert Decimal(4800) == "4800";
    assert Decimal(48000) == "48000";
  }

  // ---------------------------------------------------------------------------
  // Substring search and the failure notice

  ghost predicate OccursAt(s: string, sub: string, i: int)
  {
    0 <= i && i + |sub| <= |s| && s[i..i + |sub|] == sub
  }

  /** sub appears somewhere in s (the empty string appears everywhere). */
  ghost predicate Occurs(s: string, sub: string)
  {
    exists i :: OccursAt(s, sub, i)
  }

  lemma OccursInTail(s: string, sub: string)
    requires |s| > 0 && !OccursAt(s, sub, 0)
    ensures Occurs(s, sub) <==> Occurs(s[1..], sub)
  {
    if Occurs(s, sub) {
      var i :| OccursAt(s, sub, i);
      assert s[1..][i - 1..i - 1 + |sub|] == s[i..i + |sub|];
      assert OccursAt(s[1..], sub, i - 1);
    }
    if Occurs(s[1..], sub) {
      var i :| OccursAt(s[1..], sub, i);
      assert s[1..][i..i + |sub|] == s[i + 1..i + 1 + |sub|];
      assert OccursAt(s, sub, i + 1);
    }
  }

  /** Substring test, scanning s from the left. */
  function Contains(s: string, sub: string): (b: bool)
    ensures b <==> Occurs(s, sub)
    decreases |s|
  {
    if |s| < |sub| then
      assert forall i :: !OccursAt(s, sub, i);
      false
    else if s[..|sub|] == sub then
      assert OccursAt(s, sub, 0);
      true
    else
      OccursInTail(s, sub);
      Contains(s[1..], sub)
  }

  /** How a missing exception message prints inside a string template. */
  function MessageText(message: Option<string>): string
  {
    match message
    case Some(m) => m
    case None => "null"
  }

  predicate IsResolveNotice(n: string)
  {
    |n| >= |ResolvePrefix| && n[..|ResolvePrefix|] == ResolvePrefix
  }

  /** The notice shown when the socket fails: the host-unresolved notice when
      the failure's message mentions host resolution, the generic one otherwise. */
  function FailureNotice(host: string, message: Option<string>): (n: string)
    ensures IsResolveNotice(n) <==> message.Some? && Occurs(message.value, HostErrorMarker)
    ensures IsResolveNotice(n) ==> n == ResolvePrefix + host
    ensures !IsResolveNotice(n) ==> n == GenericPrefix + MessageText(message)
  {
    if message.Some? && Contains(message.value, HostErrorMarker) then
      ResolvePrefix + host
    else
      var n := GenericPrefix + MessageText(message);
      assert n[0] != ResolvePrefix[0];
      n
  }
}
