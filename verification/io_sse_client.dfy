/** The `io.flipswitch` stream client: event-type dispatch and the
    connection state machine with capped exponential reconnect backoff.

    Every callback the HTTP library makes (`onOpen`, `onClosed`, `onFailure`,
    `onEvent`), every call the owner makes (`connect`, `close`) and every
    firing of a scheduled reconnect is one `Input`; `Step` applies it
    atomically and reports what became visible as a sequence of `Output`s
    (status callbacks, cancelled sources, requests, flag events, scheduled
    reconnects). The JSON adapters are parameters.
 */
module IoSseClient {
  import opened Wrappers
  import Text
  import Backoff

  const MinRetryDelayMs: nat := 1000
  const MaxRetryDelayMs: nat := 30000
  const EventsPath: string := "/api/v1/flags/events"

  datatype ConnectionStatus = Connecting | Connected | Disconnected | Error

  /** What the flag-change callback receives; a `None` key asks the owner
      to refresh every flag. */
  datatype FlagChangeEvent = FlagChangeEvent(flagKey: Option<string>, timestamp: Option<string>)

  datatype ConfigUpdatedEvent = ConfigUpdatedEvent(timestamp: Option<string>)

  /** The two JSON adapters: each turns the data field into a record, into
      `null` (`Ok(None)`), or throws. */
  datatype Codec = Codec(
    flagEvent: string -> Result<Option<FlagChangeEvent>>,
    configEvent: string -> Result<Option<ConfigUpdatedEvent>>)

  // ---------------------------------------------------------------------
  // Event dispatch
  // ---------------------------------------------------------------------

  /** The two event types that carry one flag's change (the second is the
      legacy name). */
  predicate IsSingleFlagType(eventType: Option<string>) {
    eventType == Some("flag-updated") || eventType == Some("flag-change")
  }

  predicate IsDeliveringType(eventType: Option<string>) {
    IsSingleFlagType(eventType) || eventType == Some("config-updated")
  }

  /** The flag event, if any, that an incoming stream event hands to the
      callback. A decoding failure is swallowed. */
  function HandleEvent(eventType: Option<string>, data: string, codec: Codec): (r: Option<FlagChangeEvent>)
    ensures !IsDeliveringType(eventType) ==> r.None?
    ensures IsSingleFlagType(eventType) ==>
      (r.Some? <==> codec.flagEvent(data).Ok? && codec.flagEvent(data).value.Some?)
    ensures IsSingleFlagType(eventType) && r.Some? ==> r == codec.flagEvent(data).value
    ensures eventType == Some("config-updated") ==> (r.Some? <==> codec.configEvent(data).Ok?)
    ensures eventType == Some("config-updated") && r.Some? ==> r.value.flagKey.None?
  {
    if eventType == Some("heartbeat") then None
    else if IsSingleFlagType(eventType) then
      (match codec.flagEvent(data)
       case Ok(Some(e)) => Some(e)
       case _ => None)
    else if eventType == Some("config-updated") then
      (match codec.configEvent(data)
       case Ok(Some(c)) => Some(FlagChangeEvent(None, c.timestamp))
       case Ok(None) => Some(FlagChangeEvent(None, None))
       case Thrown(_) => None)
    else None
  }

  /** A `config-updated` event is a bulk refresh carrying the payload's
      timestamp, or no timestamp when the payload decodes to `null`. */
  lemma ConfigUpdatedIsBulk(data: string, codec: Codec)
    requires codec.configEvent(data).Ok?
    ensures HandleEvent(Some("config-updated"), data, codec) ==
      Some(FlagChangeEvent(None, match codec.configEvent(data).value
                                 case Some(c) => c.timestamp
                                 case None => None))
  {
  }

  // ---------------------------------------------------------------------
  // Connection state machine
  // ---------------------------------------------------------------------

  /** `hasSource` stands for a non-null event source; `pendingReconnects`
      counts reconnect tasks sitting in the scheduler. */
  datatype Client = Client(
    baseUrl: string,
    closed: bool,
    status: ConnectionStatus,
    retryDelay: nat,
    hasSource: bool,
    pendingReconnects: nat)

  datatype Input =
    | Connect
    | Opened
    | ServerClosed
    | Failed
    | Message(eventType: Option<string>, data: string)
    | ReconnectFired
    | Close

  datatype Output =
    | StatusChanged(status: ConnectionStatus)
    | SourceCancelled
    | Requested(url: string)
    | FlagChanged(event: FlagChangeEvent)
    | ReconnectScheduled(delayMs: nat)

  datatype Stepped = Stepped(client: Client, out: seq<Output>)

  /** The client's invariant: the delay stays within its bounds, and a closed
      client owns no source and no pending reconnect. */
  predicate Valid(c: Client) {
    && MinRetryDelayMs <= c.retryDelay <= MaxRetryDelayMs
    && (c.closed ==> !c.hasSource && c.pendingReconnects == 0)
  }

  /** A new client: base URL without its trailing slash, nothing running. */
  function Create(baseUrl: string): (c: Client)
    ensures Valid(c) && !c.closed
    ensures c.status == Disconnected
    ensures !c.hasSource && c.pendingReconnects == 0
    ensures |c.baseUrl| == |baseUrl| || |c.baseUrl| == |baseUrl| - 1
  {
    Client(Text.StripTrailingSlash(baseUrl), false, Disconnected, MinRetryDelayMs, false, 0)
  }

  function StreamUrl(c: Client): string {
    c.baseUrl + EventsPath
  }

  /** The base URL loses exactly one trailing slash, and the stream is
      requested under it. */
  lemma CreateNormalisesUrl(baseUrl: string)
    requires Text.HasNoTrailingSlash(baseUrl)
    ensures Create(baseUrl + "/").baseUrl == baseUrl
    ensures Create(baseUrl).baseUrl == baseUrl
    ensures Create(baseUrl + "//").baseUrl == baseUrl + "/"
    ensures StreamUrl(Create(baseUrl + "/")) == baseUrl + "/api/v1/flags/events"
  {
    Text.StripAppendedSlash(baseUrl);
    Text.StripCleanBase(baseUrl);
    Text.StripRemovesOnlyOneSlash(baseUrl);
  }

  /** Cancels and forgets the current event source, if there is one. */
  function CancelSource(c: Client): Stepped {
    if c.hasSource then Stepped(c.(hasSource := false), [SourceCancelled])
    else Stepped(c, [])
  }

  /** `connect`: ignored once closed; otherwise the old source is cancelled
      and a new one opened on the stream URL. */
  function ConnectStep(c: Client): (r: Stepped)
    ensures c.closed ==> r == Stepped(c, [])
    ensures !c.closed ==>
      && r.client.hasSource && r.client.status == Connecting
      && r.client.(status := c.status, hasSource := c.hasSource) == c
      && (SourceCancelled in r.out <==> c.hasSource)
      && |r.out| > 0 && r.out[|r.out| - 1] == Requested(c.baseUrl + EventsPath)
  {
    if c.closed then Stepped(c, [])
    else
      var s := CancelSource(c);
      Stepped(s.client.(status := Connecting, hasSource := true),
              s.out + [StatusChanged(Connecting), Requested(StreamUrl(c))])
  }

  /** `scheduleReconnect`: unless closed, one more reconnect is pending,
      due after the current delay; nothing else changes. */
  function ScheduleReconnect(c: Client): (r: Stepped)
    ensures c.closed ==> r == Stepped(c, [])
    ensures !c.closed ==> r.client.pendingReconnects == c.pendingReconnects + 1
    ensures r.client.(pendingReconnects := c.pendingReconnects) == c
    ensures !c.closed ==> r.out == [ReconnectScheduled(c.retryDelay)]
  {
    if c.closed then Stepped(c, [])
    else Stepped(c.(pendingReconnects := c.pendingReconnects + 1), [ReconnectScheduled(c.retryDelay)])
  }

  function Step(c: Client, input: Input, codec: Codec): (r: Stepped)
    ensures r.client.baseUrl == c.baseUrl
    ensures c.closed || input.Close? ==> r.client.closed
    ensures input.Close? ==> !r.client.hasSource && r.client.pendingReconnects == 0
    ensures input.Message? ==> r.client == c && |r.out| <= 1
    ensures Requested(c.baseUrl + EventsPath) in r.out ==> !c.closed && (input.Connect? || input.ReconnectFired?)
  {
    match input
    case Connect => ConnectStep(c)
    case Opened =>
      Stepped(c.(status := Connected, retryDelay := MinRetryDelayMs), [StatusChanged(Connected)])
    case ServerClosed =>
      var s := ScheduleReconnect(c.(status := Disconnected));
      Stepped(s.client, [StatusChanged(Disconnected)] + s.out)
    case Failed =>
      if c.closed then Stepped(c, [])
      else
        var s := ScheduleReconnect(c.(status := Error));
        Stepped(s.client, [StatusChanged(Error)] + s.out)
    case Message(t, d) =>
      (match HandleEvent(t, d, codec)
       case Some(e) => Stepped(c, [FlagChanged(e)])
       case None => Stepped(c, []))
    case ReconnectFired =>
      if c.pendingReconnects == 0 then Stepped(c, [])
      else
        var c1 := c.(pendingReconnects := c.pendingReconnects - 1);
        if c1.closed then Stepped(c1, [])
        else
          var s := ConnectStep(c1);
          Stepped(s.client.(retryDelay := Backoff.Next(s.client.retryDelay, MaxRetryDelayMs)), s.out)
    case Close =>
      var s := CancelSource(c.(closed := true, status := Disconnected, pendingReconnects := 0));
      Stepped(s.client, [StatusChanged(Disconnected)] + s.out)
  }

  function Run(c: Client, inputs: seq<Input>, codec: Codec): Stepped
    decreases |inputs|
  {
    if |inputs| == 0 then Stepped(c, [])
    else
      var s := Step(c, inputs[0], codec);
      var rest := Run(s.client, inputs[1..], codec);
      Stepped(rest.client, s.out + rest.out)
  }

  // ---------------------------------------------------------------------
  // Properties of one step
  // ---------------------------------------------------------------------

  /** Every step keeps the invariant, never reopens a closed client and never
      changes the base URL. */
  lemma StepPreservesValid(c: Client, input: Input, codec: Codec)
    requires Valid(c)
    ensures Valid(Step(c, input, codec).client)
    ensures c.closed ==> Step(c, input, codec).client.closed
    ensures Step(c, input, codec).client.baseUrl == c.baseUrl
  {
  }

  /** Nothing that starts a connection: no CONNECTING, no request, no
      scheduled reconnect, no cancelled source. */
  predicate Quiet(out: seq<Output>) {
    forall i :: 0 <= i < |out| ==>
      out[i] != StatusChanged(Connecting) && !out[i].Requested?
      && !out[i].ReconnectScheduled? && !out[i].SourceCancelled?
  }

  /** Once closed, no input makes the client connect or schedule again. */
  lemma ClosedStepIsQuiet(c: Client, input: Input, codec: Codec)
    requires Valid(c) && c.closed
    ensures Quiet(Step(c, input, codec).out)
  {
  }

  /** `close` sets DISCONNECTED and can be repeated: a second close changes
      nothing but repeats the DISCONNECTED callback. */
  lemma CloseIsIdempotent(c: Client, codec: Codec)
    requires Valid(c)
    ensures Step(c, Close, codec).client.closed
    ensures Step(c, Close, codec).client.status == Disconnected
    ensures Step(c, Close, codec).out[0] == StatusChanged(Disconnected)
    ensures Step(Step(c, Close, codec).client, Close, codec)
      == Stepped(Step(c, Close, codec).client, [StatusChanged(Disconnected)])
  {
  }

  /** `connect` on an open client first cancels the previous source, then
      reports CONNECTING and requests the stream URL. */
  lemma ConnectCancelsPrior(c: Client, codec: Codec)
    requires !c.closed && c.hasSource
    ensures Step(c, Connect, codec).out
      == [SourceCancelled, StatusChanged(Connecting), Requested(c.baseUrl + EventsPath)]
    ensures Step(c, Connect, codec).client.hasSource
  {
  }

  /** A transport failure on an open client reports ERROR and schedules a
      reconnect after the current delay; a server close reports
      DISCONNECTED and does the same. */
  lemma FailureSchedulesReconnect(c: Client, codec: Codec)
    requires !c.closed
    ensures Step(c, Failed, codec).out == [StatusChanged(Error), ReconnectScheduled(c.retryDelay)]
    ensures Step(c, ServerClosed, codec).out == [StatusChanged(Disconnected), ReconnectScheduled(c.retryDelay)]
    ensures Step(c, Failed, codec).client.pendingReconnects == c.pendingReconnects + 1
  {
  }

  /** An incoming event never changes the connection: a malformed payload is
      dropped without a callback. */
  lemma MessageKeepsConnection(c: Client, eventType: Option<string>, data: string, codec: Codec)
    ensures Step(c, Message(eventType, data), codec).client == c
    ensures |Step(c, Message(eventType, data), codec).out| <= 1
    ensures IsSingleFlagType(eventType) && codec.flagEvent(data).Thrown? ==>
      Step(c, Message(eventType, data), codec).out == []
  {
  }

  // ---------------------------------------------------------------------
  // Properties of runs
  // ---------------------------------------------------------------------

  lemma {:induction false} RunAppend(c: Client, a: seq<Input>, b: seq<Input>, codec: Codec)
    ensures Run(c, a + b, codec).client == Run(Run(c, a, codec).client, b, codec).client
    ensures Run(c, a + b, codec).out == Run(c, a, codec).out + Run(Run(c, a, codec).client, b, codec).out
    decreases |a|
  {
    if |a| == 0 {
      assert a + b == b;
    } else {
      var s := Step(c, a[0], codec);
      assert (a + b)[0] == a[0];
      assert (a + b)[1..] == a[1..] + b;
      RunAppend(s.client, a[1..], b, codec);
      var mid := Run(s.client, a[1..], codec);
      var tail := Run(mid.client, b, codec);
      calc {
        Run(c, a + b, codec);
        Stepped(Run(s.client, a[1..] + b, codec).client, s.out + Run(s.client, a[1..] + b, codec).out);
        Stepped(tail.client, s.out + (mid.out + tail.out));
        { assert s.out + (mid.out + tail.out) == (s.out + mid.out) + tail.out; }
        Stepped(tail.client, (s.out + mid.out) + tail.out);
      }
    }
  }

  /** Any run keeps the invariant. */
  lemma {:induction false} RunPreservesValid(c: Client, inputs: seq<Input>, codec: Codec)
    requires Valid(c)
    ensures Valid(Run(c, inputs, codec).client)
    ensures c.closed ==> Run(c, inputs, codec).client.closed
    decreases |inputs|
  {
    if |inputs| > 0 {
      StepPreservesValid(c, inputs[0], codec);
      RunPreservesValid(Step(c, inputs[0], codec).client, inputs[1..], codec);
    }
  }

  /** After `close`, whatever happens, the client never again reports
      CONNECTING, sends a request or schedules a reconnect. */
  lemma {:induction false} ClosedRunIsQuiet(c: Client, inputs: seq<Input>, codec: Codec)
    requires Valid(c) && c.closed
    ensures Quiet(Run(c, inputs, codec).out)
    decreases |inputs|
  {
    if |inputs| > 0 {
      var s := Step(c, inputs[0], codec);
      ClosedStepIsQuiet(c, inputs[0], codec);
      StepPreservesValid(c, inputs[0], codec);
      ClosedRunIsQuiet(s.client, inputs[1..], codec);
      var rest := Run(s.client, inputs[1..], codec);
      assert Run(c, inputs, codec).out == s.out + rest.out;
      forall i | 0 <= i < |s.out + rest.out|
        ensures (s.out + rest.out)[i] != StatusChanged(Connecting)
      {
        if i >= |s.out| {
          assert (s.out + rest.out)[i] == rest.out[i - |s.out|];
        }
      }
    }
  }

  /** A fresh client that connects and is accepted reports CONNECTING then
      CONNECTED, and sits at the minimum delay. */
  lemma ConnectThenOpen(baseUrl: string, codec: Codec)
    ensures Run(Create(baseUrl), [Connect, Opened], codec).out
      == [StatusChanged(Connecting), Requested(Create(baseUrl).baseUrl + EventsPath), StatusChanged(Connected)]
    ensures Run(Create(baseUrl), [Connect, Opened], codec).client.status == Connected
    ensures Run(Create(baseUrl), [Connect, Opened], codec).client.retryDelay == MinRetryDelayMs
  {
    var c := Create(baseUrl);
    var s1 := Step(c, Connect, codec);
    var s2 := Step(s1.client, Opened, codec);
    assert Run(s1.client, [Opened], codec) == Stepped(s2.client, s2.out + []);
    assert [Connect, Opened][1..] == [Opened];
  }

  /** `k` failure-and-retry rounds with no successful open in between. */
  function FailRounds(k: nat): (r: seq<Input>)
    ensures |r| == 2 * k
  {
    if k == 0 then [] else [Failed, ReconnectFired] + FailRounds(k - 1)
  }

  /** One round: the reconnect is scheduled with the current delay, and the
      firing reconnects and doubles it up to the cap. */
  lemma OneFailRound(c: Client, codec: Codec)
    requires Valid(c) && !c.closed
    ensures Run(c, [Failed, ReconnectFired], codec).client.retryDelay
      == Backoff.Next(c.retryDelay, MaxRetryDelayMs)
    ensures Run(c, [Failed, ReconnectFired], codec).client.pendingReconnects == c.pendingReconnects
    ensures Run(c, [Failed, ReconnectFired], codec).client.status == Connecting
    ensures Run(c, [Failed, ReconnectFired], codec).client.hasSource
    ensures !Run(c, [Failed, ReconnectFired], codec).client.closed
    ensures Run(c, [Failed, ReconnectFired], codec).out[1] == ReconnectScheduled(c.retryDelay)
  {
    var s1 := Step(c, Failed, codec);
    var s2 := Step(s1.client, ReconnectFired, codec);
    assert [Failed, ReconnectFired][1..] == [ReconnectFired];
    assert Run(s1.client, [ReconnectFired], codec) == Stepped(s2.client, s2.out + []);
  }

  /** After `k` rounds of failure and retry from delay `d`, the delay is the
      `k`-fold capped doubling of `d`; from the minimum delay this is
      `min(1000 * 2^k, 30000)`. */
  lemma {:induction false} RoundsDoubleDelay(c: Client, k: nat, codec: Codec)
    requires Valid(c) && !c.closed
    ensures Run(c, FailRounds(k), codec).client.retryDelay
      == Backoff.After(c.retryDelay, MaxRetryDelayMs, k)
    ensures Valid(Run(c, FailRounds(k), codec).client)
    ensures !Run(c, FailRounds(k), codec).client.closed
    ensures c.retryDelay == MinRetryDelayMs ==>
      Run(c, FailRounds(k), codec).client.retryDelay
        == Backoff.Min(MinRetryDelayMs * Backoff.Pow2(k), MaxRetryDelayMs)
    decreases k
  {
    if k > 0 {
      var round: seq<Input> := [Failed, ReconnectFired];
      assert FailRounds(k) == round + FailRounds(k - 1);
      RunAppend(c, round, FailRounds(k - 1), codec);
      OneFailRound(c, codec);
      RunPreservesValid(c, round, codec);
      var c1 := Run(c, round, codec).client;
      RoundsDoubleDelay(c1, k - 1, codec);
      Backoff.AfterShift(c.retryDelay, MaxRetryDelayMs, k - 1);
    }
    if c.retryDelay == MinRetryDelayMs {
      Backoff.AfterClosedForm(MinRetryDelayMs, MaxRetryDelayMs, k);
    }
  }
}
