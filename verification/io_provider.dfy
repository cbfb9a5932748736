/** The `io.flipswitch` provider: readiness state, the stream-retry counter
    and the polling fallback it drives, start-up, shutdown, listener
    fan-out, bulk-evaluation filtering and the telemetry OS header.

    Flag evaluation itself is delegated to an OFREP provider and is not
    modelled; what the provider announces to OpenFeature is recorded as a
    sequence of `Emitted` values.
 */
module IoProvider {
  import opened Wrappers
  import Text
  import Json
  import HttpStatus
  import Sse = IoSseClient
  import Listeners

  const DefaultBaseUrl: string := "https://api.flipswitch.io"
  const DefaultPollingIntervalMs: int := 30000
  const DefaultMaxSseRetries: int := 5

  datatype ProviderState = NotReady | Ready | Stale | Error

  /** What the builder collects. */
  datatype Config = Config(
    apiKey: string,
    baseUrl: string,
    enableRealtime: bool,
    enablePollingFallback: bool,
    pollingIntervalMs: int,
    maxSseRetries: int)

  /** `builder(apiKey)`: a missing or empty key is refused; everything else
      starts at its default. */
  function NewBuilder(apiKey: Option<string>): (r: Result<Config>)
    ensures r.Ok? <==> apiKey.Some? && |apiKey.value| > 0
    ensures r.Thrown? ==> r.message == "apiKey is required"
    ensures r.Ok? ==> r.value.apiKey == apiKey.value && r.value.baseUrl == DefaultBaseUrl
    ensures r.Ok? ==> r.value.enableRealtime && r.value.enablePollingFallback
    ensures r.Ok? ==> r.value.pollingIntervalMs == 30000 && r.value.maxSseRetries == 5
  {
    if apiKey.None? || |apiKey.value| == 0 then Thrown("apiKey is required")
    else Ok(Config(apiKey.value, DefaultBaseUrl, true, true, DefaultPollingIntervalMs, DefaultMaxSseRetries))
  }

  type ListenerId = Listeners.ListenerId

  /** `pollingSchedulerShut` records that the polling executor has been shut
      down (it is never restarted); `sse` is the current stream client. */
  datatype Provider = Provider(
    config: Config,
    baseUrl: string,
    state: ProviderState,
    sseRetryCount: nat,
    pollingActive: bool,
    pollingSchedulerShut: bool,
    sse: Option<Sse.Client>,
    listeners: seq<ListenerId>)

  datatype Emitted =
    | ProviderStale
    | ProviderReady
    | ConfigurationChanged
    | ListenerCalled(listener: ListenerId, event: Sse.FlagChangeEvent)

  datatype Reaction = Reaction(provider: Provider, emitted: seq<Emitted>)

  function Create(config: Config): (p: Provider)
    ensures p.state == NotReady && !p.pollingActive && p.sse.None? && p.listeners == []
    ensures Text.HasNoTrailingSlash(config.baseUrl) ==> p.baseUrl == config.baseUrl
  {
    Provider(config, Text.StripTrailingSlash(config.baseUrl), NotReady, 0, false, false, None, [])
  }

  // ---------------------------------------------------------------------
  // Polling fallback
  // ---------------------------------------------------------------------

  /** The outcome of `startPollingFallback`: `ok` is false when scheduling
      the poll threw after `pollingActive` had already been set (a shut-down
      executor rejects it, a non-positive period is illegal). */
  datatype Attempt = Attempt(provider: Provider, ok: bool)

  function StartPollingFallback(p: Provider): (a: Attempt)
    ensures a.provider.pollingActive == (p.pollingActive || p.config.enablePollingFallback)
    ensures a.provider == p.(pollingActive := a.provider.pollingActive)
    ensures !a.ok <==> !p.pollingActive && p.config.enablePollingFallback
                       && (p.pollingSchedulerShut || p.config.pollingIntervalMs <= 0)
  {
    if p.pollingActive || !p.config.enablePollingFallback then Attempt(p, true)
    else
      var q := p.(pollingActive := true);
      Attempt(q, !p.pollingSchedulerShut && p.config.pollingIntervalMs > 0)
  }

  function StopPolling(p: Provider): (q: Provider)
    ensures !q.pollingActive
    ensures q == p.(pollingActive := false)
    ensures !p.pollingActive ==> q == p
  {
    if !p.pollingActive then p else p.(pollingActive := false)
  }

  /** Both controls are idempotent. */
  lemma PollingControlsIdempotent(p: Provider)
    ensures StartPollingFallback(StartPollingFallback(p).provider).provider
      == StartPollingFallback(p).provider
    ensures StopPolling(StopPolling(p)) == StopPolling(p)
  {
  }

  /** One tick of the polling timer asks OpenFeature to re-evaluate; a
      cancelled timer does nothing. */
  function PollTick(p: Provider): (r: seq<Emitted>)
    ensures p.pollingActive ==> r == [ConfigurationChanged]
    ensures !p.pollingActive ==> r == []
  {
    if p.pollingActive then [ConfigurationChanged] else []
  }

  // ---------------------------------------------------------------------
  // Reaction to the stream client's status
  // ---------------------------------------------------------------------

  /** The status callback. A failure to schedule polling throws out of the
      callback before the state is set to STALE; the client swallows it. */
  function OnStatus(p: Provider, status: Sse.ConnectionStatus): (r: Reaction)
    ensures r.provider.config == p.config && r.provider.sse == p.sse
    ensures r.provider.listeners == p.listeners && r.provider.baseUrl == p.baseUrl
    ensures r.provider.pollingSchedulerShut == p.pollingSchedulerShut
    ensures status == Sse.Error ==> r.provider.sseRetryCount == p.sseRetryCount + 1
    ensures status == Sse.Error ==>
      (r.provider.pollingActive <==>
         (p.pollingActive || (p.config.enablePollingFallback && p.sseRetryCount + 1 >= p.config.maxSseRetries)))
    ensures status == Sse.Connected ==> r.provider.sseRetryCount == 0 && !r.provider.pollingActive
    ensures status == Sse.Connected ==>
      r.provider.state == (if p.state == Stale then Ready else p.state)
    ensures status == Sse.Connected ==> (r.emitted == [ProviderReady] <==> p.state == Stale)
    ensures status == Sse.Connected && p.state != Stale ==> r.emitted == []
    ensures status == Sse.Connecting || status == Sse.Disconnected ==> r == Reaction(p, [])
  {
    match status
    case Error =>
      var p1 := p.(sseRetryCount := p.sseRetryCount + 1);
      if p1.sseRetryCount >= p.config.maxSseRetries && p.config.enablePollingFallback then
        var a := StartPollingFallback(p1);
        if !a.ok then Reaction(a.provider, [])
        else Reaction(a.provider.(state := Stale), [ProviderStale])
      else
        Reaction(p1.(state := Stale), [ProviderStale])
    case Connected =>
      var p1 := StopPolling(p.(sseRetryCount := 0));
      if p1.state == Stale then Reaction(p1.(state := Ready), [ProviderReady])
      else Reaction(p1, [])
    case _ => Reaction(p, [])
  }

  /** A stream error makes the provider STALE from any state, unless the
      polling scheduler throws while starting the fallback. */
  lemma ErrorMakesStale(p: Provider)
    requires !p.pollingSchedulerShut && p.config.pollingIntervalMs > 0
    ensures OnStatus(p, Sse.Error).provider.state == Stale
    ensures OnStatus(p, Sse.Error).emitted == [ProviderStale]
  {
  }

  /** After shutdown the polling executor is gone: an error that should start
      polling marks it active but leaves the state alone and announces
      nothing. */
  lemma ErrorAfterSchedulerShutSkipsStale(p: Provider)
    requires p.pollingSchedulerShut && !p.pollingActive && p.config.enablePollingFallback
    requires p.sseRetryCount + 1 >= p.config.maxSseRetries
    ensures OnStatus(p, Sse.Error).provider.state == p.state
    ensures OnStatus(p, Sse.Error).provider.pollingActive
    ensures OnStatus(p, Sse.Error).emitted == []
  {
  }

  // ---------------------------------------------------------------------
  // Flag events
  // ---------------------------------------------------------------------

  /** Every listener, in registration order; a listener that throws does not
      stop the others. */
  function NotifyAll(listeners: seq<ListenerId>, e: Sse.FlagChangeEvent): (r: seq<Emitted>)
    ensures |r| == |listeners|
    ensures forall i :: 0 <= i < |listeners| ==> r[i] == ListenerCalled(listeners[i], e)
  {
    if |listeners| == 0 then []
    else [ListenerCalled(listeners[0], e)] + NotifyAll(listeners[1..], e)
  }

  /** `handleFlagChange`: each listener once, then exactly one
      configuration-changed announcement. */
  function HandleFlagChange(p: Provider, e: Sse.FlagChangeEvent): (r: seq<Emitted>)
    ensures |r| == |p.listeners| + 1
    ensures forall i :: 0 <= i < |p.listeners| ==> r[i] == ListenerCalled(p.listeners[i], e)
    ensures r[|p.listeners|] == ConfigurationChanged
  {
    NotifyAll(p.listeners, e) + [ConfigurationChanged]
  }

  /** CopyOnWriteArrayList.add: appends, duplicates allowed. */
  function AddListener(p: Provider, l: ListenerId): (q: Provider)
    ensures q.listeners == p.listeners + [l]
    ensures q == p.(listeners := q.listeners)
  {
    p.(listeners := p.listeners + [l])
  }

  function RemoveListener(p: Provider, l: ListenerId): (q: Provider)
    ensures q.listeners == Listeners.RemoveFirst(p.listeners, l)
    ensures q == p.(listeners := q.listeners)
  {
    p.(listeners := Listeners.RemoveFirst(p.listeners, l))
  }

  // ---------------------------------------------------------------------
  // Composition with the stream client
  // ---------------------------------------------------------------------

  /** Feeds what the client reported to the provider's two callbacks. */
  function Deliver(p: Provider, outs: seq<Sse.Output>): (r: Reaction)
    ensures r.provider.config == p.config && r.provider.sse == p.sse
    ensures r.provider.listeners == p.listeners && r.provider.baseUrl == p.baseUrl
    ensures r.provider.pollingSchedulerShut == p.pollingSchedulerShut
    decreases |outs|
  {
    if |outs| == 0 then Reaction(p, [])
    else
      var first :=
        match outs[0]
        case StatusChanged(s) => OnStatus(p, s)
        case FlagChanged(e) => Reaction(p, HandleFlagChange(p, e))
        case _ => Reaction(p, []);
      var rest := Deliver(first.provider, outs[1..]);
      Reaction(rest.provider, first.emitted + rest.emitted)
  }

  /** Reports the provider does not react to: CONNECTING, DISCONNECTED, a
      cancelled source, a request, a scheduled reconnect. */
  predicate Inert(o: Sse.Output) {
    match o
    case StatusChanged(s) => s == Sse.Connecting || s == Sse.Disconnected
    case FlagChanged(_) => false
    case _ => true
  }

  lemma {:induction false} DeliverInert(p: Provider, outs: seq<Sse.Output>)
    requires forall i :: 0 <= i < |outs| ==> Inert(outs[i])
    ensures Deliver(p, outs) == Reaction(p, [])
    decreases |outs|
  {
    if |outs| > 0 {
      assert Inert(outs[0]);
      DeliverInert(p, outs[1..]);
    }
  }

  /** One event at the stream client, followed by the callbacks it makes. */
  function OnSse(p: Provider, input: Sse.Input, codec: Sse.Codec): (r: Reaction)
    ensures p.sse.None? ==> r == Reaction(p, [])
    ensures p.sse.Some? ==> r.provider.sse == Some(Sse.Step(p.sse.value, input, codec).client)
    ensures r.provider.config == p.config && r.provider.listeners == p.listeners
    ensures r.provider.pollingSchedulerShut == p.pollingSchedulerShut
  {
    if p.sse.None? then Reaction(p, [])
    else
      var s := Sse.Step(p.sse.value, input, codec);
      Deliver(p.(sse := Some(s.client)), s.out)
  }

  function OnSseRun(p: Provider, inputs: seq<Sse.Input>, codec: Sse.Codec): Reaction
    decreases |inputs|
  {
    if |inputs| == 0 then Reaction(p, [])
    else
      var first := OnSse(p, inputs[0], codec);
      var rest := OnSseRun(first.provider, inputs[1..], codec);
      Reaction(rest.provider, first.emitted + rest.emitted)
  }

  /** `startSseConnection`: a new client on the provider's base URL, told to
      connect (its CONNECTING report changes nothing in the provider). */
  function StartSseConnection(p: Provider): (q: Provider)
    ensures q.sse.Some? && q.sse.value.status == Sse.Connecting && !q.sse.value.closed
    ensures Sse.Valid(q.sse.value) && q.sse.value.pendingReconnects == 0
    ensures q.sse.value.retryDelay == Sse.MinRetryDelayMs
    ensures q == p.(sse := q.sse)
  {
    var c := Sse.Create(p.baseUrl);
    var s := Sse.ConnectStep(c);
    var p1 := p.(sse := Some(s.client));
    DeliverInert(p1, s.out);
    Deliver(p1, s.out).provider
  }

  // ---------------------------------------------------------------------
  // Life cycle
  // ---------------------------------------------------------------------

  datatype InitOutcome = InitOutcome(provider: Provider, result: Result<()>)

  /** `initialize`: `probe` is the status of the key-check request or the
      I/O error it raised; `ofrepFailure` is the message of an exception
      from the delegate's own start-up, if it threw. */
  function Initialize(p: Provider, probe: Result<int>, ofrepFailure: Option<string>): (r: InitOutcome)
    ensures r.result.Ok? <==>
      probe.Ok? && HttpStatus.ClassifyInit(probe.value).Pass? && ofrepFailure.None?
    ensures r.result.Ok? ==> r.provider.state == Ready
    ensures r.result.Ok? ==> (r.provider.sse.Some? <==> p.config.enableRealtime || p.sse.Some?)
    ensures r.result.Ok? && p.config.enableRealtime ==> r.provider.sse.value.status == Sse.Connecting
    ensures probe.Ok? && HttpStatus.ClassifyInit(probe.value).Reject? ==>
      r.provider.state == Error && r.result == Thrown(HttpStatus.ClassifyInit(probe.value).message)
    ensures r.result.Thrown? && r.provider.state != Error ==> r.provider.state == NotReady
    ensures r.provider.listeners == p.listeners && r.provider.config == p.config
  {
    var p1 := p.(state := NotReady);
    match probe
    case Thrown(m) => InitOutcome(p1, Thrown(m))
    case Ok(code) =>
      match HttpStatus.ClassifyInit(code)
      case Reject(m) => InitOutcome(p1.(state := Error), Thrown(m))
      case Pass =>
        if ofrepFailure.Some? then InitOutcome(p1, Thrown(ofrepFailure.value))
        else
          var p2 := if p.config.enableRealtime then StartSseConnection(p1) else p1;
          InitOutcome(p2.(state := Ready), Ok(()))
  }

  /** Closes the current client (its DISCONNECTED report changes nothing in
      the provider) and forgets it. */
  function CloseSse(p: Provider): (q: Provider)
    ensures q == p.(sse := None)
  {
    if p.sse.None? then p
    else
      var s := Sse.Step(p.sse.value, Sse.Close, Sse.Codec(_ => Ok(None), _ => Ok(None)));
      var p1 := p.(sse := Some(s.client));
      DeliverInert(p1, s.out);
      Deliver(p1, s.out).provider.(sse := None)
  }

  /** `shutdown`: polling off for good, the client closed and dropped, state
      NOT_READY. */
  function Shutdown(p: Provider): (q: Provider)
    ensures q.state == NotReady && !q.pollingActive && q.pollingSchedulerShut && q.sse.None?
    ensures q.listeners == p.listeners && q.config == p.config
  {
    CloseSse(StopPolling(p).(pollingSchedulerShut := true)).(state := NotReady)
  }

  /** `getSseStatus`. */
  function GetSseStatus(p: Provider): (s: Sse.ConnectionStatus)
    ensures p.sse.None? ==> s == Sse.Disconnected
    ensures p.sse.Some? ==> s == p.sse.value.status
  {
    if p.sse.Some? then p.sse.value.status else Sse.Disconnected
  }

  /** Shutdown is safe to repeat and leaves the stream status at
      DISCONNECTED. */
  lemma ShutdownTwice(p: Provider)
    ensures Shutdown(Shutdown(p)) == Shutdown(p)
    ensures GetSseStatus(Shutdown(p)) == Sse.Disconnected
  {
  }

  /** `reconnectSse`: a fresh client replaces the current one, but only when
      realtime is on and a client exists. */
  function ReconnectSse(p: Provider): (q: Provider)
    ensures !p.config.enableRealtime || p.sse.None? ==> q == p
    ensures p.config.enableRealtime && p.sse.Some? ==>
      q.sse.Some? && q.sse.value.status == Sse.Connecting
      && q.sse.value.retryDelay == Sse.MinRetryDelayMs && q == p.(sse := q.sse)
  {
    if p.config.enableRealtime && p.sse.Some? then StartSseConnection(CloseSse(p)) else p
  }

  // ---------------------------------------------------------------------
  // Scenario: failures switch to polling, a reconnection switches back
  // ---------------------------------------------------------------------

  /** The state of a running provider whose polling can still be scheduled. */
  predicate Live(p: Provider) {
    && p.sse.Some? && Sse.Valid(p.sse.value) && !p.sse.value.closed
    && !p.pollingSchedulerShut && p.config.pollingIntervalMs > 0
  }

  lemma OneFailRound(p: Provider, codec: Sse.Codec)
    requires Live(p)
    ensures Live(OnSseRun(p, [Sse.Failed, Sse.ReconnectFired], codec).provider)
    ensures OnSseRun(p, [Sse.Failed, Sse.ReconnectFired], codec).provider
      == OnStatus(p, Sse.Error).provider.(sse := OnSseRun(p, [Sse.Failed, Sse.ReconnectFired], codec).provider.sse)
  {
    var c := p.sse.value;
    var s1 := Sse.Step(c, Sse.Failed, codec);
    assert s1.out == [Sse.StatusChanged(Sse.Error), Sse.ReconnectScheduled(c.retryDelay)];
    var r1 := OnSse(p, Sse.Failed, codec);
    var q := OnStatus(p.(sse := Some(s1.client)), Sse.Error).provider;
    assert Deliver(q, s1.out[1..]) == Reaction(q, []);
    assert r1.provider == q;
    var s2 := Sse.Step(s1.client, Sse.ReconnectFired, codec);
    var p2 := q.(sse := Some(s2.client));
    DeliverInert(p2, s2.out);
    assert OnSse(q, Sse.ReconnectFired, codec).provider == p2;
    assert [Sse.Failed, Sse.ReconnectFired][1..] == [Sse.ReconnectFired];
    assert OnSseRun(p, [Sse.Failed, Sse.ReconnectFired], codec).provider == p2;
  }

  lemma {:induction false} OnSseRunAppend(p: Provider, a: seq<Sse.Input>, b: seq<Sse.Input>, codec: Sse.Codec)
    ensures OnSseRun(p, a + b, codec).provider
      == OnSseRun(OnSseRun(p, a, codec).provider, b, codec).provider
    decreases |a|
  {
    if |a| == 0 {
      assert a + b == b;
    } else {
      assert (a + b)[0] == a[0];
      assert (a + b)[1..] == a[1..] + b;
      OnSseRunAppend(OnSse(p, a[0], codec).provider, a[1..], b, codec);
    }
  }

  /** `k` stream failures in a row, each followed by its reconnect: the
      counter grows by `k`, polling is on exactly when it already was or the
      counter has reached the threshold with fallback enabled, and the
      provider is STALE. */
  lemma {:induction false} FailuresSwitchToPolling(p: Provider, k: nat, codec: Sse.Codec)
    requires Live(p)
    ensures Live(OnSseRun(p, Sse.FailRounds(k), codec).provider)
    ensures OnSseRun(p, Sse.FailRounds(k), codec).provider.sseRetryCount == p.sseRetryCount + k
    ensures OnSseRun(p, Sse.FailRounds(k), codec).provider.pollingActive <==>
      (p.pollingActive
       || (k > 0 && p.config.enablePollingFallback && p.sseRetryCount + k >= p.config.maxSseRetries))
    ensures k > 0 ==> OnSseRun(p, Sse.FailRounds(k), codec).provider.state == Stale
    ensures OnSseRun(p, Sse.FailRounds(k), codec).provider.config == p.config
    decreases k
  {
    if k == 0 {
      assert Sse.FailRounds(0) == [];
    } else {
      var round: seq<Sse.Input> := [Sse.Failed, Sse.ReconnectFired];
      assert Sse.FailRounds(k) == round + Sse.FailRounds(k - 1);
      OnSseRunAppend(p, round, Sse.FailRounds(k - 1), codec);
      OneFailRound(p, codec);
      var p1 := OnSseRun(p, round, codec).provider;
      FailuresSwitchToPolling(p1, k - 1, codec);
    }
  }

  /** A successful reconnection after failures: READY again, counter reset,
      polling stopped. */
  lemma ReconnectRestoresReady(p: Provider, codec: Sse.Codec)
    requires Live(p) && p.state == Stale
    ensures OnSse(p, Sse.Opened, codec).provider.state == Ready
    ensures OnSse(p, Sse.Opened, codec).provider.sseRetryCount == 0
    ensures !OnSse(p, Sse.Opened, codec).provider.pollingActive
    ensures OnSse(p, Sse.Opened, codec).emitted == [ProviderReady]
  {
    var s := Sse.Step(p.sse.value, Sse.Opened, codec);
    var q := p.(sse := Some(s.client));
    assert s.out == [Sse.StatusChanged(Sse.Connected)];
    assert Deliver(OnStatus(q, Sse.Connected).provider, s.out[1..])
      == Reaction(OnStatus(q, Sse.Connected).provider, []);
  }

  /** The whole story from a healthy provider with the default settings
      shape: `n` failures switch polling on exactly when `n` reaches the
      retry limit, and the next successful open switches it off again. */
  lemma FallbackScenario(p: Provider, n: nat, codec: Sse.Codec)
    requires Live(p) && p.state == Ready && p.sseRetryCount == 0 && !p.pollingActive
    requires p.config.enablePollingFallback && n > 0
    ensures var q := OnSseRun(p, Sse.FailRounds(n), codec).provider;
      && q.state == Stale
      && (q.pollingActive <==> n >= p.config.maxSseRetries)
      && OnSse(q, Sse.Opened, codec).provider.state == Ready
      && !OnSse(q, Sse.Opened, codec).provider.pollingActive
  {
    FailuresSwitchToPolling(p, n, codec);
    ReconnectRestoresReady(OnSseRun(p, Sse.FailRounds(n), codec).provider, codec);
  }

  // ---------------------------------------------------------------------
  // Bulk and single evaluation over HTTP
  // ---------------------------------------------------------------------

  /** A reply to an evaluation request: the status code and the body as the
      JSON adapter decoded it (`Ok(None)` for a literal `null`, `Thrown` for
      text it cannot read). */
  datatype Reply = Reply(code: int, body: Result<Option<Json.Json>>)

  /** One entry of the bulk result. */
  datatype FlagEvaluation = FlagEvaluation(
    key: string,
    value: Option<Json.Json>,
    reason: Option<string>,
    variant: Option<string>,
    flagType: Option<string>)

  /** `metadata.flagType`, when metadata is an object and the type a string. */
  function MetadataFlagType(entry: Json.Json): (r: Option<string>)
    ensures r.Some? ==> Json.Has(entry, "metadata")
  {
    match Json.Get(entry, "metadata")
    case Some(m) => Json.StringField(m, "flagType")
    case None => None
  }

  /** A JSON `null` value reads back as Java `null`, like a missing one. */
  function ValueField(entry: Json.Json): (r: Option<Json.Json>)
    ensures r.Some? <==> Json.Has(entry, "value") && !entry.fields["value"].JNull?
  {
    var v := Json.Get(entry, "value");
    if v == Some(Json.JNull) then None else v
  }

  /** An entry is kept when it is an object whose "key" is a string. */
  predicate IsKeyedEntry(entry: Json.Json) {
    Json.StringField(entry, "key").Some?
  }

  /** The record built from one reply object, under `key`: the string
      fields are kept only when they hold strings. */
  function Convert(entry: Json.Json, key: string): (r: FlagEvaluation)
    ensures r.key == key && r.value == ValueField(entry)
    ensures r.reason == Json.StringField(entry, "reason") && r.variant == Json.StringField(entry, "variant")
  {
    FlagEvaluation(key, ValueField(entry), Json.StringField(entry, "reason"),
                   Json.StringField(entry, "variant"), MetadataFlagType(entry))
  }

  function ToEvaluation(entry: Json.Json): (r: FlagEvaluation)
    requires IsKeyedEntry(entry)
    ensures Json.Get(entry, "key") == Some(Json.JString(r.key))
  {
    Convert(entry, Json.StringField(entry, "key").value)
  }

  /** What one entry contributes to the result. */
  function Kept(entry: Json.Json): (r: seq<FlagEvaluation>)
    ensures |r| <= 1
  {
    if IsKeyedEntry(entry) then [ToEvaluation(entry)] else []
  }

  function Collect(flags: seq<Json.Json>): (r: seq<FlagEvaluation>)
    ensures |r| <= |flags|
  {
    if |flags| == 0 then [] else Kept(flags[0]) + Collect(flags[1..])
  }

  /** Collecting a concatenation collects each part in order. */
  lemma {:induction false} CollectAppend(a: seq<Json.Json>, b: seq<Json.Json>)
    ensures Collect(a + b) == Collect(a) + Collect(b)
    decreases |a|
  {
    if |a| == 0 {
      assert a + b == b;
    } else {
      assert (a + b)[0] == a[0];
      assert (a + b)[1..] == a[1..] + b;
      CollectAppend(a[1..], b);
      calc {
        Collect(a + b);
        Kept(a[0]) + Collect(a[1..] + b);
        Kept(a[0]) + (Collect(a[1..]) + Collect(b));
        (Kept(a[0]) + Collect(a[1..])) + Collect(b);
      }
    }
  }

  /** Exactly the keyed entries survive, each converted. */
  lemma CollectSingle(entry: Json.Json)
    ensures IsKeyedEntry(entry) ==> Collect([entry]) == [ToEvaluation(entry)]
    ensures !IsKeyedEntry(entry) ==> Collect([entry]) == []
  {
    assert [entry][1..] == [];
  }

  /** Every keyed entry's conversion appears in the result, and nothing
      else does. */
  lemma {:induction false} CollectMembers(flags: seq<Json.Json>, e: FlagEvaluation)
    ensures e in Collect(flags) <==>
      exists j :: 0 <= j < |flags| && IsKeyedEntry(flags[j]) && ToEvaluation(flags[j]) == e
    decreases |flags|
  {
    if |flags| > 0 {
      CollectMembers(flags[1..], e);
      if e in Collect(flags[1..]) {
        var j :| 0 <= j < |flags[1..]| && IsKeyedEntry(flags[1..][j]) && ToEvaluation(flags[1..][j]) == e;
        assert flags[j + 1] == flags[1..][j];
      }
      if exists j :: 0 <= j < |flags| && IsKeyedEntry(flags[j]) && ToEvaluation(flags[j]) == e {
        var j :| 0 <= j < |flags| && IsKeyedEntry(flags[j]) && ToEvaluation(flags[j]) == e;
        if j > 0 {
          assert flags[1..][j - 1] == flags[j];
        }
      }
    }
  }

  /** `evaluateAllFlags`: the keyed entries of the "flags" list, in reply
      order; a failed request, an unsuccessful status, an unreadable body or
      a missing list give the empty list. */
  function EvaluateAllFlags(reply: Result<Reply>): (r: seq<FlagEvaluation>)
    ensures reply.Thrown? || !HttpStatus.IsSuccessful(reply.value.code) ==> r == []
    ensures reply.Ok? && reply.value.body.Ok? && reply.value.body.value.Some?
            && Json.Get(reply.value.body.value.value, "flags").Some?
            && Json.Get(reply.value.body.value.value, "flags").value.JArray?
            && HttpStatus.IsSuccessful(reply.value.code)
        ==> r == Collect(Json.Get(reply.value.body.value.value, "flags").value.items)
  {
    if reply.Thrown? || !HttpStatus.IsSuccessful(reply.value.code) then []
    else
      var body := reply.value.body;
      if body.Ok? && body.value.Some? && body.value.value.JObject? then
        var m := body.value.value.fields;
        if "flags" in m && m["flags"].JArray? then Collect(m["flags"].items) else []
      else []
  }

  /** `evaluateFlag`: the reply object converted, keyed by its string
      "key" or, lacking one, by the requested key; `null` on a failed
      request, an unsuccessful status, or a body that does not decode to an
      object. */
  function EvaluateFlag(flagKey: string, reply: Result<Reply>): (r: Option<FlagEvaluation>)
    ensures r.Some? <==> reply.Ok? && HttpStatus.IsSuccessful(reply.value.code)
                         && reply.value.body.Ok? && reply.value.body.value.Some?
                         && reply.value.body.value.value.JObject?
    ensures r.Some? ==> r.value == Convert(reply.value.body.value.value,
                                           Json.StringField(reply.value.body.value.value, "key").GetOr(flagKey))
  {
    if reply.Thrown? || !HttpStatus.IsSuccessful(reply.value.code) then None
    else
      match reply.value.body
      case Ok(Some(j)) =>
        if j.JObject? then Some(Convert(j, Json.StringField(j, "key").GetOr(flagKey))) else None
      case _ => None
  }

  /** A string key is used verbatim; a missing key, or one that is not a
      string, falls back to the requested key. */
  lemma EvaluateFlagKey(flagKey: string, code: int, fields: map<string, Json.Json>)
    requires HttpStatus.IsSuccessful(code)
    ensures "key" in fields && fields["key"].JString? ==>
      EvaluateFlag(flagKey, Ok(Reply(code, Ok(Some(Json.JObject(fields)))))).value.key == fields["key"].s
    ensures !("key" in fields && fields["key"].JString?) ==>
      EvaluateFlag(flagKey, Ok(Reply(code, Ok(Some(Json.JObject(fields)))))).value.key == flagKey
  {
  }

  // ---------------------------------------------------------------------
  // Telemetry
  // ---------------------------------------------------------------------

  /** The operating-system name, already lower-cased. "mac" and "darwin" are
      tested before "win", which "darwin" also contains. */
  function NormalizeOs(os: string): (r: string)
    ensures r == os || r in {"darwin", "windows", "linux"}
    ensures Text.ContainsText(os, "darwin") || Text.ContainsText(os, "mac") ==> r == "darwin"
    ensures r == "windows" ==> Text.ContainsText(os, "win") && !Text.ContainsText(os, "darwin")
  {
    if Text.ContainsText(os, "mac") || Text.ContainsText(os, "darwin") then "darwin"
    else if Text.ContainsText(os, "win") then "windows"
    else if Text.ContainsText(os, "linux") then "linux"
    else os
  }

  function NormalizeArch(arch: string): (r: string)
    ensures arch == "x86_64" ==> r == "amd64"
    ensures arch == "aarch64" ==> r == "arm64"
    ensures arch != "x86_64" && arch != "aarch64" ==> r == arch
  {
    if arch == "amd64" || arch == "x86_64" then "amd64"
    else if arch == "aarch64" then "arm64"
    else arch
  }

  /** What a missing `os.name` or `os.arch` property reads as. */
  const Unknown: string := "unknown"

  /** The `X-Flipswitch-OS` header from the `os.name` and `os.arch`
      properties ("unknown" when unset). */
  function OsHeader(osName: Option<string>, arch: Option<string>): (r: string)
    ensures osName.None? && arch.None? ==> r == Unknown + "/" + Unknown
  {
    UnknownIsNoKnownOs();
    NormalizeOs(Text.ToLower(osName.GetOr(Unknown))) + "/"
      + NormalizeArch(Text.ToLower(arch.GetOr(Unknown)))
  }

  /** With neither property set, both halves read "unknown", which matches
      no known system. */
  lemma UnknownIsNoKnownOs()
    ensures Text.ToLower(Unknown) == Unknown
    ensures NormalizeOs(Unknown) == Unknown && NormalizeArch(Unknown) == Unknown
  {
    var u := Unknown;
    assert Text.ToLower(u) == u;
    Text.AbsentFirstChar(u, "mac");
    Text.AbsentFirstChar(u, "darwin");
    Text.AbsentFirstChar(u, "win");
    Text.AbsentFirstChar(u, "linux");
  }

  /** "darwin" contains "win", yet it is reported as darwin, not windows. */
  lemma DarwinIsNotWindows(osName: string)
    requires Text.ContainsText(Text.ToLower(osName), "darwin")
    ensures Text.Contains("darwin", "win")
    ensures OsHeader(Some(osName), Some("x86_64")) == "darwin/amd64"
  {
    assert Text.OccursAt("darwin", "win", 3);
    assert OsHeader(Some(osName), Some("x86_64")) == "darwin" + "/" + "amd64" by {
      X86IsAmd64();
      assert NormalizeOs(Text.ToLower(osName)) == "darwin";
    }
    DarwinAmd64Header();
  }

  /** The header text for a Mac on x86-64. */
  lemma DarwinAmd64Header()
    ensures "darwin" + "/" + "amd64" == "darwin/amd64"
  {
    var h := "darwin" + "/" + "amd64";
    assert |h| == 12;
    assert forall i :: 0 <= i < 12 ==> h[i] == "darwin/amd64"[i];
  }

  /** "x86_64" is already lower case and reported as amd64. */
  lemma X86IsAmd64()
    ensures NormalizeArch(Text.ToLower("x86_64")) == "amd64"
  {
    assert Text.ToLower("x86_64") == "x86_64";
  }

  lemma NormalizedNamesAreStable()
    ensures Text.ContainsText("darwin", "darwin")
    ensures !Text.ContainsText("windows", "mac") && !Text.ContainsText("windows", "darwin")
    ensures Text.ContainsText("windows", "win")
    ensures !Text.ContainsText("linux", "mac") && !Text.ContainsText("linux", "darwin")
    ensures !Text.ContainsText("linux", "win") && Text.ContainsText("linux", "linux")
  {
    assert Text.OccursAt("darwin", "darwin", 0);
    assert Text.OccursAt("windows", "win", 0);
    assert Text.OccursAt("linux", "linux", 0);
    Text.AbsentFirstChar("windows", "mac");
    Text.AbsentFirstChar("windows", "darwin");
    Text.AbsentFirstChar("linux", "mac");
    Text.AbsentFirstChar("linux", "darwin");
    Text.AbsentFirstChar("linux", "win");
  }

  /** Normalising an already normalised name changes nothing. */
  lemma NormalizeOsIdempotent(os: string)
    ensures NormalizeOs(NormalizeOs(os)) == NormalizeOs(os)
  {
    NormalizedNamesAreStable();
    var n := NormalizeOs(os);
    if n == "darwin" {
      assert NormalizeOs("darwin") == "darwin";
    } else if n == "windows" {
      assert NormalizeOs("windows") == "windows";
    } else if n == "linux" {
      assert NormalizeOs("linux") == "linux";
    } else {
      assert n == os;
    }
  }

  lemma NormalizeArchIdempotent(arch: string)
    ensures NormalizeArch(NormalizeArch(arch)) == NormalizeArch(arch)
    ensures NormalizeArch(arch) == "amd64" <==> arch == "amd64" || arch == "x86_64"
    ensures NormalizeArch(arch) == "arm64" <==> arch == "aarch64" || arch == "arm64"
  {
  }
}
