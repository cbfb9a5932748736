/** The `dev.flipswitch` provider: readiness driven by the stream status,
    start-up and shutdown, listener fan-out, and the direct bulk and
    single-flag evaluation requests read through Jackson.

    Its stream client (`dev.flipswitch.SseClient`) is not part of this
    model: the provider only records whether it holds one, and the client's
    own status is an input to `GetSseStatus`.
 */
module DevProvider {
  import opened Wrappers
  import Text
  import Json
  import HttpStatus
  import DevEvents
  import DevFlagEvaluation
  import Listeners

  const DefaultBaseUrl: string := "https://api.flipswitch.dev"

  datatype ConnectionStatus = Connecting | Connected | Disconnected | Error

  datatype ProviderState = NotReady | Ready | Stale | Error

  datatype Config = Config(apiKey: string, baseUrl: string, enableRealtime: bool)

  /** `builder(apiKey)`: a missing or empty key is refused. */
  function NewBuilder(apiKey: Option<string>): (r: Result<Config>)
    ensures r.Ok? <==> apiKey.Some? && |apiKey.value| > 0
    ensures r.Thrown? ==> r.message == "apiKey is required"
    ensures r.Ok? ==> r.value == Config(apiKey.value, DefaultBaseUrl, true)
  {
    if apiKey.None? || |apiKey.value| == 0 then Thrown("apiKey is required")
    else Ok(Config(apiKey.value, DefaultBaseUrl, true))
  }

  type ListenerId = Listeners.ListenerId

  datatype Provider = Provider(
    config: Config,
    baseUrl: string,
    state: ProviderState,
    hasSse: bool,
    listeners: seq<ListenerId>)

  datatype Emitted =
    | ProviderStale
    | ProviderReady
    | ConfigurationChanged
    | ListenerCalled(listener: ListenerId, event: DevEvents.FlagChangeEvent)

  datatype Reaction = Reaction(provider: Provider, emitted: seq<Emitted>)

  /** The constructor drops one trailing slash from the base URL. */
  function Create(config: Config): (p: Provider)
    ensures p.state == NotReady && !p.hasSse && p.listeners == []
    ensures |p.baseUrl| == |config.baseUrl| || |p.baseUrl| == |config.baseUrl| - 1
  {
    Provider(config, Text.StripTrailingSlash(config.baseUrl), NotReady, false, [])
  }

  lemma CreateStripsOneSlash(config: Config)
    requires Text.HasNoTrailingSlash(config.baseUrl)
    ensures Create(config.(baseUrl := config.baseUrl + "/")).baseUrl == config.baseUrl
    ensures Create(config).baseUrl == config.baseUrl
  {
    Text.StripAppendedSlash(config.baseUrl);
    Text.StripCleanBase(config.baseUrl);
  }

  /** The status callback: ERROR makes the provider STALE from any state;
      CONNECTED turns STALE back into READY and touches nothing else. */
  function OnStatus(p: Provider, status: ConnectionStatus): (r: Reaction)
    ensures r.provider == p.(state := r.provider.state)
    ensures status == ConnectionStatus.Error ==> r == Reaction(p.(state := Stale), [ProviderStale])
    ensures status == Connected ==>
      r.provider.state == (if p.state == Stale then Ready else p.state)
    ensures status == Connected ==> (r.emitted == [ProviderReady] <==> p.state == Stale)
    ensures status != ConnectionStatus.Error && !(status == Connected && p.state == Stale) ==> r == Reaction(p, [])
  {
    if status == ConnectionStatus.Error then Reaction(p.(state := Stale), [ProviderStale])
    else if status == Connected && p.state == Stale then Reaction(p.(state := Ready), [ProviderReady])
    else Reaction(p, [])
  }

  /** Only an error can make the provider stale, and only a connection can
      make a stale provider ready. */
  lemma StateChangesNeedStatus(p: Provider, status: ConnectionStatus)
    ensures OnStatus(p, status).provider.state == Stale && p.state != Stale ==> status == ConnectionStatus.Error
    ensures OnStatus(p, status).provider.state == Ready && p.state != Ready ==> status == Connected
  {
  }

  datatype InitOutcome = InitOutcome(provider: Provider, result: Result<()>)

  /** `initialize`: NOT_READY first; the key check (`probe` is its status
      or I/O error) and the delegate's start-up (`ofrepFailure`) may throw;
      a stream client is created only with realtime on; READY last. */
  function Initialize(p: Provider, probe: Result<int>, ofrepFailure: Option<string>): (r: InitOutcome)
    ensures r.result.Ok? <==>
      probe.Ok? && HttpStatus.ClassifyInit(probe.value).Pass? && ofrepFailure.None?
    ensures r.result.Ok? ==> r.provider.state == Ready
    ensures r.result.Ok? ==> r.provider.hasSse == (p.config.enableRealtime || p.hasSse)
    ensures probe.Ok? && HttpStatus.ClassifyInit(probe.value).Reject? ==>
      r.provider.state == ProviderState.Error && r.result == Thrown(HttpStatus.ClassifyInit(probe.value).message)
    ensures r.result.Thrown? && r.provider.state != ProviderState.Error ==> r.provider.state == NotReady
    ensures r.result.Thrown? ==> r.provider.hasSse == p.hasSse
    ensures r.provider.listeners == p.listeners && r.provider.config == p.config
  {
    var p1 := p.(state := NotReady);
    match probe
    case Thrown(m) => InitOutcome(p1, Thrown(m))
    case Ok(code) =>
      match HttpStatus.ClassifyInit(code)
      case Reject(m) => InitOutcome(p1.(state := ProviderState.Error), Thrown(m))
      case Pass =>
        if ofrepFailure.Some? then InitOutcome(p1, Thrown(ofrepFailure.value))
        else
          var p2 := if p.config.enableRealtime then p1.(hasSse := true) else p1;
          InitOutcome(p2.(state := Ready), Ok(()))
  }

  /** `shutdown`: the client is closed and dropped, state NOT_READY. */
  function Shutdown(p: Provider): (q: Provider)
    ensures q.state == NotReady && !q.hasSse
    ensures q.config == p.config && q.baseUrl == p.baseUrl && q.listeners == p.listeners
  {
    p.(state := NotReady, hasSse := false)
  }

  /** `getSseStatus`, given what the client would report. */
  function GetSseStatus(p: Provider, clientStatus: ConnectionStatus): (s: ConnectionStatus)
    ensures !p.hasSse ==> s == Disconnected
    ensures p.hasSse ==> s == clientStatus
  {
    if p.hasSse then clientStatus else Disconnected
  }

  /** After shutdown the stream status reads DISCONNECTED whatever the old
      client says, and a second shutdown changes nothing. */
  lemma ShutdownDisconnects(p: Provider, clientStatus: ConnectionStatus)
    ensures GetSseStatus(Shutdown(p), clientStatus) == Disconnected
    ensures Shutdown(Shutdown(p)) == Shutdown(p)
  {
  }

  /** `reconnectSse`: the old client is closed and a fresh one started
      exactly when realtime is on and a client exists; `replaced` tells
      whether that happened. The provider's state is not touched. */
  datatype Reconnect = Reconnect(provider: Provider, replaced: bool)

  function ReconnectSse(p: Provider): (r: Reconnect)
    ensures r.replaced <==> p.config.enableRealtime && p.hasSse
    ensures r.provider == p
  {
    if p.config.enableRealtime && p.hasSse then Reconnect(p.(hasSse := true), true)
    else Reconnect(p, false)
  }

  /** After shutdown a forced reconnect does nothing. */
  lemma NoReconnectAfterShutdown(p: Provider)
    ensures !ReconnectSse(Shutdown(p)).replaced
  {
  }

  /** Every listener in order, then one configuration-changed announcement. */
  function HandleFlagChange(p: Provider, e: DevEvents.FlagChangeEvent): (r: seq<Emitted>)
    ensures |r| == |p.listeners| + 1
    ensures forall i :: 0 <= i < |p.listeners| ==> r[i] == ListenerCalled(p.listeners[i], e)
    ensures r[|p.listeners|] == ConfigurationChanged
  {
    seq(|p.listeners|, i requires 0 <= i < |p.listeners| => ListenerCalled(p.listeners[i], e))
      + [ConfigurationChanged]
  }

  /** `addFlagChangeListener`: appends, duplicates allowed. */
  function AddListener(p: Provider, l: ListenerId): (q: Provider)
    ensures q.listeners == p.listeners + [l]
    ensures q == p.(listeners := q.listeners)
  {
    p.(listeners := p.listeners + [l])
  }

  /** `removeFlagChangeListener`: drops the first registration, if any. */
  function RemoveListener(p: Provider, l: ListenerId): (q: Provider)
    ensures q.listeners == Listeners.RemoveFirst(p.listeners, l)
    ensures q == p.(listeners := q.listeners)
  {
    p.(listeners := Listeners.RemoveFirst(p.listeners, l))
  }

  /** A listener added and removed again is no longer notified, and the
      others still are, in order. */
  lemma AddRemoveNotifies(p: Provider, l: ListenerId, e: DevEvents.FlagChangeEvent)
    requires l !in p.listeners
    ensures HandleFlagChange(RemoveListener(AddListener(p, l), l), e) == HandleFlagChange(p, e)
  {
    Listeners.AddThenRemove(p.listeners, l);
  }

  // ---------------------------------------------------------------------
  // Direct evaluation requests
  // ---------------------------------------------------------------------

  /** A reply: status code and the body as Jackson's tree reader saw it
      (`Thrown` when it cannot parse it). */
  datatype Reply = Reply(code: int, body: Result<Json.Json>)

  /** `node.has(name) ? node.get(name).asText() : null`. */
  function TextField(j: Json.Json, name: string): (r: Option<string>)
    ensures r.Some? <==> Json.Has(j, name)
    ensures r.Some? ==> r.value == Json.AsText(j.fields[name])
  {
    if Json.Has(j, name) then Some(Json.AsText(j.fields[name])) else None
  }

  /** `metadata.flagType` as text, when both are present. */
  function MetadataFlagType(j: Json.Json): (r: Option<string>)
    ensures r.Some? ==> Json.Has(j, "metadata") && Json.Has(j.fields["metadata"], "flagType")
  {
    if Json.Has(j, "metadata") then TextField(j.fields["metadata"], "flagType") else None
  }

  /** The record built from one reply object, with `key` as its key. */
  function ToEvaluation(j: Json.Json, key: string): (e: DevFlagEvaluation.FlagEvaluation)
    ensures e.key == key && e.value == Json.Get(j, "value")
    ensures e.reason == TextField(j, "reason") && e.variant == TextField(j, "variant")
  {
    DevFlagEvaluation.Make(key, Json.Get(j, "value"), TextField(j, "reason"),
                           TextField(j, "variant"), MetadataFlagType(j))
  }

  /** An entry is kept when it has a "key" field of any JSON type. */
  function Kept(entry: Json.Json): (r: seq<DevFlagEvaluation.FlagEvaluation>)
    ensures |r| <= 1
    ensures |r| == 1 <==> Json.Has(entry, "key")
  {
    if Json.Has(entry, "key") then [ToEvaluation(entry, Json.AsText(entry.fields["key"]))] else []
  }

  function Collect(flags: seq<Json.Json>): (r: seq<DevFlagEvaluation.FlagEvaluation>)
    ensures |r| <= |flags|
  {
    if |flags| == 0 then [] else Kept(flags[0]) + Collect(flags[1..])
  }

  /** The number of entries that carry a "key" field. */
  function CountKeyed(flags: seq<Json.Json>): nat {
    if |flags| == 0 then 0
    else (if Json.Has(flags[0], "key") then 1 else 0) + CountKeyed(flags[1..])
  }

  /** One result per keyed entry: nothing keyed is lost, nothing else is
      added. */
  lemma {:induction false} CollectCountsKeyed(flags: seq<Json.Json>)
    ensures |Collect(flags)| == CountKeyed(flags)
    decreases |flags|
  {
    if |flags| > 0 {
      CollectCountsKeyed(flags[1..]);
    }
  }

  lemma {:induction false} CollectAppend(a: seq<Json.Json>, b: seq<Json.Json>)
    ensures Collect(a + b) == Collect(a) + Collect(b)
    decreases |a|
  {
    if |a| == 0 {
      assert a + b == b;
    } else {
      assert (a + b)[0] == a[0];
      assert (a + b)[1..] == a[1..] + b;
      CollectAppend(a[1..], b);
      calc {
        Collect(a + b);
        Kept(a[0]) + Collect(a[1..] + b);
        Kept(a[0]) + (Collect(a[1..]) + Collect(b));
        (Kept(a[0]) + Collect(a[1..])) + Collect(b);
      }
    }
  }

  /** `evaluateAllFlags`: the entries of the "flags" array that have a key,
      in order; anything unsuccessful gives the empty list. */
  function EvaluateAllFlags(reply: Result<Reply>): (r: seq<DevFlagEvaluation.FlagEvaluation>)
    ensures reply.Thrown? || !HttpStatus.IsSuccessful(reply.value.code) || reply.value.body.Thrown?
      ==> r == []
    ensures reply.Ok? && HttpStatus.IsSuccessful(reply.value.code) && reply.value.body.Ok?
            && Json.Has(reply.value.body.value, "flags")
            && reply.value.body.value.fields["flags"].JArray?
      ==> r == Collect(reply.value.body.value.fields["flags"].items)
  {
    if reply.Thrown? || !HttpStatus.IsSuccessful(reply.value.code) || reply.value.body.Thrown? then []
    else
      var flags := Json.Get(reply.value.body.value, "flags");
      if flags.Some? && flags.value.JArray? then Collect(flags.value.items) else []
  }

  /** `evaluateFlag`: `null` on failure; otherwise the reply's record, keyed
      by its "key" field as text or, lacking one, by the requested key. */
  function EvaluateFlag(flagKey: string, reply: Result<Reply>): (r: Option<DevFlagEvaluation.FlagEvaluation>)
    ensures r.Some? <==>
      reply.Ok? && HttpStatus.IsSuccessful(reply.value.code) && reply.value.body.Ok?
    ensures r.Some? && !Json.Has(reply.value.body.value, "key") ==> r.value.key == flagKey
    ensures r.Some? && Json.Has(reply.value.body.value, "key") ==>
      r.value.key == Json.AsText(reply.value.body.value.fields["key"])
  {
    if reply.Thrown? || !HttpStatus.IsSuccessful(reply.value.code) || reply.value.body.Thrown? then None
    else
      var j := reply.value.body.value;
      var key := if Json.Has(j, "key") then Json.AsText(j.fields["key"]) else flagKey;
      Some(ToEvaluation(j, key))
  }

  /** A string key is used verbatim; an object without one falls back to
      the requested key. */
  lemma EvaluateFlagKey(flagKey: string, code: int, fields: map<string, Json.Json>)
    requires HttpStatus.IsSuccessful(code)
    ensures "key" in fields && fields["key"].JString? ==>
      EvaluateFlag(flagKey, Ok(Reply(code, Ok(Json.JObject(fields))))).value.key == fields["key"].s
    ensures "key" !in fields ==>
      EvaluateFlag(flagKey, Ok(Reply(code, Ok(Json.JObject(fields))))).value.key == flagKey
  {
  }
}
