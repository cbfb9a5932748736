/** The `dev.flipswitch.openfeature` provider: a local flag map filled from
    the bulk endpoint, refreshed by stream events, and read by the typed
    lookups.

    The two HTTP calls of the client are the function fields of `Server`
    (a `Result` failure is the exception they throw). The stream client is
    kept as its state; `connect` and `close` step it. Events the provider
    emits through the OpenFeature SDK are returned as a sequence.
 */
module OpenFeatureProvider {
  import opened Wrappers
  import Text
  import Int32
  import OpenFeatureFlag
  import OpenFeatureSseClient
  import FlagChangePayload

  type Flag = OpenFeatureFlag.Flag

  // ---------------------------------------------------------------------
  // Evaluation context and identity
  // ---------------------------------------------------------------------

  /** An OpenFeature `Value`: `VNull` holds a null object; only a string
      value has a string view (`asString`). */
  datatype Value = VNull | VString(s: string) | VBool(b: bool) | VInt(i: int) | VOther

  /** An OpenFeature evaluation context: the targeting key and the
      attribute map (`keySet` / `getValue`), whose entries may be `null`. */
  datatype Context = Context(targetingKey: Option<string>, attributes: map<string, Option<Value>>)

  datatype Identity = Identity(id: string, traits: map<string, string>)

  const Anonymous: string := "anonymous"

  function AsString(v: Option<Value>): (r: Option<string>)
    ensures r.Some? <==> v.Some? && v.value.VString?
  {
    match v
    case Some(VString(s)) => Some(s)
    case _ => None
  }

  /** `contextToIdentity`: the targeting key, or "anonymous" when there is
      no context or the key is null or empty; the traits are the attributes
      that have a string view. */
  function ContextToIdentity(ctx: Option<Context>): (r: Identity)
    ensures ctx.None? ==> r == Identity(Anonymous, map[])
    ensures ctx.Some? ==>
      r.id == (if ctx.value.targetingKey.Some? && |ctx.value.targetingKey.value| > 0
               then ctx.value.targetingKey.value else Anonymous)
    ensures ctx.Some? ==> forall k :: k in r.traits <==> k in ctx.value.attributes && AsString(ctx.value.attributes[k]).Some?
    ensures ctx.Some? ==> forall k :: k in r.traits ==> Some(r.traits[k]) == AsString(ctx.value.attributes[k])
  {
    match ctx
    case None => Identity(Anonymous, map[])
    case Some(c) =>
      var id := if c.targetingKey.Some? && |c.targetingKey.value| > 0 then c.targetingKey.value else Anonymous;
      Identity(id, map k | k in c.attributes && AsString(c.attributes[k]).Some? :: AsString(c.attributes[k]).value)
  }

  /** The identity never has an empty id, and what the caller puts in a
      context as a string shows up unchanged among the traits; a value of
      any other kind never does. */
  lemma IdentityFromContext(c: Context, k: string, v: Value)
    ensures |ContextToIdentity(Some(c)).id| > 0
    ensures v.VString? ==> ContextToIdentity(Some(c.(attributes := c.attributes[k := Some(v)]))).traits[k] == v.s
    ensures !v.VString? ==> k !in ContextToIdentity(Some(c.(attributes := c.attributes[k := Some(v)]))).traits
    ensures k !in ContextToIdentity(Some(c.(attributes := c.attributes[k := None]))).traits
  {
  }

  // ---------------------------------------------------------------------
  // Provider state and the flag map
  // ---------------------------------------------------------------------

  /** The HTTP client: the bulk fetch and the single-flag fetch, whose
      `None` is a flag that no longer exists. */
  datatype Server = Server(
    fetchFlags: Identity -> Result<seq<Flag>>,
    fetchFlag: (string, Identity) -> Result<Option<Flag>>)

  /** `flagCache`, `lastContext` and the stream client when streaming is
      enabled. */
  datatype Provider = Provider(
    cache: map<string, Flag>,
    lastContext: Option<Context>,
    sse: Option<OpenFeatureSseClient.Client>)

  datatype Event =
    | ProviderReady
    | ProviderError(message: string)
    | ProviderStale(message: string)
    | ConfigurationChanged

  /** The result of an operation: the new state, the events emitted, and
      the message of the exception it throws, if it throws. */
  datatype Outcome = Outcome(provider: Provider, events: seq<Event>, thrown: Option<string>)

  /** The message a `ConcurrentHashMap` gives for a null key: its
      NullPointerException has none, which concatenation prints as "null". */
  const NullKeyMessage: string := "null"

  /** The message of the executor's RejectedExecutionException is not
      modelled; this stands for it. */
  const RejectedMessage: string := "rejected"

  function NewProvider(streaming: bool): (p: Provider)
    ensures p.cache == map[] && p.lastContext.None?
    ensures p.sse.Some? <==> streaming
  {
    Provider(map[], None, if streaming then Some(OpenFeatureSseClient.Created) else None)
  }

  predicate AllKeyed(flags: seq<Flag>) {
    forall i :: 0 <= i < |flags| ==> flags[i].key.Some?
  }

  /** The last flag carrying key `k`, if any. */
  function LastWithKey(flags: seq<Flag>, k: string): (r: Option<Flag>)
    ensures r.Some? ==> r.value in flags && r.value.key == Some(k)
    ensures r.None? ==> forall i :: 0 <= i < |flags| ==> flags[i].key != Some(k)
  {
    if |flags| == 0 then None
    else if flags[|flags| - 1].key == Some(k) then Some(flags[|flags| - 1])
    else LastWithKey(flags[..|flags| - 1], k)
  }

  datatype Filled = Filled(cache: map<string, Flag>, failed: bool)

  /** The loop `for (Flag flag : flags) flagCache.put(flag.getKey(), flag)`:
      later flags overwrite earlier ones, and a null key throws, leaving
      the flags before it in place. */
  function Fill(cache: map<string, Flag>, flags: seq<Flag>): (r: Filled)
    ensures r.failed <==> !AllKeyed(flags)
    decreases |flags|
  {
    if |flags| == 0 then Filled(cache, false)
    else if flags[0].key.None? then Filled(cache, true)
    else
      var r := Fill(cache[flags[0].key.value := flags[0]], flags[1..]);
      assert AllKeyed(flags) <==> AllKeyed(flags[1..]) by {
        assert forall i :: 1 <= i < |flags| ==> flags[1..][i - 1] == flags[i];
      }
      r
  }

  /** Filling from an empty map with keyed flags gives, for every key, the
      last flag that has it, and no other key. */
  lemma {:induction false} FillLastWins(cache: map<string, Flag>, flags: seq<Flag>, k: string)
    requires AllKeyed(flags)
    ensures k in Fill(cache, flags).cache <==> k in cache || LastWithKey(flags, k).Some?
    ensures LastWithKey(flags, k).Some? ==> Fill(cache, flags).cache[k] == LastWithKey(flags, k).value
    ensures LastWithKey(flags, k).None? && k in cache ==> Fill(cache, flags).cache[k] == cache[k]
    decreases |flags|
  {
    if |flags| > 0 {
      var f := flags[0];
      var rest := flags[1..];
      assert AllKeyed(rest) by {
        assert forall i :: 0 <= i < |rest| ==> rest[i] == flags[i + 1];
      }
      FillLastWins(cache[f.key.value := f], rest, k);
      assert flags == [f] + rest;
      LastWithKeySplit(f, rest, k);
      assert Fill(cache, flags) == Fill(cache[f.key.value := f], rest);
    }
  }

  /** The last flag with key `k` in `[f] + rest` is the last one in `rest`,
      or `f` itself when `rest` has none. */
  lemma {:induction false} LastWithKeySplit(f: Flag, rest: seq<Flag>, k: string)
    ensures LastWithKey([f] + rest, k)
         == (if LastWithKey(rest, k).Some? then LastWithKey(rest, k)
             else if f.key == Some(k) then Some(f) else None)
    decreases |rest|
  {
    var all := [f] + rest;
    if |rest| == 0 {
      assert all == [f];
      assert all[..0] == [];
    } else {
      assert all[|all| - 1] == rest[|rest| - 1];
      assert all[..|all| - 1] == [f] + rest[..|rest| - 1];
      LastWithKeySplit(f, rest[..|rest| - 1], k);
    }
  }

  /** A null key stops the loop: the flags before it are in the map, the
      ones after it are not read. */
  lemma {:induction false} FillStopsAtNullKey(cache: map<string, Flag>, flags: seq<Flag>, n: nat)
    requires n < |flags| && flags[n].key.None? && AllKeyed(flags[..n])
    ensures Fill(cache, flags) == Filled(Fill(cache, flags[..n]).cache, true)
    decreases n
  {
    if n > 0 {
      assert flags[1..][..n - 1] == flags[..n][1..];
      assert AllKeyed(flags[..n][1..]) by {
        assert forall i :: 0 <= i < n - 1 ==> flags[..n][1..][i] == flags[..n][i + 1];
      }
      FillStopsAtNullKey(cache[flags[0].key.value := flags[0]], flags[1..], n - 1);
    }
  }

  // ---------------------------------------------------------------------
  // Refreshing
  // ---------------------------------------------------------------------

  /** `refreshFlagsInternal`: the context is recorded first; then the flags
      are fetched for its identity and replace the whole map. A failed
      fetch leaves the map as it was; a null key throws after the map was
      cleared and partly refilled. No event is emitted. */
  function RefreshFlagsInternal(p: Provider, ctx: Option<Context>, server: Server): (r: Outcome)
    ensures r.events == [] && r.provider.lastContext == ctx && r.provider.sse == p.sse
    ensures server.fetchFlags(ContextToIdentity(ctx)).Thrown? ==>
      r.provider.cache == p.cache && r.thrown == Some(server.fetchFlags(ContextToIdentity(ctx)).message)
    ensures server.fetchFlags(ContextToIdentity(ctx)).Ok? ==>
      r.provider.cache == Fill(map[], server.fetchFlags(ContextToIdentity(ctx)).value).cache
    ensures server.fetchFlags(ContextToIdentity(ctx)).Ok? ==>
      (r.thrown.None? <==> AllKeyed(server.fetchFlags(ContextToIdentity(ctx)).value))
  {
    var p1 := p.(lastContext := ctx);
    match server.fetchFlags(ContextToIdentity(ctx))
    case Thrown(m) => Outcome(p1, [], Some(m))
    case Ok(flags) =>
      var f := Fill(map[], flags);
      Outcome(p1.(cache := f.cache), [], if f.failed then Some(NullKeyMessage) else None)
  }

  /** After a successful refresh the map holds, under each key, the last
      fetched flag with that key, and nothing else. */
  lemma RefreshReplacesMap(p: Provider, ctx: Option<Context>, server: Server, k: string)
    requires server.fetchFlags(ContextToIdentity(ctx)).Ok?
    requires AllKeyed(server.fetchFlags(ContextToIdentity(ctx)).value)
    ensures RefreshFlagsInternal(p, ctx, server).thrown.None?
    ensures k in RefreshFlagsInternal(p, ctx, server).provider.cache
        <==> LastWithKey(server.fetchFlags(ContextToIdentity(ctx)).value, k).Some?
    ensures k in RefreshFlagsInternal(p, ctx, server).provider.cache ==>
      RefreshFlagsInternal(p, ctx, server).provider.cache[k]
        == LastWithKey(server.fetchFlags(ContextToIdentity(ctx)).value, k).value
  {
    FillLastWins(map[], server.fetchFlags(ContextToIdentity(ctx)).value, k);
  }

  /** `refreshSingleFlag`: fetch the flag for the last context's identity;
      a flag found is stored under its own key, a flag gone is removed
      under the requested key. */
  function RefreshSingleFlag(p: Provider, key: string, server: Server): (r: Outcome)
    ensures r.events == [] && r.provider.lastContext == p.lastContext && r.provider.sse == p.sse
    ensures r.thrown.None? ==> server.fetchFlag(key, ContextToIdentity(p.lastContext)).Ok?
    ensures r.thrown.Some? ==> r.provider.cache == p.cache
  {
    match server.fetchFlag(key, ContextToIdentity(p.lastContext))
    case Thrown(m) => Outcome(p, [], Some(m))
    case Ok(None) => Outcome(p.(cache := p.cache - {key}), [], None)
    case Ok(Some(flag)) =>
      if flag.key.None? then Outcome(p, [], Some(NullKeyMessage))
      else Outcome(p.(cache := p.cache[flag.key.value := flag]), [], None)
  }

  /** A single refresh touches one entry: the fetched flag's key when it
      was found, the requested key when it was not; every other entry is
      unchanged. */
  lemma RefreshSingleKeepsOthers(p: Provider, key: string, server: Server, other: string)
    requires server.fetchFlag(key, ContextToIdentity(p.lastContext)).Ok?
    ensures (match server.fetchFlag(key, ContextToIdentity(p.lastContext)).value
             case None => other != key
             case Some(f) => f.key != Some(other)) ==>
      (other in RefreshSingleFlag(p, key, server).provider.cache <==> other in p.cache)
      && (other in p.cache ==> RefreshSingleFlag(p, key, server).provider.cache[other] == p.cache[other])
    ensures server.fetchFlag(key, ContextToIdentity(p.lastContext)).value.None? ==>
      key !in RefreshSingleFlag(p, key, server).provider.cache
    ensures (match server.fetchFlag(key, ContextToIdentity(p.lastContext)).value
             case None => false
             case Some(f) => f.key.Some?) ==>
      var f := server.fetchFlag(key, ContextToIdentity(p.lastContext)).value.value;
      RefreshSingleFlag(p, key, server).provider.cache[f.key.value] == f
  {
  }

  /** `onFlagChange`: a keyed event refreshes that flag, a bulk event
      refreshes everything with the last context; success emits
      configuration-changed, failure an error event, and nothing is thrown. */
  function OnFlagChange(p: Provider, event: FlagChangePayload.FlagChangeEvent, server: Server): (r: Outcome)
    ensures r.thrown.None?
    ensures |r.events| == 1
    ensures r.provider.lastContext == p.lastContext && r.provider.sse == p.sse
    ensures r.events[0] == ConfigurationChanged || r.events[0].ProviderError?
  {
    var o := if event.flagKey.Some? then RefreshSingleFlag(p, event.flagKey.value, server)
             else RefreshFlagsInternal(p, p.lastContext, server);
    match o.thrown
    case None => Outcome(o.provider, [ConfigurationChanged], None)
    case Some(m) => Outcome(o.provider, [ProviderError("Failed to refresh flags after SSE event: " + m)], None)
  }

  /** What a stream event does, case by case: a keyed event is a single
      refresh of that key, a bulk event a full refresh with the context of
      the last refresh; the error event carries the cause. */
  lemma OnFlagChangeSpec(p: Provider, event: FlagChangePayload.FlagChangeEvent, server: Server)
    ensures event.flagKey.Some? ==>
      OnFlagChange(p, event, server).provider == RefreshSingleFlag(p, event.flagKey.value, server).provider
    ensures event.flagKey.None? ==>
      OnFlagChange(p, event, server).provider.cache == RefreshFlagsInternal(p, p.lastContext, server).provider.cache
    ensures event.flagKey.None? && server.fetchFlags(ContextToIdentity(p.lastContext)).Thrown? ==>
      OnFlagChange(p, event, server).events
        == [ProviderError("Failed to refresh flags after SSE event: "
                          + server.fetchFlags(ContextToIdentity(p.lastContext)).message)]
        && OnFlagChange(p, event, server).provider == p
    ensures event.flagKey.Some? && server.fetchFlag(event.flagKey.value, ContextToIdentity(p.lastContext)) == Ok(None) ==>
      OnFlagChange(p, event, server).events == [ConfigurationChanged]
      && event.flagKey.value !in OnFlagChange(p, event, server).provider.cache
  {
  }

  /** From the wire to the map: a `flag-change` payload naming a flag makes
      the provider refetch that flag alone, and a payload the client cannot
      read makes it refetch everything. */
  lemma StreamedChangeRefreshes(p: Provider, server: Server, env: nat, key: string, timestamp: string,
                                data: string, now: nat, instant: string -> Option<nat>)
    requires env <= Int32.MAX && FlagChangePayload.SendableKey(Some(key))
    requires |timestamp| > 0 && FlagChangePayload.Lacks(timestamp, '"') && instant(timestamp).Some?
    ensures OnFlagChange(p, FlagChangePayload.Decode(FlagChangePayload.Encode(env, Some(key), timestamp), now, instant), server).provider
         == RefreshSingleFlag(p, key, server).provider
    ensures FlagChangePayload.ParseEvent(data, now, instant).Thrown? ==>
      OnFlagChange(p, FlagChangePayload.Decode(data, now, instant), server).provider.cache
        == RefreshFlagsInternal(p, p.lastContext, server).provider.cache
  {
    FlagChangePayload.EncodedEventRoundTrip(env, Some(key), timestamp, now, instant);
  }

  /** `refreshFlags`: a refresh that emits configuration-changed when it
      succeeds and otherwise throws with no event. */
  function RefreshFlags(p: Provider, ctx: Option<Context>, server: Server): (r: Outcome)
    ensures r.provider == RefreshFlagsInternal(p, ctx, server).provider
    ensures r.thrown == RefreshFlagsInternal(p, ctx, server).thrown
    ensures r.events == (if r.thrown.None? then [ConfigurationChanged] else [])
  {
    var o := RefreshFlagsInternal(p, ctx, server);
    if o.thrown.None? then o.(events := [ConfigurationChanged]) else o
  }

  // ---------------------------------------------------------------------
  // Life cycle
  // ---------------------------------------------------------------------

  /** `initialize`: fetch the flags, connect the stream if there is one,
      then report ready. Any exception is reported as an error event whose
      message names the cause, and is thrown again. */
  function Initialize(p: Provider, ctx: Option<Context>, server: Server,
                      st: OpenFeatureSseClient.Settings, now: nat): (r: Outcome)
    ensures r.events == [ProviderReady] <==> r.thrown.None?
    ensures r.thrown.Some? ==> r.events == [ProviderError("Initialization failed: " + r.thrown.value)]
    ensures r.provider.lastContext == ctx
    ensures r.provider.cache == RefreshFlagsInternal(p, ctx, server).provider.cache
  {
    var o := RefreshFlagsInternal(p, ctx, server);
    match o.thrown
    case Some(m) => Outcome(o.provider, [ProviderError("Initialization failed: " + m)], Some(m))
    case None =>
      match p.sse
      case None => Outcome(o.provider, [ProviderReady], None)
      case Some(c) =>
        var s := OpenFeatureSseClient.Step(st, c, OpenFeatureSseClient.Connect(now));
        var p1 := o.provider.(sse := Some(s.client));
        if OpenFeatureSseClient.ConnectRejected in s.out then
          Outcome(p1, [ProviderError("Initialization failed: " + RejectedMessage)], Some(RejectedMessage))
        else Outcome(p1, [ProviderReady], None)
  }

  /** Ready is reported exactly when the fetch succeeded with keyed flags
      and the stream client (if any) accepted the connection; a first
      initialisation with streaming starts the stream. */
  lemma InitializeReadyIff(p: Provider, ctx: Option<Context>, server: Server,
                           st: OpenFeatureSseClient.Settings, now: nat)
    ensures Initialize(p, ctx, server, st, now).events == [ProviderReady]
        <==> (server.fetchFlags(ContextToIdentity(ctx)).Ok?
              && AllKeyed(server.fetchFlags(ContextToIdentity(ctx)).value)
              && (p.sse.Some? ==> p.sse.value.running || !p.sse.value.executorShut))
    ensures p.sse == Some(OpenFeatureSseClient.Created) && Initialize(p, ctx, server, st, now).thrown.None? ==>
      Initialize(p, ctx, server, st, now).provider.sse.value.running
  {
  }

  /** `shutdown`: close the stream client and empty the map. */
  function Shutdown(p: Provider): (r: Provider)
    ensures r.cache == map[] && r.lastContext == p.lastContext
    ensures r.sse.Some? <==> p.sse.Some?
    ensures r.sse.Some? ==> !r.sse.value.running && r.sse.value.executorShut
  {
    var sse := match p.sse
      case None => None
      case Some(c) =>
        Some(OpenFeatureSseClient.Step(OpenFeatureSseClient.DefaultSettings(""), c, OpenFeatureSseClient.Close).client);
    Provider(map[], p.lastContext, sse)
  }

  /** Initialising again after `shutdown` fails on a streaming provider:
      the stream client's executor rejects the new loop. */
  lemma InitializeAfterShutdownFails(p: Provider, ctx: Option<Context>, server: Server,
                                     st: OpenFeatureSseClient.Settings, now: nat)
    requires p.sse.Some?
    requires server.fetchFlags(ContextToIdentity(ctx)).Ok? && AllKeyed(server.fetchFlags(ContextToIdentity(ctx)).value)
    ensures Initialize(Shutdown(p), ctx, server, st, now).thrown == Some(RejectedMessage)
  {
  }

  const StaleMessage: string := "SSE connection stale - no heartbeat received"
  const MarkedStaleMessage: string := "Cache marked as stale"

  /** `onStale`: the stream client's staleness report becomes a stale event. */
  function OnStale(): (e: seq<Event>)
    ensures |e| == 1 && e[0].ProviderStale? && |e[0].message| > 0
  {
    [ProviderStale(StaleMessage)]
  }

  /** `markStale`: the caller's own staleness report. */
  function MarkStale(): (e: seq<Event>)
    ensures |e| == 1 && e[0].ProviderStale? && e != OnStale()
  {
    [ProviderStale(MarkedStaleMessage)]
  }

  // ---------------------------------------------------------------------
  // Lookups
  // ---------------------------------------------------------------------

  const ReasonDefault: string := "DEFAULT"
  const ReasonError: string := "ERROR"

  datatype ErrorCode = ParseError

  /** A `ProviderEvaluation`: value, variant, reason, error code and error
      message. */
  datatype Evaluation<T> = Evaluation(
    value: T,
    variant: Option<string>,
    reason: Option<string>,
    errorCode: Option<ErrorCode>,
    errorMessage: Option<string>)

  /** The answer for a key that is not in the map: the caller's default. */
  function Missing<T>(default: T): (e: Evaluation<T>)
    ensures e.value == default && e.reason == Some(ReasonDefault)
    ensures e.variant.None? && e.errorCode.None? && e.errorMessage.None?
  {
    Evaluation(default, None, Some(ReasonDefault), None, None)
  }

  /** An answer from a stored flag: its variant and reason. */
  function Found<T>(f: Flag, value: T): (e: Evaluation<T>)
    ensures e.value == value && e.variant == f.variant && e.reason == f.reason && e.errorCode.None?
  {
    Evaluation(value, f.variant, f.reason, None, None)
  }

  /** `Boolean.parseBoolean`: true exactly for "true" in any case. */
  function ParseBoolean(s: Option<string>): (b: bool)
    ensures b ==> s.Some? && |s.value| == 4 && s.value[0] in {'t', 'T'} && s.value[3] in {'e', 'E'}
    ensures s == Some("true") || s == Some("TRUE") || s == Some("True") ==> b
    ensures s == Some("false") || s == Some("yes") || s == Some("1") || s == Some("") ==> !b
  {
    s.Some? && Text.EqualsIgnoreCase(s.value, "true")
  }

  function BooleanEvaluation(p: Provider, key: string, default: Option<bool>): (e: Evaluation<Option<bool>>)
    ensures key !in p.cache ==> e == Missing(default)
    ensures key in p.cache ==>
      e == Found(p.cache[key], Some(ParseBoolean(OpenFeatureFlag.EffectiveValue(p.cache[key]))))
  {
    if key !in p.cache then Missing(default)
    else
      var f := p.cache[key];
      Found(f, Some(ParseBoolean(OpenFeatureFlag.EffectiveValue(f))))
  }

  function StringEvaluation(p: Provider, key: string, default: Option<string>): (e: Evaluation<Option<string>>)
    ensures key !in p.cache ==> e == Missing(default)
    ensures key in p.cache ==> e == Found(p.cache[key], OpenFeatureFlag.EffectiveValue(p.cache[key]))
  {
    if key !in p.cache then Missing(default)
    else Found(p.cache[key], OpenFeatureFlag.EffectiveValue(p.cache[key]))
  }

  /** The integer lookup: `Integer.parseInt` of the effective value, or the
      default with reason ERROR and code PARSE_ERROR when it does not parse
      (a null value does not). */
  function IntegerEvaluation(p: Provider, key: string, default: Option<Int32.int32>): (e: Evaluation<Option<Int32.int32>>)
    ensures key !in p.cache ==> e == Missing(default)
    ensures e.errorCode.Some? ==> key in p.cache && e.value == default && e.reason == Some(ReasonError)
  {
    if key !in p.cache then Missing(default)
    else
      var f := p.cache[key];
      var eff := OpenFeatureFlag.EffectiveValue(f);
      var parsed := if eff.Some? then Int32.ParseInt(eff.value) else Thrown("Cannot parse null string: null");
      match parsed
      case Ok(i) => Found(f, Some(i))
      case Thrown(_) =>
        Evaluation(default, None, Some(ReasonError), Some(ParseError),
                   Some("Failed to parse integer: " + ShowNullable(eff)))
  }

  /** The object lookup wraps the effective value in a `Value`. */
  function ObjectEvaluation(p: Provider, key: string, default: Value): (e: Evaluation<Value>)
    ensures key !in p.cache ==> e == Missing(default)
    ensures key in p.cache ==> e.variant == p.cache[key].variant && e.reason == p.cache[key].reason
    ensures key in p.cache ==> AsString(Some(e.value)) == OpenFeatureFlag.EffectiveValue(p.cache[key])
  {
    if key !in p.cache then Missing(default)
    else
      var f := p.cache[key];
      var eff := OpenFeatureFlag.EffectiveValue(f);
      Found(f, if eff.Some? then VString(eff.value) else VNull)
  }

  /** The Boolean lookup of a stored flag is true exactly when its
      effective value spells "true" in any mix of cases. */
  lemma BooleanLookupIff(p: Provider, key: string, default: Option<bool>)
    requires key in p.cache
    ensures BooleanEvaluation(p, key, default).value == Some(true)
        <==> (OpenFeatureFlag.EffectiveValue(p.cache[key]).Some?
              && Text.ToLower(OpenFeatureFlag.EffectiveValue(p.cache[key]).value) == "true")
    ensures OpenFeatureFlag.EffectiveValue(p.cache[key]) == Some("TRUE") ==>
      BooleanEvaluation(p, key, default).value == Some(true)
  {
    var eff := OpenFeatureFlag.EffectiveValue(p.cache[key]);
    if eff == Some("TRUE") {
      assert Text.ToLower("TRUE") == "true";
    }
  }

  /** A stored integer comes back as itself, with the flag's variant and
      reason. */
  lemma IntegerLookupRoundTrip(p: Provider, key: string, i: Int32.int32, default: Option<Int32.int32>)
    requires key in p.cache && OpenFeatureFlag.EffectiveValue(p.cache[key]) == Some(Int32.Show(i))
    ensures IntegerEvaluation(p, key, default) == Found(p.cache[key], Some(i))
  {
    Int32.ParseShowRoundTrip(i);
  }

  /** A value `Integer.parseInt` rejects gives the default, reason ERROR,
      code PARSE_ERROR and a message quoting the value. */
  lemma IntegerLookupParseError(p: Provider, key: string, default: Option<Int32.int32>)
    requires key in p.cache
    requires OpenFeatureFlag.EffectiveValue(p.cache[key]).None?
          || Int32.ParseInt(OpenFeatureFlag.EffectiveValue(p.cache[key]).value).Thrown?
    ensures IntegerEvaluation(p, key, default)
         == Evaluation(default, None, Some(ReasonError), Some(ParseError),
                       Some("Failed to parse integer: " + ShowNullable(OpenFeatureFlag.EffectiveValue(p.cache[key]))))
  {
  }

  /** After `shutdown` every lookup gives the caller's default with reason
      DEFAULT. */
  lemma LookupsAfterShutdownAreDefault(p: Provider, key: string, b: Option<bool>, s: Option<string>,
                                       i: Option<Int32.int32>, v: Value)
    ensures BooleanEvaluation(Shutdown(p), key, b) == Missing(b)
    ensures StringEvaluation(Shutdown(p), key, s) == Missing(s)
    ensures IntegerEvaluation(Shutdown(p), key, i) == Missing(i)
    ensures ObjectEvaluation(Shutdown(p), key, v) == Missing(v)
  {
  }
}
