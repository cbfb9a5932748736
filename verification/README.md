# Flipswitch Java client — a Dafny model

This project models the core of the Flipswitch Java feature-flag client. The
repository ships three parallel implementations that disagree in detail, and
each is modelled on its own:

- `io.flipswitch` — an OpenFeature provider that delegates evaluation to an
  OFREP provider, listens to a server-sent-event stream (`SseClient`) with
  capped exponential reconnect backoff, and falls back to polling after
  repeated stream errors. Modules `IoSseClient` and `IoProvider`.
- `dev.flipswitch` — a simpler copy of that provider, a TTL flag cache and
  the `FlagEvaluation` record. Modules `DevProvider`, `DevFlagCache`,
  `DevFlagEvaluation` and `DevEvents`.
- `dev.flipswitch.openfeature` — a provider that keeps its own flag map,
  refreshed in bulk or flag by flag when its hand-written stream client
  reports a change. Modules `SseFraming` (the line reader),
  `FlagChangePayload` (the substring parsing of the `flag-change` payload),
  `OpenFeatureSseClient` (connection loop, backoff, `Last-Event-ID`
  resumption, heartbeat monitor), `OpenFeatureFlag`,
  `OpenFeatureEvaluationResult` and `OpenFeatureProvider`.

Shared modules hold only what the variants do word for word: `Wrappers`
(Java `null` as `Option`, a thrown exception as `Result.Thrown` carrying its
message), `Text` (`trim`, `indexOf`, `contains`, ASCII case folding, the
`replaceAll("/$", "")` base-URL normalisation), `Int32` (32-bit wrap,
`Integer.toString`, `Integer.parseInt`), `Json` (the parsed JSON trees the
providers read), `HttpStatus` (the start-up key check), `Backoff` (the capped
doubling) and `Listeners` (the listener lists).

Conventions. Every callback, timer firing, HTTP reply and owner call is one
input to a pure step function, applied atomically; what becomes visible
(status callbacks, requests, sleeps, events emitted to OpenFeature, listener
calls) is returned as a sequence. Clocks are `nat` milliseconds carried by
the inputs. HTTP calls, JSON decoders, `Instant.parse` and Jackson's typed
views are function parameters.

The stream format is the text/event-stream format of the WHATWG HTML Living
Standard, section 9.2.6, with the `Last-Event-ID` header of section 9.2.4.
The openfeature client deviates from it in three ways, and the model follows
the code: every field value is trimmed at both ends, `data:` lines are joined
with nothing between them, and every blank line dispatches.

Where the code and its surroundings disagree the model follows the code:

- `dev/flipswitch/openfeature/FlipswitchProvider.java` reads a variant and
  a reason from every flag, and its tests build flags with six arguments,
  but `Flag.java` declares four fields. `OpenFeatureFlag.Flag` has all six.
- The openfeature stream client calls `getReconnectDelayMs`,
  `getMaxReconnectDelayMs` and `getHeartbeatTimeoutMs`, which
  `FlipswitchConfig.java` lacks. They are the fields of
  `OpenFeatureSseClient.Settings`, with the defaults 1000, 30000 and 60000
  that the stream client's tests use.
- A `flag-change` event whose payload cannot be parsed is still delivered,
  as environment 0 with no key; the provider then refreshes every flag.

## Model

| member | source | states |
|---|---|---|
| Text.Trim | src/main/java/dev/flipswitch/openfeature/FlipswitchSseClient.java:149-158 | `String.trim` result is trimmed at both ends, no longer than the input, and empty exactly when every char is at or below U+0020 |
| Text.TrimStart | src/main/java/dev/flipswitch/openfeature/FlipswitchSseClient.java:154-158 | the leading part dropped is all chars at or below U+0020 and what is kept is a suffix starting with a char above it |
| Text.TrimEnd | src/main/java/dev/flipswitch/openfeature/FlipswitchSseClient.java:154-158 | the trailing part dropped is all chars at or below U+0020 and what is kept is a prefix ending with a char above it |
| Text.TrimIdentity | src/main/java/dev/flipswitch/openfeature/FlipswitchSseClient.java:154-158 | trimming leaves a string unchanged exactly when it is already trimmed |
| Text.TrimAfterPadding | src/main/java/dev/flipswitch/openfeature/FlipswitchSseClient.java:154-158 | leading padding before a trimmed value is removed: `(pad + t).trim() == t` |
| Text.IndexOf | src/main/java/dev/flipswitch/openfeature/FlipswitchSseClient.java:231 | `indexOf(pat, from)` finds an occurrence at or after `from` with none before it, and `-1` only when there is none |
| Text.IndexOfFirst | src/main/java/dev/flipswitch/openfeature/FlipswitchSseClient.java:217 | an occurrence with nothing earlier is the one `indexOf` reports |
| Text.ContainsText | src/main/java/io/flipswitch/FlipswitchProvider.java:128-134 | `contains` is true exactly when the pattern occurs somewhere |
| Text.ToLower | src/main/java/io/flipswitch/FlipswitchProvider.java:124-125 | `toLowerCase` keeps the length and lowers every ASCII letter and nothing else |
| Text.StripTrailingSlash | src/main/java/io/flipswitch/SseClient.java:71 | `replaceAll("/$", "")` removes at most one char, exactly when a slash ends the text or precedes a final line terminator, and keeps that terminator |
| Text.StripAppendedSlash | src/main/java/dev/flipswitch/FlipswitchProvider.java:57 | a clean base with one slash appended normalises back to the base |
| Text.StripRemovesOnlyOneSlash | src/main/java/io/flipswitch/FlipswitchProvider.java:81 | of two trailing slashes only one is removed |
| Int32.Wrap | src/main/java/dev/flipswitch/openfeature/EvaluationResult.java:100-108 | narrowing keeps the value modulo 2^32 and changes nothing already in the 32-bit range |
| Int32.ShowNatValue | src/main/java/io/flipswitch/FlipswitchProvider.java:208 | the decimal digits printed for a status code read back as that number |
| Int32.Show | src/main/java/io/flipswitch/FlipswitchProvider.java:208 | `Integer.toString` is non-empty, starts with a minus sign exactly for a negative number, and is otherwise all digits |
| Int32.ParseInt | src/main/java/dev/flipswitch/openfeature/FlipswitchSseClient.java:209 | `Integer.parseInt` succeeds only on non-empty text; on plain digits it gives their value and succeeds exactly when that value fits in 32 bits |
| Int32.ParseShowRoundTrip | src/main/java/dev/flipswitch/openfeature/FlipswitchProvider.java:219-226 | `Integer.parseInt(Integer.toString(i)) == i` for every `int` |
| Int32.ParseRejectsNonDigit | src/main/java/dev/flipswitch/openfeature/FlipswitchProvider.java:227-233 | text with a non-digit after the optional sign throws NumberFormatException |
| Json.Get | src/main/java/dev/flipswitch/FlipswitchProvider.java:291 | a field lookup is non-null exactly when the node is an object holding that field, and returns its value |
| Json.StringField | src/main/java/io/flipswitch/FlipswitchProvider.java:552-555 | a field reads as a string exactly when it is present and holds a string |
| Json.AsText | src/main/java/dev/flipswitch/FlagEvaluation.java:113-115 | Jackson's `asText` returns a string node's text, "null" for a null node and the empty string for containers |
| HttpStatus.ClassifyInit | src/main/java/io/flipswitch/FlipswitchProvider.java:201-210 | start-up passes exactly on 2xx and 404; 401 and 403 are "Invalid API key"; every other status is "Failed to connect to Flipswitch: " plus the code |
| HttpStatus.RejectionsAreDistinct | src/main/java/dev/flipswitch/FlipswitchProvider.java:122-131 | a bad key and an unusable server give different errors, and 401 and 403 the same one |
| Backoff.Next | src/main/java/io/flipswitch/SseClient.java:207 | `min(2d, max)` is at most both, equals one of them, and never drops below `d` while `d <= max` |
| Backoff.AfterStaysInRange | src/main/java/dev/flipswitch/openfeature/FlipswitchSseClient.java:99-101 | starting from a base no larger than the maximum, any number of doublings stays within `[base, max]` |
| Backoff.AfterClosedForm | src/main/java/io/flipswitch/SseClient.java:200-209 | after `k` failures the delay is `min(base * 2^k, max)` |
| Backoff.AfterShift | src/main/java/io/flipswitch/SseClient.java:207 | `k + 1` failures from `base` are `k` failures from the first doubled delay |
| Backoff.NextInt32 | src/main/java/dev/flipswitch/openfeature/FlipswitchSseClient.java:100-101 | with 32-bit `d * 2` the result never exceeds the maximum, and equals the unbounded doubling while `2d` fits in an `int` |
| Backoff.NextInt32WrapsNegative | src/main/java/dev/flipswitch/openfeature/FlipswitchSseClient.java:91-101 | with maximum `Integer.MAX_VALUE`, doubling 2^30 gives `Integer.MIN_VALUE` where the intended result is the maximum |
| Backoff.DefaultBaseReachesWrap | src/main/java/dev/flipswitch/openfeature/FlipswitchSseClient.java:91-101 | from the 1000 ms base, the delay after 21 failures is 2,097,152,000 and the next 32-bit doubling is -100,663,296 |
| Listeners.RemoveFirst | src/main/java/io/flipswitch/FlipswitchProvider.java:370-372 | removing an absent listener changes nothing; removing a present one shortens the list by one |
| Listeners.RemoveFirstCounts | src/main/java/dev/flipswitch/FlipswitchProvider.java:194-196 | removal takes away exactly one registration of the listener and keeps every other entry |
| Listeners.AddThenRemove | src/main/java/io/flipswitch/FlipswitchProvider.java:363-372 | adding a new listener and removing it restores the list |
| Listeners.RemoveOneOfTwo | src/main/java/io/flipswitch/FlipswitchProvider.java:363-372 | a callback registered twice stays registered once after one removal |
| IoSseClient.HandleEvent | src/main/java/io/flipswitch/SseClient.java:152-190 | only `flag-updated`, `flag-change` and `config-updated` deliver; a single-flag type delivers exactly the decoded non-null event; `config-updated` delivers a keyless event exactly when decoding does not throw |
| IoSseClient.ConfigUpdatedIsBulk | src/main/java/io/flipswitch/SseClient.java:166-178 | `config-updated` is a bulk event carrying the payload's timestamp, or none when the payload decodes to null |
| IoSseClient.Create | src/main/java/io/flipswitch/SseClient.java:67-87 | a new client is open, DISCONNECTED, holds no source and no pending reconnect, and its delay is within bounds |
| IoSseClient.ConnectStep | src/main/java/io/flipswitch/SseClient.java:92-124 | a closed client ignores `connect`; otherwise it holds a source and reports CONNECTING, cancels a prior source exactly when it had one, ends with the stream request, and changes nothing else |
| IoSseClient.ScheduleReconnect | src/main/java/io/flipswitch/SseClient.java:195-209 | a closed client schedules nothing; otherwise one reconnect is scheduled after the current delay and nothing else changes |
| IoSseClient.Step | src/main/java/io/flipswitch/SseClient.java:92-241 | no input changes the base URL; a closed client stays closed; `close` drops the source and every pending reconnect; a message never changes the connection and gives at most one callback; a stream request needs an open client and a `connect` or a reconnect firing |
| IoSseClient.CreateNormalisesUrl | src/main/java/io/flipswitch/SseClient.java:67-100 | the base URL loses exactly one trailing slash and the stream URL is the base plus `/api/v1/flags/events` |
| IoSseClient.StepPreservesValid | src/main/java/io/flipswitch/SseClient.java:92-241 | every input keeps the delay in [1000, 30000], never reopens a closed client and never changes the base URL |
| IoSseClient.ClosedStepIsQuiet | src/main/java/io/flipswitch/SseClient.java:92-210 | once closed, no input reports CONNECTING, sends a request, schedules a reconnect or cancels a source |
| IoSseClient.CloseIsIdempotent | src/main/java/io/flipswitch/SseClient.java:236-241 | `close` sets DISCONNECTED, and a second close changes nothing but repeats the callback |
| IoSseClient.ConnectCancelsPrior | src/main/java/io/flipswitch/SseClient.java:97-100 | `connect` cancels the previous source, then reports CONNECTING and requests the stream URL |
| IoSseClient.FailureSchedulesReconnect | src/main/java/io/flipswitch/SseClient.java:131-146 | on an open client a failure reports ERROR and a server close reports DISCONNECTED, each then scheduling one reconnect after the current delay |
| IoSseClient.MessageKeepsConnection | src/main/java/io/flipswitch/SseClient.java:127-190 | an incoming event never changes the connection, and a payload that fails to decode gives no callback |
| IoSseClient.RunPreservesValid | src/main/java/io/flipswitch/SseClient.java:92-241 | any sequence of inputs keeps the client's invariant |
| IoSseClient.ClosedRunIsQuiet | src/main/java/io/flipswitch/SseClient.java:92-241 | after `close`, no sequence of inputs reports CONNECTING, sends a request or schedules a reconnect |
| IoSseClient.ConnectThenOpen | src/main/java/io/flipswitch/SseClient.java:97-124 | connect then open reports CONNECTING then CONNECTED and leaves the delay at 1000 |
| IoSseClient.OneFailRound | src/main/java/io/flipswitch/SseClient.java:195-209 | a failure schedules a reconnect after the current delay; its firing reconnects and doubles the delay up to 30000 |
| IoSseClient.RoundsDoubleDelay | src/main/java/io/flipswitch/SseClient.java:200-209 | after `k` failure rounds with no open the delay is the `k`-fold capped doubling, `min(1000 * 2^k, 30000)` from the start |
| IoProvider.NewBuilder | src/main/java/io/flipswitch/FlipswitchProvider.java:624-638 | the builder refuses a null or empty key with "apiKey is required"; otherwise realtime and fallback are on, the interval is 30000 and the retry limit 5 |
| IoProvider.Create | src/main/java/io/flipswitch/FlipswitchProvider.java:80-98 | a new provider is NOT_READY with polling off, no stream client and no listeners, and a base URL without a trailing slash is kept as given |
| IoProvider.StartPollingFallback | src/main/java/io/flipswitch/FlipswitchProvider.java:241-254 | polling becomes active when fallback is enabled; scheduling fails exactly when polling was off, fallback on, and the executor is shut down or the period is not positive |
| IoProvider.StopPolling | src/main/java/io/flipswitch/FlipswitchProvider.java:269-279 | polling ends inactive, and stopping inactive polling changes nothing |
| IoProvider.PollingControlsIdempotent | src/main/java/io/flipswitch/FlipswitchProvider.java:241-279 | starting and stopping polling are each idempotent |
| IoProvider.PollTick | src/main/java/io/flipswitch/FlipswitchProvider.java:259-264 | a poll emits one configuration-changed event while polling is active, nothing otherwise |
| IoProvider.OnStatus | src/main/java/io/flipswitch/FlipswitchProvider.java:298-325 | ERROR adds one retry and turns polling on exactly when it was on or fallback is enabled and the limit is reached; CONNECTED resets the count, stops polling and turns only STALE into READY; other statuses change nothing |
| IoProvider.ErrorMakesStale | src/main/java/io/flipswitch/FlipswitchProvider.java:299-310 | while polling can be scheduled, an ERROR makes the provider STALE from any state and emits one stale event |
| IoProvider.ErrorAfterSchedulerShutSkipsStale | src/main/java/io/flipswitch/FlipswitchProvider.java:241-254 | with the polling executor shut down, an ERROR that starts polling marks it active but leaves the state and emits nothing |
| IoProvider.NotifyAll | src/main/java/io/flipswitch/FlipswitchProvider.java:348-354 | every listener is called once, in registration order |
| IoProvider.HandleFlagChange | src/main/java/io/flipswitch/FlipswitchProvider.java:346-358 | each listener is called once in order, then exactly one configuration-changed event follows |
| IoProvider.AddListener | src/main/java/io/flipswitch/FlipswitchProvider.java:363-365 | a listener is appended, duplicates allowed, and nothing else changes |
| IoProvider.RemoveListener | src/main/java/io/flipswitch/FlipswitchProvider.java:370-372 | the first registration of the listener is dropped and nothing else changes |
| IoProvider.Deliver | src/main/java/io/flipswitch/FlipswitchProvider.java:293-326 | feeding the stream client's reports to the provider's callbacks never changes its configuration, client, listeners or base URL |
| IoProvider.DeliverInert | src/main/java/io/flipswitch/FlipswitchProvider.java:298-325 | CONNECTING, DISCONNECTED and the client's other reports leave the provider unchanged |
| IoProvider.OnSse | src/main/java/io/flipswitch/FlipswitchProvider.java:291-328 | one stream input steps the provider's client and never changes its configuration or listeners; without a client it does nothing |
| IoProvider.StartSseConnection | src/main/java/io/flipswitch/FlipswitchProvider.java:291-328 | a new client replaces any old one and connects: CONNECTING, open, minimum delay, no pending reconnect; nothing else in the provider changes |
| IoProvider.Initialize | src/main/java/io/flipswitch/FlipswitchProvider.java:170-211 | start-up succeeds exactly when the key check passes and the delegate starts; success is READY with a connecting client when realtime is on; a rejected key is ERROR with the matching message; other failures leave NOT_READY |
| IoProvider.CloseSse | src/main/java/io/flipswitch/FlipswitchProvider.java:229-232 | closing the client forgets it and changes nothing else in the provider |
| IoProvider.Shutdown | src/main/java/io/flipswitch/FlipswitchProvider.java:224-236 | shutdown leaves NOT_READY, polling off for good and no client, keeping listeners and configuration |
| IoProvider.GetSseStatus | src/main/java/io/flipswitch/FlipswitchProvider.java:377-379 | the status is the client's, or DISCONNECTED without one |
| IoProvider.ShutdownTwice | src/main/java/io/flipswitch/FlipswitchProvider.java:224-236 | shutdown can be repeated with no further change, and the stream status then reads DISCONNECTED |
| IoProvider.ReconnectSse | src/main/java/io/flipswitch/FlipswitchProvider.java:384-389 | a fresh connecting client replaces the old one only when realtime is on and a client exists; otherwise nothing changes |
| IoProvider.OneFailRound | src/main/java/io/flipswitch/FlipswitchProvider.java:298-310 | one stream failure and its reconnect act on the provider exactly as one ERROR callback, apart from the client, and keep it live |
| IoProvider.FailuresSwitchToPolling | src/main/java/io/flipswitch/FlipswitchProvider.java:299-310 | `k` failures raise the retry count by `k`, leave the provider STALE, and turn polling on exactly when it was on or fallback is enabled and the count reaches the limit |
| IoProvider.ReconnectRestoresReady | src/main/java/io/flipswitch/FlipswitchProvider.java:311-323 | a successful open after failures gives READY, a zero retry count, polling off and one ready event |
| IoProvider.FallbackScenario | src/main/java/io/flipswitch/FlipswitchProvider.java:298-325 | from a healthy provider, `n` failures switch polling on exactly when `n` reaches the retry limit, and the next open switches it off and restores READY |
| IoProvider.ValueField | src/main/java/io/flipswitch/FlipswitchProvider.java:476 | a value is non-null exactly when the field is present and not JSON null |
| IoProvider.Convert | src/main/java/io/flipswitch/FlipswitchProvider.java:475-482 | a reply object becomes a record under the given key whose reason and variant are kept only when they are strings |
| IoProvider.MetadataFlagType | src/main/java/io/flipswitch/FlipswitchProvider.java:560-569 | a flag type is read only from a `metadata` field that is present |
| IoProvider.ToEvaluation | src/main/java/io/flipswitch/FlipswitchProvider.java:472-482 | a keyed entry becomes a record whose key is the entry's string `key` |
| IoProvider.Kept | src/main/java/io/flipswitch/FlipswitchProvider.java:472-484 | one entry contributes at most one record |
| IoProvider.Collect | src/main/java/io/flipswitch/FlipswitchProvider.java:469-486 | the bulk result has at most one record per list entry |
| IoProvider.CollectMembers | src/main/java/io/flipswitch/FlipswitchProvider.java:469-486 | a record is in the bulk result exactly when some list entry is an object with a string key and converts to it |
| IoProvider.CollectAppend | src/main/java/io/flipswitch/FlipswitchProvider.java:471-485 | the bulk result of a concatenation is the results of its parts, in order |
| IoProvider.CollectSingle | src/main/java/io/flipswitch/FlipswitchProvider.java:472-484 | one entry contributes its conversion exactly when it has a string key, and nothing otherwise |
| IoProvider.EvaluateAllFlags | src/main/java/io/flipswitch/FlipswitchProvider.java:439-494 | a failed request or unsuccessful status gives the empty list; a readable `flags` list gives its keyed entries in order |
| IoProvider.EvaluateFlag | src/main/java/io/flipswitch/FlipswitchProvider.java:506-547 | a record is returned exactly when the request succeeds with an object body, keyed by its string `key` or else the requested key |
| IoProvider.EvaluateFlagKey | src/main/java/io/flipswitch/FlipswitchProvider.java:533-534 | a string key is used verbatim; a missing or non-string key falls back to the requested one |
| IoProvider.DarwinIsNotWindows | src/main/java/io/flipswitch/FlipswitchProvider.java:123-144 | an OS name containing "darwin" is reported as darwin, though "darwin" contains "win"; x86_64 becomes amd64 |
| IoProvider.NormalizeOs | src/main/java/io/flipswitch/FlipswitchProvider.java:127-134 | the OS name is kept or becomes darwin, windows or linux; any name containing "mac" or "darwin" becomes darwin; windows only for a name containing "win" but not "darwin" |
| IoProvider.NormalizeArch | src/main/java/io/flipswitch/FlipswitchProvider.java:136-141 | x86_64 becomes amd64, aarch64 becomes arm64, and every other architecture is kept |
| IoProvider.OsHeader | src/main/java/io/flipswitch/FlipswitchProvider.java:123-144 | with neither property set the header is "unknown/unknown" |
| IoProvider.UnknownIsNoKnownOs | src/main/java/io/flipswitch/FlipswitchProvider.java:123-141 | the "unknown" default is already lower case and matches no known OS or architecture, so both normalisers keep it |
| IoProvider.NormalizeOsIdempotent | src/main/java/io/flipswitch/FlipswitchProvider.java:127-134 | normalising an already normalised OS name changes nothing |
| IoProvider.NormalizeArchIdempotent | src/main/java/io/flipswitch/FlipswitchProvider.java:136-141 | architecture normalisation is idempotent; amd64 and x86_64 give amd64, aarch64 gives arm64 |
| DevProvider.NewBuilder | src/main/java/dev/flipswitch/FlipswitchProvider.java:442-453 | the builder refuses a null or empty key with "apiKey is required"; otherwise realtime is on and the base URL is the default |
| DevProvider.Create | src/main/java/dev/flipswitch/FlipswitchProvider.java:56-70 | a new provider is NOT_READY with no client and no listeners, on a base URL at most one char shorter |
| DevProvider.CreateStripsOneSlash | src/main/java/dev/flipswitch/FlipswitchProvider.java:57 | the base URL loses exactly one trailing slash |
| DevProvider.OnStatus | src/main/java/dev/flipswitch/FlipswitchProvider.java:153-161 | ERROR makes the provider STALE from any state with one stale event; CONNECTED turns only STALE into READY; nothing else changes anything |
| DevProvider.StateChangesNeedStatus | src/main/java/dev/flipswitch/FlipswitchProvider.java:153-161 | only ERROR can make the provider stale, and only CONNECTED can make it ready |
| DevProvider.Initialize | src/main/java/dev/flipswitch/FlipswitchProvider.java:92-132 | start-up succeeds exactly when the key check passes and the delegate starts; success is READY with a client exactly when realtime is on or one existed; a rejected key is ERROR |
| DevProvider.Shutdown | src/main/java/dev/flipswitch/FlipswitchProvider.java:135-143 | shutdown sets NOT_READY and drops the client, keeping configuration, base URL and listeners |
| DevProvider.GetSseStatus | src/main/java/dev/flipswitch/FlipswitchProvider.java:201-203 | the status is the client's, or DISCONNECTED without one |
| DevProvider.ShutdownDisconnects | src/main/java/dev/flipswitch/FlipswitchProvider.java:135-143 | after shutdown the status reads DISCONNECTED whatever the old client says, and a second shutdown changes nothing |
| DevProvider.ReconnectSse | src/main/java/dev/flipswitch/FlipswitchProvider.java:208-213 | the client is replaced exactly when realtime is on and a client exists |
| DevProvider.NoReconnectAfterShutdown | src/main/java/dev/flipswitch/FlipswitchProvider.java:208-213 | after shutdown a forced reconnect does nothing |
| DevProvider.HandleFlagChange | src/main/java/dev/flipswitch/FlipswitchProvider.java:170-182 | each listener is called once in order, then exactly one configuration-changed event follows |
| DevProvider.AddListener | src/main/java/dev/flipswitch/FlipswitchProvider.java:187-189 | a listener is appended and nothing else changes |
| DevProvider.RemoveListener | src/main/java/dev/flipswitch/FlipswitchProvider.java:194-196 | the first registration of the listener is dropped and nothing else changes |
| DevProvider.AddRemoveNotifies | src/main/java/dev/flipswitch/FlipswitchProvider.java:170-196 | a listener added and removed again is no longer called, and the others still are, in order |
| DevProvider.TextField | src/main/java/dev/flipswitch/FlipswitchProvider.java:296-297 | a field reads as text exactly when present, as Jackson's `asText` of its value |
| DevProvider.MetadataFlagType | src/main/java/dev/flipswitch/FlipswitchProvider.java:365-373 | a flag type is read only when both `metadata` and its `flagType` are present |
| DevProvider.ToEvaluation | src/main/java/dev/flipswitch/FlipswitchProvider.java:294-301 | a reply object becomes a record with the given key, the raw value node, and reason and variant as text |
| DevProvider.Kept | src/main/java/dev/flipswitch/FlipswitchProvider.java:294-302 | an entry contributes one record exactly when it has a `key` field of any JSON type |
| DevProvider.Collect | src/main/java/dev/flipswitch/FlipswitchProvider.java:292-304 | the bulk result has at most one record per list entry |
| DevProvider.CollectCountsKeyed | src/main/java/dev/flipswitch/FlipswitchProvider.java:292-304 | the bulk result has one record per keyed entry |
| DevProvider.CollectAppend | src/main/java/dev/flipswitch/FlipswitchProvider.java:293-303 | the bulk result of a concatenation is the results of its parts, in order |
| DevProvider.EvaluateAllFlags | src/main/java/dev/flipswitch/FlipswitchProvider.java:263-311 | a failed request, unsuccessful status or unreadable body gives the empty list; a `flags` array gives its keyed entries in order |
| DevProvider.EvaluateFlag | src/main/java/dev/flipswitch/FlipswitchProvider.java:323-360 | a record is returned exactly when the request succeeds with a readable body, keyed by its `key` as text or else the requested key |
| DevProvider.EvaluateFlagKey | src/main/java/dev/flipswitch/FlipswitchProvider.java:348 | a string key is used verbatim and a missing key falls back to the requested one |
| DevFlagCache.New | src/main/java/dev/flipswitch/FlagCache.java:35-37 | a new cache is empty with the given TTL |
| DevFlagCache.NewDefault | src/main/java/dev/flipswitch/FlagCache.java:42-44 | the no-argument cache has a 60-second TTL |
| DevFlagCache.IsExpired | src/main/java/dev/flipswitch/FlagCache.java:22-24 | with a non-negative TTL an entry is never expired at or before its write time and expired only strictly after it; with a negative TTL it is expired from its write time on |
| DevFlagCache.Size | src/main/java/dev/flipswitch/FlagCache.java:112-114 | the size is 0 exactly for an empty cache, and at least 1 while any key is stored |
| DevFlagCache.Get | src/main/java/dev/flipswitch/FlagCache.java:54-66 | a read returns the stored value exactly when the key is present and its age is at most the TTL; an expired entry is removed by the read; other entries are untouched |
| DevFlagCache.Set | src/main/java/dev/flipswitch/FlagCache.java:75-77 | a write stores the value stamped with the current time and keeps every other entry |
| DevFlagCache.Invalidate | src/main/java/dev/flipswitch/FlagCache.java:84-86 | invalidation removes that key and keeps every other entry |
| DevFlagCache.InvalidateAll | src/main/java/dev/flipswitch/FlagCache.java:91-93 | full invalidation leaves size 0 |
| DevFlagCache.Clear | src/main/java/dev/flipswitch/FlagCache.java:119-121 | clearing leaves size 0 |
| DevFlagCache.HandleFlagChange | src/main/java/dev/flipswitch/FlagCache.java:101-107 | a keyed event removes that key only; a keyless event removes everything |
| DevFlagCache.GetAfterSet | src/main/java/dev/flipswitch/FlagCache.java:54-77 | a read after a write returns the written value exactly while the entry's age is at most the TTL |
| DevFlagCache.ExpiryBoundary | src/main/java/dev/flipswitch/FlagCache.java:22-63 | an entry read exactly at its TTL is returned; one millisecond later it is absent and removed |
| DevFlagCache.GetAbsent | src/main/java/dev/flipswitch/FlagCache.java:55-58 | an absent key reads as null and the read changes nothing |
| DevFlagCache.InvalidateKeepsOthers | src/main/java/dev/flipswitch/FlagCache.java:84-86 | after invalidating a key it reads as null, and every other read is as before |
| DevFlagCache.InvalidateAllEmpties | src/main/java/dev/flipswitch/FlagCache.java:91-121 | after full invalidation or clearing every read is null |
| DevFlagCache.SetOverwrites | src/main/java/dev/flipswitch/FlagCache.java:75-77 | a second write replaces the first, value and age |
| DevFlagCache.FlagChangeReads | src/main/java/dev/flipswitch/FlagCache.java:101-107 | a change event hides exactly its flag, or every flag when it has no key |
| DevFlagEvaluation.InferType | src/main/java/dev/flipswitch/FlagEvaluation.java:44-61 | the inferred type is "null" exactly for a missing or JSON-null value, "boolean" exactly for a boolean, "integer" exactly for a whole number fitting a `long`, "number" for other numbers, "string" exactly for text, "array" and "object" exactly for containers |
| DevFlagEvaluation.MetadataTypeName | src/main/java/dev/flipswitch/FlagEvaluation.java:31-38 | exactly the four backend names `boolean`, `string`, `integer` and `decimal` map to a type, never "null"; all but `decimal` map to themselves |
| DevFlagEvaluation.TypeFromMetadataOrInfer | src/main/java/dev/flipswitch/FlagEvaluation.java:28-42 | metadata `boolean`, `string` and `integer` are kept, `decimal` becomes `number`, and missing, empty or unknown metadata falls back to inference |
| DevFlagEvaluation.MetadataOverridesValue | src/main/java/dev/flipswitch/FlagEvaluation.java:28-42 | a known metadata type wins even when it disagrees with the value; empty or unknown metadata does not |
| DevFlagEvaluation.Make | src/main/java/dev/flipswitch/FlagEvaluation.java:20-26 | the constructor keeps its arguments and computes the value type once from metadata or the value |
| DevFlagEvaluation.ValueAsString | src/main/java/dev/flipswitch/FlagEvaluation.java:74-82 | a null value renders as "null", text in plain double quotes, anything else as its JSON text |
| DevFlagEvaluation.ToString | src/main/java/dev/flipswitch/FlagEvaluation.java:118-121 | the text starts with `key (type): ` and ends with `]` |
| DevFlagEvaluation.ToStringVariantPart | src/main/java/dev/flipswitch/FlagEvaluation.java:118-121 | with a variant the text ends with `, variant=V]` and contains the marker; without one it ends with `[reason=R]` |
| DevFlagEvaluation.AsBoolean | src/main/java/dev/flipswitch/FlagEvaluation.java:101-103 | a null value reads as false, any other through Jackson's view |
| DevFlagEvaluation.AsInt | src/main/java/dev/flipswitch/FlagEvaluation.java:105-107 | a null value reads as 0, any other through Jackson's view |
| DevFlagEvaluation.AsString | src/main/java/dev/flipswitch/FlagEvaluation.java:113-115 | the text is null exactly for a null value, and a string value reads as itself |
| DevFlagEvaluation.NullValueDefaults | src/main/java/dev/flipswitch/FlagEvaluation.java:101-115 | with no value, `asBoolean` is false, `asInt` 0, `asString` null and the inferred type "null" |
| SseFraming.Feed | src/main/java/dev/flipswitch/openfeature/FlipswitchSseClient.java:146-160 | one line dispatches an event exactly when it is blank |
| SseFraming.ParseLines | src/main/java/dev/flipswitch/openfeature/FlipswitchSseClient.java:140-162 | no lines dispatch nothing and leave the locals alone; at most one event is dispatched per line |
| SseFraming.FeedSpec | src/main/java/dev/flipswitch/openfeature/FlipswitchSseClient.java:146-160 | a blank line dispatches type, id and trimmed data and resets the locals; `data:` appends its trimmed rest; `event:` and `id:` overwrite; any other line is ignored |
| SseFraming.FieldPrefixesExclusive | src/main/java/dev/flipswitch/openfeature/FlipswitchSseClient.java:153-159 | a line starts with at most one of the three field names, so the order of the tests does not matter |
| SseFraming.OneFramePerBlankLine | src/main/java/dev/flipswitch/openfeature/FlipswitchSseClient.java:147-152 | exactly one event is dispatched per blank line, even with no fields seen |
| SseFraming.ParseAppend | src/main/java/dev/flipswitch/openfeature/FlipswitchSseClient.java:140-162 | reading two chunks in turn is reading their concatenation |
| SseFraming.UnterminatedFrameIsDropped | src/main/java/dev/flipswitch/openfeature/FlipswitchSseClient.java:146-161 | lines with no blank line after them dispatch nothing |
| SseFraming.Serialize | src/main/java/dev/flipswitch/openfeature/FlipswitchSseClient.java:146-160 | an event as the server writes it: non-empty field lines ended by one blank line |
| SseFraming.FeedId | src/main/java/dev/flipswitch/openfeature/FlipswitchSseClient.java:157-158 | an `id:` line with a trimmed value sets exactly the id |
| SseFraming.FeedEvent | src/main/java/dev/flipswitch/openfeature/FlipswitchSseClient.java:155-156 | an `event:` line with a trimmed value sets exactly the type |
| SseFraming.FeedData | src/main/java/dev/flipswitch/openfeature/FlipswitchSseClient.java:153-154 | a `data:` line with a trimmed value appends exactly that value |
| SseFraming.ParseBlankLine | src/main/java/dev/flipswitch/openfeature/FlipswitchSseClient.java:147-152 | a blank line alone dispatches the current locals with trimmed data and starts afresh |
| SseFraming.SerializeRoundTrip | src/main/java/dev/flipswitch/openfeature/FlipswitchSseClient.java:140-162 | reading what the server wrote gives back exactly the event, and the reader ends fresh |
| SseFraming.SilentPrefix | src/main/java/dev/flipswitch/openfeature/FlipswitchSseClient.java:146-161 | lines that dispatch nothing only hand their locals on |
| SseFraming.DataLine | src/main/java/dev/flipswitch/openfeature/FlipswitchSseClient.java:153-154 | one `data:` line with a trimmed value appends exactly that value and dispatches nothing |
| SseFraming.DataLinesConcatenate | src/main/java/dev/flipswitch/openfeature/FlipswitchSseClient.java:153-154 | two `data:` lines join with nothing between them |
| FlagChangePayload.DigitRunEnd | src/main/java/dev/flipswitch/openfeature/FlipswitchSseClient.java:204-207 | the scan stops at the first non-digit or the end, and everything it passed is a digit |
| FlagChangePayload.SkipWhitespace | src/main/java/dev/flipswitch/openfeature/FlipswitchSseClient.java:220-223 | the scan passes only whitespace and stops at the first non-whitespace char or the end |
| FlagChangePayload.ParseEnvironmentId | src/main/java/dev/flipswitch/openfeature/FlipswitchSseClient.java:199-213 | without the marker the id is 0; a parsed id is never negative; it throws only when the marker is present |
| FlagChangePayload.ParseEnvironmentIdAt | src/main/java/dev/flipswitch/openfeature/FlipswitchSseClient.java:199-213 | after the marker, no digits give 0; otherwise the id parses exactly when the digit run's value fits in an `int`, and is that value |
| FlagChangePayload.ParseFlagKey | src/main/java/dev/flipswitch/openfeature/FlipswitchSseClient.java:215-239 | without the marker the key is null; a parsed key is non-empty, holds no quote, and occurs quoted in the payload; its exact value is stated by `ParseFlagKeyAt` and `ParseFlagKeyQuoted` |
| FlagChangePayload.QuotedValueAt | src/main/java/dev/flipswitch/openfeature/FlipswitchSseClient.java:224-236 | a key read at a position is non-empty, quote-free, and occurs between quotes in the payload |
| FlagChangePayload.ParseFlagKeyAt | src/main/java/dev/flipswitch/openfeature/FlipswitchSseClient.java:215-239 | after the marker and any whitespace, no quote there means no key; a key found is exactly the text from that quote up to the first quote after it |
| FlagChangePayload.ParseFlagKeyQuoted | src/main/java/dev/flipswitch/openfeature/FlipswitchSseClient.java:228-235 | with a quote after the marker and its first closing quote at `e`, the key is the text between them, or null when that text is empty |
| FlagChangePayload.ParseTimestamp | src/main/java/dev/flipswitch/openfeature/FlipswitchSseClient.java:241-252 | without the marker the time is now; it throws only when some non-empty text of the payload is one `Instant.parse` rejects; its exact value is stated by `ParseTimestampQuoted` and `ParseTimestampUnclosed` |
| FlagChangePayload.TimestampAt | src/main/java/dev/flipswitch/openfeature/FlipswitchSseClient.java:245-251 | a timestamp read at a position throws only for some non-empty text of the payload that `Instant.parse` rejects |
| FlagChangePayload.ParseTimestampQuoted | src/main/java/dev/flipswitch/openfeature/FlipswitchSseClient.java:241-252 | with the first quote after the marker at `e`, empty text gives now; otherwise the result succeeds exactly when `Instant.parse` accepts the text, with its value |
| FlagChangePayload.ParseTimestampUnclosed | src/main/java/dev/flipswitch/openfeature/FlipswitchSseClient.java:246-251 | with no quote after the marker the time is now |
| FlagChangePayload.ParseEvent | src/main/java/dev/flipswitch/openfeature/FlipswitchSseClient.java:187-197 | parsing succeeds exactly when the id and timestamp parse, and gives the three parsed fields |
| FlagChangePayload.Decode | src/main/java/dev/flipswitch/openfeature/FlipswitchSseClient.java:175-183 | the listener gets the parsed event, or environment 0 with no key at the current time when parsing throws |
| FlagChangePayload.EncodedEnvironmentId | src/main/java/dev/flipswitch/openfeature/FlipswitchSseClient.java:199-213 | the environment id the server writes is read back |
| FlagChangePayload.EncodedFlagKey | src/main/java/dev/flipswitch/openfeature/FlipswitchSseClient.java:215-239 | the flag key, or its null, that the server writes is read back |
| FlagChangePayload.EncodedTimestamp | src/main/java/dev/flipswitch/openfeature/FlipswitchSseClient.java:241-252 | the timestamp text the server writes is exactly what `Instant.parse` sees |
| FlagChangePayload.EncodedEventRoundTrip | src/main/java/dev/flipswitch/openfeature/FlipswitchSseClient.java:187-197 | the whole payload round-trips: the listener gets the event the server described |
| FlagChangePayload.BadTimestampFallsBack | src/main/java/dev/flipswitch/openfeature/FlipswitchSseClient.java:175-252 | a timestamp `Instant.parse` rejects turns the whole event into the fallback event |
| OpenFeatureSseClient.DefaultSettings | src/test/java/dev/flipswitch/openfeature/FlipswitchSseClientTest.java:71-73 | the default timings have the base delay no larger than the maximum |
| OpenFeatureSseClient.ListenerEvent | src/main/java/dev/flipswitch/openfeature/FlipswitchSseClient.java:172-183 | a reported flag change reaches the listener as the parsed payload, or the fallback event when parsing throws |
| OpenFeatureSseClient.Request | src/main/java/dev/flipswitch/openfeature/FlipswitchSseClient.java:107-124 | a request sets the phase to awaiting, changes nothing else, and sends the stream URL with a `Last-Event-ID` header exactly when an id was seen |
| OpenFeatureSseClient.ConnectStep | src/main/java/dev/flipswitch/openfeature/FlipswitchSseClient.java:67-74 | a running client ignores `connect`; otherwise it runs with the base delay and the heartbeat clock at now; the executor rejects the loop exactly when it was shut down; a connection phase starts only on a live executor |
| OpenFeatureSseClient.FailStep | src/main/java/dev/flipswitch/openfeature/FlipswitchSseClient.java:89-101 | an idle client does nothing; otherwise it sleeps the current delay and requests again, with the delay doubled or at the maximum and never above it, and nothing else changed |
| OpenFeatureSseClient.FailStepAgreesWithInt32 | src/main/java/dev/flipswitch/openfeature/FlipswitchSseClient.java:99-101 | while the maximum is below 2^30 the unbounded doubling equals the 32-bit `Math.min(d * 2, max)` |
| OpenFeatureSseClient.ProcessFrame | src/main/java/dev/flipswitch/openfeature/FlipswitchSseClient.java:164-185 | an event changes only the resume id and the heartbeat clock, and gives no call or one listener call with its data at now |
| OpenFeatureSseClient.LineStep | src/main/java/dev/flipswitch/openfeature/FlipswitchSseClient.java:140-162 | a line outside a stream does nothing; a line gives no call or one listener call at now |
| OpenFeatureSseClient.TickStep | src/main/java/dev/flipswitch/openfeature/FlipswitchSseClient.java:254-270 | a dead monitor does nothing; staleness is reported exactly when the monitor is alive and the silence exceeds the timeout; the monitor stays alive only while running |
| OpenFeatureSseClient.Step | src/main/java/dev/flipswitch/openfeature/FlipswitchSseClient.java:67-273 | `close` shuts the executor for good, stops running, goes idle and reports nothing; only `connect` can set `running`; a rejected loop needs `connect` on a shut executor; staleness comes only from a monitor check |
| OpenFeatureSseClient.StepPreservesValid | src/main/java/dev/flipswitch/openfeature/FlipswitchSseClient.java:67-138 | every input keeps the delay within its bounds while running and a loop only on a live executor; a shut executor stays shut, and its finished monitor never restarts |
| OpenFeatureSseClient.ConnectStarts | src/main/java/dev/flipswitch/openfeature/FlipswitchSseClient.java:67-74 | a client that is not running starts: delay at the base, heartbeat clock at now, monitor alive, and one request carrying the resume id |
| OpenFeatureSseClient.FirstRequestHasNoResumeId | src/main/java/dev/flipswitch/openfeature/FlipswitchSseClient.java:116-119 | a new client's first request carries no `Last-Event-ID` |
| OpenFeatureSseClient.ConnectWhileRunningIsNoOp | src/main/java/dev/flipswitch/openfeature/FlipswitchSseClient.java:68 | `connect` on a running client does nothing |
| OpenFeatureSseClient.ConnectAfterCloseIsRejected | src/main/java/dev/flipswitch/openfeature/FlipswitchSseClient.java:67-83 | after `close`, `connect` sets `running` again but the executor rejects the loop: no request and no stream |
| OpenFeatureSseClient.OkResetsDelay | src/main/java/dev/flipswitch/openfeature/FlipswitchSseClient.java:126-136 | HTTP 200 resets the delay to the base and starts reading with empty locals |
| OpenFeatureSseClient.FailureBacksOff | src/main/java/dev/flipswitch/openfeature/FlipswitchSseClient.java:85-128 | a non-200 status, like an I/O error, sleeps the current delay, doubles it up to the maximum and requests again |
| OpenFeatureSseClient.EndOfStreamReconnectsAtOnce | src/main/java/dev/flipswitch/openfeature/FlipswitchSseClient.java:85-146 | a stream the server ends is requested again at once with the delay untouched |
| OpenFeatureSseClient.ProcessFrameSpec | src/main/java/dev/flipswitch/openfeature/FlipswitchSseClient.java:164-185 | a present id overwrites the resume id; heartbeats and flag changes alone refresh the heartbeat clock; a flag change gives exactly one listener call; nothing else changes |
| OpenFeatureSseClient.UnparsableFlagChangeStillNotifies | src/main/java/dev/flipswitch/openfeature/FlipswitchSseClient.java:175-183 | a flag change whose payload fails to parse still reaches the listener, as environment 0 with no key |
| OpenFeatureSseClient.ServerFlagChangeReachesListener | src/main/java/dev/flipswitch/openfeature/FlipswitchSseClient.java:172-197 | a flag change the server wrote reaches the listener as the event it described |
| OpenFeatureSseClient.TickSpec | src/main/java/dev/flipswitch/openfeature/FlipswitchSseClient.java:256-264 | the monitor reports staleness exactly when the silence exceeds the timeout, then restarts the clock, and goes on only while running |
| OpenFeatureSseClient.StaleAtMostOncePerWindow | src/main/java/dev/flipswitch/openfeature/FlipswitchSseClient.java:259-263 | after one staleness report, a check within the next timeout window stays silent |
| OpenFeatureSseClient.LineStepKeepsConnection | src/main/java/dev/flipswitch/openfeature/FlipswitchSseClient.java:140-185 | a line changes only the reader's locals, the resume id and the heartbeat clock |
| OpenFeatureSseClient.RunPreservesValid | src/main/java/dev/flipswitch/openfeature/FlipswitchSseClient.java:67-138 | any sequence of inputs keeps the invariant |
| OpenFeatureSseClient.ShutRunIsQuiet | src/main/java/dev/flipswitch/openfeature/FlipswitchSseClient.java:80-83 | a closed client whose monitor has ended never again requests, sleeps, notifies or reports staleness |
| OpenFeatureSseClient.CloseThenTickIsFinal | src/main/java/dev/flipswitch/openfeature/FlipswitchSseClient.java:254-273 | after `close` the monitor may report once more, then the client is quiet forever |
| OpenFeatureSseClient.FailuresDoubleDelay | src/main/java/dev/flipswitch/openfeature/FlipswitchSseClient.java:99-101 | after `k` failed attempts in a row the delay is the `k`-fold capped doubling, `min(base * 2^k, max)` from the base |
| OpenFeatureSseClient.BlankLineDispatches | src/main/java/dev/flipswitch/openfeature/FlipswitchSseClient.java:147-152 | a blank line processes the locals with trimmed data and empties them |
| OpenFeatureSseClient.UntypedFrameRecordsId | src/main/java/dev/flipswitch/openfeature/FlipswitchSseClient.java:165-167 | an event with an id and no type only records the id |
| OpenFeatureSseClient.BlankLineRecordsId | src/main/java/dev/flipswitch/openfeature/FlipswitchSseClient.java:147-167 | a blank line after an `id:` line records the id and nothing else |
| OpenFeatureSseClient.IdLineFillsId | src/main/java/dev/flipswitch/openfeature/FlipswitchSseClient.java:157-158 | an `id:` line only fills the reader's id |
| OpenFeatureSseClient.ResumesFromLastId | src/main/java/dev/flipswitch/openfeature/FlipswitchSseClient.java:116-167 | an id seen in the stream is sent back as `Last-Event-ID` when the stream is requested again |
| OpenFeatureFlag.EffectiveValue | src/main/java/dev/flipswitch/openfeature/Flag.java:47-49 | the effective value is the string value when non-null, otherwise the default, and null only when both are |
| OpenFeatureFlag.EffectiveValueSources | src/main/java/dev/flipswitch/openfeature/Flag.java:47-49 | the effective value is one of the two stored values, and the default of an evaluated flag never shows |
| OpenFeatureEvaluationResult.BooleanValue | src/main/java/dev/flipswitch/openfeature/EvaluationResult.java:80-85 | the Boolean view is non-null exactly when the value is a Boolean, and is that value |
| OpenFeatureEvaluationResult.IsErrorByCodeOnly | src/main/java/dev/flipswitch/openfeature/EvaluationResult.java:73-75 | a result is an error exactly when it has an error code; the value and details do not matter, and clearing the code clears the error |
| OpenFeatureEvaluationResult.StringValue | src/main/java/dev/flipswitch/openfeature/EvaluationResult.java:90-95 | the String view is non-null exactly when the value is a String, and is that value |
| OpenFeatureEvaluationResult.IntegerValue | src/main/java/dev/flipswitch/openfeature/EvaluationResult.java:100-108 | the Integer view is non-null exactly for a number; a whole number is narrowed to 32 bits, and one already in range is returned unchanged |
| OpenFeatureEvaluationResult.StructureValue | src/main/java/dev/flipswitch/openfeature/EvaluationResult.java:127-132 | the structure view is non-null exactly when the value is a Map, and is that map |
| OpenFeatureEvaluationResult.AtMostOneView | src/main/java/dev/flipswitch/openfeature/EvaluationResult.java:80-132 | at most one typed view is non-null, and none is for null or a list |
| OpenFeatureEvaluationResult.IntegerValueNarrows | src/main/java/dev/flipswitch/openfeature/EvaluationResult.java:104-105 | a long beyond the `int` range keeps its low 32 bits: 2^32 + 5 reads as 5 and 2^31 as `Integer.MIN_VALUE` |
| OpenFeatureProvider.AsString | src/main/java/dev/flipswitch/openfeature/FlipswitchProvider.java:293-294 | a value has a string view exactly when it is a non-null string |
| OpenFeatureProvider.ContextToIdentity | src/main/java/dev/flipswitch/openfeature/FlipswitchProvider.java:283-302 | no context gives "anonymous" with no traits; a null or empty targeting key gives "anonymous"; the traits are exactly the attributes with a string view, with that string |
| OpenFeatureProvider.IdentityFromContext | src/main/java/dev/flipswitch/openfeature/FlipswitchProvider.java:288-299 | the id is never empty; a string attribute shows up unchanged among the traits, and a null or non-string one never does |
| OpenFeatureProvider.NewProvider | src/main/java/dev/flipswitch/openfeature/FlipswitchProvider.java:39-50 | a new provider has an empty map, no context, and a stream client exactly when streaming is enabled |
| OpenFeatureProvider.LastWithKey | src/main/java/dev/flipswitch/openfeature/FlipswitchProvider.java:163-166 | the flag found for a key is one of the fetched flags and carries that key; none is found only when no fetched flag has it |
| OpenFeatureProvider.Fill | src/main/java/dev/flipswitch/openfeature/FlipswitchProvider.java:164-166 | filling the map throws exactly when some fetched flag has a null key |
| OpenFeatureProvider.FillLastWins | src/main/java/dev/flipswitch/openfeature/FlipswitchProvider.java:164-166 | with keyed flags, each key maps to the last flag that has it, and other keys keep their entries |
| OpenFeatureProvider.FillStopsAtNullKey | src/main/java/dev/flipswitch/openfeature/FlipswitchProvider.java:164-166 | a null key stops the loop: the flags before it are stored and the rest are not read |
| OpenFeatureProvider.RefreshFlagsInternal | src/main/java/dev/flipswitch/openfeature/FlipswitchProvider.java:160-167 | the context is recorded first; a failed fetch keeps the map and rethrows; a successful one replaces the map, throwing only on a null key |
| OpenFeatureProvider.RefreshReplacesMap | src/main/java/dev/flipswitch/openfeature/FlipswitchProvider.java:160-167 | after a successful refresh the map holds exactly the fetched keys, each with its last fetched flag |
| OpenFeatureProvider.RefreshSingleFlag | src/main/java/dev/flipswitch/openfeature/FlipswitchProvider.java:114-123 | a single refresh emits nothing, keeps the context, and on a throw leaves the map as it was |
| OpenFeatureProvider.RefreshSingleKeepsOthers | src/main/java/dev/flipswitch/openfeature/FlipswitchProvider.java:114-123 | a found flag is stored under its own key, a flag gone is removed under the requested key, and every other entry is unchanged |
| OpenFeatureProvider.OnFlagChange | src/main/java/dev/flipswitch/openfeature/FlipswitchProvider.java:94-109 | a stream event never throws and emits exactly one event: configuration-changed or an error |
| OpenFeatureProvider.OnFlagChangeSpec | src/main/java/dev/flipswitch/openfeature/FlipswitchProvider.java:94-109 | a keyed event refreshes that flag, a keyless one everything with the last context; a failure is reported as "Failed to refresh flags after SSE event: " plus the cause |
| OpenFeatureProvider.StreamedChangeRefreshes | src/main/java/dev/flipswitch/openfeature/FlipswitchSseClient.java:172-183 | a payload naming a flag makes the provider refetch that flag alone; an unreadable payload makes it refetch everything |
| OpenFeatureProvider.RefreshFlags | src/main/java/dev/flipswitch/openfeature/FlipswitchProvider.java:141-144 | `refreshFlags` refreshes like the internal refresh and emits configuration-changed exactly when it does not throw |
| OpenFeatureProvider.Initialize | src/main/java/dev/flipswitch/openfeature/FlipswitchProvider.java:66-79 | ready is emitted exactly when nothing throws; otherwise one error event "Initialization failed: " plus the cause, and the exception is rethrown |
| OpenFeatureProvider.InitializeReadyIff | src/main/java/dev/flipswitch/openfeature/FlipswitchProvider.java:66-79 | ready exactly when the fetch succeeds with keyed flags and the stream client accepts the connection; a first start with streaming leaves the client running |
| OpenFeatureProvider.Shutdown | src/main/java/dev/flipswitch/openfeature/FlipswitchProvider.java:82-87 | shutdown closes the stream client for good and empties the map |
| OpenFeatureProvider.InitializeAfterShutdownFails | src/main/java/dev/flipswitch/openfeature/FlipswitchProvider.java:66-87 | a streaming provider initialised again after shutdown fails, because the stream client's executor rejects the loop |
| OpenFeatureProvider.OnStale | src/main/java/dev/flipswitch/openfeature/FlipswitchProvider.java:128-132 | a missed heartbeat emits one stale event with a message |
| OpenFeatureProvider.MarkStale | src/main/java/dev/flipswitch/openfeature/FlipswitchProvider.java:150-154 | `markStale` emits one stale event whose message differs from the heartbeat one |
| OpenFeatureProvider.Missing | src/main/java/dev/flipswitch/openfeature/FlipswitchProvider.java:172-177 | a miss answers the caller's default with reason DEFAULT and no variant or error |
| OpenFeatureProvider.Found | src/main/java/dev/flipswitch/openfeature/FlipswitchProvider.java:183-187 | a hit answers with the flag's variant and reason and no error |
| OpenFeatureProvider.BooleanEvaluation | src/main/java/dev/flipswitch/openfeature/FlipswitchProvider.java:170-188 | an absent key gives the default; a present one gives `Boolean.parseBoolean` of the effective value with the flag's variant and reason |
| OpenFeatureProvider.ParseBoolean | src/main/java/dev/flipswitch/openfeature/FlipswitchProvider.java:180-181 | `Boolean.parseBoolean` is true only for a four-char text spelled t…e in either case; "true", "TRUE" and "True" are true; "false", "yes", "1" and "" are false |
| OpenFeatureProvider.StringEvaluation | src/main/java/dev/flipswitch/openfeature/FlipswitchProvider.java:191-206 | an absent key gives the default; a present one gives the effective value with the flag's variant and reason |
| OpenFeatureProvider.IntegerEvaluation | src/main/java/dev/flipswitch/openfeature/FlipswitchProvider.java:209-234 | an absent key gives the default; an error code comes only with a present key, the default value and reason ERROR |
| OpenFeatureProvider.ObjectEvaluation | src/main/java/dev/flipswitch/openfeature/FlipswitchProvider.java:265-281 | an absent key gives the default; a present one wraps the effective value, with the flag's variant and reason |
| OpenFeatureProvider.BooleanLookupIff | src/main/java/dev/flipswitch/openfeature/FlipswitchProvider.java:180-187 | a stored flag reads true exactly when its effective value spells "true" in any case |
| OpenFeatureProvider.IntegerLookupRoundTrip | src/main/java/dev/flipswitch/openfeature/FlipswitchProvider.java:219-226 | a stored decimal `int` reads back as itself with the flag's variant and reason |
| OpenFeatureProvider.IntegerLookupParseError | src/main/java/dev/flipswitch/openfeature/FlipswitchProvider.java:227-233 | a value `Integer.parseInt` rejects, or null, gives the default, reason ERROR, PARSE_ERROR and "Failed to parse integer: " plus the value |
| OpenFeatureProvider.LookupsAfterShutdownAreDefault | src/main/java/dev/flipswitch/openfeature/FlipswitchProvider.java:172-177 | after shutdown every lookup gives the caller's default with reason DEFAULT |

## Left out

- Network I/O: OkHttp event sources, `java.net.http`, request and header construction, and the whole of `FlipswitchClient.java`. HTTP replies are status codes, decoded bodies or thrown messages given as inputs.
- Concurrency: executors, schedulers, sleeps, atomics and `volatile`. Each callback or timer firing is one atomic step. The race between a reconnect's doubling and the reset in `onOpen`, and the interruption of a sleep by `close`, are not modelled.
- JSON libraries: Moshi and Jackson parsing and rendering are abstract (a decoder parameter, a parsed `Json` tree, Jackson's `asBoolean`/`asInt` views and the JSON text of a node as parameters).
- Floating point: `Math.floor` in the context transformation, `Double.parseDouble` in `getDoubleEvaluation`, `getDoubleValue`, `asDouble`, and `Number.intValue()` of a double (a parameter of `OpenFeatureEvaluationResult.IntegerValue`).
- `java.time`: instants are `nat` milliseconds, `Instant.parse` is a parameter, and `Instant.now()` is the time carried by the input.
- The OpenFeature SDK: event emission is a returned sequence; the delegation of `get*Evaluation` to the OFREP provider in the `io` and `dev` providers is not modelled, nor are `getMetadata` and `getState` beyond the state field.
- The context transformations (`transformContext`, `valueToObject`, `addValueToNode`, `valueToJsonNode`) and the telemetry SDK, runtime and features headers, which only read system properties.
- `dev.flipswitch.SseClient` is not part of this model; the `dev` provider takes its status as an input.
- The `api-key-rotated` warning of `config-updated` is only logged, so the reason field of `ConfigUpdatedEvent` is not modelled.
- Characters: `Integer.parseInt` accepts only ASCII digits here, and `equalsIgnoreCase` and `toLowerCase` fold ASCII letters only.
- `BufferedReader.readLine` line splitting: lines arrive already split.
- A null element or a null list among the fetched flags, and a null lookup key, in the openfeature provider; a null key among the fetched flags is modelled.
- The message of the RejectedExecutionException thrown by `connect` after `close`; a fixed text stands for it.
- Negative timings: the `io` and `dev` settings and the `DevFlagCache` TTL are `int`s, so negative values are allowed but not studied. The openfeature stream client's timings (`OpenFeatureSseClient.Settings`) are `nat`, so negative delays and timeouts, which the Java `int`/`long` fields would accept, are not modelled there.
- IoProvider.OnStatus: `sseRetryCount` is an unbounded counter, not a 32-bit `int` that would wrap after 2^31 errors.
- DevFlagEvaluation.ToStringVariantPart: states the tail of `toString`, not the full text before it.
- OpenFeatureSseClient.CloseThenTickIsFinal: the monitor thread is modelled as waking at most once after `close`; how long it sleeps is not modelled.
- OpenFeatureSseClient.FailStep: the delay is doubled with the unbounded `Backoff.Next`, the corrected doubling; the 32-bit `d * 2` of the code, which wraps once the maximum is 2^30 or more, is modelled only in `Backoff.NextInt32` (see Findings), and `OpenFeatureSseClient.FailStepAgreesWithInt32` proves the two agree while the maximum is below 2^30. The negative sleep that ends the loop after a wrap is not modelled.
- OpenFeatureSseClient.FailureBacksOff: inherits the corrected doubling of `FailStep`; it is the code's behaviour only while the maximum is below 2^30.
- OpenFeatureSseClient.FailuresDoubleDelay: `min(base * 2^k, max)` is the code's delay only while the maximum is below 2^30; beyond that the code wraps (see Findings).
- OpenFeatureSseClient.StepPreservesValid: the delay bound `[base, max]` rests on the corrected doubling; with a maximum of 2^30 or more the code's delay can go negative (see Findings).
- OpenFeatureSseClient.RunPreservesValid: inherits the same bound and the same restriction as `StepPreservesValid`.
- FlagChangePayload.ParseEnvironmentId: the digit run is scanned for ASCII `0`-`9` only, while `Character.isDigit` and `Integer.parseInt` also accept the other Unicode decimal digits. The function's own contract gives only bounds; the exact value after the first marker is stated by `FlagChangePayload.ParseEnvironmentIdAt`.
- FlagChangePayload.ParseFlagKey: the function's own contract gives only bounds; the exact key, and null for `null` or an unquoted value, are stated by `FlagChangePayload.ParseFlagKeyAt` and `FlagChangePayload.ParseFlagKeyQuoted`.
- FlagChangePayload.ParseTimestamp: the function's own contract gives only bounds; the `Instant.parse` value is stated by `FlagChangePayload.ParseTimestampQuoted`, and the current time for a missing closing quote by `FlagChangePayload.ParseTimestampUnclosed`.

## Findings

| source | as written | input that shows it | evidently intended | confidence | as-written member | corrected member |
|---|---|---|---|---|---|---|
| src/main/java/dev/flipswitch/openfeature/FlipswitchSseClient.java:100-101 | `Math.min(d * 2, max)` on an `int` delay: the multiplication wraps when `d >= 2^30` | maximum `Integer.MAX_VALUE`, base 1000: after 21 failures the delay is 2,097,152,000 and the next doubling gives -100,663,296; `Thread.sleep` then throws IllegalArgumentException, which ends the connection loop | the delay stays in `[base, max]` | not executed | Backoff.NextInt32WrapsNegative | Backoff.AfterStaysInRange |
