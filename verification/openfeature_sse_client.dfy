/** The `dev.flipswitch.openfeature` stream client: the connection loop with
    capped exponential backoff, the line reader, event processing with
    `Last-Event-ID` resumption, and the heartbeat monitor.

    The two background threads (the connection loop and the monitor) are
    folded into one state machine: every call of the owner (`connect`,
    `close`), every reply or failure of the HTTP client, every line the
    reader returns, the end of the stream and every wake-up of the monitor
    is one `Input`, applied atomically. What becomes visible is a sequence
    of `Output`s. The clock is a `nat` of milliseconds carried by the inputs
    that read it. A flag change is reported with the payload and the time
    it arrived; `ListenerEvent` gives the event `onFlagChange` receives,
    with `Instant.parse` as the parameter `instant`.
 */
module OpenFeatureSseClient {
  import opened Wrappers
  import Text
  import Int32
  import Backoff
  import SseFraming
  import FlagChangePayload

  const EventsPath: string := "/api/v1/flags/events"

  /** The configuration the client reads. The three timings are the values
      of `getReconnectDelayMs`, `getMaxReconnectDelayMs` and
      `getHeartbeatTimeoutMs`. */
  datatype Settings = Settings(
    baseUrl: string,
    reconnectDelayMs: nat,
    maxReconnectDelayMs: nat,
    heartbeatTimeoutMs: nat)

  /** The usual timings: 1 s base delay, 30 s maximum, 60 s heartbeat timeout. */
  function DefaultSettings(baseUrl: string): (st: Settings)
    ensures st.reconnectDelayMs <= st.maxReconnectDelayMs
  {
    Settings(baseUrl, 1000, 30000, 60000)
  }

  /** Where the connection loop is: not running, waiting for the reply to a
      request, or reading the stream with the reader's locals. */
  datatype Phase = Idle | Awaiting | Streaming(parser: SseFraming.Parser)

  /** `running`, the executor's shut-down flag, `reconnectDelay`,
      `lastEventId`, `lastHeartbeat`, whether the monitor thread is alive,
      and the loop's phase. */
  datatype Client = Client(
    running: bool,
    executorShut: bool,
    delay: nat,
    lastEventId: Option<string>,
    lastHeartbeat: nat,
    monitorAlive: bool,
    phase: Phase)

  datatype Input =
    | Connect(now: nat)
    | Responded(status: int)
    | TransportFailed
    | Line(text: string, now: nat)
    | EndOfStream
    | Close
    | MonitorTick(now: nat)

  datatype Output =
    | Requested(url: string, lastEventIdHeader: Option<string>)
    | Slept(delayMs: nat)
    | FlagChanged(data: string, at: nat)
    | Stale
    | ConnectRejected

  datatype Stepped = Stepped(client: Client, out: seq<Output>)

  /** The event handed to `onFlagChange` for a reported flag change: the
      parsed payload, or the fallback event when parsing throws. */
  function ListenerEvent(o: Output, instant: string -> Option<nat>): (e: FlagChangePayload.FlagChangeEvent)
    requires o.FlagChanged?
    ensures FlagChangePayload.ParseEvent(o.data, o.at, instant).Ok? ==>
      e == FlagChangePayload.ParseEvent(o.data, o.at, instant).value
    ensures FlagChangePayload.ParseEvent(o.data, o.at, instant).Thrown? ==>
      e == FlagChangePayload.FlagChangeEvent(0, None, o.at)
  {
    FlagChangePayload.Decode(o.data, o.at, instant)
  }

  /** A client as constructed: nothing running, the delay still 0. */
  const Created: Client := Client(false, false, 0, None, 0, false, Idle)

  /** The invariant: while running, the delay lies within its bounds; only
      a running client whose executor is not shut down has a loop. */
  predicate Valid(st: Settings, c: Client) {
    && (c.running ==> st.reconnectDelayMs <= c.delay <= st.maxReconnectDelayMs)
    && (!c.phase.Idle? ==> c.running && !c.executorShut)
  }

  function StreamUrl(st: Settings): string {
    st.baseUrl + EventsPath
  }

  /** One pass of the loop body: send the request, with `Last-Event-ID`
      exactly when an id has been seen. */
  function Request(st: Settings, c: Client): (r: Stepped)
    ensures r.client.phase.Awaiting? && r.client.(phase := c.phase) == c
    ensures |r.out| == 1 && r.out[0].Requested? && r.out[0].url == st.baseUrl + EventsPath
    ensures r.out[0].lastEventIdHeader.Some? <==> c.lastEventId.Some?
  {
    Stepped(c.(phase := Awaiting), [Requested(StreamUrl(st), c.lastEventId)])
  }

  /** `connect`: only a client that is not running starts. The delay goes
      back to the base and the heartbeat clock restarts; then the loop is
      submitted and the monitor started. After `close` the executor rejects
      the submission (RejectedExecutionException): `running` stays set but
      no loop and no new monitor exist. */
  function ConnectStep(st: Settings, c: Client, now: nat): (r: Stepped)
    ensures c.running ==> r == Stepped(c, [])
    ensures r.client.running && r.client.executorShut == c.executorShut
    ensures !c.running ==> r.client.delay == st.reconnectDelayMs && r.client.lastHeartbeat == now
    ensures r.out == [ConnectRejected] <==> !c.running && c.executorShut
    ensures !r.client.phase.Idle? <==> (!c.running && !c.executorShut) || !c.phase.Idle?
  {
    if c.running then Stepped(c, [])
    else
      var c1 := c.(running := true, delay := st.reconnectDelayMs, lastHeartbeat := now);
      if c.executorShut then Stepped(c1, [ConnectRejected])
      else Request(st, c1.(monitorAlive := true))
  }

  /** The catch block of the loop: sleep for the current delay, double it up
      to the maximum, and go round again. */
  function FailStep(st: Settings, c: Client): (r: Stepped)
    ensures c.phase.Idle? ==> r == Stepped(c, [])
    ensures !c.phase.Idle? ==>
      && r.out == [Slept(c.delay), Requested(st.baseUrl + EventsPath, c.lastEventId)]
      && r.client.phase.Awaiting?
      && r.client.(delay := c.delay, phase := c.phase) == c
      && r.client.delay <= st.maxReconnectDelayMs
      && (r.client.delay == st.maxReconnectDelayMs || r.client.delay == 2 * c.delay)
  {
    if c.phase.Idle? then Stepped(c, [])
    else
      var s := Request(st, c.(delay := Backoff.Next(c.delay, st.maxReconnectDelayMs)));
      Stepped(s.client, [Slept(c.delay)] + s.out)
  }

  /** `processEvent`: a non-null id becomes the resume id; a heartbeat or a
      flag change refreshes the heartbeat clock, and a flag change hands
      exactly one event to the listener (the fallback event when the payload
      does not parse). Any other type changes nothing else. */
  function ProcessFrame(c: Client, f: SseFraming.Frame, now: nat): (r: Stepped)
    ensures r.client.(lastEventId := c.lastEventId, lastHeartbeat := c.lastHeartbeat) == c
    ensures r.out == [] || r.out == [FlagChanged(f.data, now)]
  {
    var c1 := if f.id.Some? then c.(lastEventId := f.id) else c;
    if f.eventType == Some("heartbeat") then Stepped(c1.(lastHeartbeat := now), [])
    else if f.eventType == Some("flag-change") then
      Stepped(c1.(lastHeartbeat := now), [FlagChanged(f.data, now)])
    else Stepped(c1, [])
  }

  /** One line from the reader: it goes through the reader's locals, and a
      dispatched event is processed. Lines arrive only while streaming. */
  function LineStep(c: Client, text: string, now: nat): (r: Stepped)
    ensures !c.phase.Streaming? ==> r == Stepped(c, [])
    ensures r.out == [] || (|r.out| == 1 && r.out[0].FlagChanged? && r.out[0].at == now)
  {
    match c.phase
    case Streaming(p) =>
      var fed := SseFraming.Feed(p, text);
      var c1 := c.(phase := Streaming(fed.parser));
      (match fed.frame
       case None => Stepped(c1, [])
       case Some(f) => ProcessFrame(c1, f, now))
    case _ => Stepped(c, [])
  }

  /** A line never touches the connection: only the reader's locals, the
      resume id and the heartbeat clock can change. */
  lemma LineStepKeepsConnection(c: Client, text: string, now: nat)
    ensures LineStep(c, text, now).client.(phase := c.phase, lastEventId := c.lastEventId,
                                                    lastHeartbeat := c.lastHeartbeat) == c
    ensures LineStep(c, text, now).client.phase.Streaming? == c.phase.Streaming?
    ensures LineStep(c, text, now).client.phase.Idle? == c.phase.Idle?
  {
    if c.phase.Streaming? {
      var fed := SseFraming.Feed(c.phase.parser, text);
      if fed.frame.Some? {
        ProcessFrameSpec(c.(phase := Streaming(fed.parser)), fed.frame.value, now);
      }
    }
  }

  /** One wake-up of the monitor: after its sleep it compares the silence
      with the timeout, reports staleness and restarts the heartbeat clock;
      then it goes round again only while the client is running. */
  function TickStep(st: Settings, c: Client, now: nat): (r: Stepped)
    ensures !c.monitorAlive ==> r == Stepped(c, [])
    ensures r.out == [Stale] <==> c.monitorAlive && now - c.lastHeartbeat > st.heartbeatTimeoutMs
    ensures r.out == [] || r.out == [Stale]
    ensures r.client.monitorAlive == (c.monitorAlive && c.running)
  {
    if !c.monitorAlive then Stepped(c, [])
    else
      var fired := now - c.lastHeartbeat > st.heartbeatTimeoutMs;
      var c1 := if fired then c.(lastHeartbeat := now) else c;
      Stepped(c1.(monitorAlive := c.running), if fired then [Stale] else [])
  }

  function Step(st: Settings, c: Client, input: Input): (r: Stepped)
    ensures r.client.executorShut == (c.executorShut || input.Close?)
    ensures input.Close? ==> !r.client.running && r.client.phase.Idle? && r.out == []
    ensures !input.Connect? ==> r.client.running == (c.running && !input.Close?)
    ensures ConnectRejected in r.out ==> input.Connect? && c.executorShut
    ensures Stale in r.out ==> input.MonitorTick?
  {
    match input
    case Connect(now) => ConnectStep(st, c, now)
    case Responded(status) =>
      if !c.phase.Awaiting? then Stepped(c, [])
      else if status == 200 then
        Stepped(c.(delay := st.reconnectDelayMs, phase := Streaming(SseFraming.Fresh)), [])
      else FailStep(st, c)
    case TransportFailed => FailStep(st, c)
    case Line(text, now) => LineStep(c, text, now)
    case EndOfStream =>
      if c.phase.Streaming? then Request(st, c) else Stepped(c, [])
    case Close =>
      Stepped(c.(running := false, executorShut := true, phase := Idle), [])
    case MonitorTick(now) => TickStep(st, c, now)
  }

  function Run(st: Settings, c: Client, inputs: seq<Input>): Stepped
    decreases |inputs|
  {
    if |inputs| == 0 then Stepped(c, [])
    else
      var s := Step(st, c, inputs[0]);
      var rest := Run(st, s.client, inputs[1..]);
      Stepped(rest.client, s.out + rest.out)
  }

  /** Below the bound that rules out the wrap (a maximum under 2^30 ms, so a
      delay under it), the doubling in the model is the source's 32-bit
      `Math.min(reconnectDelay * 2, maxDelay)`. */
  lemma FailStepAgreesWithInt32(st: Settings, c: Client)
    requires Valid(st, c) && !c.phase.Idle?
    requires st.maxReconnectDelayMs < 0x4000_0000
    ensures FailStep(st, c).client.delay == Backoff.NextInt32(c.delay, st.maxReconnectDelayMs)
  {
  }

  // ---------------------------------------------------------------------
  // Properties of one step
  // ---------------------------------------------------------------------

  /** Every step keeps the invariant, and a shut-down executor stays shut. */
  lemma StepPreservesValid(st: Settings, c: Client, input: Input)
    requires st.reconnectDelayMs <= st.maxReconnectDelayMs
    requires Valid(st, c)
    ensures Valid(st, Step(st, c, input).client)
    ensures c.executorShut ==> Step(st, c, input).client.executorShut
    ensures c.executorShut && !c.monitorAlive ==> !Step(st, c, input).client.monitorAlive
  {
    if input.Line? {
      LineStepKeepsConnection(c, input.text, input.now);
    }
  }

  /** A client that never ran starts: the delay is the base, the heartbeat
      clock is `now`, the monitor runs and the first request carries the
      resume id, if any. */
  lemma ConnectStarts(st: Settings, c: Client, now: nat)
    requires !c.running && !c.executorShut
    ensures Step(st, c, Connect(now)).out == [Requested(st.baseUrl + EventsPath, c.lastEventId)]
    ensures Step(st, c, Connect(now)).client
         == c.(running := true, delay := st.reconnectDelayMs, lastHeartbeat := now,
               monitorAlive := true, phase := Awaiting)
  {
  }

  /** The first request of a new client carries no `Last-Event-ID`. */
  lemma FirstRequestHasNoResumeId(st: Settings, now: nat)
    ensures Valid(st, Created)
    ensures Step(st, Created, Connect(now)).out == [Requested(st.baseUrl + EventsPath, None)]
  {
  }

  /** `connect` on a running client does nothing at all. */
  lemma ConnectWhileRunningIsNoOp(st: Settings, c: Client, now: nat)
    requires c.running
    ensures Step(st, c, Connect(now)) == Stepped(c, [])
  {
  }

  /** `connect` after `close` throws: `running` is set again, but no request
      is sent and no monitor is started. */
  lemma ConnectAfterCloseIsRejected(st: Settings, c: Client, now: nat)
    ensures Step(st, Step(st, c, Close).client, Connect(now)).out == [ConnectRejected]
    ensures Step(st, Step(st, c, Close).client, Connect(now)).client.running
    ensures Step(st, Step(st, c, Close).client, Connect(now)).client.phase == Idle
    ensures Step(st, Step(st, c, Close).client, Connect(now)).client.monitorAlive
         == c.monitorAlive
  {
  }

  /** HTTP 200 resets the delay to the base and starts reading with empty
      locals; any other status is a failure. */
  lemma OkResetsDelay(st: Settings, c: Client)
    requires c.phase.Awaiting?
    ensures Step(st, c, Responded(200))
         == Stepped(c.(delay := st.reconnectDelayMs, phase := Streaming(SseFraming.Fresh)), [])
  {
  }

  /** A failed attempt (a status other than 200, or an I/O error while
      sending or reading) sleeps for the current delay, doubles it up to the
      maximum, and requests again. */
  lemma FailureBacksOff(st: Settings, c: Client, status: int)
    requires c.phase.Awaiting? && status != 200
    ensures Step(st, c, Responded(status)).out
         == [Slept(c.delay), Requested(st.baseUrl + EventsPath, c.lastEventId)]
    ensures Step(st, c, Responded(status)).client.delay
         == Backoff.Next(c.delay, st.maxReconnectDelayMs)
    ensures Step(st, c, Responded(status)) == Step(st, c, TransportFailed)
  {
  }

  /** A stream the server ends normally is requested again at once, with
      no sleep and the delay untouched; the unfinished event is lost. */
  lemma EndOfStreamReconnectsAtOnce(st: Settings, c: Client)
    requires c.phase.Streaming?
    ensures Step(st, c, EndOfStream).out == [Requested(st.baseUrl + EventsPath, c.lastEventId)]
    ensures Step(st, c, EndOfStream).client == c.(phase := Awaiting)
  {
  }

  /** What a dispatched event does: the id overwrites the resume id exactly
      when present; heartbeats and flag changes, and only they, restart the
      heartbeat clock; a flag change gives exactly one listener call, and
      nothing else gives any. */
  lemma ProcessFrameSpec(c: Client, f: SseFraming.Frame, now: nat)
    ensures ProcessFrame(c, f, now).client.lastEventId
         == (if f.id.Some? then f.id else c.lastEventId)
    ensures ProcessFrame(c, f, now).client.lastHeartbeat
         == (if f.eventType in {Some("heartbeat"), Some("flag-change")} then now else c.lastHeartbeat)
    ensures f.eventType == Some("flag-change") ==>
      ProcessFrame(c, f, now).out == [FlagChanged(f.data, now)]
    ensures f.eventType != Some("flag-change") ==> ProcessFrame(c, f, now).out == []
    ensures ProcessFrame(c, f, now).client.(lastEventId := c.lastEventId, lastHeartbeat := c.lastHeartbeat) == c
  {
  }

  /** A flag-change event whose payload fails to parse still reaches the
      listener, as environment 0 with no key at the current time. */
  lemma UnparsableFlagChangeStillNotifies(c: Client, id: Option<string>, data: string, now: nat,
                                          instant: string -> Option<nat>)
    requires FlagChangePayload.ParseEvent(data, now, instant).Thrown?
    ensures |ProcessFrame(c, SseFraming.Frame(Some("flag-change"), id, data), now).out| == 1
    ensures ListenerEvent(ProcessFrame(c, SseFraming.Frame(Some("flag-change"), id, data), now).out[0], instant)
         == FlagChangePayload.FlagChangeEvent(0, None, now)
  {
  }

  /** A flag change the server wrote reaches the listener as the event it
      described. */
  lemma ServerFlagChangeReachesListener(c: Client, id: Option<string>, env: nat, key: Option<string>,
                                        timestamp: string, now: nat, instant: string -> Option<nat>)
    requires env <= Int32.MAX && FlagChangePayload.SendableKey(key)
    requires |timestamp| > 0 && FlagChangePayload.Lacks(timestamp, '"') && instant(timestamp).Some?
    ensures ListenerEvent(ProcessFrame(c, SseFraming.Frame(Some("flag-change"), id,
                                         FlagChangePayload.Encode(env, key, timestamp)), now).out[0], instant)
         == FlagChangePayload.FlagChangeEvent(env, key, instant(timestamp).value)
  {
    FlagChangePayload.EncodedEventRoundTrip(env, key, timestamp, now, instant);
  }

  /** The monitor reports staleness exactly when the silence exceeds the
      timeout, and then restarts the heartbeat clock. */
  lemma TickSpec(st: Settings, c: Client, now: nat)
    requires c.monitorAlive
    ensures Step(st, c, MonitorTick(now)).out == [Stale]
        <==> now - c.lastHeartbeat > st.heartbeatTimeoutMs
    ensures now - c.lastHeartbeat > st.heartbeatTimeoutMs ==>
      Step(st, c, MonitorTick(now)).client.lastHeartbeat == now
    ensures Step(st, c, MonitorTick(now)).client.monitorAlive == c.running
  {
  }

  /** At most one staleness report per silent window: after the monitor
      fired at `t1`, a wake-up at `t2` no later than `t1` plus the timeout
      stays silent. */
  lemma StaleAtMostOncePerWindow(st: Settings, c: Client, t1: nat, t2: nat)
    requires c.monitorAlive && c.running
    requires t1 - c.lastHeartbeat > st.heartbeatTimeoutMs
    requires t2 <= t1 + st.heartbeatTimeoutMs
    ensures Run(st, c, [MonitorTick(t1), MonitorTick(t2)]).out == [Stale]
  {
    var s1 := Step(st, c, MonitorTick(t1));
    var s2 := Step(st, s1.client, MonitorTick(t2));
    assert s1.out == [Stale] && s1.client.lastHeartbeat == t1 && s1.client.monitorAlive;
    assert s2.out == [];
    assert [MonitorTick(t1), MonitorTick(t2)][1..] == [MonitorTick(t2)];
    assert Run(st, s1.client, [MonitorTick(t2)]) == Stepped(s2.client, s2.out + []);
  }

  // ---------------------------------------------------------------------
  // Properties of runs
  // ---------------------------------------------------------------------

  lemma {:induction false} RunAppend(st: Settings, c: Client, a: seq<Input>, b: seq<Input>)
    ensures Run(st, c, a + b).client == Run(st, Run(st, c, a).client, b).client
    ensures Run(st, c, a + b).out
         == Run(st, c, a).out + Run(st, Run(st, c, a).client, b).out
    decreases |a|
  {
    if |a| == 0 {
      assert a + b == b;
    } else {
      var s := Step(st, c, a[0]);
      assert (a + b)[0] == a[0];
      assert (a + b)[1..] == a[1..] + b;
      RunAppend(st, s.client, a[1..], b);
      var mid := Run(st, s.client, a[1..]);
      var tail := Run(st, mid.client, b);
      assert Run(st, c, a + b).out == s.out + (mid.out + tail.out);
      assert s.out + (mid.out + tail.out) == (s.out + mid.out) + tail.out;
    }
  }

  /** Any run keeps the invariant. */
  lemma {:induction false} RunPreservesValid(st: Settings, c: Client, inputs: seq<Input>)
    requires st.reconnectDelayMs <= st.maxReconnectDelayMs
    requires Valid(st, c)
    ensures Valid(st, Run(st, c, inputs).client)
    decreases |inputs|
  {
    if |inputs| > 0 {
      StepPreservesValid(st, c, inputs[0]);
      RunPreservesValid(st, Step(st, c, inputs[0]).client, inputs[1..]);
    }
  }

  /** Nothing is sent, slept, delivered or reported. */
  predicate Quiet(out: seq<Output>) {
    forall i :: 0 <= i < |out| ==> out[i].ConnectRejected?
  }

  /** A shut-down client whose monitor has ended is quiet forever: no
      request, no sleep, no listener call, no staleness report, whatever
      the inputs (a later `connect` only throws). */
  lemma {:induction false} ShutRunIsQuiet(st: Settings, c: Client, inputs: seq<Input>)
    requires st.reconnectDelayMs <= st.maxReconnectDelayMs
    requires Valid(st, c) && c.executorShut && !c.monitorAlive
    ensures Quiet(Run(st, c, inputs).out)
    decreases |inputs|
  {
    if |inputs| > 0 {
      var s := Step(st, c, inputs[0]);
      StepPreservesValid(st, c, inputs[0]);
      assert Quiet(s.out);
      ShutRunIsQuiet(st, s.client, inputs[1..]);
      var rest := Run(st, s.client, inputs[1..]);
      assert Run(st, c, inputs).out == s.out + rest.out;
      forall i | 0 <= i < |s.out + rest.out|
        ensures (s.out + rest.out)[i].ConnectRejected?
      {
        if i >= |s.out| {
          assert (s.out + rest.out)[i] == rest.out[i - |s.out|];
        }
      }
    }
  }

  /** After `close`, the monitor wakes at most once more (and may then
      report staleness once); after that wake-up the client is quiet
      forever. */
  lemma CloseThenTickIsFinal(st: Settings, c: Client, now: nat, inputs: seq<Input>)
    requires st.reconnectDelayMs <= st.maxReconnectDelayMs
    requires Valid(st, c)
    ensures |Run(st, c, [Close, MonitorTick(now)]).out| <= 1
    ensures Quiet(Run(st, Run(st, c, [Close, MonitorTick(now)]).client, inputs).out)
  {
    var s1 := Step(st, c, Close);
    var s2 := Step(st, s1.client, MonitorTick(now));
    assert [Close, MonitorTick(now)][1..] == [MonitorTick(now)];
    assert Run(st, s1.client, [MonitorTick(now)]) == Stepped(s2.client, s2.out + []);
    assert Run(st, c, [Close, MonitorTick(now)]) == Stepped(s2.client, s1.out + s2.out);
    StepPreservesValid(st, c, Close);
    StepPreservesValid(st, s1.client, MonitorTick(now));
    ShutRunIsQuiet(st, s2.client, inputs);
  }

  /** `k` failed attempts in a row. */
  function Failures(k: nat): (r: seq<Input>)
    ensures |r| == k
  {
    if k == 0 then [] else [TransportFailed] + Failures(k - 1)
  }

  /** After `k` failed attempts in a row the delay is the `k`-fold capped
      doubling of the delay before them; from the base delay this is
      `min(base * 2^k, max)`. The loop keeps waiting for a reply. */
  lemma {:induction false} FailuresDoubleDelay(st: Settings, c: Client, k: nat)
    requires c.phase.Awaiting?
    ensures Run(st, c, Failures(k)).client.delay
         == Backoff.After(c.delay, st.maxReconnectDelayMs, k)
    ensures Run(st, c, Failures(k)).client.phase.Awaiting?
    ensures c.delay == st.reconnectDelayMs <= st.maxReconnectDelayMs ==>
      Run(st, c, Failures(k)).client.delay
        == Backoff.Min(st.reconnectDelayMs * Backoff.Pow2(k), st.maxReconnectDelayMs)
    decreases k
  {
    if k > 0 {
      var s := Step(st, c, TransportFailed);
      assert Failures(k)[0] == TransportFailed && Failures(k)[1..] == Failures(k - 1);
      FailuresDoubleDelay(st, s.client, k - 1);
      Backoff.AfterShift(c.delay, st.maxReconnectDelayMs, k - 1);
    }
    if c.delay == st.reconnectDelayMs <= st.maxReconnectDelayMs {
      Backoff.AfterClosedForm(st.reconnectDelayMs, st.maxReconnectDelayMs, k);
    }
  }

  /** A blank line dispatches the reader's locals (data trimmed) and
      empties them. */
  lemma BlankLineDispatches(c: Client, blank: string, now: nat)
    requires c.phase.Streaming? && |blank| == 0
    ensures LineStep(c, blank, now)
         == ProcessFrame(c.(phase := Streaming(SseFraming.Fresh)),
                         SseFraming.Frame(c.phase.parser.eventType, c.phase.parser.id,
                                          Text.Trim(c.phase.parser.data)), now)
  {
    SseFraming.FeedSpec(c.phase.parser, blank);
  }

  /** An event with an id but no type only records the id. */
  lemma UntypedFrameRecordsId(c: Client, id: string, data: string, now: nat)
    ensures ProcessFrame(c, SseFraming.Frame(None, Some(id), data), now)
         == Stepped(c.(lastEventId := Some(id)), [])
  {
  }

  /** A blank line after an `id:` line records the id and nothing else. */
  lemma BlankLineRecordsId(st: Settings, c: Client, id: string, blank: string, now: nat)
    requires c.phase == Streaming(SseFraming.Fresh.(id := Some(id))) && |blank| == 0
    ensures Step(st, c, Line(blank, now))
         == Stepped(c.(phase := Streaming(SseFraming.Fresh), lastEventId := Some(id)), [])
  {
    assert Step(st, c, Line(blank, now)) == LineStep(c, blank, now);
    BlankLineDispatches(c, blank, now);
    UntypedFrameRecordsId(c.(phase := Streaming(SseFraming.Fresh)), id, Text.Trim(""), now);
  }

  /** An `id:` line only fills the reader's id. */
  lemma IdLineFillsId(st: Settings, c: Client, id: string, now: nat)
    requires c.phase == Streaming(SseFraming.Fresh)
    requires Text.IsTrimmed(id)
    ensures Step(st, c, Line("id:" + id, now))
         == Stepped(c.(phase := Streaming(SseFraming.Fresh.(id := Some(id)))), [])
  {
    assert LineStep(c, "id:" + id, now)
        == Stepped(c.(phase := Streaming(SseFraming.Fresh.(id := Some(id)))), []) by {
      SseFraming.FeedId(SseFraming.Fresh, id);
    }
  }

  /** Two inputs of which the first shows nothing. */
  lemma RunSilentThen(st: Settings, c: Client, x: Input, y: Input, c1: Client)
    requires Step(st, c, x) == Stepped(c1, [])
    ensures Run(st, c, [x, y]) == Step(st, c1, y)
  {
    var s2 := Step(st, c1, y);
    assert [x, y][1..] == [y];
    assert Run(st, c1, [y]) == Stepped(s2.client, s2.out + []);
  }

  /** An id seen in the stream is sent back as `Last-Event-ID` when the
      stream is requested again after the server ends it. */
  lemma ResumesFromLastId(st: Settings, c: Client, id: string, blank: string, now: nat)
    requires c.phase == Streaming(SseFraming.Fresh.(id := Some(id))) && |blank| == 0
    ensures Run(st, c, [Line(blank, now), EndOfStream]).out
         == [Requested(st.baseUrl + EventsPath, Some(id))]
  {
    var c1 := c.(phase := Streaming(SseFraming.Fresh), lastEventId := Some(id));
    BlankLineRecordsId(st, c, id, blank, now);
    RunSilentThen(st, c, Line(blank, now), EndOfStream, c1);
  }
}
