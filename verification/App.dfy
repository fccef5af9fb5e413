/** The logic of the browser UI in app.js: connection and reconnect timer, live and replayed samples,
    the UI log. The browser around it (sockets, timers, the Last N input) is part of the state. */
module App {
  import opened Basics
  import opened Pipeline

  // ---------- The browser ----------

  datatype ReadyState = Connecting | Open | Closing | Closed

  /** What Number(lastN.value) may be. */
  datatype Number = NotFinite | Finite(r: real)

  datatype Message =
    | Status
    | Telemetry(x: Sample)
    | History(items: seq<Option<Sample>>)   // None: an item that is no telemetry object
    | Failure
    | Unknown

  // ---------- The UI log ----------

  datatype Event = RunStart | ConnectAttempt | ReconnectAttempt | WsOpen | WsClose | WsError | ServerError
                 | TelemetryRow | HistoryRequest | HistoryBatchLoaded

  datatype Source = NoSource | Live | Replay

  datatype LogRow = LogRow(event: Event, source: Source, seqNo: Option<nat>, tNs: Option<int>, gap: Option<nat>,
                           count: Option<nat>, last: Option<Number>)

  function Plain(e: Event): LogRow { LogRow(e, NoSource, None, None, None, None, None) }

  function LiveRow(x: Sample, gap: nat): LogRow {
    LogRow(TelemetryRow, Live, Some(x.seqNo), Some(x.receivedAt), Some(gap), None, None)
  }

  function ReplayRow(x: Sample): LogRow {
    LogRow(TelemetryRow, Replay, Some(x.seqNo), Some(x.receivedAt), None, None, None)
  }

  function BatchRow(count: nat, last: Number): LogRow {
    LogRow(HistoryBatchLoaded, Replay, None, None, None, Some(count), Some(last))
  }

  function AskedRow(n: nat): LogRow {
    LogRow(HistoryRequest, NoSource, None, None, None, None, Some(Finite(n as real)))
  }

  const MAX_SAMPLES := 500

  /** The state object of app.js, the browser it lives in, and what was pushed since the last reset. */
  datatype Ui = Ui(
    ws: Option<nat>,
    paused: bool,
    manualDisconnect: bool,
    pendingRecovery: bool,
    reconnectTimer: Option<nat>,
    reconnectCount: nat,
    samples: seq<Sample>,
    uiLog: seq<LogRow>,
    lastLiveSeq: Option<nat>,
    // the browser
    lastN: Number,
    timers: set<nat>,               // set and neither fired nor cleared
    nextTimer: nat,
    sockets: map<nat, ReadyState>,
    nextSocket: nat,
    requests: seq<(nat, nat)>,      // socket and `last` of every message sent
    // history
    pushed: seq<Sample>)

  const INITIAL := Ui(None, false, false, false, None, 0, [], [], None, Finite(300.0), {}, 0, map[], 0, [], [])

  // ---------- Specification ----------

  function Log(u: Ui, row: LogRow): Ui { u.(uiLog := u.uiLog + [row]) }

  function LastSamples(s: seq<Sample>): seq<Sample> {
    if |s| > MAX_SAMPLES then s[|s| - MAX_SAMPLES..] else s
  }

  /** The end of the list, at most 500 long. */
  ghost predicate Newest(kept: seq<Sample>, all: seq<Sample>) {
    |kept| == Min(|all|, 500) && kept == all[|all| - |kept|..]
  }

  lemma LastAreNewest(s: seq<Sample>)
    ensures Newest(LastSamples(s), s)
  {
  }

  function PushSample(u: Ui, x: Sample): Ui {
    u.(samples := LastSamples(u.samples + [x]), pushed := u.pushed + [x])
  }

  function RequestedCount(n: Number): (c: nat)
    ensures c <= 5000
  {
    match n
    case NotFinite => 0
    case Finite(r) => if r <= 0.0 then 0 else if r.Floor <= 5000 then r.Floor else 5000
  }

  /** The rows that Last N names: none where it is no number or not above zero, else as many as its whole part
      says, 5000 at most. */
  ghost predicate Names(n: Number, c: nat) {
    match n
    case NotFinite => c == 0
    case Finite(r) =>
      if r <= 0.0 then c == 0 else if r < 5001.0 then c as real <= r < (c + 1) as real else c == 5000
  }

  lemma RequestedIsNamed(n: Number, c: nat)
    ensures Names(n, c) <==> c == RequestedCount(n)
  {
  }

  function ReadyOf(u: Ui, s: nat): ReadyState {
    if s in u.sockets then u.sockets[s] else Closed
  }

  function RequestHistory(u: Ui): Ui {
    var n := RequestedCount(u.lastN);
    if n == 0 || u.ws.None? || ReadyOf(u, u.ws.value) != Open then u
    else Log(u, AskedRow(n)).(requests := u.requests + [(u.ws.value, n)])
  }

  function ClearTimer(u: Ui): Ui {
    if u.reconnectTimer.Some? then u.(timers := u.timers - {u.reconnectTimer.value}, reconnectTimer := None) else u
  }

  function CloseSocket(u: Ui, s: nat): Ui {
    if ReadyOf(u, s) == Connecting || ReadyOf(u, s) == Open then u.(sockets := u.sockets[s := Closing]) else u
  }

  function Disconnect(u: Ui, manual: bool): Ui {
    var u := ClearTimer(u.(manualDisconnect := manual));
    if u.ws.Some? then CloseSocket(u, u.ws.value).(ws := None) else u
  }

  function ResetRun(u: Ui): Ui {
    u.(uiLog := [], samples := [], lastLiveSeq := None, reconnectCount := 0, pendingRecovery := false, pushed := [])
  }

  /** `created` is false when the WebSocket constructor throws. */
  function Connect(u: Ui, isReconnect: bool, created: bool): Ui {
    var u := Disconnect(u, false);
    var u := if isReconnect then u else Log(ResetRun(u), Plain(RunStart));
    if !created then u
    else Log(NewSocket(u), Plain(if isReconnect then ReconnectAttempt else ConnectAttempt))
  }

  function NewSocket(u: Ui): Ui {
    u.(ws := Some(u.nextSocket), sockets := u.sockets[u.nextSocket := Connecting], nextSocket := u.nextSocket + 1)
  }

  function ScheduleReconnect(u: Ui): Ui {
    if u.manualDisconnect || u.reconnectTimer.Some? then u
    else u.(reconnectCount := u.reconnectCount + 1, reconnectTimer := Some(u.nextTimer),
            timers := u.timers + {u.nextTimer}, nextTimer := u.nextTimer + 1)
  }

  function OnOpen(u: Ui): Ui {
    var u := Log(ClearTimer(u), Plain(WsOpen));
    if u.pendingRecovery && RequestedCount(u.lastN) > 0 then RequestHistory(u) else u
  }

  function OnClose(u: Ui): Ui { ScheduleReconnect(Log(u, Plain(WsClose))) }

  function Gap(u: Ui, x: Sample): nat {
    if u.lastLiveSeq.Some? && x.seqNo > u.lastLiveSeq.value then x.seqNo - u.lastLiveSeq.value else 0
  }

  function HandleTelemetry(u: Ui, x: Sample): Ui {
    if u.paused then u
    else
      var v := Log(u.(pendingRecovery := false), LiveRow(x, Gap(u, x)));
      PushSample(v.(lastLiveSeq := Some(x.seqNo)), x)
  }

  function ReplayItem(u: Ui, item: Option<Sample>): Ui {
    if item.None? then u
    else PushSample(Log(u, ReplayRow(item.value)), item.value)
  }

  function ReplayItems(u: Ui, items: seq<Option<Sample>>): Ui {
    if items == [] then u else ReplayItem(ReplayItems(u, items[..|items| - 1]), items[|items| - 1])
  }

  function CountItems(items: seq<Option<Sample>>): nat {
    if items == [] then 0 else CountItems(items[..|items| - 1]) + if items[|items| - 1].Some? then 1 else 0
  }

  function HandleHistory(u: Ui, items: seq<Option<Sample>>): Ui {
    Log(ReplayItems(u, items), BatchRow(CountItems(items), u.lastN))
  }

  function OnMessage(u: Ui, m: Message): Ui {
    match m
    case Telemetry(x) => HandleTelemetry(u, x)
    case History(items) => HandleHistory(u, items).(pendingRecovery := false)
    case Failure => Log(u, Plain(ServerError))
    case Status => u
    case Unknown => u
  }

  function ClearAll(u: Ui): Ui {
    u.(samples := [], lastLiveSeq := None, uiLog := [], pushed := [])
  }
}
