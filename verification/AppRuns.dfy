/** The UI over whole runs: any interleaving of clicks, timers, socket events and messages. */
module AppRuns {
  import opened Basics
  import opened Pipeline
  import opened App

  datatype UiEvent =
    | ClickConnect(created: bool)
    | ClickDisconnect
    | ClickHistory
    | ClickClear
    | ClickPause
    | SetLastN(n: Number)
    | TimerFires(timer: nat, created: bool)
    | SocketOpens(s: nat)
    | SocketCloses(s: nat)
    | SocketFails(s: nat)
    | MessageArrives(s: nat, m: Message)

  /** What the browser allows: a timer fires if it is set, a socket opens while connecting, closes
      once, and delivers messages only while open. Clicks may come at any time. */
  predicate Enabled(u: Ui, e: UiEvent) {
    match e
    case TimerFires(timer, _) => timer in u.timers
    case SocketOpens(s) => ReadyOf(u, s) == Connecting
    case SocketCloses(s) => ReadyOf(u, s) != Closed
    case SocketFails(s) => ReadyOf(u, s) != Closed
    case MessageArrives(s, _) => ReadyOf(u, s) == Open
    case _ => true
  }

  /** The timer callback before it connects. */
  function Fired(u: Ui, timer: nat): Ui {
    u.(timers := u.timers - {timer}, reconnectTimer := None, pendingRecovery := true)
  }

  function Do(u: Ui, e: UiEvent): Ui {
    match e
    case ClickConnect(created) => Connect(u, false, created)
    case ClickDisconnect => Disconnect(u, true)
    case ClickHistory => RequestHistory(u)
    case ClickClear => ClearAll(u)
    case ClickPause => u.(paused := !u.paused)
    case SetLastN(n) => u.(lastN := n)
    case TimerFires(timer, created) =>
      Connect(Fired(u, timer), true, created)
    case SocketOpens(s) => OnOpen(u.(sockets := u.sockets[s := Open]))
    case SocketCloses(s) => OnClose(u.(sockets := u.sockets[s := Closed]))
    case SocketFails(_) => Log(u, Plain(WsError))
    case MessageArrives(_, m) => OnMessage(u, m)
  }

  ghost predicate IsRun(first: Number, run: seq<Ui>, events: seq<UiEvent>) {
    && |run| == |events| + 1 && run[0] == INITIAL.(lastN := first)
    && forall i :: 0 <= i < |events| ==> Enabled(run[i], events[i]) && run[i + 1] == Do(run[i], events[i])
  }

  // ---------- Counting replay rows ----------

  function ReplayRows(log: seq<LogRow>): nat {
    if log == [] then 0
    else ReplayRows(log[..|log| - 1]) + if IsReplay(log[|log| - 1]) then 1 else 0
  }

  predicate IsReplay(row: LogRow) { row.event == TelemetryRow && row.source == Replay }

  function BatchCounts(log: seq<LogRow>): nat {
    if log == [] then 0
    else BatchCounts(log[..|log| - 1]) + BatchCount(log[|log| - 1])
  }

  function BatchCount(row: LogRow): nat {
    if row.event == HistoryBatchLoaded && row.count.Some? then row.count.value else 0
  }

  lemma LogAppend(log: seq<LogRow>, row: LogRow)
    ensures ReplayRows(log + [row]) == ReplayRows(log) + if IsReplay(row) then 1 else 0
    ensures BatchCounts(log + [row]) == BatchCounts(log) + BatchCount(row)
  {
    assert (log + [row])[..|log|] == log;
  }

  lemma LogCounts(u: Ui, row: LogRow)
    ensures ReplayRows(Log(u, row).uiLog) == ReplayRows(u.uiLog) + if IsReplay(row) then 1 else 0
    ensures BatchCounts(Log(u, row).uiLog) == BatchCounts(u.uiLog) + BatchCount(row)
  {
    LogAppend(u.uiLog, row);
  }

  function Values(items: seq<Option<Sample>>): seq<Sample> {
    if items == [] then []
    else Values(items[..|items| - 1]) + if items[|items| - 1].Some? then [items[|items| - 1].value] else []
  }

  /** A history message pushes its samples in order, logs one replay row for each, touches nothing else. */
  lemma {:induction false} ReplayItemsEffect(u: Ui, items: seq<Option<Sample>>)
    requires u.samples == LastSamples(u.pushed)
    ensures var v := ReplayItems(u, items);
            && v.pushed == u.pushed + Values(items)
            && v.samples == LastSamples(v.pushed)
            && ReplayRows(v.uiLog) == ReplayRows(u.uiLog) + CountItems(items)
            && BatchCounts(v.uiLog) == BatchCounts(u.uiLog)
            && v == u.(uiLog := v.uiLog, samples := v.samples, pushed := v.pushed)
  {
    if items != [] {
      var n := |items| - 1;
      ReplayItemsEffect(u, items[..n]);
      var w := ReplayItems(u, items[..n]);
      if items[n].Some? {
        var x := items[n].value;
        LogCounts(w, ReplayRow(x));
        LastAfterPush(w.pushed, x);
        assert u.pushed + Values(items[..n]) + [x] == u.pushed + (Values(items[..n]) + [x]);
      } else {
        assert Values(items[..n]) + [] == Values(items[..n]);
      }
    }
  }

  lemma LastAfterPush(pushed: seq<Sample>, x: Sample)
    ensures LastSamples(LastSamples(pushed) + [x]) == LastSamples(pushed + [x])
  {
    var all := pushed + [x];
    if |pushed| > MAX_SAMPLES {
      var kept := pushed[|pushed| - MAX_SAMPLES..];
      assert (kept + [x])[1..] == all[|all| - MAX_SAMPLES..];
    }
  }

  // ---------- The invariant ----------

  /** At most one timer is live, and it is the recorded one. */
  ghost predicate OneTimer(u: Ui) {
    && u.timers == (if u.reconnectTimer.Some? then {u.reconnectTimer.value} else {})
    && (u.manualDisconnect ==> u.reconnectTimer.None? && u.ws.None?)
  }

  /** Only the current socket can be connecting or open. */
  ghost predicate OneSocket(u: Ui) {
    && (forall s :: s in u.sockets ==> s < u.nextSocket)
    && (forall s :: s in u.sockets && (u.sockets[s] == Connecting || u.sockets[s] == Open) ==> u.ws == Some(s))
    && (u.ws.Some? ==> u.ws.value in u.sockets)
  }

  ghost predicate LogAdds(u: Ui) {
    u.samples == LastSamples(u.pushed) && ReplayRows(u.uiLog) == BatchCounts(u.uiLog)
  }

  lemma TimersStep(u: Ui, e: UiEvent)
    requires OneTimer(u) && OneSocket(u) && Enabled(u, e)
    ensures OneTimer(Do(u, e)) && OneSocket(Do(u, e))
  {
    hide Connect, Disconnect, RequestHistory, OnOpen, OnClose, OnMessage, OneTimer, OneSocket;
    match e
    case ClickConnect(created) => TimersConnect(u, false, created);
    case TimerFires(timer, created) => TimersFire(u, timer, created);
    case ClickDisconnect => TimersDisconnect(u, true);
    case ClickHistory => TimersRequest(u);
    case SocketOpens(s) => TimersOpen(u, s);
    case SocketCloses(s) => TimersClose(u, s);
    case MessageArrives(_, m) => TimersMessage(u, m);
    case _ => TimersKept(u, Do(u, e));
  }

  ghost predicate SameConnection(u: Ui, v: Ui) {
    && v.ws == u.ws && v.manualDisconnect == u.manualDisconnect && v.reconnectTimer == u.reconnectTimer
    && v.timers == u.timers && v.sockets == u.sockets && v.nextSocket == u.nextSocket
  }

  lemma TimersKept(u: Ui, v: Ui)
    requires SameConnection(u, v)
    ensures OneTimer(u) == OneTimer(v) && OneSocket(u) == OneSocket(v)
  {
  }

  lemma TimersDisconnect(u: Ui, manual: bool)
    requires OneTimer(u) && OneSocket(u)
    ensures var v := Disconnect(u, manual);
            && OneTimer(v) && OneSocket(v) && v.timers == {} && v.ws == None && v.nextSocket == u.nextSocket
            && v.manualDisconnect == manual
  {
    hide CloseSocket;
    var w := ClearTimer(u.(manualDisconnect := manual));
    assert w.timers == {} && w.reconnectTimer.None? && w.sockets == u.sockets && w.ws == u.ws;
    if w.ws.Some? {
      CloseSocketFacts(w, w.ws.value);
    }
  }

  lemma CloseSocketFacts(u: Ui, s: nat)
    ensures var v := CloseSocket(u, s);
            && v == u.(sockets := v.sockets) && v.sockets.Keys == u.sockets.Keys
            && (forall t :: t in v.sockets && t != s ==> v.sockets[t] == u.sockets[t])
            && (s in v.sockets ==> v.sockets[s] != Connecting && v.sockets[s] != Open)
  {
  }

  lemma TimersConnect(u: Ui, isReconnect: bool, created: bool)
    requires OneTimer(u) && OneSocket(u)
    ensures OneTimer(Connect(u, isReconnect, created)) && OneSocket(Connect(u, isReconnect, created))
  {
    hide Disconnect;
    TimersDisconnect(u, false);
  }

  lemma TimersFire(u: Ui, timer: nat, created: bool)
    requires OneTimer(u) && OneSocket(u) && timer in u.timers
    ensures OneTimer(Do(u, TimerFires(timer, created))) && OneSocket(Do(u, TimerFires(timer, created)))
  {
    hide Connect;
    TimersConnect(Fired(u, timer), true, created);
  }

  lemma TimersRequest(u: Ui)
    requires OneTimer(u) && OneSocket(u)
    ensures OneTimer(RequestHistory(u)) && OneSocket(RequestHistory(u)) && SameConnection(u, RequestHistory(u))
  {
  }

  lemma OpenKeepsTimers(u: Ui)
    requires OneTimer(u) && OneSocket(u)
    ensures OneTimer(OnOpen(u)) && OneSocket(OnOpen(u)) && OnOpen(u).timers == {}
  {
    hide RequestHistory;
    TimersRequest(Log(ClearTimer(u), Plain(WsOpen)));
  }

  lemma TimersOpen(u: Ui, s: nat)
    requires OneTimer(u) && OneSocket(u) && ReadyOf(u, s) == Connecting
    ensures OneTimer(Do(u, SocketOpens(s))) && OneSocket(Do(u, SocketOpens(s)))
  {
    hide OnOpen;
    OpenKeepsTimers(u.(sockets := u.sockets[s := Open]));
  }

  lemma ScheduleKeepsTimers(u: Ui)
    requires OneTimer(u) && OneSocket(u)
    ensures OneTimer(ScheduleReconnect(u)) && OneSocket(ScheduleReconnect(u))
  {
  }

  lemma CloseKeepsTimers(u: Ui)
    requires OneTimer(u) && OneSocket(u)
    ensures OneTimer(OnClose(u)) && OneSocket(OnClose(u))
  {
    hide ScheduleReconnect;
    ScheduleKeepsTimers(Log(u, Plain(WsClose)));
  }

  lemma TimersClose(u: Ui, s: nat)
    requires OneTimer(u) && OneSocket(u) && ReadyOf(u, s) != Closed
    ensures OneTimer(Do(u, SocketCloses(s))) && OneSocket(Do(u, SocketCloses(s)))
  {
    hide OnClose;
    CloseKeepsTimers(u.(sockets := u.sockets[s := Closed]));
  }

  lemma TimersMessage(u: Ui, m: Message)
    ensures SameConnection(u, OnMessage(u, m))
    ensures OneTimer(u) == OneTimer(OnMessage(u, m)) && OneSocket(u) == OneSocket(OnMessage(u, m))
  {
    hide OneTimer, OneSocket, ReplayItems;
    if m.History? {
      ReplayKeepsBrowser(u, m.items);
    }
    TimersKept(u, OnMessage(u, m));
  }

  lemma {:induction false} ReplayKeepsBrowser(u: Ui, items: seq<Option<Sample>>)
    ensures var v := ReplayItems(u, items);
            v == u.(uiLog := v.uiLog, samples := v.samples, pushed := v.pushed)
  {
    if items != [] {
      ReplayKeepsBrowser(u, items[..|items| - 1]);
    }
  }

  lemma LogAddsStep(u: Ui, e: UiEvent)
    requires LogAdds(u) && Enabled(u, e)
    ensures LogAdds(Do(u, e))
  {
    hide Connect, Disconnect, RequestHistory, OnOpen, OnClose, OnMessage, LogAdds;
    match e
    case ClickConnect(created) => ConnectAdds(u, false, created);
    case TimerFires(timer, created) =>
      var v := Fired(u, timer);
      LogKept(u, v);
      ConnectAdds(v, true, created);
    case ClickDisconnect => DisconnectKeepsLog(u, true);
    case ClickHistory => RequestAdds(u);
    case ClickClear => ClearAdds(u);
    case SocketOpens(s) =>
      LogKept(u, u.(sockets := u.sockets[s := Open]));
      OpenAdds(u.(sockets := u.sockets[s := Open]));
    case SocketCloses(s) =>
      LogKept(u, u.(sockets := u.sockets[s := Closed]));
      CloseAdds(u.(sockets := u.sockets[s := Closed]));
    case SocketFails(_) => PlainAdds(u, WsError);
    case MessageArrives(_, m) => MessageAdds(u, m);
    case _ => LogKept(u, Do(u, e));
  }

  ghost predicate SameLog(u: Ui, v: Ui) { v.uiLog == u.uiLog && v.samples == u.samples && v.pushed == u.pushed }

  lemma LogKept(u: Ui, v: Ui)
    requires SameLog(u, v)
    ensures LogAdds(u) == LogAdds(v)
  {
  }

  lemma PlainAdds(u: Ui, e: Event)
    requires LogAdds(u)
    ensures LogAdds(Log(u, Plain(e)))
  {
    LogCounts(u, Plain(e));
  }

  lemma ClearAdds(u: Ui)
    ensures LogAdds(ClearAll(u)) && LogAdds(ResetRun(u))
  {
  }

  lemma DisconnectKeepsLog(u: Ui, manual: bool)
    ensures SameLog(u, Disconnect(u, manual)) && LogAdds(u) == LogAdds(Disconnect(u, manual))
    ensures Disconnect(u, manual).requests == u.requests && Disconnect(u, manual).lastN == u.lastN
  {
  }

  lemma RequestAdds(u: Ui)
    requires LogAdds(u)
    ensures LogAdds(RequestHistory(u))
  {
    hide ReplayRows, BatchCounts, LastSamples, RequestedCount;
    LogCounts(u, AskedRow(RequestedCount(u.lastN)));
  }

  lemma OpenAdds(u: Ui)
    requires LogAdds(u)
    ensures LogAdds(OnOpen(u))
  {
    hide RequestHistory, LogAdds;
    var v := ClearTimer(u);
    LogKept(u, v);
    PlainAdds(v, WsOpen);
    RequestAdds(Log(v, Plain(WsOpen)));
  }

  lemma CloseAdds(u: Ui)
    requires LogAdds(u)
    ensures LogAdds(OnClose(u))
  {
    hide LogAdds;
    PlainAdds(u, WsClose);
    LogKept(Log(u, Plain(WsClose)), ScheduleReconnect(Log(u, Plain(WsClose))));
  }

  lemma ConnectAdds(u: Ui, isReconnect: bool, created: bool)
    requires LogAdds(u)
    ensures LogAdds(Connect(u, isReconnect, created))
  {
    hide Disconnect, LogAdds, ResetRun;
    var d := Disconnect(u, false);
    DisconnectKeepsLog(u, false);
    ClearAdds(d);
    PlainAdds(ResetRun(d), RunStart);
    var v := if isReconnect then d else Log(ResetRun(d), Plain(RunStart));
    LogKept(v, NewSocket(v));
    PlainAdds(NewSocket(v), if isReconnect then ReconnectAttempt else ConnectAttempt);
  }

  lemma MessageAdds(u: Ui, m: Message)
    requires LogAdds(u)
    ensures LogAdds(OnMessage(u, m))
  {
    hide ReplayRows, BatchCounts, ReplayItems, LastSamples, CountItems, Gap;
    match m
    case Telemetry(x) =>
      LogCounts(u.(pendingRecovery := false), LiveRow(x, Gap(u, x)));
      LastAfterPush(u.pushed, x);
    case History(items) =>
      ReplayItemsEffect(u, items);
      LogCounts(ReplayItems(u, items), BatchRow(CountItems(items), u.lastN));
    case Failure =>
      LogCounts(u, Plain(ServerError));
    case _ =>
  }

  /** In every run: one timer at most and it is the recorded one; one socket at most is connecting or
      open and it is the current one; the buffer is the last 500 samples pushed since the last reset;
      the replay rows in the log are as many as the logged batches announce. */
  lemma {:induction false} UiInvariant(first: Number, run: seq<Ui>, events: seq<UiEvent>, k: nat)
    requires IsRun(first, run, events) && k < |run|
    ensures OneTimer(run[k]) && OneSocket(run[k]) && LogAdds(run[k]) && Newest(run[k].samples, run[k].pushed)
  {
    LastAreNewest(run[k].pushed);
    if k > 0 {
      UiInvariant(first, run, events, k - 1);
      TimersStep(run[k - 1], events[k - 1]);
      LogAddsStep(run[k - 1], events[k - 1]);
    }
  }

  // ---------- Manual disconnect ----------

  lemma StaysDisconnected(u: Ui, e: UiEvent)
    requires OneTimer(u) && OneSocket(u) && u.manualDisconnect && Enabled(u, e) && !e.ClickConnect?
    ensures var v := Do(u, e); v.manualDisconnect && v.nextSocket == u.nextSocket
  {
    hide Disconnect, RequestHistory, OnMessage;
    match e
    case ClickDisconnect => TimersDisconnect(u, true);
    case ClickHistory => TimersRequest(u);
    case SocketOpens(s) =>
      TimersRequest(Log(ClearTimer(u.(sockets := u.sockets[s := Open])), Plain(WsOpen)));
    case MessageArrives(_, m) => TimersMessage(u, m);
    case _ =>
  }

  /** After a manual disconnect nothing connects, no timer is set and no socket is current, through any
      events, until the user clicks connect. */
  lemma {:induction false} NoReconnectAfterDisconnect(first: Number, run: seq<Ui>, events: seq<UiEvent>, i: nat, j: nat)
    requires IsRun(first, run, events) && i < j <= |events| && events[i] == ClickDisconnect
    requires forall k :: i < k < j ==> !events[k].ClickConnect?
    ensures var u := run[j];
            u.manualDisconnect && u.nextSocket == run[i].nextSocket && u.timers == {} && u.ws == None
  {
    hide Do;
    UiInvariant(first, run, events, j);
    UiInvariant(first, run, events, j - 1);
    if j == i + 1 {
      TimersDisconnect(run[i], true);
      DoDisconnect(run[i]);
    } else {
      NoReconnectAfterDisconnect(first, run, events, i, j - 1);
      StaysDisconnected(run[j - 1], events[j - 1]);
    }
  }

  lemma DoDisconnect(u: Ui)
    ensures Do(u, ClickDisconnect) == Disconnect(u, true)
  {
  }

  // ---------- Late close events ----------

  /** On a working connection with no timer set, exactly a close event sets one, whatever socket it is of:
      the page does not tell them apart. */
  lemma CloseSetsTimer(u: Ui, e: UiEvent, c: nat)
    requires OneTimer(u) && OneSocket(u) && u.ws == Some(c) && ReadyOf(u, c) == Open && u.reconnectTimer.None?
    ensures Do(u, e).reconnectTimer.Some? <==> e.SocketCloses?
  {
    hide RequestHistory, OnMessage, Disconnect, CloseSocket, LogAdds;
    match e
    case ClickConnect(_) => TimersDisconnect(u, false);
    case TimerFires(timer, _) =>
      TimersDisconnect(u.(timers := u.timers - {timer}, pendingRecovery := true), false);
    case ClickDisconnect => TimersDisconnect(u, true);
    case ClickHistory => TimersRequest(u);
    case SocketOpens(s) => RequestKeeps(Log(u.(sockets := u.sockets[s := Open]), Plain(WsOpen)));
    case MessageArrives(_, m) => TimersMessage(u, m);
    case _ =>
  }

  /** No click of the user on connect or disconnect, no close event of `c`, no timer. */
  predicate LeavesAlone(e: UiEvent, c: nat) {
    !e.ClickConnect? && !e.ClickDisconnect? && e != SocketCloses(c) && !e.TimerFires?
  }

  lemma LiveStep(u: Ui, e: UiEvent, c: nat)
    requires OneTimer(u) && OneSocket(u) && Enabled(u, e) && LeavesAlone(e, c)
    requires u.ws == Some(c) && ReadyOf(u, c) == Open
    ensures var v := Do(u, e);
            && v.ws == Some(c) && ReadyOf(v, c) == Open
            && (v.reconnectTimer.Some? <==> u.reconnectTimer.Some? || e.SocketCloses?)
  {
    hide RequestHistory, OnMessage;
    match e
    case ClickHistory => TimersRequest(u);
    case MessageArrives(_, m) => TimersMessage(u, m);
    case _ =>
  }

  lemma OpenedLive(u: Ui, c: nat)
    requires OneTimer(u) && OneSocket(u) && Enabled(u, SocketOpens(c))
    ensures var v := Do(u, SocketOpens(c)); v.ws == Some(c) && ReadyOf(v, c) == Open && v.reconnectTimer.None?
  {
    hide RequestHistory;
    RequestKeeps(Log(ClearTimer(u.(sockets := u.sockets[c := Open])), Plain(WsOpen)));
  }

  lemma {:induction false} LiveHolds(first: Number, run: seq<Ui>, events: seq<UiEvent>, i: nat, j: nat, c: nat)
    requires IsRun(first, run, events) && i < j <= |events| && events[i] == SocketOpens(c)
    requires forall k :: i < k < j ==> LeavesAlone(events[k], c)
    ensures run[j].ws == Some(c) && ReadyOf(run[j], c) == Open
    ensures run[j].reconnectTimer.Some? <==> exists k :: i < k < j && events[k].SocketCloses?
  {
    hide Do, Enabled, OneTimer, OneSocket, LogAdds, LeavesAlone;
    UiInvariant(first, run, events, j - 1);
    if j == i + 1 {
      OpenedLive(run[i], c);
    } else {
      LiveHolds(first, run, events, i, j - 1, c);
      LiveStep(run[j - 1], events[j - 1], c);
    }
  }

  lemma FiringCloses(u: Ui, timer: nat, created: bool, c: nat)
    requires OneTimer(u) && OneSocket(u) && u.ws == Some(c) && ReadyOf(u, c) == Open
    ensures ReadyOf(Do(u, TimerFires(timer, created)), c) == Closing
  {
  }

  /** From the opening of a connection on, as long as the user and the connection itself leave it alone, the
      page sets a timer that ends it if and only if a close event of another socket has come since. */
  lemma StaleCloseEndsIff(first: Number, run: seq<Ui>, events: seq<UiEvent>, i: nat, j: nat, c: nat)
    requires IsRun(first, run, events) && i < j <= |events| && events[i] == SocketOpens(c)
    requires forall k :: i < k < j ==> LeavesAlone(events[k], c)
    ensures ReadyOf(run[j], c) == Open
    ensures (exists t: nat :: Enabled(run[j], TimerFires(t, true))) <==>
      exists k :: i < k < j && events[k].SocketCloses?
    ensures forall t, created :: ReadyOf(Do(run[j], TimerFires(t, created)), c) == Closing
  {
    hide Do, OneSocket, LogAdds, LeavesAlone;
    UiInvariant(first, run, events, j);
    LiveHolds(first, run, events, i, j, c);
    var u := run[j];
    if u.reconnectTimer.Some? {
      assert Enabled(u, TimerFires(u.reconnectTimer.value, true));
    }
    forall t, created
      ensures ReadyOf(Do(u, TimerFires(t, created)), c) == Closing
    {
      FiringCloses(u, t, created, c);
    }
  }

  const LATE_CLOSE: seq<UiEvent> :=
    [ClickConnect(true), ClickConnect(true), SocketOpens(1), SocketCloses(0), TimerFires(0, true)]

  /** The first two sockets of a page whose user connects twice. */
  lemma ConnectTwice(u: Ui)
    requires u == INITIAL
    ensures var v := Do(Do(u, ClickConnect(true)), ClickConnect(true));
            && v.sockets == map[0 := Closing, 1 := Connecting] && v.ws == Some(1) && v.timers == {} && v.nextTimer == 0
            && v.reconnectTimer.None? && !v.pendingRecovery && !v.manualDisconnect && v.nextSocket == 2
  {
    var v := Do(u, ClickConnect(true));
    assert v.sockets == map[0 := Connecting] && v.nextSocket == 1 && v.ws == Some(0);
  }

  lemma OpenThenLateClose(u: Ui)
    requires u.sockets == map[0 := Closing, 1 := Connecting] && u.ws == Some(1) && u.timers == {} && u.nextTimer == 0
    requires u.reconnectTimer.None? && !u.pendingRecovery && !u.manualDisconnect && u.nextSocket == 2
    ensures var v := Do(u, SocketOpens(1));
            && v.sockets == map[0 := Closing, 1 := Open]
            && var w := Do(v, SocketCloses(0));
               && w.sockets == map[0 := Closed, 1 := Open] && w.timers == {0} && w.ws == Some(1)
               && w.reconnectTimer == Some(0) && w.nextSocket == 2
  {
  }

  /** It does happen: the user connects twice, the second socket opens, the close event of the first comes,
      and the timer closes the open connection. */
  lemma StaleCloseHappens() returns (run: seq<Ui>)
    ensures IsRun(Finite(300.0), run, LATE_CLOSE)
    ensures ReadyOf(run[4], 1) == Open && LATE_CLOSE[3] == SocketCloses(0) && ReadyOf(run[5], 1) == Closing
  {
    hide Do;
    var u0 := INITIAL;
    var u1 := Do(u0, ClickConnect(true));
    var u2 := Do(u1, ClickConnect(true));
    ConnectTwice(u0);
    var u3 := Do(u2, SocketOpens(1));
    var u4 := Do(u3, SocketCloses(0));
    OpenThenLateClose(u2);
    var u5 := Do(u4, TimerFires(0, true));
    LateFire(u4);
    run := [u0, u1, u2, u3, u4, u5];
  }

  lemma LateFire(u: Ui)
    requires u.sockets == map[0 := Closed, 1 := Open] && u.ws == Some(1) && u.nextSocket != 1
    ensures ReadyOf(Do(u, TimerFires(0, true)), 1) == Closing
  {
  }

  // ---------- Giving up ----------

  /** The user has disconnected, or a timer or the current socket keeps the page going. */
  predicate Trying(u: Ui) {
    u.manualDisconnect || u.reconnectTimer.Some? || (u.ws.Some? && ReadyOf(u, u.ws.value) != Closed)
  }

  /** The WebSocket constructor throws. */
  predicate Throws(e: UiEvent) { (e.ClickConnect? || e.TimerFires?) && !e.created }

  /** Events that start the page anew. */
  predicate Restarts(e: UiEvent) { (e.ClickConnect? && e.created) || e.ClickDisconnect? || e.SocketCloses? }

  /** A constructor that throws ends every attempt, and nothing else does. */
  lemma TryingStep(u: Ui, e: UiEvent)
    requires OneTimer(u) && OneSocket(u) && Enabled(u, e)
    ensures Trying(Do(u, e)) <==> !Throws(e) && (Trying(u) || Restarts(e))
  {
    hide Connect, RequestHistory, OnMessage;
    match e
    case ClickConnect(created) => TryingConnect(u, false, created);
    case TimerFires(timer, created) => TryingConnect(Fired(u, timer), true, created);
    case MessageArrives(_, m) => TimersMessage(u, m);
    case ClickHistory => RequestKeeps(u);
    case SocketOpens(s) =>
      RequestKeeps(Log(ClearTimer(u.(sockets := u.sockets[s := Open])), Plain(WsOpen)));
    case _ =>
  }

  lemma TryingConnect(u: Ui, isReconnect: bool, created: bool)
    ensures Trying(Connect(u, isReconnect, created)) <==> created
  {
    hide CloseSocket;
    var v := ClearTimer(u.(manualDisconnect := false));
    if v.ws.Some? {
      CloseSocketFacts(v, v.ws.value);
    }
  }

  /** In every run the page is still trying exactly when it was started and no constructor has thrown
      since. */
  lemma {:induction false} TryingIff(first: Number, run: seq<Ui>, events: seq<UiEvent>, k: nat)
    requires IsRun(first, run, events) && k < |run|
    ensures Trying(run[k]) <==>
            exists i :: 0 <= i < k && Restarts(events[i]) && forall j :: i < j < k ==> !Throws(events[j])
  {
    hide Do, Trying, Restarts, Throws, OneTimer, OneSocket, LogAdds;
    if k == 0 {
      NotTryingAtFirst(first);
    } else {
      TryingIff(first, run, events, k - 1);
      UiInvariant(first, run, events, k - 1);
      TryingStep(run[k - 1], events[k - 1]);
      NotBoth(events[k - 1]);
    }
  }

  lemma NotBoth(e: UiEvent)
    ensures !(Throws(e) && Restarts(e))
  {
  }

  lemma NotTryingAtFirst(first: Number)
    ensures !Trying(INITIAL.(lastN := first))
  {
  }

  const THROWN: seq<UiEvent> := [ClickConnect(true), SocketOpens(0), SocketCloses(0), TimerFires(0, false)]

  /** It does happen: a connection closes, and the constructor throws on the reconnection. The page then
      waits for nothing but its user. */
  lemma GivingUpHappens() returns (run: seq<Ui>)
    ensures IsRun(Finite(300.0), run, THROWN) && !Trying(run[4]) && !run[4].manualDisconnect
    ensures forall e :: Enabled(run[4], e) ==>
      e.ClickConnect? || e.ClickDisconnect? || e.ClickHistory? || e.ClickClear? || e.ClickPause? || e.SetLastN?
  {
    hide Do;
    var u0 := INITIAL;
    var u1 := Do(u0, ClickConnect(true));
    ConnectFirst(u0);
    var u2 := Do(u1, SocketOpens(0));
    var u3 := Do(u2, SocketCloses(0));
    OpenThenClose(u1);
    var u4 := Do(u3, TimerFires(0, false));
    ThrowAfterClose(u3);
    run := [u0, u1, u2, u3, u4];
  }

  lemma ConnectFirst(u: Ui)
    requires u == INITIAL
    ensures var v := Do(u, ClickConnect(true));
            && v.sockets == map[0 := Connecting] && v.ws == Some(0) && !v.manualDisconnect
            && v.reconnectTimer.None? && v.timers == {} && v.nextTimer == 0 && !v.pendingRecovery
  {
  }

  lemma OpenThenClose(u: Ui)
    requires u.sockets == map[0 := Connecting] && u.ws == Some(0) && !u.manualDisconnect
    requires u.reconnectTimer.None? && u.timers == {} && u.nextTimer == 0 && !u.pendingRecovery
    ensures var v := Do(Do(u, SocketOpens(0)), SocketCloses(0));
            && Enabled(Do(u, SocketOpens(0)), SocketCloses(0))
            && v.sockets == map[0 := Closed] && v.timers == {0} && v.reconnectTimer == Some(0)
  {
  }

  lemma ThrowAfterClose(u: Ui)
    requires u.sockets == map[0 := Closed] && u.timers == {0}
    ensures var v := Do(u, TimerFires(0, false));
            !Trying(v) && !v.manualDisconnect && v.timers == {} && v.sockets == map[0 := Closed]
  {
  }

  // ---------- A reconnection asks for what was missed ----------

  /** While socket `s` of a reconnection is connecting, it is current and the page remembers to ask. */
  ghost predicate Recovering(u: Ui, s: nat) {
    s in u.sockets && (u.sockets[s] == Connecting ==> u.ws == Some(s) && u.pendingRecovery)
  }

  lemma RecoveringStep(u: Ui, e: UiEvent, s: nat)
    requires OneSocket(u) && Enabled(u, e) && Recovering(u, s)
    ensures Recovering(Do(u, e), s)
  {
    hide OnMessage, RequestHistory, Connect, Disconnect, ScheduleReconnect, ClearAll, ClearTimer, RequestedCount;
    match e
    case ClickDisconnect => DisconnectLetsGo(u, true, s);
    case ClickConnect(created) => RecoveringConnect(u, false, created, s);
    case TimerFires(timer, created) =>
      RecoveringConnect(Fired(u, timer), true, created, s);
    case MessageArrives(_, m) => TimersMessage(u, m);
    case ClickHistory => RequestKeeps(u);
    case SocketOpens(t) =>
      ClearTimerFacts(u.(sockets := u.sockets[t := Open]));
      RequestKeeps(Log(ClearTimer(u.(sockets := u.sockets[t := Open])), Plain(WsOpen)));
    case SocketCloses(t) => ScheduleKeeps(Log(u.(sockets := u.sockets[t := Closed]), Plain(WsClose)));
    case ClickClear => ClearKeeps(u);
    case _ =>
  }

  lemma RecoveringConnect(u: Ui, isReconnect: bool, created: bool, s: nat)
    requires OneSocket(u) && s in u.sockets && (u.sockets[s] == Connecting ==> u.ws == Some(s))
    ensures Recovering(Connect(u, isReconnect, created), s)
  {
    hide Disconnect;
    DisconnectLetsGo(u, false, s);
  }

  lemma DisconnectLetsGo(u: Ui, manual: bool, s: nat)
    requires OneSocket(u) && s in u.sockets && (u.sockets[s] == Connecting ==> u.ws == Some(s))
    ensures var v := Disconnect(u, manual);
            s in v.sockets && v.sockets[s] != Connecting && v.nextSocket == u.nextSocket && s < v.nextSocket
  {
    hide ClearTimer, CloseSocket;
    var w := ClearTimer(u.(manualDisconnect := manual));
    ClearTimerFacts(u.(manualDisconnect := manual));
    if w.ws.Some? {
      CloseSocketFacts(w, w.ws.value);
    }
  }

  lemma ClearTimerFacts(u: Ui)
    ensures var v := ClearTimer(u);
            && v.sockets == u.sockets && v.ws == u.ws && v.nextSocket == u.nextSocket
            && v.pendingRecovery == u.pendingRecovery
  {
  }

  lemma RequestKeeps(u: Ui)
    ensures SameConnection(u, RequestHistory(u)) && RequestHistory(u).pendingRecovery == u.pendingRecovery
  {
  }

  lemma ScheduleKeeps(u: Ui)
    ensures var v := ScheduleReconnect(u);
            v.sockets == u.sockets && v.ws == u.ws && v.pendingRecovery == u.pendingRecovery
  {
  }

  lemma ClearKeeps(u: Ui)
    ensures SameConnection(u, ClearAll(u)) && ClearAll(u).pendingRecovery == u.pendingRecovery
  {
  }

  lemma ReconnectStarts(u: Ui, timer: nat)
    requires OneSocket(u)
    ensures Recovering(Do(u, TimerFires(timer, true)), u.nextSocket)
  {
  }

  lemma {:induction false} RecoveringHolds(first: Number, run: seq<Ui>, events: seq<UiEvent>, i: nat, k: nat)
    requires IsRun(first, run, events) && i < k <= |events| && events[i].TimerFires? && events[i].created
    ensures Recovering(run[k], run[i].nextSocket)
  {
    hide Do, Recovering, OneTimer, OneSocket, LogAdds;
    UiInvariant(first, run, events, k - 1);
    if k == i + 1 {
      ReconnectStarts(run[i], events[i].timer);
    } else {
      RecoveringHolds(first, run, events, i, k - 1);
      RecoveringStep(run[k - 1], events[k - 1], run[i].nextSocket);
    }
  }

  /** In every run, when the socket of a reconnection opens, whatever happened since the timer fired, the
      page asks on it for as many rows as Last N now says. */
  lemma RecoveryAsks(first: Number, run: seq<Ui>, events: seq<UiEvent>, i: nat, j: nat) returns (n: nat)
    requires IsRun(first, run, events) && i < j < |events| && events[i].TimerFires? && events[i].created
    requires events[j] == SocketOpens(run[i].nextSocket)
    ensures Names(run[j].lastN, n)
    ensures run[j + 1].requests == run[j].requests + if n > 0 then [(run[i].nextSocket, n)] else []
  {
    n := RequestedCount(run[j].lastN);
    RequestedIsNamed(run[j].lastN, n);
    RecoveringHolds(first, run, events, i, j);
    OpeningAsks(run[j], run[i].nextSocket);
  }

  lemma OpeningAsks(u: Ui, s: nat)
    requires Recovering(u, s) && Enabled(u, SocketOpens(s))
    ensures var n := RequestedCount(u.lastN);
            Do(u, SocketOpens(s)).requests == u.requests + if n > 0 then [(s, n)] else []
  {
  }

  // ---------- The gap column ----------

  function GapSum(log: seq<LogRow>): nat {
    if log == [] then 0
    else GapSum(log[..|log| - 1]) + if log[|log| - 1].gap.Some? then log[|log| - 1].gap.value else 0
  }

  lemma GapLog(u: Ui, row: LogRow)
    ensures GapSum(Log(u, row).uiLog) == GapSum(u.uiLog) + if row.gap.Some? then row.gap.value else 0
  {
    assert (u.uiLog + [row])[..|u.uiLog|] == u.uiLog;
  }

  /** A live id that is taken in does not go back behind the last one. */
  predicate Forward(u: Ui, e: UiEvent) {
    e.MessageArrives? && e.m.Telemetry? && !u.paused && u.lastLiveSeq.Some? ==> u.lastLiveSeq.value <= e.m.x.seqNo
  }

  lemma GapStep(u: Ui, e: UiEvent)
    requires u.lastLiveSeq.Some? && !e.ClickConnect? && !e.ClickClear?
    ensures var v := Do(u, e);
            && v.lastLiveSeq.Some?
            && GapSum(v.uiLog) - GapSum(u.uiLog) >= v.lastLiveSeq.value - u.lastLiveSeq.value
            && (GapSum(v.uiLog) - GapSum(u.uiLog) == v.lastLiveSeq.value - u.lastLiveSeq.value <==> Forward(u, e))
  {
    hide GapSum, Disconnect, Connect, OnOpen, OnMessage, RequestedCount, ClearTimer, ReadyOf;
    match e
    case MessageArrives(_, m) => GapMessage(u, m);
    case TimerFires(timer, created) =>
      GapReconnect(Fired(u, timer), created);
    case ClickDisconnect => DisconnectNoGaps(u, true);
    case ClickHistory => GapLog(u, AskedRow(RequestedCount(u.lastN)));
    case SocketOpens(s) => OpenNoGaps(u.(sockets := u.sockets[s := Open]));
    case SocketCloses(s) => GapLog(u.(sockets := u.sockets[s := Closed]), Plain(WsClose));
    case SocketFails(_) => GapLog(u, Plain(WsError));
    case _ =>
  }

  lemma GapMessage(u: Ui, m: Message)
    requires u.lastLiveSeq.Some?
    ensures var v := OnMessage(u, m);
            && v.lastLiveSeq.Some?
            && GapSum(v.uiLog) - GapSum(u.uiLog) >= v.lastLiveSeq.value - u.lastLiveSeq.value
            && (GapSum(v.uiLog) - GapSum(u.uiLog) == v.lastLiveSeq.value - u.lastLiveSeq.value
                <==> (m.Telemetry? && !u.paused ==> u.lastLiveSeq.value <= m.x.seqNo))
  {
    hide GapSum, ReplayItems, LastSamples, CountItems;
    match m
    case Telemetry(x) => GapLog(u.(pendingRecovery := false), LiveRow(x, Gap(u, x)));
    case History(items) =>
      ReplayNoGaps(u, items);
      GapLog(ReplayItems(u, items), BatchRow(CountItems(items), u.lastN));
    case Failure => GapLog(u, Plain(ServerError));
    case _ =>
  }

  lemma GapReconnect(u: Ui, created: bool)
    ensures var v := Connect(u, true, created); GapSum(v.uiLog) == GapSum(u.uiLog) && v.lastLiveSeq == u.lastLiveSeq
  {
    hide GapSum, Disconnect;
    DisconnectNoGaps(u, false);
    GapLog(NewSocket(Disconnect(u, false)), Plain(ReconnectAttempt));
  }

  lemma {:induction false} ReplayNoGaps(u: Ui, items: seq<Option<Sample>>)
    ensures var v := ReplayItems(u, items); GapSum(v.uiLog) == GapSum(u.uiLog) && v.lastLiveSeq == u.lastLiveSeq
  {
    if items != [] {
      var n := |items| - 1;
      ReplayNoGaps(u, items[..n]);
      if items[n].Some? {
        GapLog(ReplayItems(u, items[..n]), ReplayRow(items[n].value));
      }
    }
  }

  lemma DisconnectNoGaps(u: Ui, manual: bool)
    ensures Disconnect(u, manual).uiLog == u.uiLog && Disconnect(u, manual).lastLiveSeq == u.lastLiveSeq
  {
  }

  lemma OpenNoGaps(u: Ui)
    ensures GapSum(OnOpen(u).uiLog) == GapSum(u.uiLog) && OnOpen(u).lastLiveSeq == u.lastLiveSeq
  {
    hide GapSum, RequestedCount;
    var v := Log(ClearTimer(u), Plain(WsOpen));
    GapLog(ClearTimer(u), Plain(WsOpen));
    GapLog(v, AskedRow(RequestedCount(u.lastN)));
  }

  /** Between two moments of a run, through closes, reconnections, replays and pauses, the logged gaps grow
      at least as much as the last live id, and just as much if and only if no live id taken in went back.
      Only a connect or clear by the user starts the count anew. */
  lemma {:induction false} GapsTelescope(first: Number, run: seq<Ui>, events: seq<UiEvent>, i: nat, j: nat)
    requires IsRun(first, run, events) && i <= j <= |events| && run[i].lastLiveSeq.Some?
    requires forall k :: i <= k < j ==> !events[k].ClickConnect? && !events[k].ClickClear?
    ensures run[j].lastLiveSeq.Some?
    ensures var gaps := GapSum(run[j].uiLog) - GapSum(run[i].uiLog);
            var ids := run[j].lastLiveSeq.value - run[i].lastLiveSeq.value;
            gaps >= ids && (gaps == ids <==> forall k :: i <= k < j ==> Forward(run[k], events[k]))
  {
    hide Do, Enabled, Forward, GapSum;
    if i < j {
      GapsTelescope(first, run, events, i, j - 1);
      GapStep(run[j - 1], events[j - 1]);
    }
  }

  // ---------- Last N = 0 ----------

  ghost predicate Disabled(n: Number) { n.NotFinite? || n.r < 1.0 }

  lemma ConnectAsksNothing(u: Ui, isReconnect: bool, created: bool)
    ensures Connect(u, isReconnect, created).requests == u.requests
    ensures Connect(u, isReconnect, created).lastN == u.lastN
  {
    hide Disconnect;
    DisconnectKeepsLog(u, false);
  }

  /** With Last N at zero an event asks the server for nothing. */
  lemma NothingAsked(u: Ui, e: UiEvent)
    requires Disabled(u.lastN) && Enabled(u, e)
    ensures Do(u, e).requests == u.requests
  {
    hide ReplayItems, Connect, Disconnect;
    match e
    case ClickConnect(created) => ConnectAsksNothing(u, false, created);
    case TimerFires(timer, created) =>
      ConnectAsksNothing(Fired(u, timer), true, created);
    case ClickDisconnect => DisconnectKeepsLog(u, true);
    case MessageArrives(_, m) =>
      if m.History? {
        ReplayKeepsBrowser(u, m.items);
      }
    case _ =>
  }
}
