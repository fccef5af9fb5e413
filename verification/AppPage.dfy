/** The page of app.js as an object: its handlers in the form the code gives them. Each keeps the page
    valid, and together they are the steps of module AppRuns. */
module AppPage {
  import opened Basics
  import opened Pipeline
  import opened App
  import opened AppRuns

  class Page {
    var ws: Option<nat>
    var paused: bool
    var manualDisconnect: bool
    var pendingRecovery: bool
    var reconnectTimer: Option<nat>
    var reconnectCount: nat
    var samples: seq<Sample>
    var uiLog: seq<LogRow>
    var lastLiveSeq: Option<nat>
    var lastN: Number
    var timers: set<nat>
    var nextTimer: nat
    var sockets: map<nat, ReadyState>
    var nextSocket: nat
    var requests: seq<(nat, nat)>
    ghost var pushed: seq<Sample>

    constructor (first: Number)
      ensures View() == INITIAL.(lastN := first) && Valid()
    {
      ws, paused, manualDisconnect, pendingRecovery := None, false, false, false;
      reconnectTimer, reconnectCount := None, 0;
      samples, uiLog, lastLiveSeq, lastN, timers, nextTimer := [], [], None, first, {}, 0;
      sockets, nextSocket, requests, pushed := map[], 0, [], [];
    }

    ghost function View(): Ui
      reads this
    {
      Ui(ws, paused, manualDisconnect, pendingRecovery, reconnectTimer, reconnectCount, samples, uiLog, lastLiveSeq,
         lastN, timers, nextTimer, sockets, nextSocket, requests, pushed)
    }

    /** One timer at most, the recorded one; one live socket at most, the current one; the newest 500
        samples; as many replay rows as the batches announce. */
    ghost predicate Valid()
      reads this
    {
      OneTimer(View()) && OneSocket(View()) && LogAdds(View())
    }

    /** Some socket is connecting or open. */
    ghost predicate Connected()
      reads this
    {
      exists s :: s in sockets && (sockets[s] == Connecting || sockets[s] == Open)
    }

    method LogUiEvent(row: LogRow)
      modifies this`uiLog
      ensures View() == Log(old(View()), row)
    {
      uiLog := uiLog + [row];
    }

    /** The buffer stays the newest samples pushed, at most 500 of them. */
    method PushOne(x: Sample)
      requires samples == LastSamples(pushed)
      modifies this`samples, this`pushed
      ensures View() == PushSample(old(View()), x)
      ensures pushed == old(pushed) + [x] && samples == LastSamples(pushed)
      ensures Newest(samples, pushed)
    {
      LastAreNewest(pushed + [x]);
      LastAfterPush(pushed, x);
      samples := samples + [x];
      pushed := pushed + [x];
      if |samples| > MAX_SAMPLES {
        samples := samples[|samples| - MAX_SAMPLES..];
      }
    }

    /** Asks on the current socket for the rows Last N names, or leaves the page as it is. */
    method RequestHistoryNow() returns (asked: bool)
      requires Valid()
      modifies this`uiLog, this`requests
      ensures Valid() && View() == RequestHistory(old(View()))
      ensures asked <==> !Names(lastN, 0) && exists s :: s in sockets && sockets[s] == Open
      ensures asked ==> ws.Some?
      ensures asked ==>
        exists n :: Names(lastN, n) && requests == old(requests) + [(ws.value, n)]
                    && uiLog == old(uiLog) + [AskedRow(n)]
      ensures !asked ==> View() == old(View())
    {
      hide RequestedCount, ReplayRows, BatchCounts, LastSamples;
      RequestAdds(View());
      TimersRequest(View());
      var n := RequestedCount(lastN);
      RequestedIsNamed(lastN, n);
      RequestedIsNamed(lastN, 0);
      if n <= 0 {
        return false;
      }
      if ws.None? || ws.value !in sockets || sockets[ws.value] != Open {
        return false;
      }
      LogUiEvent(AskedRow(n));
      requests := requests + [(ws.value, n)];
      asked := true;
    }

    method ClearReconnectTimer()
      modifies this`timers, this`reconnectTimer
      ensures View() == ClearTimer(old(View()))
    {
      if reconnectTimer.Some? {
        timers := timers - {reconnectTimer.value};
        reconnectTimer := None;
      }
    }

    /** Afterwards nothing is connecting or open and no timer is set. */
    method DoDisconnect(manual: bool)
      requires Valid()
      modifies this`manualDisconnect, this`timers, this`reconnectTimer, this`sockets, this`ws
      ensures Valid() && View() == Disconnect(old(View()), manual)
      ensures manualDisconnect == manual && ws.None? && timers == {} && !Connected()
    {
      hide ClearTimer, CloseSocket, LogAdds;
      TimersDisconnect(View(), manual);
      DisconnectKeepsLog(View(), manual);
      manualDisconnect := manual;
      ClearReconnectTimer();
      if ws.Some? {
        CloseWebSocket(ws.value);
        ws := None;
      }
    }

    /** WebSocket.close(). */
    method CloseWebSocket(s: nat)
      modifies this`sockets
      ensures View() == CloseSocket(old(View()), s)
    {
      if s in sockets && (sockets[s] == Connecting || sockets[s] == Open) {
        sockets := sockets[s := Closing];
      }
    }

    /** new WebSocket(url) */
    method CreateWebSocket()
      modifies this`sockets, this`nextSocket, this`ws
      ensures View() == NewSocket(old(View()))
    {
      var s := nextSocket;
      sockets := sockets[s := Connecting];
      nextSocket := s + 1;
      ws := Some(s);
    }

    method ResetRunStateForNewManualRun()
      modifies this`uiLog, this`samples, this`lastLiveSeq, this`reconnectCount, this`pendingRecovery, this`pushed
      ensures View() == ResetRun(old(View()))
      ensures uiLog == [] && samples == [] && lastLiveSeq.None? && reconnectCount == 0 && !pendingRecovery
    {
      uiLog := [];
      samples, pushed := [], [];
      lastLiveSeq, reconnectCount, pendingRecovery := None, 0, false;
    }

    /** A new socket, if one can be made, is the only one connecting or open, and no timer is set; a manual
        connect starts with an empty log and buffer, a reconnection keeps them. */
    method DoConnect(isReconnect: bool, created: bool)
      requires Valid()
      modifies this
      ensures Valid() && View() == Connect(old(View()), isReconnect, created)
      ensures timers == {} && !manualDisconnect && requests == old(requests)
      ensures created ==> ws == Some(old(nextSocket)) && ReadyOf(View(), ws.value) == Connecting
      ensures !created ==> ws.None? && !Connected()
      ensures isReconnect ==> pushed == old(pushed) && old(uiLog) <= uiLog
      ensures isReconnect ==> lastLiveSeq == old(lastLiveSeq) && pendingRecovery == old(pendingRecovery)
      ensures !isReconnect ==> pushed == [] && |uiLog| <= 2
      ensures !isReconnect ==> lastLiveSeq.None? && !pendingRecovery && reconnectCount == 0
    {
      hide Disconnect, ReplayRows, BatchCounts, LastSamples;
      ghost var u := View();
      TimersConnect(u, isReconnect, created);
      ConnectAdds(u, isReconnect, created);
      DisconnectKeepsLog(u, false);
      DoDisconnect(false);
      if !isReconnect {
        ResetRunStateForNewManualRun();
        LogUiEvent(Plain(RunStart));
      }
      if !created {
        return;
      }
      CreateWebSocket();
      LogUiEvent(Plain(if isReconnect then ReconnectAttempt else ConnectAttempt));
    }

    /** Unless the user disconnected, exactly one timer is set afterwards, and an attempt is counted if
        it is new. */
    method DoScheduleReconnect()
      requires Valid()
      modifies this`reconnectCount, this`reconnectTimer, this`timers, this`nextTimer
      ensures Valid() && View() == ScheduleReconnect(old(View()))
      ensures manualDisconnect ==> View() == old(View()) && timers == {}
      ensures !manualDisconnect ==> reconnectTimer.Some? && timers == {reconnectTimer.value}
      ensures reconnectCount == old(reconnectCount) + |timers - old(timers)|
    {
      hide ReplayRows, BatchCounts, LastSamples;
      ScheduleKeepsTimers(View());
      if manualDisconnect {
        return;
      }
      if reconnectTimer.Some? {
        return;
      }
      reconnectCount := reconnectCount + 1;
      reconnectTimer := Some(nextTimer);
      timers := timers + {nextTimer};
      nextTimer := nextTimer + 1;
      assert timers - old(timers) == {nextTimer - 1};
    }

    /** The timer callback: from now on the page means to ask for history. */
    method WhenTimerFires(timer: nat, created: bool)
      requires Valid() && timer in timers
      modifies this
      ensures Valid() && View() == Do(old(View()), TimerFires(timer, created))
      ensures timers == {} && pendingRecovery && pushed == old(pushed) && old(uiLog) <= uiLog
      ensures created ==> ws == Some(old(nextSocket)) && ReadyOf(View(), ws.value) == Connecting
    {
      hide Connect, OneSocket, LogAdds;
      ghost var u := View();
      timers := timers - {timer};
      reconnectTimer := None;
      pendingRecovery := true;
      SameSocketsAndLog(u, View());
      ReconnectKeepsIntent(View(), created);
      DoConnect(true, created);
    }

    /** No timer is left; if the connection is a recovery, the rows Last N names are asked for on it. */
    method WhenOpen()
      requires Valid()
      modifies this`timers, this`reconnectTimer, this`uiLog, this`requests
      ensures Valid() && View() == OnOpen(old(View()))
      ensures timers == {} && reconnectTimer.None?
      ensures requests != old(requests) <==>
        pendingRecovery && !Names(lastN, 0) && exists s :: s in sockets && sockets[s] == Open
      ensures requests == old(requests)
              || (ws.Some? && exists n :: Names(lastN, n) && requests == old(requests) + [(ws.value, n)])
    {
      hide LogAdds, RequestHistory, RequestedCount;
      ghost var u := View();
      OpenAdds(u);
      OpenKeepsTimers(u);
      RequestedIsNamed(lastN, 0);
      ClearReconnectTimer();
      LogUiEvent(Plain(WsOpen));
      LogKept(u, ClearTimer(u));
      PlainAdds(ClearTimer(u), WsOpen);
      if pendingRecovery && RequestedCount(lastN) > 0 {
        var asked := RequestHistoryNow();
      }
    }

    /** The close is logged, and a timer is set unless the user disconnected. */
    method WhenClosed()
      requires Valid()
      modifies this`uiLog, this`reconnectCount, this`reconnectTimer, this`timers, this`nextTimer
      ensures Valid() && View() == OnClose(old(View()))
      ensures uiLog == old(uiLog) + [Plain(WsClose)]
      ensures if manualDisconnect then timers == {} else |timers| == 1
    {
      hide LogAdds, ScheduleReconnect;
      PlainAdds(View(), WsClose);
      LogUiEvent(Plain(WsClose));
      DoScheduleReconnect();
    }

    /** A live sample is pushed and logged with its distance from the last one; a paused page ignores it. */
    method DoHandleTelemetry(x: Sample)
      requires Valid()
      modifies this`pendingRecovery, this`uiLog, this`lastLiveSeq, this`samples, this`pushed
      ensures Valid() && View() == HandleTelemetry(old(View()), x)
      ensures paused ==> View() == old(View())
      ensures !paused ==> pushed == old(pushed) + [x] && lastLiveSeq == Some(x.seqNo) && !pendingRecovery
      ensures !paused ==> |uiLog| == |old(uiLog)| + 1 && old(uiLog) <= uiLog
                          && uiLog[|uiLog| - 1].event == TelemetryRow && uiLog[|uiLog| - 1].source == Live
      ensures !paused && old(lastLiveSeq).Some? && old(lastLiveSeq).value <= x.seqNo ==>
        uiLog[|uiLog| - 1].gap == Some(x.seqNo - old(lastLiveSeq).value)
      ensures !paused && (old(lastLiveSeq).Some? ==> x.seqNo < old(lastLiveSeq).value) ==>
        uiLog[|uiLog| - 1].gap == Some(0)
    {
      hide ReplayRows, BatchCounts, LastSamples, OneTimer, OneSocket;
      ghost var u := View();
      TimersMessage(u, Telemetry(x));
      MessageAdds(u, Telemetry(x));
      if paused {
        return;
      }
      var gap := 0;
      if lastLiveSeq.Some? {
        if x.seqNo > lastLiveSeq.value {
          gap := x.seqNo - lastLiveSeq.value;
        }
      }
      if pendingRecovery {
        pendingRecovery := false;
      }
      LogUiEvent(LiveRow(x, gap));
      lastLiveSeq := Some(x.seqNo);
      PushOne(x);
    }

    /** The telemetry items are pushed in order, each with a replay row, and the batch row counts them. */
    method DoHandleHistory(items: seq<Option<Sample>>)
      requires Valid()
      modifies this`uiLog, this`samples, this`pushed
      ensures Valid() && View() == HandleHistory(old(View()), items)
      ensures pushed == old(pushed) + Values(items)
      ensures ReplayRows(uiLog) == ReplayRows(old(uiLog)) + |Values(items)|
      ensures uiLog != [] && uiLog[|uiLog| - 1] == BatchRow(|Values(items)|, lastN)
    {
      hide OneTimer, OneSocket, LastSamples, ReplayRows, BatchCounts;
      ghost var u := View();
      HistoryKeepsValid(u, items);
      CountIsValues(items);
      var count := 0;
      for i := 0 to |items|
        invariant View() == ReplayItems(u, items[..i])
        invariant samples == LastSamples(pushed)
        invariant count == CountItems(items[..i])
      {
        Snoc(items, i);
        var item := items[i];
        if item.Some? {
          count := count + 1;
          LogUiEvent(ReplayRow(item.value));
          PushOne(item.value);
        }
      }
      assert items[..|items|] == items;
      LogUiEvent(BatchRow(count, lastN));
    }

    /** No message touches sockets, timers or requests; a history message ends the recovery. */
    method WhenMessage(m: Message)
      requires Valid()
      modifies this`pendingRecovery, this`uiLog, this`lastLiveSeq, this`samples, this`pushed
      ensures Valid() && View() == OnMessage(old(View()), m)
      ensures m.History? ==> !pendingRecovery && pushed == old(pushed) + Values(m.items)
      ensures m.Telemetry? ==> pushed == if paused then old(pushed) else old(pushed) + [m.x]
      ensures !m.History? && !m.Telemetry? ==> pushed == old(pushed)
    {
      hide OneTimer, OneSocket, LogAdds, HandleTelemetry, HandleHistory;
      ghost var u := View();
      TimersMessage(u, m);
      MessageAdds(u, m);
      match m {
        case Telemetry(x) => DoHandleTelemetry(x);
        case History(items) =>
          DoHandleHistory(items);
          pendingRecovery := false;
        case Failure => LogUiEvent(Plain(ServerError));
        case _ =>
      }
    }

    /** Log and buffer are empty; the connection goes on. */
    method DoClearAll()
      requires Valid()
      modifies this`samples, this`lastLiveSeq, this`uiLog, this`pushed
      ensures Valid() && View() == ClearAll(old(View()))
      ensures uiLog == [] && samples == [] && lastLiveSeq.None?
    {
      samples, lastLiveSeq, uiLog := [], None, [];
      pushed := [];
    }

    /** What the browser does with an event: it changes its own state and calls the handler. */
    method Handle(e: UiEvent)
      requires Valid() && Enabled(View(), e)
      modifies this
      ensures Valid() && View() == Do(old(View()), e)
      ensures e.ClickPause? ==> paused == !old(paused)
      ensures e.SetLastN? ==> lastN == e.n
    {
      hide Connect, Disconnect, RequestHistory, OnOpen, OnClose, OnMessage, OneTimer, OneSocket, LogAdds;
      ghost var u := View();
      match e {
        case ClickConnect(created) => DoConnect(false, created);
        case ClickDisconnect => DoDisconnect(true);
        case ClickHistory => var asked := RequestHistoryNow();
        case ClickClear => DoClearAll();
        case ClickPause =>
          paused := !paused;
          SameSocketsAndLog(u, View());
        case SetLastN(n) =>
          lastN := n;
          SameSocketsAndLog(u, View());
        case TimerFires(timer, created) => WhenTimerFires(timer, created);
        case SocketOpens(s) =>
          sockets := sockets[s := Open];
          OpeningKeeps(u, s);
          WhenOpen();
        case SocketCloses(s) =>
          sockets := sockets[s := Closed];
          ClosingKeeps(u, s);
          WhenClosed();
        case SocketFails(_) =>
          LogUiEvent(Plain(WsError));
          PlainAdds(u, WsError);
          TimersKept(u, View());
        case MessageArrives(_, m) => WhenMessage(m);
      }
    }
  }

  lemma SameSocketsAndLog(u: Ui, v: Ui)
    requires SameLog(u, v) && v.ws == u.ws && v.sockets == u.sockets && v.nextSocket == u.nextSocket
    ensures LogAdds(v) == LogAdds(u) && OneSocket(v) == OneSocket(u)
    ensures SameConnection(u, v) ==> OneTimer(v) == OneTimer(u)
    ensures OneTimer(u) && v.manualDisconnect == u.manualDisconnect && v.reconnectTimer.None? && v.timers == {} ==>
      OneTimer(v)
  {
  }

  lemma ReconnectKeepsIntent(u: Ui, created: bool)
    ensures Connect(u, true, created).pendingRecovery == u.pendingRecovery
  {
  }

  lemma HistoryKeepsValid(u: Ui, items: seq<Option<Sample>>)
    requires OneTimer(u) && OneSocket(u) && LogAdds(u)
    ensures var v := HandleHistory(u, items);
            && OneTimer(v) && OneSocket(v) && LogAdds(v) && v.pushed == u.pushed + Values(items)
            && ReplayRows(v.uiLog) == ReplayRows(u.uiLog) + CountItems(items)
  {
    hide OneTimer, OneSocket, ReplayItems, ReplayRows, BatchCounts;
    var v := HandleHistory(u, items);
    ReplayItemsEffect(u, items);
    LogCounts(ReplayItems(u, items), BatchRow(CountItems(items), u.lastN));
    TimersKept(u, v);
  }

  lemma {:induction false} CountIsValues(items: seq<Option<Sample>>)
    ensures CountItems(items) == |Values(items)|
  {
    if items != [] {
      CountIsValues(items[..|items| - 1]);
    }
  }

  lemma OpeningKeeps(u: Ui, s: nat)
    requires OneTimer(u) && OneSocket(u) && LogAdds(u) && ReadyOf(u, s) == Connecting
    ensures var v := u.(sockets := u.sockets[s := Open]); OneTimer(v) && OneSocket(v) && LogAdds(v)
  {
  }

  lemma ClosingKeeps(u: Ui, s: nat)
    requires OneTimer(u) && OneSocket(u) && LogAdds(u) && ReadyOf(u, s) != Closed
    ensures var v := u.(sockets := u.sockets[s := Closed]); OneTimer(v) && OneSocket(v) && LogAdds(v)
  {
  }

  /** The page plays every run of the step system: what is proved of the runs holds of the object. */
  method Play(first: Number, events: seq<UiEvent>, ghost run: seq<Ui>) returns (page: Page)
    requires IsRun(first, run, events)
    ensures fresh(page) && page.Valid() && page.View() == run[|events|]
  {
    hide Do, Enabled;
    page := new Page(first);
    for i := 0 to |events|
      invariant fresh(page) && page.Valid() && page.View() == run[i]
    {
      page.Handle(events[i]);
    }
  }
}
