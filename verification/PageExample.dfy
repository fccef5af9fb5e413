/** A page that connects, loses its connection and comes back: its side of the run in RecoveryExample. */
module PageExample {
  import opened Basics
  import opened Pipeline
  import opened App
  import opened AppRuns

  const ASKED := Finite(300.0)
  const CONNECT := ClickConnect(true)
  const LOST := SocketCloses(0)
  const RETRY := TimerFires(0, true)

  /** The page's user has connected. */
  lemma PageConnects(u: Ui)
    requires u == INITIAL.(lastN := ASKED)
    ensures var v := Do(u, CONNECT);
            && v.ws == Some(0) && v.sockets == map[0 := Connecting] && v.nextSocket == 1 && v.nextTimer == 0
            && v.timers == {} && v.reconnectTimer.None? && !v.manualDisconnect && !v.pendingRecovery && !v.paused
            && v.requests == [] && v.pushed == [] && v.lastN == ASKED
  {
  }

  /** Its connection opens, and the first sample comes. */
  lemma PageListens(u: Ui, x: Sample)
    requires u.ws == Some(0) && u.sockets == map[0 := Connecting] && u.nextSocket == 1 && u.nextTimer == 0
    requires u.timers == {} && u.reconnectTimer.None? && !u.manualDisconnect && !u.pendingRecovery && !u.paused
    requires u.requests == [] && u.pushed == [] && u.lastN == ASKED
    ensures var v := Do(u, SocketOpens(0));
            && v.ws == Some(0) && v.sockets == map[0 := Open] && v.nextSocket == 1 && v.nextTimer == 0
            && v.timers == {} && v.reconnectTimer.None? && !v.manualDisconnect && !v.pendingRecovery && !v.paused
            && v.requests == [] && v.pushed == [] && v.lastN == ASKED
            && Do(v, MessageArrives(0, Status)) == v
            && var w := Do(v, MessageArrives(0, Telemetry(x)));
               w == v.(uiLog := w.uiLog, lastLiveSeq := w.lastLiveSeq, samples := w.samples, pushed := [x])
  {
    assert [] + [x] == [x];
  }

  /** The connection is lost, the timer fires. */
  lemma PageRetries(u: Ui, x: Sample)
    requires u.ws == Some(0) && u.sockets == map[0 := Open] && u.nextSocket == 1 && u.nextTimer == 0
    requires u.timers == {} && u.reconnectTimer.None? && !u.manualDisconnect && !u.paused
    requires u.requests == [] && u.pushed == [x] && u.lastN == ASKED
    ensures Enabled(u, LOST)
    ensures var v := Do(u, LOST);
            && v.timers == {0} && v.pushed == [x] && Enabled(v, RETRY)
            && var w := Do(v, RETRY);
               && w.ws == Some(1) && w.sockets == map[0 := Closed, 1 := Connecting] && w.pendingRecovery
               && w.reconnectTimer.None? && !w.paused && w.requests == [] && w.pushed == [x] && w.lastN == ASKED
  {
  }

  /** The new connection opens and asks. */
  lemma PageAsksAgain(u: Ui)
    requires u.ws == Some(1) && u.sockets == map[0 := Closed, 1 := Connecting] && u.pendingRecovery
    requires u.reconnectTimer.None? && !u.paused && u.requests == [] && u.lastN == ASKED
    ensures var v := Do(u, SocketOpens(1));
            && v.ws == Some(1) && v.sockets == map[0 := Closed, 1 := Open] && !v.paused
            && v.requests == [(1, 300)] && v.pushed == u.pushed
            && Do(v, MessageArrives(1, Status)) == v
  {
  }
}
