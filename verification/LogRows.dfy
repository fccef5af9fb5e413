/** The telemetry rows in the page's log, over every run of the platform: which samples they are, and in
    which order. */
module LogRows {
  import opened Basics
  import opened Pipeline
  import PipelineSteps
  import Server
  import App
  import AppRuns
  import opened Platform
  import opened PlatformInv
  import opened Recovery

  // ---------- Selecting rows ----------

  function Chosen(row: App.LogRow, source: App.Source): seq<Sample> {
    if row.event == App.TelemetryRow && row.source == source && row.seqNo.Some? && row.tNs.Some?
    then [Sample(row.tNs.value, row.seqNo.value)]
    else []
  }

  /** The samples of the telemetry rows with this source, in the order of the log. */
  function Selected(log: seq<App.LogRow>, source: App.Source): seq<Sample> {
    if log == [] then [] else Selected(log[..|log| - 1], source) + Chosen(log[|log| - 1], source)
  }

  lemma SelectedLog(u: App.Ui, row: App.LogRow, source: App.Source)
    ensures Selected(App.Log(u, row).uiLog, source) == Selected(u.uiLog, source) + Chosen(row, source)
  {
    assert (u.uiLog + [row])[..|u.uiLog|] == u.uiLog;
  }

  lemma SelectedPlain(u: App.Ui, row: App.LogRow, source: App.Source)
    requires row.event != App.TelemetryRow
    ensures Selected(App.Log(u, row).uiLog, source) == Selected(u.uiLog, source)
  {
    SelectedLog(u, row, source);
    assert Selected(u.uiLog, source) + [] == Selected(u.uiLog, source);
  }

  lemma {:induction false} SelectedReplay(u: App.Ui, items: seq<Option<Sample>>, source: App.Source)
    requires source == App.Live || source == App.Replay
    ensures Selected(App.ReplayItems(u, items).uiLog, source)
         == Selected(u.uiLog, source) + if source == App.Replay then AppRuns.Values(items) else []
  {
    hide Selected;
    var log := Selected(u.uiLog, source);
    assert log + [] == log;
    if items != [] {
      var n := |items| - 1;
      SelectedReplay(u, items[..n], source);
      SelectedItem(App.ReplayItems(u, items[..n]), items[n], source);
      var front, last := AppRuns.Values(items[..n]), if items[n].Some? then [items[n].value] else [];
      assert log + front + last == log + (front + last);
    }
  }

  lemma SelectedItem(u: App.Ui, item: Option<Sample>, source: App.Source)
    ensures Selected(App.ReplayItem(u, item).uiLog, source)
         == Selected(u.uiLog, source) + if item.Some? && source == App.Replay then [item.value] else []
  {
    hide Selected;
    var log := Selected(u.uiLog, source);
    assert log + [] == log;
    if item.Some? {
      SelectedLog(u, App.ReplayRow(item.value), source);
    }
  }

  lemma SelectedConnect(u: App.Ui, isReconnect: bool, created: bool, source: App.Source)
    ensures Selected(App.Connect(u, isReconnect, created).uiLog, source)
         == if isReconnect then Selected(u.uiLog, source) else []
  {
    hide App.Disconnect;
    AppRuns.DisconnectKeepsLog(u, false);
    var v := App.Disconnect(u, false);
    if !isReconnect {
      SelectedPlain(App.ResetRun(v), App.Plain(App.RunStart), source);
    }
    var w := if isReconnect then v else App.Log(App.ResetRun(v), App.Plain(App.RunStart));
    if created {
      var attempt := if isReconnect then App.ReconnectAttempt else App.ConnectAttempt;
      SelectedPlain(App.NewSocket(w), App.Plain(attempt), source);
    }
  }

  lemma SelectedRequest(u: App.Ui, source: App.Source)
    ensures Selected(App.RequestHistory(u).uiLog, source) == Selected(u.uiLog, source)
  {
    SelectedPlain(u, App.AskedRow(App.RequestedCount(u.lastN)), source);
  }

  lemma SelectedMessage(u: App.Ui, m: App.Message, source: App.Source)
    requires source == App.Live || source == App.Replay
    ensures Selected(App.OnMessage(u, m).uiLog, source)
         == Selected(u.uiLog, source)
            + (match m
               case Telemetry(x) => if source == App.Live && !u.paused then [x] else []
               case History(items) => if source == App.Replay then AppRuns.Values(items) else []
               case _ => [])
  {
    var log := Selected(u.uiLog, source);
    assert log + [] == log;
    match m
    case Telemetry(x) => SelectedLog(u.(pendingRecovery := false), App.LiveRow(x, App.Gap(u, x)), source);
    case History(items) =>
      SelectedReplay(u, items, source);
      SelectedPlain(App.ReplayItems(u, items), App.BatchRow(App.CountItems(items), u.lastN), source);
    case Failure => SelectedPlain(u, App.Plain(App.ServerError), source);
    case _ =>
  }

  /** Apart from messages, a page event leaves the selected rows alone or, on a new connect and on a
      clear, takes all of them. */
  lemma SelectedEvent(u: App.Ui, e: AppRuns.UiEvent, source: App.Source)
    requires !e.MessageArrives?
    ensures Selected(AppRuns.Do(u, e).uiLog, source)
         == if e.ClickConnect? || e.ClickClear? then [] else Selected(u.uiLog, source)
  {
    hide App.Connect, App.Disconnect, App.RequestHistory, Selected;
    match e
    case ClickConnect(created) => SelectedConnect(u, false, created, source);
    case TimerFires(timer, created) => SelectedConnect(AppRuns.Fired(u, timer), true, created, source);
    case ClickDisconnect => AppRuns.DisconnectKeepsLog(u, true);
    case ClickHistory => SelectedRequest(u, source);
    case ClickClear => SelectedNothing(source);
    case SocketOpens(s) =>
      var v := App.ClearTimer(u.(sockets := u.sockets[s := App.Open]));
      SelectedPlain(v, App.Plain(App.WsOpen), source);
      SelectedRequest(App.Log(v, App.Plain(App.WsOpen)), source);
    case SocketCloses(s) =>
      SelectedPlain(u.(sockets := u.sockets[s := App.Closed]), App.Plain(App.WsClose), source);
    case SocketFails(_) => SelectedPlain(u, App.Plain(App.WsError), source);
    case _ =>
  }

  lemma SelectedNothing(source: App.Source)
    ensures Selected([], source) == []
  {
  }

  // ---------- What the selected rows are ----------

  predicate IsSource(source: App.Source) { source == App.Live || source == App.Replay }

  function Rowed(p: Sys, source: App.Source): seq<Sample> { Selected(p.ui.uiLog, source) }

  /** The samples a frame brings, by how they come. */
  function Carried(f: Frame, source: App.Source): seq<Sample> {
    match f
    case Row(x) => if source == App.Live then [x] else []
    case Reply(items) => if source == App.Replay then items else []
    case _ => []
  }

  /** The page has read `x` live, or in a reply. */
  ghost predicate ReadAs(p: Sys, x: Sample, source: App.Source) {
    exists s, k :: 0 <= k < Consumed(p, s) <= |Box(p, s)| && x in Carried(Box(p, s)[k], source)
  }

  /** The rows of the log are what was read and not given up. */
  ghost predicate Written(p: Sys, source: App.Source) {
    && (forall x :: x in Rowed(p, source) ==> x in p.ui.pushed && ReadAs(p, x, source))
    && (forall x :: ReadAs(p, x, source) ==> x in Rowed(p, source) || x in p.discarded)
  }

  /** What a step adds to the page: its rows, the samples pushed, the samples given up. */
  lemma PageStep(c: Server.Config, p: Sys, step: Step, source: App.Source)
    requires Can(p, step) && IsSource(source)
    ensures var q := Do(c, p, step);
            match step
            case PageReceives(s) =>
              var f := Box(p, s)[p.consumed[s]];
              && (f.Row? && p.ui.paused ==>
                    q.ui.pushed == p.ui.pushed && Rowed(q, source) == Rowed(p, source)
                    && q.discarded == p.discarded + {f.x})
              && (!(f.Row? && p.ui.paused) ==>
                    Rowed(q, source) == Rowed(p, source) + Carried(f, source) && q.discarded == p.discarded
                    && q.ui.pushed == p.ui.pushed + Carried(f, App.Live) + Carried(f, App.Replay))
            case PageActs(e) =>
              if e.ClickConnect? || e.ClickClear? then
                Rowed(q, source) == [] && q.ui.pushed == [] && q.discarded == p.discarded + Elements(p.ui.pushed)
              else Rowed(q, source) == Rowed(p, source) && q.ui.pushed == p.ui.pushed && q.discarded == p.discarded
            case _ => Rowed(q, source) == Rowed(p, source) && q.ui.pushed == p.ui.pushed && q.discarded == p.discarded
  {
    hide AppRuns.Do, Server.Enter, Server.Deliver, PipelineSteps.Do, Selected;
    match step
    case PageReceives(s) =>
      var f := Box(p, s)[p.consumed[s]];
      PagePushes(p.ui, AppRuns.MessageArrives(s, Decode(f)));
      MessageRows(p.ui, s, f, source);
    case PageOpens(s) =>
      PagePushes(p.ui, AppRuns.SocketOpens(s));
      SelectedEvent(p.ui, AppRuns.SocketOpens(s), source);
    case PageActs(e) =>
      PagePushes(p.ui, e);
      SelectedEvent(p.ui, e, source);
    case _ =>
  }

  lemma MessageRows(u: App.Ui, s: nat, f: Frame, source: App.Source)
    requires IsSource(source)
    ensures var v := AppRuns.Do(u, AppRuns.MessageArrives(s, Decode(f)));
            Selected(v.uiLog, source)
            == Selected(u.uiLog, source) + if f.Row? && u.paused then [] else Carried(f, source)
    ensures f.Reply? ==> Decode(f).History? && AppRuns.Values(Decode(f).items) == f.items
  {
    hide Selected, App.OnMessage, AppRuns.Values;
    SelectedMessage(u, Decode(f), source);
    if f.Reply? {
      ReplyItems(f.items);
    }
  }

  lemma ReplyItems(items: seq<Sample>)
    ensures AppRuns.Values(Decode(Reply(items)).items) == items
  {
    ValuesOfSome(items, |items|);
    assert items[..|items|] == items;
  }

  /** Something new is read only where the page takes a frame. */
  lemma ReadStep(c: Server.Config, p: Sys, step: Step, x: Sample, source: App.Source)
    requires Can(p, step) && RegisteredOnce(p) && ReadOk(p)
    ensures ReadAs(Do(c, p, step), x, source)
       <==> ReadAs(p, x, source)
            || (step.PageReceives? && x in Carried(Box(p, step.s)[p.consumed[step.s]], source))
  {
    hide Can, Do, ReadAs, Carried, Box;
    ReadStays(c, p, step, x, source);
    if ReadAs(Do(c, p, step), x, source) {
      ReadNew(c, p, step, x, source);
    }
  }

  lemma ReadStays(c: Server.Config, p: Sys, step: Step, x: Sample, source: App.Source)
    requires Can(p, step) && RegisteredOnce(p) && ReadOk(p)
    ensures ReadAs(p, x, source) ==> ReadAs(Do(c, p, step), x, source)
    ensures step.PageReceives? && x in Carried(Box(p, step.s)[p.consumed[step.s]], source) ==>
      ReadAs(Do(c, p, step), x, source)
  {
    hide Can, Do, Carried, Box;
    BoxGrows(c, p, step);
    ConsumedStep(c, p, step);
    ReadOkStep(c, p, step);
    var q := Do(c, p, step);
    if step.PageReceives? {
      CanReceive(p, step.s);
      FrameStays(p, q, step.s, p.consumed[step.s]);
    }
    if ReadAs(p, x, source) {
      var s, k :| 0 <= k < Consumed(p, s) <= |Box(p, s)| && x in Carried(Box(p, s)[k], source);
      FrameStays(p, q, s, k);
    }
  }

  lemma ReadNew(c: Server.Config, p: Sys, step: Step, x: Sample, source: App.Source)
    requires Can(p, step) && ReadOk(p) && ReadAs(Do(c, p, step), x, source)
    ensures ReadAs(p, x, source)
            || (step.PageReceives? && x in Carried(Box(p, step.s)[p.consumed[step.s]], source))
  {
    hide Can, Do, Carried, Box;
    BoxGrows(c, p, step);
    ConsumedStep(c, p, step);
    HelloCarries(source);
    var q := Do(c, p, step);
    var s, k :| 0 <= k < Consumed(q, s) <= |Box(q, s)| && x in Carried(Box(q, s)[k], source);
    FrameStays(p, q, s, k);
  }

  lemma FrameStays(p: Sys, q: Sys, s: nat, k: nat)
    requires Box(p, s) <= Box(q, s) && k < |Box(p, s)|
    ensures k < |Box(q, s)| && Box(q, s)[k] == Box(p, s)[k]
  {
  }

  lemma CanReceive(p: Sys, s: nat)
    requires Can(p, PageReceives(s))
    ensures s in p.consumed && p.consumed[s] < |Box(p, s)| && App.ReadyOf(p.ui, s) == App.Open
  {
  }

  lemma HelloCarries(source: App.Source)
    ensures Carried(Hello, source) == []
  {
  }

  lemma ConsumedStep(c: Server.Config, p: Sys, step: Step)
    requires Can(p, step)
    ensures var q := Do(c, p, step);
            forall s ::
              || (Consumed(q, s) == Consumed(p, s) && step != PageReceives(s))
              || (step == PageReceives(s) && s in p.consumed && p.consumed[s] < |Box(p, s)|
                  && Consumed(q, s) == p.consumed[s] + 1)
              || (step == PageOpens(s) && Consumed(p, s) == 0 && Consumed(q, s) == 1
                  && Box(p, s) != [] && Box(p, s)[0] == Hello)
  {
    hide AppRuns.Do, Server.Enter, Server.Deliver, PipelineSteps.Do;
  }

  lemma WrittenStep(c: Server.Config, p: Sys, step: Step, source: App.Source)
    requires Can(p, step) && RegisteredOnce(p) && ReadOk(p) && Written(p, source) && IsSource(source)
    ensures Written(Do(c, p, step), source)
  {
    hide Can, Do, ReadAs, Rowed, Box;
    PageStep(c, p, step, source);
    var q := Do(c, p, step);
    forall x
      ensures x in Rowed(q, source) ==> x in q.ui.pushed && ReadAs(q, x, source)
      ensures ReadAs(q, x, source) ==> x in Rowed(q, source) || x in q.discarded
    {
      ReadStep(c, p, step, x, source);
    }
  }

  /** In every run, the live rows of the log are exactly the samples read live and not given up, and the
      replay rows those read in replies. */
  lemma {:induction false} WrittenHolds(c: Server.Config, lastN: App.Number, run: seq<Sys>, steps: seq<Step>, k: nat,
                                        source: App.Source)
    requires IsRun(c, lastN, run, steps) && k < |run| && IsSource(source)
    ensures Written(run[k], source)
  {
    hide Can, Do, Inv, Written;
    if k == 0 {
      WrittenStart(lastN, source);
    } else {
      WrittenHolds(c, lastN, run, steps, k - 1, source);
      InvHolds(c, lastN, run, steps, k - 1);
      ReadFacts(run[k - 1]);
      WrittenStep(c, run[k - 1], steps[k - 1], source);
    }
  }

  lemma WrittenStart(lastN: App.Number, source: App.Source)
    ensures Written(Start(lastN), source)
  {
  }

  lemma ReadFacts(p: Sys)
    requires Inv(p)
    ensures RegisteredOnce(p) && ReadOk(p)
  {
  }

  // ---------- In which order the live rows come ----------

  ghost predicate Usable(u: App.Ui, s: nat) { App.ReadyOf(u, s) == App.Connecting || App.ReadyOf(u, s) == App.Open }

  /** Only sockets of the page are connected, only connected ones are written to. */
  ghost predicate Connected(p: Sys) {
    && AppRuns.OneTimer(p.ui) && AppRuns.OneSocket(p.ui)
    && p.threads.Keys <= p.ui.sockets.Keys
    && (forall s :: Box(p, s) != [] ==> s in p.threads)
  }

  /** Samples go onto the wires in the order of broadcast; the one in flight comes behind them. */
  ghost predicate WiresInOrder(p: Sys) {
    && (forall s, k :: 0 <= k < |Box(p, s)| && Box(p, s)[k].Row? ==> Behind(p, Box(p, s)[k].x))
    && (p.inFlight.Some? ==> p.inFlight.value in Sent(p))
    && (forall s, j, k :: 0 <= j < k < |Box(p, s)| && Box(p, s)[j].Row? && Box(p, s)[k].Row? ==>
          Box(p, s)[j].x.receivedAt < Box(p, s)[k].x.receivedAt)
  }

  ghost predicate Behind(p: Sys, x: Sample) {
    x in Sent(p) && (p.inFlight.Some? ==> x.receivedAt < p.inFlight.value.receivedAt)
  }

  /** The live rows are in order, and what the page can still receive comes after them. */
  ghost predicate RowsInOrder(p: Sys) {
    && (forall j, k :: 0 <= j < k < |Rowed(p, App.Live)| ==>
          Rowed(p, App.Live)[j].receivedAt < Rowed(p, App.Live)[k].receivedAt)
    && (forall s, k :: Usable(p.ui, s) && Consumed(p, s) <= k < |Box(p, s)| && Box(p, s)[k].Row? ==>
          AfterRows(p, Box(p, s)[k].x))
  }

  ghost predicate AfterRows(p: Sys, y: Sample) {
    forall x :: x in Rowed(p, App.Live) ==> x.receivedAt < y.receivedAt
  }

  lemma SocketsStep(u: App.Ui, e: AppRuns.UiEvent)
    requires AppRuns.Enabled(u, e)
    ensures var v := AppRuns.Do(u, e);
            && u.sockets.Keys <= v.sockets.Keys
            && forall s :: Usable(v, s) ==> Usable(u, s) || s == u.nextSocket
  {
    hide App.Connect, App.Disconnect, App.RequestHistory, App.OnMessage, App.ScheduleReconnect, App.ClearAll;
    match e
    case ClickConnect(created) => SocketsConnect(u, false, created);
    case TimerFires(timer, created) => SocketsConnect(AppRuns.Fired(u, timer), true, created);
    case ClickDisconnect => SocketsDisconnect(u, true);
    case ClickClear => AppRuns.ClearKeeps(u);
    case SocketCloses(s) =>
      AppRuns.ScheduleKeeps(App.Log(u.(sockets := u.sockets[s := App.Closed]), App.Plain(App.WsClose)));
    case MessageArrives(_, m) => AppRuns.TimersMessage(u, m);
    case ClickHistory => SocketsRequest(u);
    case SocketOpens(s) =>
      SocketsRequest(App.Log(App.ClearTimer(u.(sockets := u.sockets[s := App.Open])), App.Plain(App.WsOpen)));
    case _ =>
  }

  lemma SocketsRequest(u: App.Ui)
    ensures App.RequestHistory(u).sockets == u.sockets
  {
  }

  lemma SocketsConnect(u: App.Ui, isReconnect: bool, created: bool)
    ensures var v := App.Connect(u, isReconnect, created);
            && u.sockets.Keys <= v.sockets.Keys
            && forall s :: Usable(v, s) ==> Usable(u, s) || s == u.nextSocket
  {
    hide App.Disconnect;
    SocketsDisconnect(u, false);
  }

  lemma SocketsDisconnect(u: App.Ui, manual: bool)
    ensures var v := App.Disconnect(u, manual);
            && u.sockets.Keys == v.sockets.Keys && v.nextSocket == u.nextSocket
            && forall s :: Usable(v, s) ==> Usable(u, s)
  {
    hide App.CloseSocket;
    var w := App.ClearTimer(u.(manualDisconnect := manual));
    if w.ws.Some? {
      AppRuns.CloseSocketFacts(w, w.ws.value);
    }
  }

  /** What a step does to the page's sockets, whatever it is. */
  lemma UsableStep(c: Server.Config, p: Sys, step: Step)
    requires Can(p, step) && Connected(p)
    ensures var q := Do(c, p, step);
            && AppRuns.OneTimer(q.ui) && AppRuns.OneSocket(q.ui) && p.ui.sockets.Keys <= q.ui.sockets.Keys
            && forall s :: Usable(q.ui, s) ==> Usable(p.ui, s) || s !in p.ui.sockets
  {
    hide AppRuns.Do, AppRuns.OneTimer, Usable, Server.Enter, Server.Deliver, PipelineSteps.Do;
    match step
    case PageReceives(s) =>
      var e := AppRuns.MessageArrives(s, Decode(Box(p, s)[p.consumed[s]]));
      AppRuns.TimersStep(p.ui, e);
      SocketsStep(p.ui, e);
    case PageOpens(s) =>
      AppRuns.TimersStep(p.ui, AppRuns.SocketOpens(s));
      SocketsStep(p.ui, AppRuns.SocketOpens(s));
    case PageActs(e) =>
      AppRuns.TimersStep(p.ui, e);
      SocketsStep(p.ui, e);
    case _ =>
  }

  lemma WrittenTo(c: Server.Config, p: Sys, step: Step, s: nat)
    requires Can(p, step) && Listed(p) && Connected(p)
    ensures var q := Do(c, p, step);
            && p.threads.Keys <= q.threads.Keys <= q.ui.sockets.Keys
            && (Box(q, s) != [] ==> s in q.threads)
  {
    hide AppRuns.Do, Server.Enter, Server.Deliver, PipelineSteps.Do, Server.Decide;
    UsableStep(c, p, step);
    match step
    case Broadcast(now, r1, r2) => EnterKeepsBoxes(c, p.srv, now, r1, r2);
    case Deliver(failing) => DeliverBoxes(p.srv, Row(p.inFlight.value), failing);
    case _ =>
  }

  lemma ConnectedStep(c: Server.Config, p: Sys, step: Step)
    requires Can(p, step) && Listed(p) && Connected(p)
    ensures Connected(Do(c, p, step))
  {
    hide Can, Do, Listed, AppRuns.OneTimer, AppRuns.OneSocket;
    UsableStep(c, p, step);
    forall s
      ensures var q := Do(c, p, step);
              q.threads.Keys <= q.ui.sockets.Keys && (Box(q, s) != [] ==> s in q.threads)
    {
      WrittenTo(c, p, step, s);
    }
  }

  /** A step adds at most one frame to a wire; a sample it adds is the one in flight. */
  lemma OneFrame(c: Server.Config, p: Sys, step: Step, s: nat)
    requires Can(p, step)
    ensures var q := Do(c, p, step);
            && |Box(q, s)| <= |Box(p, s)| + 1
            && forall k :: |Box(p, s)| <= k < |Box(q, s)| && Box(q, s)[k].Row? ==>
                 p.inFlight == Some(Box(q, s)[k].x) && q.inFlight.None?
  {
    hide Server.Enter, Server.Deliver, AppRuns.Do, PipelineSteps.Do, Server.Decide;
    match step
    case Broadcast(now, r1, r2) => EnterKeepsBoxes(c, p.srv, now, r1, r2);
    case Deliver(failing) => DeliverBoxes(p.srv, Row(p.inFlight.value), failing);
    case _ =>
  }

  /** The sample in flight stays, has been sent, or is the one just broadcast. */
  lemma FlightStep(c: Server.Config, p: Sys, step: Step)
    requires Can(p, step)
    ensures var q := Do(c, p, step);
            || q.inFlight.None?
            || q.inFlight == p.inFlight
            || (p.inFlight.None? && |Sent(q)| == |Sent(p)| + 1 && q.inFlight.value == Sent(q)[|Sent(p)|])
  {
    hide Server.Enter, Server.Deliver, AppRuns.Do, Server.Decide;
  }

  lemma SentInOrder(p: Sys)
    requires PipeOk(p)
    ensures forall i, j :: 0 <= i < j < |Sent(p)| ==> Sent(p)[i].receivedAt < Sent(p)[j].receivedAt
  {
    hide PipeOk;
    PipeFacts(p);
    forall i, j | 0 <= i < j < |Sent(p)|
      ensures Sent(p)[i].receivedAt < Sent(p)[j].receivedAt
    {
      assert Times(Stored(p))[i] < Times(Stored(p))[j];
    }
  }

  lemma BehindStep(c: Server.Config, p: Sys, step: Step, x: Sample)
    requires Can(p, step) && PipeOk(p) && RegisteredOnce(p) && Behind(p, x)
    ensures Behind(Do(c, p, step), x)
  {
    hide Can, Do, PipeOk;
    var q := Do(c, p, step);
    StepGrows(c, p, step);
    FlightStep(c, p, step);
    PipeOkStep(c, p, step);
    SentInOrder(q);
    var i :| 0 <= i < |Sent(p)| && Sent(p)[i] == x;
    assert Sent(q)[i] == x;
  }

  lemma WiresStep(c: Server.Config, p: Sys, step: Step)
    requires Can(p, step) && PipeOk(p) && RegisteredOnce(p) && WiresInOrder(p)
    ensures WiresInOrder(Do(c, p, step))
  {
    hide Can, Do, PipeOk, Behind, Box;
    var q := Do(c, p, step);
    StepGrows(c, p, step);
    FlightStep(c, p, step);
    forall s, k | 0 <= k < |Box(q, s)| && Box(q, s)[k].Row?
      ensures Behind(q, Box(q, s)[k].x)
      ensures forall j :: 0 <= j < k && Box(q, s)[j].Row? ==> Box(q, s)[j].x.receivedAt < Box(q, s)[k].x.receivedAt
    {
      WireStep(c, p, step, s, k);
    }
  }

  lemma WireStep(c: Server.Config, p: Sys, step: Step, s: nat, k: nat)
    requires Can(p, step) && PipeOk(p) && RegisteredOnce(p) && WiresInOrder(p)
    requires k < |Box(Do(c, p, step), s)| && Box(Do(c, p, step), s)[k].Row?
    ensures var q := Do(c, p, step);
            && Behind(q, Box(q, s)[k].x)
            && forall j :: 0 <= j < k && Box(q, s)[j].Row? ==> Box(q, s)[j].x.receivedAt < Box(q, s)[k].x.receivedAt
  {
    hide Can, Do, PipeOk, Box;
    var q := Do(c, p, step);
    StepGrows(c, p, step);
    OneFrame(c, p, step, s);
    assert Box(p, s) <= Box(q, s);
    assert forall j :: 0 <= j < |Box(p, s)| ==> Box(q, s)[j] == Box(p, s)[j];
    if k < |Box(p, s)| {
      BehindStep(c, p, step, Box(p, s)[k].x);
    }
  }

  lemma RowedBehind(p: Sys, x: Sample)
    requires WiresInOrder(p) && Written(p, App.Live) && x in Rowed(p, App.Live)
    ensures Behind(p, x)
  {
    hide Behind, Rowed;
    var s, k :| 0 <= k < Consumed(p, s) <= |Box(p, s)| && x in Carried(Box(p, s)[k], App.Live);
    assert Box(p, s)[k] == Row(x);
  }

  /** A live row a step adds to the log. */
  lemma NewRow(c: Server.Config, p: Sys, step: Step, x: Sample)
    requires Can(p, step) && x in Rowed(Do(c, p, step), App.Live) && x !in Rowed(p, App.Live)
    ensures step.PageReceives? && Consumed(p, step.s) < |Box(p, step.s)|
    ensures Box(p, step.s)[Consumed(p, step.s)] == Row(x) && Usable(p.ui, step.s)
  {
    hide Can, Do, Rowed, Box;
    PageStep(c, p, step, App.Live);
    assert step.PageReceives?;
    CanReceive(p, step.s);
  }

  lemma RowsStep(c: Server.Config, p: Sys, step: Step)
    requires Can(p, step) && Inv(p) && Connected(p) && WiresInOrder(p) && Written(p, App.Live) && RowsInOrder(p)
    ensures RowsInOrder(Do(c, p, step))
  {
    hide Can, Do, Inv, Connected, WiresInOrder, Written, Rowed, AfterRows, Box;
    var q := Do(c, p, step);
    RowsStayInOrder(c, p, step);
    forall s, k | Usable(q.ui, s) && Consumed(q, s) <= k < |Box(q, s)| && Box(q, s)[k].Row?
      ensures AfterRows(q, Box(q, s)[k].x)
    {
      forall x | x in Rowed(q, App.Live)
        ensures x.receivedAt < Box(q, s)[k].x.receivedAt
      {
        StillAfter(c, p, step, s, k, x);
      }
      AllAfter(q, Box(q, s)[k].x);
    }
  }

  lemma AllAfter(p: Sys, y: Sample)
    requires forall x :: x in Rowed(p, App.Live) ==> x.receivedAt < y.receivedAt
    ensures AfterRows(p, y)
  {
  }

  lemma RowsStayInOrder(c: Server.Config, p: Sys, step: Step)
    requires Can(p, step) && Inv(p) && RowsInOrder(p)
    ensures var rows := Rowed(Do(c, p, step), App.Live);
            forall j, k :: 0 <= j < k < |rows| ==> rows[j].receivedAt < rows[k].receivedAt
  {
    hide Can, Do, Inv, Rowed, Box;
    PageStep(c, p, step, App.Live);
    if step.PageReceives? {
      CanReceive(p, step.s);
      var f := Box(p, step.s)[p.consumed[step.s]];
      if f.Row? {
        assert AfterRows(p, f.x);
      }
    }
  }

  lemma OnlyOne(u: App.Ui, s: nat, t: nat)
    requires AppRuns.OneSocket(u) && Usable(u, s) && Usable(u, t)
    ensures s == t
  {
  }

  lemma StillAfter(c: Server.Config, p: Sys, step: Step, s: nat, k: nat, x: Sample)
    requires Can(p, step) && Inv(p) && Connected(p) && WiresInOrder(p) && Written(p, App.Live) && RowsInOrder(p)
    requires var q := Do(c, p, step);
             && Usable(q.ui, s) && Consumed(q, s) <= k < |Box(q, s)| && Box(q, s)[k].Row?
             && x in Rowed(q, App.Live)
    ensures x.receivedAt < Box(Do(c, p, step), s)[k].x.receivedAt
  {
    hide Can, Do, Inv, Written, Rowed, Box, AppRuns.OneTimer;
    var q := Do(c, p, step);
    ReadFacts(p);
    StepGrows(c, p, step);
    UsableStep(c, p, step);
    OneFrame(c, p, step, s);
    ConsumedStep(c, p, step);
    assert Box(p, s) <= Box(q, s);
    if k < |Box(p, s)| {
      assert Box(q, s)[k] == Box(p, s)[k];
      assert Usable(p.ui, s);
    }
    if x in Rowed(p, App.Live) {
      RowedBehind(p, x);
    } else {
      NewRow(c, p, step, x);
      assert Behind(p, x);
      if k < |Box(p, s)| {
        OnlyOne(p.ui, s, step.s);
        assert Consumed(p, s) < k;
      }
    }
  }

  /** In every run, the live rows of the log are in the order of broadcast. */
  lemma {:induction false} RowsInOrderHolds(c: Server.Config, lastN: App.Number, run: seq<Sys>, steps: seq<Step>,
                                            k: nat)
    requires IsRun(c, lastN, run, steps) && k < |run|
    ensures Connected(run[k]) && WiresInOrder(run[k]) && RowsInOrder(run[k])
  {
    hide Can, Do, Inv, Connected, WiresInOrder, RowsInOrder, Written, PipeOk, Listed;
    if k == 0 {
      InOrderStart(lastN);
    } else {
      var p, step := run[k - 1], steps[k - 1];
      RowsInOrderHolds(c, lastN, run, steps, k - 1);
      InvHolds(c, lastN, run, steps, k - 1);
      ReadFacts(p);
      InvFacts(p);
      WrittenHolds(c, lastN, run, steps, k - 1, App.Live);
      ConnectedStep(c, p, step);
      WiresStep(c, p, step);
      RowsStep(c, p, step);
    }
  }

  lemma InvFacts(p: Sys)
    requires Inv(p)
    ensures PipeOk(p) && Listed(p)
  {
  }

  lemma InOrderStart(lastN: App.Number)
    ensures Connected(Start(lastN)) && WiresInOrder(Start(lastN)) && RowsInOrder(Start(lastN))
  {
  }
}
