/** The reconnect-only baseline: with Last N held at zero nothing of the past ever enters the UI log. */
module Baseline {
  import PipelineSteps
  import Server
  import App
  import AppRuns
  import opened Platform
  import opened PlatformInv

  ghost predicate PureRow(row: App.LogRow) {
    row.event != App.HistoryRequest && row.event != App.HistoryBatchLoaded && row.source != App.Replay
  }

  ghost predicate PureLog(log: seq<App.LogRow>) {
    forall i :: 0 <= i < |log| ==> PureRow(log[i])
  }

  /** A page event other than a history message adds no history to the log and asks for none. */
  lemma PageStaysPure(u: App.Ui, e: AppRuns.UiEvent)
    requires PureLog(u.uiLog) && AppRuns.Disabled(u.lastN) && AppRuns.Enabled(u, e)
    requires e.MessageArrives? ==> !e.m.History?
    ensures PureLog(AppRuns.Do(u, e).uiLog)
  {
    match e
    case ClickConnect(created) => ConnectStaysPure(u, false, created);
    case TimerFires(timer, created) =>
      ConnectStaysPure(AppRuns.Fired(u, timer), true, created);
    case SocketOpens(s) =>
      OpenStaysPure(u.(sockets := u.sockets[s := App.Open]));
    case MessageArrives(_, m) => MessageStaysPure(u, m);
    case _ =>
  }

  lemma ConnectStaysPure(u: App.Ui, isReconnect: bool, created: bool)
    requires PureLog(u.uiLog)
    ensures PureLog(App.Connect(u, isReconnect, created).uiLog)
  {
    hide App.Disconnect;
    AppRuns.DisconnectKeepsLog(u, false);
  }

  lemma OpenStaysPure(u: App.Ui)
    requires PureLog(u.uiLog) && AppRuns.Disabled(u.lastN)
    ensures PureLog(App.OnOpen(u).uiLog)
  {
  }

  lemma MessageStaysPure(u: App.Ui, m: App.Message)
    requires PureLog(u.uiLog) && !m.History?
    ensures PureLog(App.OnMessage(u, m).uiLog)
  {
  }

  /** Nothing asked, nothing being answered, no reply on any wire, no history in the log. */
  ghost predicate Pure(p: Sys) {
    && p.ui.requests == [] && PureLog(p.ui.uiLog)
    && (forall s :: !ThreadOf(p, s).Replying?)
    && (forall s, k :: 0 <= k < |Box(p, s)| ==> !Box(p, s)[k].Reply?)
  }

  lemma PureStep(c: Server.Config, p: Sys, step: Step)
    requires Can(p, step) && Pure(p) && AppRuns.Disabled(p.ui.lastN)
    ensures Pure(Do(c, p, step))
  {
    hide Can, Do;
    PureWires(c, p, step);
    PurePage(c, p, step);
  }

  lemma PureWires(c: Server.Config, p: Sys, step: Step)
    requires Can(p, step) && Pure(p)
    ensures var q := Do(c, p, step);
            (forall s :: !ThreadOf(q, s).Replying?) && (forall s, k :: 0 <= k < |Box(q, s)| ==> !Box(q, s)[k].Reply?)
  {
    hide Can, Do;
    var q := Do(c, p, step);
    BoxGrows(c, p, step);
    PureThreads(c, p, step);
    forall s, k | 0 <= k < |Box(q, s)|
      ensures !Box(q, s)[k].Reply?
    {
      NewReplies(c, p, step, s);
      assert Box(p, s) <= Box(q, s);
      if k < |Box(p, s)| {
        assert Box(q, s)[k] == Box(p, s)[k];
      }
    }
  }

  lemma PureThreads(c: Server.Config, p: Sys, step: Step)
    requires Can(p, step) && Pure(p)
    ensures forall s :: !ThreadOf(Do(c, p, step), s).Replying?
  {
    hide Server.Enter, Server.Deliver, AppRuns.Do, PipelineSteps.Do, Server.Decide, PureLog;
    forall s
      ensures !ThreadOf(Do(c, p, step), s).Replying?
    {
      assert !ThreadOf(p, s).Replying?;
    }
  }

  lemma PurePage(c: Server.Config, p: Sys, step: Step)
    requires Can(p, step) && Pure(p) && AppRuns.Disabled(p.ui.lastN)
    ensures var q := Do(c, p, step); q.ui.requests == [] && PureLog(q.ui.uiLog)
  {
    hide Server.Enter, Server.Deliver, AppRuns.Do, PipelineSteps.Do, Server.Decide, PureLog;
    match step
    case PageOpens(s) =>
      AppRuns.NothingAsked(p.ui, AppRuns.SocketOpens(s));
      PageStaysPure(p.ui, AppRuns.SocketOpens(s));
    case PageReceives(s) =>
      var e := AppRuns.MessageArrives(s, Decode(Box(p, s)[p.consumed[s]]));
      AppRuns.NothingAsked(p.ui, e);
      PageStaysPure(p.ui, e);
    case PageActs(e) =>
      AppRuns.NothingAsked(p.ui, e);
      PageStaysPure(p.ui, e);
    case _ =>
  }

  /** The input is held at zero: it starts there and is never set to anything that asks for rows. */
  ghost predicate HeldAtZero(lastN: App.Number, steps: seq<Step>) {
    && AppRuns.Disabled(lastN)
    && forall i :: 0 <= i < |steps| && steps[i].PageActs? && steps[i].e.SetLastN? ==> AppRuns.Disabled(steps[i].e.n)
  }

  lemma StaysDisabled(c: Server.Config, p: Sys, step: Step)
    requires Can(p, step) && AppRuns.Disabled(p.ui.lastN)
    requires step.PageActs? && step.e.SetLastN? ==> AppRuns.Disabled(step.e.n)
    ensures AppRuns.Disabled(Do(c, p, step).ui.lastN)
  {
    hide Server.Enter, Server.Deliver, AppRuns.Do, PipelineSteps.Do, Server.Decide, AppRuns.Disabled;
    if step.PageOpens? {
      LastNKept(p.ui, AppRuns.SocketOpens(step.s));
    } else if step.PageReceives? {
      LastNKept(p.ui, AppRuns.MessageArrives(step.s, Decode(Box(p, step.s)[p.consumed[step.s]])));
    } else if step.PageActs? {
      LastNKept(p.ui, step.e);
    }
  }

  lemma LastNKept(u: App.Ui, e: AppRuns.UiEvent)
    ensures AppRuns.Do(u, e).lastN == if e.SetLastN? then e.n else u.lastN
  {
    hide App.ReplayItems, App.Connect, App.Disconnect;
    match e
    case ClickConnect(created) => AppRuns.ConnectAsksNothing(u, false, created);
    case TimerFires(timer, created) =>
      AppRuns.ConnectAsksNothing(AppRuns.Fired(u, timer), true, created);
    case ClickDisconnect => AppRuns.DisconnectKeepsLog(u, true);
    case MessageArrives(_, m) =>
      if m.History? {
        AppRuns.ReplayKeepsBrowser(u, m.items);
      }
    case _ =>
  }

  /** In every run of page and server with Last N held at zero, through any reconnects, clicks and
      messages in flight, the log never holds a history request, a loaded batch or a replay row. */
  lemma {:induction false} BaselinePurity(c: Server.Config, lastN: App.Number, run: seq<Sys>, steps: seq<Step>, k: nat)
    requires IsRun(c, lastN, run, steps) && HeldAtZero(lastN, steps) && k < |run|
    ensures Pure(run[k]) && AppRuns.Disabled(run[k].ui.lastN)
  {
    hide Can, Do, Pure, AppRuns.Disabled;
    if k == 0 {
      PureStart(lastN);
    } else {
      BaselinePurity(c, lastN, run, steps, k - 1);
      PureStep(c, run[k - 1], steps[k - 1]);
      StaysDisabled(c, run[k - 1], steps[k - 1]);
    }
  }

  lemma PureStart(lastN: App.Number)
    ensures Pure(Start(lastN)) && Start(lastN).ui.lastN == lastN
  {
  }
}
