/** Recovery of what a disconnection hid: the queries, their windows, and the main theorems. */
module Recovery {
  import opened Basics
  import opened Pipeline
  import PipelineSteps
  import Server
  import History
  import Requests
  import App
  import AppRuns
  import opened Platform
  import opened PlatformInv

  // ---------- Windows ----------

  /** A window is on record: the query was made after its client was listed, on rows then stored. */
  ghost predicate Recorded(p: Sys, q: Query) {
    && q.s in p.registeredAt && p.registeredAt[q.s] <= q.stored <= |Stored(p)|
  }

  /** The reply to a query of a connection that is up has been sent, or is about to be. */
  ghost predicate Answered(p: Sys, q: Query)
    requires q.stored <= |Stored(p)|
  {
    Reply(Window(p, q)) in Box(p, q.s) || ThreadOf(p, q.s) == Replying(Window(p, q))
  }

  ghost predicate QueriesOk(p: Sys) {
    && (forall q :: q in p.queries ==> Recorded(p, q))
    && (forall q :: q in p.queries && Alive(p, q.s) ==> Answered(p, q))
  }

  /** Some query of this connection asked for exactly these rows. */
  ghost predicate IsWindow(p: Sys, s: nat, items: seq<Sample>) {
    exists q :: q in p.queries && q.s == s && q.stored <= |Stored(p)| && items == Window(p, q)
  }

  ghost predicate RepliesOk(p: Sys) {
    && (forall s, k :: 0 <= k < |Box(p, s)| && Box(p, s)[k].Reply? ==> IsWindow(p, s, Box(p, s)[k].items))
    && (forall s :: ThreadOf(p, s).Replying? ==> IsWindow(p, s, ThreadOf(p, s).items))
  }

  lemma WindowStays(p: Sys, q: Sys, w: Query)
    requires Stored(p) <= Stored(q) && w.stored <= |Stored(p)|
    ensures Window(q, w) == Window(p, w)
  {
  }

  /** The rows the server reads for a page's request are the newest ones, in the order stored. */
  lemma TakenIsWindow(p: Sys, rows: seq<Sample>, n: nat, ix: seq<nat>)
    requires History.StrictlyIncreasing(Times(rows)) && History.NewestFirst(Times(rows), n, ix)
    ensures AnswerRows(rows, ix) == rows[(if n < |rows| then |rows| - n else 0)..]
  {
    var answer, low := AnswerRows(rows, ix), if n < |rows| then |rows| - n else 0;
    forall k | 0 <= k < |ix|
      ensures answer[k] == rows[low..][k]
    {
      History.NewestAreLast(Times(rows), n, ix, |ix| - 1 - k);
    }
  }

  lemma TakeRecords(c: Server.Config, p: Sys, j: nat, ix: seq<nat>)
    requires Can(p, Take(j, ix)) && PipeOk(p) && Listed(p)
    ensures var t, (s, last) := Do(c, p, Take(j, ix)), p.ui.requests[j];
            var q := Query(s, |Stored(p)|, LimitOf(last));
            && t.queries == p.queries + [q] && Recorded(t, q) && ThreadOf(t, s) == Replying(Window(t, q))
            && (forall r :: r != s ==> ThreadOf(t, r) == ThreadOf(p, r)) && t.srv == p.srv && Stored(t) == Stored(p)
            && ThreadOf(p, s) == Looping
  {
    hide PipeOk, LimitOf, Window;
    PipeFacts(p);
    var (s, last) := p.ui.requests[j];
    var q := Query(s, |Stored(p)|, LimitOf(last));
    TakenIsWindow(p, Stored(p), LimitOf(last), ix);
    NewestWindow(p, q);
    WindowStays(p, Do(c, p, Take(j, ix)), q);
  }

  lemma NewestWindow(p: Sys, q: Query)
    requires q.stored == |Stored(p)|
    ensures Window(p, q) == Stored(p)[(if q.n < |Stored(p)| then |Stored(p)| - q.n else 0)..]
  {
  }

  lemma QueriesOkStep(c: Server.Config, p: Sys, step: Step)
    requires Can(p, step) && PipeOk(p) && Listed(p) && QueriesOk(p)
    ensures QueriesOk(Do(c, p, step))
  {
    hide Can, Do, PipelineSteps.InStep;
    var t := Do(c, p, step);
    StepGrows(c, p, step);
    forall q | q in t.queries
      ensures Recorded(t, q)
      ensures Alive(t, q.s) ==> Answered(t, q)
    {
      if q in p.queries {
        WindowStays(p, t, q);
        if Alive(t, q.s) {
          OldQueryAnswered(c, p, step, q);
        }
      } else {
        NewQuery(c, p, step, q);
      }
    }
  }

  lemma NewQuery(c: Server.Config, p: Sys, step: Step, q: Query)
    requires Can(p, step) && PipeOk(p) && Listed(p)
    requires q in Do(c, p, step).queries && q !in p.queries
    ensures Recorded(Do(c, p, step), q) && Answered(Do(c, p, step), q)
  {
    hide PipelineSteps.InStep, Server.Enter, Server.Deliver, AppRuns.Do, PipelineSteps.Do;
    assert step.Take?;
    TakeRecords(c, p, step.j, step.ix);
  }

  /** What a thread does to an answer it holds: nothing, or it sends it. */
  lemma ThreadMoves(c: Server.Config, p: Sys, step: Step, s: nat)
    requires Can(p, step) && Listed(p) && Alive(Do(c, p, step), s) && s in p.threads
    ensures var t := Do(c, p, step);
            ThreadOf(p, s).Replying? ==>
              ThreadOf(t, s) == ThreadOf(p, s) || Reply(ThreadOf(p, s).items) in Box(t, s)
    ensures Alive(p, s)
  {
    hide PipelineSteps.InStep, Server.Enter, Server.Deliver, AppRuns.Do, PipelineSteps.Do, Server.Decide,
      Server.InWindow;
    match step
    case Answer(r) =>
      if r == s {
        var items := ThreadOf(p, s).items;
        assert Box(Do(c, p, step), s) == Box(p, s) + [Reply(items)];
      }
    case Broadcast(now, r1, r2) => EnterKeepsBoxes(c, p.srv, now, r1, r2);
    case Deliver(failing) => ListedDeliver(p.srv, Row(p.inFlight.value), failing);
    case _ =>
  }

  lemma OldQueryAnswered(c: Server.Config, p: Sys, step: Step, q: Query)
    requires Can(p, step) && Listed(p) && QueriesOk(p) && q in p.queries && Alive(Do(c, p, step), q.s)
    requires Stored(p) <= Stored(Do(c, p, step))
    ensures Answered(Do(c, p, step), q)
  {
    hide Can, Do, PipelineSteps.InStep;
    var t := Do(c, p, step);
    StepGrows(c, p, step);
    WindowStays(p, t, q);
    ThreadMoves(c, p, step, q.s);
    assert Answered(p, q);
    assert Box(p, q.s) <= Box(t, q.s);
  }

  lemma IsWindowStays(p: Sys, t: Sys, s: nat, items: seq<Sample>)
    requires Grows(p, t) && IsWindow(p, s, items)
    ensures IsWindow(t, s, items)
  {
    var q :| q in p.queries && q.s == s && q.stored <= |Stored(p)| && items == Window(p, q);
    WindowStays(p, t, q);
    assert q in t.queries;
  }

  /** A reply held by a thread was held before, or is the window of the query just made. */
  lemma NewHeldReplies(c: Server.Config, p: Sys, step: Step, s: nat)
    requires Can(p, step) && PipeOk(p) && Listed(p)
    ensures var t := Do(c, p, step);
            ThreadOf(t, s).Replying? ==> ThreadOf(p, s) == ThreadOf(t, s) || IsWindow(t, s, ThreadOf(t, s).items)
  {
    hide PipeOk, Listed, Server.Enter, Server.Deliver, AppRuns.Do, PipelineSteps.Do, Server.Decide;
    if step.Take? {
      TakeRecords(c, p, step.j, step.ix);
      var (r, last) := p.ui.requests[step.j];
      var q := Query(r, |Stored(p)|, LimitOf(last));
      assert q in Do(c, p, step).queries;
    }
  }

  lemma RepliesOkStep(c: Server.Config, p: Sys, step: Step)
    requires Can(p, step) && PipeOk(p) && Listed(p) && RepliesOk(p)
    ensures RepliesOk(Do(c, p, step))
  {
    hide Can, Do, PipelineSteps.InStep, IsWindow;
    var t := Do(c, p, step);
    StepGrows(c, p, step);
    forall s, k | 0 <= k < |Box(t, s)| && Box(t, s)[k].Reply?
      ensures IsWindow(t, s, Box(t, s)[k].items)
    {
      NewReplies(c, p, step, s);
      assert Box(p, s) <= Box(t, s);
      IsWindowIfWas(p, t, s, Box(t, s)[k].items);
    }
    forall s | ThreadOf(t, s).Replying?
      ensures IsWindow(t, s, ThreadOf(t, s).items)
    {
      NewHeldReplies(c, p, step, s);
      IsWindowIfWas(p, t, s, ThreadOf(t, s).items);
    }
  }

  lemma IsWindowIfWas(p: Sys, t: Sys, s: nat, items: seq<Sample>)
    requires Grows(p, t)
    ensures IsWindow(p, s, items) ==> IsWindow(t, s, items)
  {
    if IsWindow(p, s, items) {
      IsWindowStays(p, t, s, items);
    }
  }

  // ---------- The invariant ----------

  ghost predicate Inv(p: Sys) {
    PipeOk(p) && Listed(p) && Live(p) && ReadOk(p) && Provenance(p) && QueriesOk(p) && RepliesOk(p)
  }

  lemma InvStep(c: Server.Config, p: Sys, step: Step)
    requires Can(p, step) && Inv(p)
    ensures Inv(Do(c, p, step)) && Grows(p, Do(c, p, step))
  {
    hide Can, Do, PipeOk, Listed, Live, ReadOk, Provenance, QueriesOk, RepliesOk, Grows;
    RegisteredOnceOf(p);
    StepGrows(c, p, step);
    PipeOkStep(c, p, step);
    ListedStep(c, p, step);
    LiveStep(c, p, step);
    ReadOkStep(c, p, step);
    ProvenanceStep(c, p, step);
    QueriesOkStep(c, p, step);
    RepliesOkStep(c, p, step);
  }

  lemma RegisteredOnceOf(p: Sys)
    requires Listed(p)
    ensures RegisteredOnce(p)
  {
  }

  lemma InvStart(lastN: App.Number)
    ensures Inv(Start(lastN))
  {
  }

  lemma {:induction false} InvHolds(c: Server.Config, lastN: App.Number, run: seq<Sys>, steps: seq<Step>, k: nat)
    requires IsRun(c, lastN, run, steps) && k < |run|
    ensures Inv(run[k])
  {
    hide Inv, Can, Do;
    if k == 0 {
      InvStart(lastN);
    } else {
      InvHolds(c, lastN, run, steps, k - 1);
      InvStep(c, run[k - 1], steps[k - 1]);
    }
  }

  // ---------- Gap-free recovery ----------

  /** Frames written to a connection are in the page's hands or on their way. */
  lemma FrameHeldOrOnItsWay(p: Sys, s: nat, f: Frame, x: Sample)
    requires ReadOk(p) && f in Box(p, s) && x in Rows(f)
    ensures x in Held(p) || InTransit(p, s, x)
  {
    var k :| 0 <= k < |Box(p, s)| && Box(p, s)[k] == f;
    if k < Consumed(p, s) {
      assert Rows(Box(p, s)[k]) <= Held(p);
    }
  }

  /** From the low end of its window on, a query whose connection is up misses nothing: the window
      comes with the reply, everything broadcast later comes live. Only a sample broadcast after the
      query and swallowed by the cut or the drop setting is excepted. */
  lemma CompleteFromWindow(p: Sys, q: Query, i: nat)
    requires Inv(p) && q in p.queries && Alive(p, q.s) && Low(q) <= i < |Sent(p)|
    ensures var x := Sent(p)[i];
            x in Held(p) || InTransit(p, q.s, x) || (i >= q.stored && i in p.notSent)
  {
    hide PipeOk, Live, Held, InTransit;
    PipeFacts(p);
    var x := Sent(p)[i];
    assert x == Stored(p)[i];
    assert Recorded(p, q) && Answered(p, q);
    if i < q.stored {
      assert Window(p, q)[i - Low(q)] == x;
      WindowArrives(p, q, x);
    } else {
      LiveArrives(p, q.s, i);
    }
  }

  lemma WindowArrives(p: Sys, q: Query, x: Sample)
    requires ReadOk(p) && q.stored <= |Stored(p)| && Answered(p, q) && x in Window(p, q)
    ensures x in Held(p) || InTransit(p, q.s, x)
  {
    if Reply(Window(p, q)) in Box(p, q.s) {
      FrameHeldOrOnItsWay(p, q.s, Reply(Window(p, q)), x);
    }
  }

  lemma LiveArrives(p: Sys, s: nat, i: nat)
    requires ReadOk(p) && Live(p) && Alive(p, s) && s in p.registeredAt && p.registeredAt[s] <= i < |Sent(p)|
    ensures Sent(p)[i] in Held(p) || InTransit(p, s, Sent(p)[i]) || i in p.notSent
  {
    assert SentTo(p, s, i);
    if Row(Sent(p)[i]) in Box(p, s) {
      FrameHeldOrOnItsWay(p, s, Row(Sent(p)[i]), Sent(p)[i]);
    }
  }

  lemma {:induction false} RunGrows(c: Server.Config, lastN: App.Number, run: seq<Sys>, steps: seq<Step>, a: nat,
                                    b: nat)
    requires IsRun(c, lastN, run, steps) && a <= b < |run|
    ensures Sent(run[a]) <= Sent(run[b]) && Held(run[a]) <= Held(run[b])
  {
    hide Inv, Can, Do, Held;
    if a < b {
      RunGrows(c, lastN, run, steps, a, b - 1);
      InvHolds(c, lastN, run, steps, b - 1);
      InvStep(c, run[b - 1], steps[b - 1]);
      GrowsFacts(run[b - 1], run[b]);
    }
  }

  lemma GrowsFacts(p: Sys, q: Sys)
    requires Grows(p, q)
    ensures Sent(p) <= Sent(q) && Held(p) <= Held(q)
  {
  }

  /** The main theorem, over every run. At some moment the page has all samples broadcast from number
      `first` up to `k`. Later, after whatever disconnections, its connection is up and has asked for
      the newest q.n rows when q.stored were stored, reaching back to `k`; no sample broadcast after
      that was swallowed. Then every sample broadcast from `first` on is with the page or on its way. */
  lemma GapFreeRecovery(c: Server.Config, lastN: App.Number, run: seq<Sys>, steps: seq<Step>,
                        a: nat, b: nat, first: nat, k: nat, q: Query)
    requires IsRun(c, lastN, run, steps) && a <= b < |run|
    requires k <= |Sent(run[a])| && forall i :: first <= i < k ==> Sent(run[a])[i] in Held(run[a])
    requires q in run[b].queries && Alive(run[b], q.s) && q.stored - q.n <= k
    requires forall i :: i in run[b].notSent ==> i < q.stored
    ensures forall i :: first <= i < |Sent(run[b])| ==>
      Sent(run[b])[i] in Held(run[b]) || InTransit(run[b], q.s, Sent(run[b])[i])
  {
    hide Held, InTransit;
    InvHolds(c, lastN, run, steps, b);
    RunGrows(c, lastN, run, steps, a, b);
    forall i | first <= i < |Sent(run[b])|
      ensures Sent(run[b])[i] in Held(run[b]) || InTransit(run[b], q.s, Sent(run[b])[i])
    {
      if i < k {
        assert Sent(run[b])[i] == Sent(run[a])[i];
      } else {
        CompleteFromWindow(run[b], q, i);
      }
    }
  }

  /** When in addition the connection has been read to its end and the user threw nothing away, the
      page's own log holds every sample broadcast from `first` on, live or replayed. */
  lemma NothingMissing(c: Server.Config, lastN: App.Number, run: seq<Sys>, steps: seq<Step>,
                       a: nat, b: nat, first: nat, k: nat, q: Query)
    requires IsRun(c, lastN, run, steps) && a <= b < |run|
    requires k <= |Sent(run[a])| && forall i :: first <= i < k ==> Sent(run[a])[i] in Held(run[a])
    requires q in run[b].queries && Alive(run[b], q.s) && q.stored - q.n <= k
    requires forall i :: i in run[b].notSent ==> i < q.stored
    requires Consumed(run[b], q.s) == |Box(run[b], q.s)| && !ThreadOf(run[b], q.s).Replying? && run[b].inFlight == None
    requires run[b].discarded == {}
    ensures forall i :: first <= i < |Sent(run[b])| ==> Sent(run[b])[i] in run[b].ui.pushed
  {
    GapFreeRecovery(c, lastN, run, steps, a, b, first, k, q);
  }

  /** Sample number `i` came to the page in a live frame it has read. */
  ghost predicate CameLive(p: Sys, i: nat)
    requires i < |Sent(p)|
  {
    exists s, k :: 0 <= k < Consumed(p, s) <= |Box(p, s)| && Box(p, s)[k] == Row(Sent(p)[i])
  }

  /** The page has read the reply to a query whose window, the newest rows then stored, includes row `i`. */
  ghost predicate CameReplayed(p: Sys, i: nat) {
    exists q, k :: q in p.queries && q.stored <= |Stored(p)| && 0 <= k < Consumed(p, q.s) <= |Box(p, q.s)|
      && Box(p, q.s)[k] == Reply(Window(p, q)) && Low(q) <= i < q.stored
  }

  /** Exactly which samples the page has been given. */
  lemma HeldExactly(p: Sys, i: nat)
    requires Inv(p) && i < |Sent(p)|
    ensures Sent(p)[i] in Held(p) <==> CameLive(p, i) || CameReplayed(p, i)
  {
    hide PipeOk, Live, Held, QueriesOk, RepliesOk, CameLive, CameReplayed, ReadOk, Provenance;
    if Sent(p)[i] in Held(p) {
      HeldCame(p, i);
    }
    if CameLive(p, i) {
      LiveIsHeld(p, i);
    }
    if CameReplayed(p, i) {
      ReplayedIsHeld(p, i);
    }
  }

  lemma HeldCame(p: Sys, i: nat)
    requires Inv(p) && i < |Sent(p)| && Sent(p)[i] in Held(p)
    ensures CameLive(p, i) || CameReplayed(p, i)
  {
    hide PipeOk, Live, Held, QueriesOk;
    PipeFacts(p);
    var x := Sent(p)[i];
    assert x == Stored(p)[i];
    assert Came(p, x);
    var s, k :| 0 <= k < Consumed(p, s) <= |Box(p, s)| && x in Rows(Box(p, s)[k]);
    if Box(p, s)[k].Reply? {
      assert IsWindow(p, s, Box(p, s)[k].items);
      var q :| q in p.queries && q.s == s && q.stored <= |Stored(p)| && Box(p, s)[k].items == Window(p, q);
      InWindow(p, q, i);
      assert Box(p, q.s)[k] == Reply(Window(p, q));
    } else {
      assert Box(p, s)[k] == Row(x);
    }
  }

  lemma LiveIsHeld(p: Sys, i: nat)
    requires ReadOk(p) && i < |Sent(p)| && CameLive(p, i)
    ensures Sent(p)[i] in Held(p)
  {
    hide Held;
    var s, k :| 0 <= k < Consumed(p, s) <= |Box(p, s)| && Box(p, s)[k] == Row(Sent(p)[i]);
    assert Rows(Box(p, s)[k]) <= Held(p);
  }

  lemma ReplayedIsHeld(p: Sys, i: nat)
    requires ReadOk(p) && PipeOk(p) && i < |Sent(p)| && CameReplayed(p, i)
    ensures Sent(p)[i] in Held(p)
  {
    hide Held, PipeOk;
    PipeFacts(p);
    var q, k :| q in p.queries && q.stored <= |Stored(p)| && 0 <= k < Consumed(p, q.s) <= |Box(p, q.s)|
      && Box(p, q.s)[k] == Reply(Window(p, q)) && Low(q) <= i < q.stored;
    assert Rows(Box(p, q.s)[k]) <= Held(p);
    assert Window(p, q)[i - Low(q)] == Sent(p)[i];
  }

  lemma InWindow(p: Sys, q: Query, i: nat)
    requires q.stored <= |Stored(p)| && i < |Stored(p)| && Stored(p)[i] in Window(p, q)
    requires forall j, k :: 0 <= j < k < |Stored(p)| ==> Stored(p)[j] != Stored(p)[k]
    ensures Low(q) <= i < q.stored
  {
    var m :| 0 <= m < |Window(p, q)| && Window(p, q)[m] == Stored(p)[i];
    assert Stored(p)[Low(q) + m] == Stored(p)[i];
  }

  // ---------- What gives a sample up ----------

  /** The page throws samples away only if its user pauses, clears or connects anew. */
  lemma DiscardedOnlyBy(c: Server.Config, p: Sys, step: Step, x: Sample)
    requires Can(p, step) && x in Do(c, p, step).discarded && x !in p.discarded
    ensures || (step.PageReceives? && p.ui.paused)
            || (step.PageActs? && (step.e.ClickClear? || step.e.ClickConnect?))
  {
    hide AppRuns.Do, Server.Enter, Server.Deliver, PipelineSteps.Do;
    if step.PageActs? {
      PagePushes(p.ui, step.e);
    }
  }

  // ---------- The request ----------

  /** For every number asked for, the limit of the query is that number, at most 5000, and 300 for none. */
  lemma LimitIsAsked(last: nat)
    ensures LimitOf(last) == if last == 0 then 300 else if last <= 5000 then last else 5000
  {
    Requests.RequestRoundTrip(last, 300);
  }

  ghost predicate AsksOk(p: Sys) {
    && (forall r :: r in p.ui.requests ==> 1 <= r.1 <= 5000)
    && (forall q :: q in p.queries ==> (q.s, q.n) in p.ui.requests)
  }

  ghost predicate AddsRequest(u: App.Ui, v: App.Ui) {
    || v.requests == u.requests
    || (&& v.requests != [] && v.requests[..|v.requests| - 1] == u.requests
        && 1 <= v.requests[|v.requests| - 1].1 <= 5000 && App.Names(u.lastN, v.requests[|v.requests| - 1].1))
  }

  lemma RequestAsks(u: App.Ui)
    ensures AddsRequest(u, App.RequestHistory(u))
  {
  }

  /** A page event adds at most one request, for a number from 1 to 5000. */
  lemma PageAsks(u: App.Ui, e: AppRuns.UiEvent)
    ensures AddsRequest(u, AppRuns.Do(u, e))
  {
    hide App.ReplayItems, App.RequestHistory, App.Connect, App.Disconnect;
    match e
    case ClickConnect(created) => AppRuns.ConnectAsksNothing(u, false, created);
    case TimerFires(timer, created) =>
      AppRuns.ConnectAsksNothing(AppRuns.Fired(u, timer), true, created);
    case ClickDisconnect => AppRuns.DisconnectKeepsLog(u, true);
    case ClickHistory => RequestAsks(u);
    case SocketOpens(s) =>
      RequestAsks(App.Log(App.ClearTimer(u.(sockets := u.sockets[s := App.Open])), App.Plain(App.WsOpen)));
    case MessageArrives(_, m) =>
      if m.History? {
        AppRuns.ReplayKeepsBrowser(u, m.items);
      }
    case _ =>
  }

  lemma RequestsStayOk(u: App.Ui, v: App.Ui)
    requires AddsRequest(u, v) && forall r :: r in u.requests ==> 1 <= r.1 <= 5000
    ensures forall r :: r in u.requests ==> r in v.requests
    ensures forall r :: r in v.requests ==> 1 <= r.1 <= 5000 && (r in u.requests || App.Names(u.lastN, r.1))
  {
    hide App.Names;
    if v.requests != u.requests {
      assert v.requests == u.requests + [v.requests[|v.requests| - 1]];
    }
  }

  /** What a step adds to the page's requests. */
  lemma StepAsks(c: Server.Config, p: Sys, step: Step)
    requires Can(p, step)
    ensures AddsRequest(p.ui, Do(c, p, step).ui)
  {
    hide AppRuns.Do, Server.Enter, Server.Deliver, PipelineSteps.Do, Server.Decide, App.Names;
    match step
    case PageOpens(s) => PageAsks(p.ui, AppRuns.SocketOpens(s));
    case PageReceives(s) => PageAsks(p.ui, AppRuns.MessageArrives(s, Decode(Box(p, s)[p.consumed[s]])));
    case PageActs(e) => PageAsks(p.ui, e);
    case _ =>
  }

  lemma AsksOkStep(c: Server.Config, p: Sys, step: Step)
    requires Can(p, step) && AsksOk(p)
    ensures AsksOk(Do(c, p, step))
  {
    hide AppRuns.Do, Server.Enter, Server.Deliver, PipelineSteps.Do, Server.Decide, LimitOf, AddsRequest;
    var t := Do(c, p, step);
    if step.Take? {
      LimitIsAsked(p.ui.requests[step.j].1);
    }
    StepAsks(c, p, step);
    RequestsStayOk(p.ui, t.ui);
  }

  /** Every query on record asks for exactly the number some request of the page named. */
  lemma {:induction false} QueriesAreAsked(c: Server.Config, lastN: App.Number, run: seq<Sys>, steps: seq<Step>, k: nat)
    requires IsRun(c, lastN, run, steps) && k < |run|
    ensures AsksOk(run[k])
  {
    hide Can, Do;
    if k > 0 {
      QueriesAreAsked(c, lastN, run, steps, k - 1);
      AsksOkStep(c, run[k - 1], steps[k - 1]);
    }
  }

  /** Last N named `n` rows at some moment before the `k`th. */
  ghost predicate WasNamed(run: seq<Sys>, k: nat, n: nat)
    requires k <= |run|
  {
    exists i :: 0 <= i < k && App.Names(run[i].ui.lastN, n)
  }

  lemma {:induction false} RequestsWereNamed(c: Server.Config, lastN: App.Number, run: seq<Sys>, steps: seq<Step>,
                                             k: nat)
    requires IsRun(c, lastN, run, steps) && k < |run|
    ensures forall r :: r in run[k].ui.requests ==> WasNamed(run, k, r.1)
  {
    hide Can, Do, App.Names, AddsRequest;
    if k > 0 {
      RequestsWereNamed(c, lastN, run, steps, k - 1);
      QueriesAreAsked(c, lastN, run, steps, k - 1);
      StepAsks(c, run[k - 1], steps[k - 1]);
      RequestsStayOk(run[k - 1].ui, run[k].ui);
    }
  }

  /** From the input field to the database: the limit of every query in every run is the number of rows that
      Last N named at some moment before. */
  lemma QueriesWereNamed(c: Server.Config, lastN: App.Number, run: seq<Sys>, steps: seq<Step>, k: nat, q: Query)
    requires IsRun(c, lastN, run, steps) && k < |run| && q in run[k].queries
    ensures 1 <= q.n <= 5000 && WasNamed(run, k, q.n)
  {
    hide Can, Do, WasNamed;
    QueriesAreAsked(c, lastN, run, steps, k);
    RequestsWereNamed(c, lastN, run, steps, k);
  }
}
