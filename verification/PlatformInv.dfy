/** What every step of the platform keeps. */
module PlatformInv {
  import opened Basics
  import opened Pipeline
  import PipelineSteps
  import Server
  import History
  import App
  import AppRuns
  import opened Platform

  // ---------- What only grows ----------

  ghost predicate Grows(p: Sys, q: Sys) {
    && Sent(p) <= Sent(q) && Stored(p) <= Stored(q) && p.queries <= q.queries
    && (forall s :: Box(p, s) <= Box(q, s))
    && (forall s :: Consumed(p, s) <= Consumed(q, s))
    && (forall s :: s in p.registeredAt ==> s in q.registeredAt && q.registeredAt[s] == p.registeredAt[s])
    && Held(p) <= Held(q) && p.notSent <= q.notSent
  }

  /** The server operations only add to what was sent on each connection. */
  lemma BoxGrows(c: Server.Config, p: Sys, step: Step)
    requires Can(p, step)
    ensures forall s :: Box(p, s) <= Box(Do(c, p, step), s)
  {
    hide Server.Decide, Server.InWindow, AppRuns.Do, PipelineSteps.Do;
    if step.Broadcast? {
      EnterKeepsBoxes(c, p.srv, step.now, step.r1, step.r2);
    } else if step.Deliver? {
      DeliverBoxes(p.srv, Row(p.inFlight.value), step.failing);
    }
  }

  lemma EnterKeepsBoxes(c: Server.Config, srv: Server.State<Frame>, now: int, r1: nat, r2: nat)
    ensures Server.Enter(srv, c, now, r1, r2).outbox == srv.outbox
    ensures Server.Enter(srv, c, now, r1, r2).clients == srv.clients
    ensures Server.Enter(srv, c, now, r1, r2).alive <= srv.alive
  {
  }

  /** A delivery adds the message to exactly the clients that are listed, alive and not failing. */
  lemma DeliverBoxes(srv: Server.State<Frame>, f: Frame, failing: set<nat>)
    ensures var t := Server.Deliver(srv, f, failing);
            forall s :: Server.Outbox(t, s)
              == if s in srv.clients && Server.Reached(srv, s, failing) then Server.Outbox(srv, s) + [f]
                 else Server.Outbox(srv, s)
  {
  }

  lemma PagePushes(u: App.Ui, e: AppRuns.UiEvent)
    ensures var v := AppRuns.Do(u, e);
            match e
            case MessageArrives(_, Telemetry(x)) => v.pushed == if u.paused then u.pushed else u.pushed + [x]
            case MessageArrives(_, History(items)) => v.pushed == u.pushed + AppRuns.Values(items)
            case ClickConnect(_) => v.pushed == []
            case ClickClear => v.pushed == []
            case _ => v.pushed == u.pushed
  {
    if e.MessageArrives? && e.m.History? {
      HistoryPushes(u, e.m.items);
    }
  }

  lemma {:induction false} HistoryPushes(u: App.Ui, items: seq<Option<Sample>>)
    ensures App.ReplayItems(u, items).pushed == u.pushed + AppRuns.Values(items)
  {
    if items == [] {
      assert u.pushed + [] == u.pushed;
    } else {
      HistoryPushes(u, items[..|items| - 1]);
    }
  }

  lemma {:induction false} ValuesOfSome(items: seq<Sample>, n: nat)
    requires n <= |items|
    ensures AppRuns.Values(seq(n, i requires 0 <= i < n => Some(items[i]))) == items[..n]
  {
    var wrapped := seq(n, i requires 0 <= i < n => Some(items[i]));
    if n > 0 {
      ValuesOfSome(items, n - 1);
      assert wrapped[..n - 1] == seq(n - 1, i requires 0 <= i < n - 1 => Some(items[i]));
      assert items[..n] == items[..n - 1] + [items[n - 1]];
    }
  }

  /** Taking a frame gives the page exactly the samples in it. */
  lemma ReceiveHolds(c: Server.Config, p: Sys, s: nat)
    requires Can(p, PageReceives(s))
    ensures Held(Do(c, p, PageReceives(s))) == Held(p) + Rows(Box(p, s)[p.consumed[s]])
  {
    hide AppRuns.Do;
    var f := Box(p, s)[p.consumed[s]];
    PagePushes(p.ui, AppRuns.MessageArrives(s, Decode(f)));
    if f.Reply? {
      ValuesOfSome(f.items, |f.items|);
      assert f.items[..|f.items|] == f.items;
    }
  }

  lemma ActHolds(c: Server.Config, p: Sys, e: AppRuns.UiEvent)
    requires Can(p, PageActs(e))
    ensures Held(Do(c, p, PageActs(e))) == Held(p)
  {
    hide AppRuns.Do;
    PagePushes(p.ui, e);
  }

  lemma OpenHolds(c: Server.Config, p: Sys, s: nat)
    requires Can(p, PageOpens(s))
    ensures Held(Do(c, p, PageOpens(s))) == Held(p)
  {
    hide AppRuns.Do;
    PagePushes(p.ui, AppRuns.SocketOpens(s));
  }

  lemma HeldGrows(c: Server.Config, p: Sys, step: Step)
    requires Can(p, step)
    ensures Held(p) <= Held(Do(c, p, step))
    ensures !step.PageReceives? ==> Held(Do(c, p, step)) == Held(p)
  {
    hide Can, Server.Enter, Server.Deliver, PipelineSteps.Do, AppRuns.Do;
    match step
    case PageReceives(s) => ReceiveHolds(c, p, s);
    case PageActs(e) => ActHolds(c, p, e);
    case PageOpens(s) => OpenHolds(c, p, s);
    case _ =>
  }

  lemma PipeGrows(s: PipelineSteps.State, step: PipelineSteps.Step)
    requires PipelineSteps.Enabled(s, step)
    ensures var t := PipelineSteps.Do(s, step);
            s.sent <= t.sent && s.db.visible <= t.db.visible && s.pushed <= t.pushed
    ensures !step.Send? ==> PipelineSteps.Do(s, step).sent == s.sent
  {
  }

  lemma StepGrows(c: Server.Config, p: Sys, step: Step)
    requires Can(p, step) && RegisteredOnce(p)
    ensures Grows(p, Do(c, p, step))
  {
    var q := Do(c, p, step);
    BoxGrows(c, p, step);
    HeldGrows(c, p, step);
    assert Sent(p) <= Sent(q) && Stored(p) <= Stored(q) by {
      hide Held, Server.Enter, Server.Deliver, AppRuns.Do, PipelineSteps.Do;
      if step.Store? {
        PipeGrows(p.pipe, step.step);
      } else if step.Broadcast? {
        PipeGrows(p.pipe, PipelineSteps.Send(true));
      }
    }
    RecordsGrow(c, p, step);
  }

  ghost predicate RegisteredOnce(p: Sys) { p.registeredAt.Keys == p.threads.Keys }

  lemma RecordsGrow(c: Server.Config, p: Sys, step: Step)
    requires Can(p, step) && RegisteredOnce(p)
    ensures var q := Do(c, p, step);
            && p.queries <= q.queries && p.notSent <= q.notSent && RegisteredOnce(q)
            && (forall s :: Consumed(p, s) <= Consumed(q, s))
            && (forall s :: s in p.registeredAt ==> s in q.registeredAt && q.registeredAt[s] == p.registeredAt[s])
  {
    hide Server.Enter, Server.Deliver, AppRuns.Do, PipelineSteps.Do, Server.Decide, Server.InWindow;
  }

  // ---------- The pipeline inside the platform ----------

  ghost predicate PipeOk(p: Sys) {
    PipelineSteps.InStep(p.pipe) && History.StrictlyIncreasing(Times(p.pipe.pushed))
  }

  lemma PipeFacts(p: Sys)
    requires PipeOk(p)
    ensures Sent(p) <= Stored(p) <= p.pipe.pushed
    ensures History.StrictlyIncreasing(Times(Stored(p)))
    ensures forall i, j :: 0 <= i < j < |Stored(p)| ==> Stored(p)[i] != Stored(p)[j]
  {
    var s := p.pipe;
    if s.phase.Sending? {
      assert s.batch == s.batch[..s.phase.next] + s.batch[s.phase.next..];
      assert s.db.visible == s.sent + s.batch[s.phase.next..];
    }
    assert s.pushed == s.finished + (s.batch + s.queue);
    forall i, j | 0 <= i < j < |Stored(p)|
      ensures Times(Stored(p))[i] < Times(Stored(p))[j] && Stored(p)[i] != Stored(p)[j]
    {
      assert Times(s.pushed)[i] < Times(s.pushed)[j];
    }
  }

  lemma PipeOkStep(c: Server.Config, p: Sys, step: Step)
    requires Can(p, step) && PipeOk(p)
    ensures PipeOk(Do(c, p, step))
  {
    hide Server.Enter, Server.Deliver, AppRuns.Do, Server.Decide, Server.InWindow, PipelineSteps.Do,
      PipelineSteps.InStep;
    if step.Store? {
      PipelineSteps.InStepStep(p.pipe, step.step);
      PushedIncreases(p, step.step);
    } else if step.Broadcast? {
      PipelineSteps.InStepStep(p.pipe, PipelineSteps.Send(true));
      PushedIncreases(p, PipelineSteps.Send(true));
    }
  }

  lemma PushedIncreases(p: Sys, st: PipelineSteps.Step)
    requires PipeOk(p) && PipelineSteps.Enabled(p.pipe, st) && Healthy(p, st)
    ensures History.StrictlyIncreasing(Times(PipelineSteps.Do(p.pipe, st).pushed))
  {
    if st.Push? {
      var ts := Times(p.pipe.pushed + [st.x]);
      forall j, k | 0 <= j < k < |ts|
        ensures ts[j] < ts[k]
      {
        if k < |p.pipe.pushed| {
          assert Times(p.pipe.pushed)[j] < Times(p.pipe.pushed)[k];
        }
      }
    }
  }

  // ---------- Listed clients ----------

  ghost predicate Listed(p: Sys) {
    && RegisteredOnce(p)
    && ClientsOk(p.srv, p.threads)
    && (forall s :: s in p.registeredAt ==> p.registeredAt[s] <= |Sent(p)|)
    && Server.Distinct(p.srv.clients)
  }

  lemma ListedStep(c: Server.Config, p: Sys, step: Step)
    requires Can(p, step) && Listed(p)
    ensures Listed(Do(c, p, step))
  {
    hide Can, Do;
    StepGrows(c, p, step);
    RegisteredStep(c, p, step);
    ClientsStep(c, p, step);
    ClientsDistinct(c, p, step);
  }

  lemma RegisteredStep(c: Server.Config, p: Sys, step: Step)
    requires Can(p, step) && Listed(p)
    ensures var q := Do(c, p, step);
            RegisteredOnce(q) && forall s :: s in q.registeredAt ==> q.registeredAt[s] <= |Sent(q)|
  {
    hide Server.Enter, Server.Deliver, Server.Without, AppRuns.Do, Server.Decide, Server.InWindow, PipelineSteps.Do;
    StepGrows(c, p, step);
    assert |Sent(p)| <= |Sent(Do(c, p, step))|;
  }

  ghost predicate ClientsOk(srv: Server.State<Frame>, threads: map<nat, Thread>) {
    && (forall s :: s in srv.alive ==> s in srv.clients && s in threads && threads[s] != Ended)
    && (forall s :: s in srv.clients ==> s in threads)
  }

  lemma ClientsMove(srv: Server.State<Frame>, threads: map<nat, Thread>, s: nat, t: Thread)
    requires ClientsOk(srv, threads) && t != Ended
    ensures ClientsOk(srv, threads[s := t]) && ClientsOk(Server.Accept(srv, s), threads[s := t])
  {
  }

  lemma ClientsSame(srv: Server.State<Frame>, srv': Server.State<Frame>, threads: map<nat, Thread>)
    requires ClientsOk(srv, threads) && srv'.clients == srv.clients && srv'.alive <= srv.alive
    ensures ClientsOk(srv', threads)
  {
  }

  lemma ClientsEnd(srv: Server.State<Frame>, threads: map<nat, Thread>, s: nat)
    requires ClientsOk(srv, threads) && Server.Distinct(srv.clients)
    ensures ClientsOk(Server.Remove(srv, s), threads[s := Ended])
  {
    hide Server.Without;
    Server.WithoutFacts(srv.clients, s);
  }

  lemma ClientsStep(c: Server.Config, p: Sys, step: Step)
    requires Can(p, step) && Listed(p)
    ensures ClientsOk(Do(c, p, step).srv, Do(c, p, step).threads)
  {
    hide Server.Enter, Server.Deliver, Server.Remove, Server.Accept, AppRuns.Do, Server.Decide, PipelineSteps.Do,
      ClientsOk;
    match step
    case Store(_) =>
    case Broadcast(now, r1, r2) =>
      EnterKeepsBoxes(c, p.srv, now, r1, r2);
      ClientsSame(p.srv, Server.Enter(p.srv, c, now, r1, r2), p.threads);
    case Deliver(failing) => ClientsDeliver(p, failing);
    case AcceptClient(s) => ClientsMove(p.srv, p.threads, s, Handshaking);
    case Shake(s) =>
      ClientsSame(p.srv, Server.Send(p.srv, s, Hello), p.threads);
      ClientsMove(Server.Send(p.srv, s, Hello), p.threads, s, Welcoming);
    case Greet(s, now) =>
      var srv := Server.Send(Server.Anchor(p.srv, now), s, Greeting);
      ClientsSame(p.srv, srv, p.threads);
      ClientsMove(srv, p.threads, s, Looping);
    case Take(j, ix) =>
      ClientsMove(p.srv, p.threads, p.ui.requests[j].0, Replying(AnswerRows(Stored(p), ix)));
    case Answer(s) =>
      var srv := Server.Send(p.srv, s, Reply(p.threads[s].items));
      ClientsSame(p.srv, srv, p.threads);
      ClientsMove(srv, p.threads, s, Looping);
    case EndThread(s) => ClientsEnd(p.srv, p.threads, s);
    case PageOpens(_) =>
    case PageReceives(_) =>
    case PageActs(_) =>
  }

  lemma ClientsDeliver(p: Sys, failing: set<nat>)
    requires Listed(p) && p.inFlight.Some?
    ensures ClientsOk(Server.Deliver(p.srv, Row(p.inFlight.value), failing), p.threads)
  {
    hide Server.Deliver;
    ListedDeliver(p.srv, Row(p.inFlight.value), failing);
  }

  lemma ClientsDistinct(c: Server.Config, p: Sys, step: Step)
    requires Can(p, step) && Listed(p)
    ensures Server.Distinct(Do(c, p, step).srv.clients)
  {
    hide Server.Enter, Server.Deliver, Server.Without, AppRuns.Do, Server.Decide, Server.InWindow, PipelineSteps.Do;
    match step
    case Broadcast(now, r1, r2) => EnterKeepsBoxes(c, p.srv, now, r1, r2);
    case Deliver(failing) => ListedDeliver(p.srv, Row(p.inFlight.value), failing);
    case EndThread(s) => Server.WithoutFacts(p.srv.clients, s);
    case AcceptClient(s) => Server.DistinctCons(s, p.srv.clients);
    case _ =>
  }

  lemma ListedDeliver(srv: Server.State<Frame>, f: Frame, failing: set<nat>)
    requires Server.Distinct(srv.clients) && forall s :: s in srv.alive ==> s in srv.clients
    ensures var t := Server.Deliver(srv, f, failing);
            && (forall s :: s in t.alive <==> s in srv.alive && s !in failing)
            && (forall s :: s in t.clients <==> s in srv.alive && s !in failing)
            && Server.Distinct(t.clients)
  {
    Server.KeepFacts(srv, srv.clients, failing);
  }

  // ---------- Every sample broadcast since a client was listed is sent to it ----------

  ghost predicate SentTo(p: Sys, s: nat, i: nat)
    requires i < |Sent(p)|
  {
    i in p.notSent || Row(Sent(p)[i]) in Box(p, s) || p.inFlight == Some(Sent(p)[i])
  }

  ghost predicate Live(p: Sys) {
    forall s, i :: Alive(p, s) && s in p.registeredAt && p.registeredAt[s] <= i < |Sent(p)| ==> SentTo(p, s, i)
  }

  lemma LiveStep(c: Server.Config, p: Sys, step: Step)
    requires Can(p, step) && Listed(p) && PipeOk(p) && Live(p)
    ensures Live(Do(c, p, step))
  {
    hide Server.Enter, Server.Deliver, Server.Without, AppRuns.Do, Server.Decide, Server.InWindow, PipelineSteps.Do,
         PipelineSteps.InStep, Can, Do;
    var q := Do(c, p, step);
    StepGrows(c, p, step);
    forall s, i | Alive(q, s) && s in q.registeredAt && q.registeredAt[s] <= i < |Sent(q)|
      ensures SentTo(q, s, i)
    {
      if step == AcceptClient(s) {
        FreshClient(c, p, s);
      } else {
        LiveOne(c, p, step, s, i);
      }
    }
  }

  lemma FreshClient(c: Server.Config, p: Sys, s: nat)
    requires Can(p, AcceptClient(s))
    ensures Do(c, p, AcceptClient(s)).registeredAt[s] == |Sent(Do(c, p, AcceptClient(s)))|
  {
  }

  lemma LiveOne(c: Server.Config, p: Sys, step: Step, s: nat, i: nat)
    requires Can(p, step) && Listed(p) && PipeOk(p) && Live(p) && step != AcceptClient(s)
    requires var q := Do(c, p, step);
             Alive(q, s) && s in q.registeredAt && q.registeredAt[s] <= i < |Sent(q)|
    ensures SentTo(Do(c, p, step), s, i)
  {
    hide Server.Enter, Server.Deliver, Server.Without, AppRuns.Do, Server.Decide, Server.InWindow, PipelineSteps.InStep;
    var q := Do(c, p, step);
    StepGrows(c, p, step);
    StillAlive(c, p, step, s);
    if i < |Sent(p)| {
      assert SentTo(p, s, i);
      if step.Deliver? {
        DeliverBoxes(p.srv, Row(p.inFlight.value), step.failing);
        ListedDeliver(p.srv, Row(p.inFlight.value), step.failing);
      }
    } else {
      NewlySent(c, p, step, i);
    }
  }

  lemma StillAlive(c: Server.Config, p: Sys, step: Step, s: nat)
    requires Can(p, step) && step != AcceptClient(s) && Alive(Do(c, p, step), s)
    ensures Alive(p, s) && (!step.AcceptClient? ==> Do(c, p, step).registeredAt == p.registeredAt)
    ensures s in Do(c, p, step).registeredAt ==>
      s in p.registeredAt && p.registeredAt[s] == Do(c, p, step).registeredAt[s]
  {
    hide Server.Decide, Server.InWindow, PipelineSteps.Do, AppRuns.Do, Server.Without;
  }

  /** Only a broadcast adds a sample to those sent; it is then on its way or noted as swallowed. */
  lemma NewlySent(c: Server.Config, p: Sys, step: Step, i: nat)
    requires Can(p, step) && |Sent(p)| <= i < |Sent(Do(c, p, step))|
    ensures var q := Do(c, p, step); i in q.notSent || q.inFlight == Some(Sent(q)[i])
  {
    hide Server.Enter, Server.Decide, AppRuns.Do;
    if step.Store? {
      PipeGrows(p.pipe, step.step);
    }
  }

  // ---------- What the page read ----------

  ghost predicate ReadOk(p: Sys) {
    && (forall s :: Consumed(p, s) <= |Box(p, s)|)
    && (forall s, k :: 0 <= k < Consumed(p, s) ==> Rows(Box(p, s)[k]) <= Held(p))
  }

  ghost predicate Came(p: Sys, x: Sample) {
    exists s, k :: 0 <= k < Consumed(p, s) <= |Box(p, s)| && x in Rows(Box(p, s)[k])
  }

  ghost predicate Provenance(p: Sys) {
    forall x :: x in Held(p) ==> Came(p, x)
  }

  lemma ReadOkStep(c: Server.Config, p: Sys, step: Step)
    requires Can(p, step) && RegisteredOnce(p) && ReadOk(p)
    ensures ReadOk(Do(c, p, step))
  {
    hide Server.Enter, Server.Deliver, Server.Without, AppRuns.Do, Server.Decide, Server.InWindow, PipelineSteps.Do,
      Held, Rows;
    var q := Do(c, p, step);
    StepGrows(c, p, step);
    if step.PageReceives? {
      ReceiveHolds(c, p, step.s);
      RowsOfHello();
    }
    forall s, k | 0 <= k < Consumed(q, s)
      ensures Consumed(q, s) <= |Box(q, s)| && Rows(Box(q, s)[k]) <= Held(q)
    {
      assert Box(p, s) <= Box(q, s);
      if k < Consumed(p, s) {
        assert Box(q, s)[k] == Box(p, s)[k];
      } else if step.PageOpens? {
        RowsOfHello();
      }
    }
  }

  lemma RowsOfHello()
    ensures Rows(Hello) == {}
  {
  }

  lemma ProvenanceStep(c: Server.Config, p: Sys, step: Step)
    requires Can(p, step) && RegisteredOnce(p) && ReadOk(p) && Provenance(p)
    ensures Provenance(Do(c, p, step))
  {
    hide Server.Enter, Server.Deliver, Server.Without, AppRuns.Do, Server.Decide, Server.InWindow, PipelineSteps.Do,
      Held, Rows;
    var q := Do(c, p, step);
    StepGrows(c, p, step);
    HeldGrows(c, p, step);
    forall x | x in Held(q)
      ensures Came(q, x)
    {
      if x in Held(p) {
        var s, k :| 0 <= k < Consumed(p, s) <= |Box(p, s)| && x in Rows(Box(p, s)[k]);
        CameGrows(p, q, s, k, x);
      } else {
        ReceiveHolds(c, p, step.s);
        var k := p.consumed[step.s];
        assert 0 <= k < Consumed(q, step.s) <= |Box(q, step.s)| && x in Rows(Box(q, step.s)[k]);
      }
    }
  }

  lemma CameGrows(p: Sys, q: Sys, s: nat, k: nat, x: Sample)
    requires Grows(p, q) && k < Consumed(p, s) <= |Box(p, s)| && x in Rows(Box(p, s)[k]) && ReadOk(p)
    requires Consumed(q, s) <= |Box(q, s)|
    ensures Came(q, x)
  {
    assert Box(p, s) <= Box(q, s);
    assert Box(q, s)[k] == Box(p, s)[k];
  }

  // ---------- Replies ----------

  /** A new frame that is a reply is what the connection's thread held. */
  lemma NewReplies(c: Server.Config, p: Sys, step: Step, s: nat)
    requires Can(p, step)
    ensures var t := Do(c, p, step);
            forall k :: |Box(p, s)| <= k < |Box(t, s)| && Box(t, s)[k].Reply? ==>
              ThreadOf(p, s) == Replying(Box(t, s)[k].items)
  {
    hide Server.Enter, Server.Deliver, AppRuns.Do, PipelineSteps.Do, Server.Decide;
    match step
    case Broadcast(now, r1, r2) => EnterKeepsBoxes(c, p.srv, now, r1, r2);
    case Deliver(failing) => DeliverBoxes(p.srv, Row(p.inFlight.value), failing);
    case _ =>
  }
}
