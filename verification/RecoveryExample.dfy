/** Concrete runs: one in which the recovery theorems have everything to do, and one in which a broadcast
    spoils a connection. */
module RecoveryExample {
  import opened Basics
  import opened Pipeline
  import PipelineSteps
  import Server
  import History
  import App
  import AppRuns
  import opened Platform
  import opened Recovery
  import Openings
  import opened PageExample

  /** No delay, no drops, no cut. */
  const CALM := Server.Config(0, 0, 0, 0, 0, false)

  ghost predicate Reaches(run: seq<Sys>, steps: seq<Step>, p: Sys) {
    IsRun(CALM, ASKED, run, steps) && run[|run| - 1] == p
  }

  /** One run goes on from another. */
  ghost predicate Continues(run: seq<Sys>, steps: seq<Step>, run': seq<Sys>, steps': seq<Step>) {
    run <= run' && steps <= steps'
  }

  lemma StartRun() returns (run: seq<Sys>, steps: seq<Step>)
    ensures Reaches(run, steps, Start(ASKED))
  {
    run, steps := [Start(ASKED)], [];
  }

  lemma Extend(run: seq<Sys>, steps: seq<Step>, p: Sys, step: Step) returns (run': seq<Sys>, steps': seq<Step>)
    requires Reaches(run, steps, p) && Can(p, step)
    ensures Reaches(run', steps', Do(CALM, p, step)) && Continues(run, steps, run', steps')
    ensures steps' == steps + [step]
  {
    hide Can, Do;
    run', steps' := run + [Do(CALM, p, step)], steps + [step];
  }

  // ---------- A sample on its way ----------

  lemma StepStore(run: seq<Sys>, steps: seq<Step>, p: Sys, st: PipelineSteps.Step, pipe: PipelineSteps.State)
    returns (run': seq<Sys>, steps': seq<Step>)
    requires Reaches(run, steps, p) && PipelineSteps.Enabled(p.pipe, st) && !st.Send?
    requires p.inFlight.None? && Healthy(p, st)
    requires pipe == PipelineSteps.Do(p.pipe, st)
    ensures Reaches(run', steps', p.(pipe := pipe)) && Continues(run, steps, run', steps')
  {
    hide PipelineSteps.Do, PipelineSteps.Enabled, Healthy;
    assert Can(p, Store(st));
    run', steps' := Extend(run, steps, p, Store(st));
  }

  /** The writer waits, and nothing is on its way. */
  ghost predicate Idle(p: Sys) {
    p.pipe.phase.Waiting? && p.pipe.queue == [] && p.pipe.batch == [] && p.pipe.db.txn.None? && p.inFlight.None?
  }

  ghost predicate Newer(p: Sys, x: Sample) {
    forall i :: 0 <= i < |p.pipe.pushed| ==> p.pipe.pushed[i].receivedAt < x.receivedAt
  }

  function InHand(s: PipelineSteps.State, x: Sample): PipelineSteps.State {
    s.(pushed := s.pushed + [x], batch := [x], phase := PipelineSteps.InHand)
  }

  function Committed1(s: PipelineSteps.State, x: Sample): PipelineSteps.State {
    s.(pushed := s.pushed + [x], batch := [x], begun := s.begun + [x], db := Db(s.db.visible + [x], None),
       dbRows := s.dbRows + 1, commitCount := s.commitCount + 1, phase := PipelineSteps.Sending(0))
  }

  function Done(s: PipelineSteps.State, x: Sample): PipelineSteps.State {
    Committed1(s, x).(batch := [], sent := s.sent + [x], finished := s.finished + [x], phase := PipelineSteps.Waiting)
  }

  lemma Receive(run: seq<Sys>, steps: seq<Step>, p: Sys, x: Sample) returns (run': seq<Sys>, steps': seq<Step>)
    requires Reaches(run, steps, p) && Idle(p) && Newer(p, x)
    ensures Reaches(run', steps', p.(pipe := InHand(p.pipe, x))) && Continues(run, steps, run', steps')
  {
    hide Reaches, Can, Do;
    var q := p.pipe.(queue := [x], pushed := p.pipe.pushed + [x]);
    assert [] + [x] == [x];
    run', steps' := StepStore(run, steps, p, PipelineSteps.Push(x), q);
    assert q.queue[..1] == [x] && q.queue[1..] == [];
    run', steps' := StepStore(run', steps', p.(pipe := q), PipelineSteps.Pop(1), InHand(p.pipe, x));
  }

  lemma StoreBatch(run: seq<Sys>, steps: seq<Step>, p: Sys, x: Sample) returns (run': seq<Sys>, steps': seq<Step>)
    requires Reaches(run, steps, p.(pipe := InHand(p.pipe, x))) && Idle(p)
    ensures Reaches(run', steps', p.(pipe := Committed1(p.pipe, x))) && Continues(run, steps, run', steps')
  {
    hide Reaches, Can, Do;
    var s := InHand(p.pipe, x);
    var q := s.(db := s.db.(txn := Some([])), begun := s.begun + [x], phase := PipelineSteps.Storing([]));
    run', steps' := StepStore(run, steps, p.(pipe := s), PipelineSteps.TryBegin(true), q);
    var r := q.(db := s.db.(txn := Some([x])), phase := PipelineSteps.Storing([Inserted]));
    assert [] + [Inserted] == [Inserted] && [] + [x] == [x];
    assert Insert(q.db, x, Inserted) == r.db;
    run', steps' := StepStore(run', steps', p.(pipe := q), PipelineSteps.TryInsert(Inserted), r);
    run', steps' := StepStore(run', steps', p.(pipe := r), PipelineSteps.EndTransaction(Committed),
                              Committed1(p.pipe, x));
  }

  lemma BroadcastBatch(run: seq<Sys>, steps: seq<Step>, p: Sys, x: Sample) returns (run': seq<Sys>, steps': seq<Step>)
    requires Reaches(run, steps, p.(pipe := Committed1(p.pipe, x))) && Idle(p)
    ensures Reaches(run', steps', p.(pipe := Done(p.pipe, x), srv := Server.Forward(p.srv, Row(x))))
    ensures Continues(run, steps, run', steps')
  {
    hide Reaches, Server.Deliver;
    var s := p.(pipe := Committed1(p.pipe, x));
    run', steps' := Extend(run, steps, s, Broadcast(0, 0, 0));
    var srv := p.srv.(calls := p.srv.calls + 1, forwarded := p.srv.forwarded + 1, cutCloseFired := false);
    assert Server.Enter(p.srv, CALM, 0, 0, 0) == srv;
    var q := s.pipe.(sent := p.pipe.sent + [x], phase := PipelineSteps.Sending(1));
    var t := s.(pipe := q, srv := srv, inFlight := Some(x));
    assert Do(CALM, s, Broadcast(0, 0, 0)) == t;
    run', steps' := Extend(run', steps', t, Deliver({}));
    var u := t.(srv := Server.Forward(p.srv, Row(x)), inFlight := None);
    assert Do(CALM, t, Deliver({})) == u;
    run', steps' := StepStore(run', steps', u, PipelineSteps.EndBatch, Done(p.pipe, x));
  }

  /** A sample is received, stored and broadcast to whoever is listed. */
  lemma Flow(run: seq<Sys>, steps: seq<Step>, p: Sys, x: Sample) returns (run': seq<Sys>, steps': seq<Step>)
    requires Reaches(run, steps, p) && Idle(p) && Newer(p, x)
    ensures Reaches(run', steps', p.(pipe := Done(p.pipe, x), srv := Server.Forward(p.srv, Row(x))))
    ensures Continues(run, steps, run', steps')
  {
    hide Reaches, InHand, Committed1, Done, Server.Forward;
    run', steps' := Receive(run, steps, p, x);
    run', steps' := StoreBatch(run', steps', p, x);
    run', steps' := BroadcastBatch(run', steps', p, x);
  }

  // ---------- A connection served ----------

  function Accepted(p: Sys, s: nat): Sys {
    p.(srv := p.srv.(clients := [s], alive := {s}), threads := p.threads[s := Handshaking],
       registeredAt := p.registeredAt[s := |Sent(p)|])
  }

  function Opened(p: Sys, s: nat): Sys {
    p.(ui := AppRuns.Do(p.ui, AppRuns.SocketOpens(s)), threads := p.threads[s := Looping],
       consumed := p.consumed[s := 1],
       registeredAt := p.registeredAt[s := |Sent(p)|],
       srv := p.srv.(clients := [s], alive := {s}, anchor := if p.srv.anchor.None? then Some(0) else p.srv.anchor,
                     outbox := p.srv.outbox[s := [Hello, Greeting]]))
  }

  lemma AcceptPage(run: seq<Sys>, steps: seq<Step>, p: Sys, s: nat) returns (run': seq<Sys>, steps': seq<Step>)
    requires Reaches(run, steps, p) && p.srv.clients == [] && p.srv.alive == {}
    requires s in p.ui.sockets && s !in p.threads
    ensures Reaches(run', steps', Accepted(p, s)) && Continues(run, steps, run', steps')
  {
    hide Reaches;
    run', steps' := Extend(run, steps, p, AcceptClient(s));
    assert [s] + [] == [s];
    assert Do(CALM, p, AcceptClient(s)) == Accepted(p, s);
  }

  lemma ServePage(run: seq<Sys>, steps: seq<Step>, p: Sys, s: nat) returns (run': seq<Sys>, steps': seq<Step>)
    requires Reaches(run, steps, p) && p.srv.clients == [] && p.srv.alive == {}
    requires App.ReadyOf(p.ui, s) == App.Connecting && s !in p.threads && s !in p.consumed && s !in p.srv.outbox
    ensures Reaches(run', steps', Opened(p, s)) && Continues(run, steps, run', steps')
  {
    hide Reaches, AppRuns.Do;
    run', steps' := AcceptPage(run, steps, p, s);
    var t := Accepted(p, s);
    run', steps' := Extend(run', steps', t, Shake(s));
    Server.FirstSent(t.srv, s, Hello);
    assert t.threads[s := Welcoming] == p.threads[s := Welcoming];
    assert Do(CALM, t, Shake(s)) == Shaken(p, s);
    run', steps' := OpenPage(run', steps', p, s);
    var v := Shaken(p, s).(ui := AppRuns.Do(p.ui, AppRuns.SocketOpens(s)), consumed := p.consumed[s := 1]);
    run', steps' := GreetPage(run', steps', p, s, v);
  }

  function Shaken(p: Sys, s: nat): Sys {
    Accepted(p, s).(srv := Accepted(p, s).srv.(outbox := p.srv.outbox[s := [Hello]]),
                    threads := p.threads[s := Welcoming])
  }

  lemma OpenPage(run: seq<Sys>, steps: seq<Step>, p: Sys, s: nat) returns (run': seq<Sys>, steps': seq<Step>)
    requires Reaches(run, steps, Shaken(p, s)) && App.ReadyOf(p.ui, s) == App.Connecting && s !in p.consumed
    ensures Reaches(run', steps', Shaken(p, s).(ui := AppRuns.Do(p.ui, AppRuns.SocketOpens(s)),
                    consumed := p.consumed[s := 1]))
    ensures Continues(run, steps, run', steps')
  {
    hide Reaches, AppRuns.Do;
    var u := Shaken(p, s);
    run', steps' := Extend(run, steps, u, PageOpens(s));
    assert Do(CALM, u, PageOpens(s)) == u.(ui := AppRuns.Do(p.ui, AppRuns.SocketOpens(s)),
              consumed := p.consumed[s := 1]);
  }

  lemma GreetPage(run: seq<Sys>, steps: seq<Step>, p: Sys, s: nat, v: Sys) returns (run': seq<Sys>, steps': seq<Step>)
    requires Reaches(run, steps, v)
    requires v == Shaken(p, s).(ui := AppRuns.Do(p.ui, AppRuns.SocketOpens(s)), consumed := p.consumed[s := 1])
    ensures Reaches(run', steps', Opened(p, s)) && Continues(run, steps, run', steps')
  {
    hide Reaches, AppRuns.Do;
    run', steps' := Extend(run, steps, v, Greet(s, 0));
    Server.NextSent(Server.Anchor(v.srv, 0), p.srv.outbox, s, [Hello], Greeting);
    assert [Hello] + [Greeting] == [Hello, Greeting];
    assert v.threads[s := Looping] == p.threads[s := Looping];
    assert Do(CALM, v, Greet(s, 0)) == Opened(p, s);
  }

  /** The page takes the next frame. */
  lemma Read(run: seq<Sys>, steps: seq<Step>, p: Sys, s: nat) returns (run': seq<Sys>, steps': seq<Step>, p': Sys)
    requires Reaches(run, steps, p) && App.ReadyOf(p.ui, s) == App.Open && !p.ui.paused
    requires s in p.consumed && p.consumed[s] < |Box(p, s)|
    ensures Reaches(run', steps', p') && Continues(run, steps, run', steps')
    ensures p' == p.(ui := AppRuns.Do(p.ui, AppRuns.MessageArrives(s, Decode(Box(p, s)[p.consumed[s]]))),
                     consumed := p.consumed[s := p.consumed[s] + 1])
  {
    hide Reaches, AppRuns.Do;
    run', steps' := Extend(run, steps, p, PageReceives(s));
    p' := Do(CALM, p, PageReceives(s));
  }

  lemma Act(run: seq<Sys>, steps: seq<Step>, p: Sys, e: AppRuns.UiEvent) returns (run': seq<Sys>, steps': seq<Step>)
    requires Reaches(run, steps, p) && AppRuns.Enabled(p.ui, e) && !e.SocketOpens? && !e.MessageArrives?
    requires AppRuns.Do(p.ui, e).pushed == p.ui.pushed
    ensures Reaches(run', steps', p.(ui := AppRuns.Do(p.ui, e))) && Continues(run, steps, run', steps')
    ensures PageActs(e) in steps'
  {
    hide Reaches, AppRuns.Do, AppRuns.Enabled;
    run', steps' := Extend(run, steps, p, PageActs(e));
    assert steps'[|steps|] == PageActs(e);
    assert Do(CALM, p, PageActs(e)) == p.(ui := AppRuns.Do(p.ui, e));
  }

  // ---------- The whole run ----------

  const EMPTY := PipelineSteps.Start(Db([], None))

  /** The page has `x` live, on connection 0. */
  ghost predicate Listening(p: Sys, x: Sample) {
    && p.pipe == Done(EMPTY, x) && p.inFlight.None? && p.notSent == {} && p.discarded == {}
    && p.queries == [] && p.taken == {}
    && p.srv.clients == [0] && p.srv.alive == {0} && p.srv.outbox == map[0 := [Hello, Greeting, Row(x)]]
    && p.threads == map[0 := Looping] && p.consumed == map[0 := 3]
    && p.ui.ws == Some(0) && p.ui.sockets == map[0 := App.Open] && p.ui.nextSocket == 1 && p.ui.nextTimer == 0
    && p.ui.timers == {} && p.ui.reconnectTimer.None? && !p.ui.manualDisconnect && !p.ui.paused
    && p.ui.requests == [] && p.ui.pushed == [x] && p.ui.lastN == ASKED
  }

  lemma Listen(x: Sample) returns (run: seq<Sys>, steps: seq<Step>, p: Sys)
    ensures Reaches(run, steps, p) && Listening(p, x)
  {
    hide Reaches, Can, Do, AppRuns.Do, Done, Server.Forward;
    run, steps := StartRun();
    p := Start(ASKED);
    PageConnects(p.ui);
    run, steps := Act(run, steps, p, CONNECT);
    p := p.(ui := AppRuns.Do(p.ui, CONNECT));
    PageListens(p.ui, x);
    run, steps := ServePage(run, steps, p, 0);
    p := Opened(p, 0);
    assert Box(p, 0) == [Hello, Greeting];
    run, steps, p := Read(run, steps, p, 0);
    run, steps := Flow(run, steps, p, x);
    Server.ForwardToOne(p.srv, Row(x), 0);
    assert Server.Outbox(p.srv, 0) + [Row(x)] == [Hello, Greeting, Row(x)];
    p := p.(pipe := Done(p.pipe, x), srv := Server.Forward(p.srv, Row(x)));
    run, steps, p := Read(run, steps, p, 0);
  }

  /** The connection was lost, `y` was broadcast to nobody, and the page is connecting again. */
  ghost predicate Missing(p: Sys, x: Sample, y: Sample) {
    && p.pipe == Done(Done(EMPTY, x), y) && p.inFlight.None? && p.notSent == {} && p.discarded == {} && p.queries == []
    && p.taken == {}
    && p.srv.clients == [] && p.srv.alive == {} && p.srv.outbox == map[0 := [Hello, Greeting, Row(x)]]
    && p.threads == map[0 := Ended] && p.consumed == map[0 := 3]
    && p.ui.ws == Some(1) && p.ui.sockets == map[0 := App.Closed, 1 := App.Connecting] && p.ui.pendingRecovery
    && p.ui.reconnectTimer.None? && !p.ui.paused && p.ui.requests == [] && p.ui.pushed == [x] && p.ui.lastN == ASKED
  }

  lemma Lose(run: seq<Sys>, steps: seq<Step>, p: Sys, x: Sample, y: Sample)
    returns (run': seq<Sys>, steps': seq<Step>, p': Sys)
    requires Reaches(run, steps, p) && Listening(p, x) && x.receivedAt < y.receivedAt
    ensures Reaches(run', steps', p') && Missing(p', x, y) && Continues(run, steps, run', steps')
    ensures PageActs(LOST) in steps' && PageActs(RETRY) in steps'
  {
    hide Reaches, Can, AppRuns.Do, Server.Forward, AppRuns.Enabled;
    PageRetries(p.ui, x);
    run', steps', p' := End(run, steps, p);
    run', steps' := Act(run', steps', p', LOST);
    p' := p'.(ui := AppRuns.Do(p.ui, LOST));
    run', steps' := Flow(run', steps', p', y);
    Server.ForwardToNobody(p'.srv, Row(y));
    p' := p'.(pipe := Done(p'.pipe, y), srv := Server.Forward(p'.srv, Row(y)));
    assert PageActs(LOST) in steps';
    run', steps' := Act(run', steps', p', RETRY);
    p' := p'.(ui := AppRuns.Do(p'.ui, RETRY));
  }

  /** The server closes connection 0. */
  lemma End(run: seq<Sys>, steps: seq<Step>, p: Sys) returns (run': seq<Sys>, steps': seq<Step>, p': Sys)
    requires Reaches(run, steps, p) && p.threads == map[0 := Looping] && p.srv.clients == [0] && p.srv.alive == {0}
    ensures Reaches(run', steps', p') && Continues(run, steps, run', steps')
    ensures p' == p.(srv := p.srv.(clients := [], alive := {}), threads := map[0 := Ended])
  {
    hide Reaches;
    run', steps' := Extend(run, steps, p, EndThread(0));
    p' := Do(CALM, p, EndThread(0));
    assert p.srv.alive - {0} == {};
    assert p.threads[0 := Ended] == map[0 := Ended];
  }

  const QUERY := Query(1, 2, 300)

  /** The answer is on the new connection. */
  ghost predicate Replied(p: Sys, x: Sample, y: Sample) {
    && p.pipe == Done(Done(EMPTY, x), y) && p.inFlight.None? && p.notSent == {} && p.discarded == {}
    && p.queries == [QUERY]
    && p.srv.alive == {1}
    && p.srv.outbox == map[0 := [Hello, Greeting, Row(x)], 1 := [Hello, Greeting, Reply([x, y])]]
    && p.threads == map[0 := Ended, 1 := Looping] && p.consumed == map[0 := 3, 1 := 1]
    && App.ReadyOf(p.ui, 1) == App.Open && !p.ui.paused
    && AppRuns.Do(p.ui, AppRuns.MessageArrives(1, App.Status)) == p.ui
  }

  lemma AskAgain(run: seq<Sys>, steps: seq<Step>, p: Sys, x: Sample, y: Sample)
    returns (run': seq<Sys>, steps': seq<Step>, p': Sys)
    requires Reaches(run, steps, p) && Missing(p, x, y) && x.receivedAt < y.receivedAt
    ensures Reaches(run', steps', p') && Replied(p', x, y) && Continues(run, steps, run', steps')
  {
    hide Reaches, Can, Do, AppRuns.Do, Server.Forward;
    PageAsksAgain(p.ui);
    run', steps' := ServePage(run, steps, p, 1);
    p' := Opened(p, 1);
    assert Stored(p') == [x, y];
    run', steps', p' := Replay(run', steps', p', x, y);
  }

  lemma Replay(run: seq<Sys>, steps: seq<Step>, p: Sys, x: Sample, y: Sample)
    returns (run': seq<Sys>, steps': seq<Step>, p': Sys)
    requires Reaches(run, steps, p) && Stored(p) == [x, y] && x.receivedAt < y.receivedAt
    requires p.ui.requests == [(1, 300)] && p.taken == {} && p.queries == [] && p.srv.alive == {1}
    requires p.threads == map[0 := Ended, 1 := Looping]
    requires p.srv.outbox == map[0 := [Hello, Greeting, Row(x)]][1 := [Hello, Greeting]]
    ensures Reaches(run', steps', p') && Continues(run, steps, run', steps')
    ensures p' == p.(taken := {0}, queries := [QUERY], threads := map[0 := Ended, 1 := Looping],
                     srv := p.srv.(outbox := map[0 := [Hello, Greeting, Row(x)],
                                                 1 := [Hello, Greeting, Reply([x, y])]]))
  {
    hide Reaches, LimitOf;
    LimitIsAsked(300);
    TwoRows(x, y);
    run', steps' := Extend(run, steps, p, Take(0, [1, 0]));
    var u := p.(threads := map[0 := Ended, 1 := Replying([x, y])], taken := {0}, queries := [QUERY]);
    assert p.threads[1 := Replying([x, y])] == u.threads;
    assert Do(CALM, p, Take(0, [1, 0])) == u;
    run', steps' := Extend(run', steps', u, Answer(1));
    Server.NextSent(u.srv, map[0 := [Hello, Greeting, Row(x)]], 1, [Hello, Greeting], Reply([x, y]));
    assert [Hello, Greeting] + [Reply([x, y])] == [Hello, Greeting, Reply([x, y])];
    assert u.threads[1 := Looping] == p.threads;
    p' := Do(CALM, u, Answer(1));
  }

  lemma TwoRows(x: Sample, y: Sample)
    requires x.receivedAt < y.receivedAt
    ensures History.NewestFirst(Times([x, y]), 300, [1, 0]) && AnswerRows([x, y], [1, 0]) == [x, y]
  {
    assert Times([x, y]) == [x.receivedAt, y.receivedAt];
  }

  /** The page reads the new connection to its end. */
  lemma ReadOn(run: seq<Sys>, steps: seq<Step>, p: Sys, x: Sample, y: Sample)
    returns (run': seq<Sys>, steps': seq<Step>, p': Sys)
    requires Reaches(run, steps, p) && Replied(p, x, y)
    ensures Reaches(run', steps', p') && Continues(run, steps, run', steps')
    ensures p' == p.(ui := p'.ui, consumed := map[0 := 3, 1 := 3])
  {
    hide Reaches, Can, Do, AppRuns.Do;
    run', steps', p' := Read(run, steps, p, 1);
    assert p'.ui == p.ui;
    run', steps', p' := Read(run', steps', p', 1);
    assert p'.consumed == map[0 := 3, 1 := 3];
  }

  /** A run in which `x` comes live, the connection is lost, `y` is broadcast to nobody, the timer reconnects
      the page, and its query brings `y`: the hypotheses of the recovery theorems hold, and so do their
      conclusions. */
  lemma RecoveryHappens(x: Sample, y: Sample) returns (run: seq<Sys>, steps: seq<Step>, a: nat)
    requires x.receivedAt < y.receivedAt
    ensures IsRun(CALM, ASKED, run, steps) && a < |run|
    ensures Sent(run[a]) == [x] && CameLive(run[a], 0) && x in Held(run[a])
    ensures PageActs(LOST) in steps && PageActs(RETRY) in steps
    ensures var p := run[|run| - 1];
            && Sent(p) == [x, y] && !CameLive(p, 1) && x in p.ui.pushed && y in p.ui.pushed
            && p.queries == [QUERY] && Alive(p, QUERY.s) && p.notSent == {} && p.discarded == {}
  {
    hide Can, Do, Inv, Held;
    var p;
    run, steps, p := Listen(x);
    a := |run| - 1;
    ghost var r := run;
    ListeningFacts(p, x);
    run, steps, p := Lose(run, steps, p, x, y);
    run, steps, p := AskAgain(run, steps, p, x, y);
    run, steps, p := ReadOn(run, steps, p, x, y);
    assert run[a] == r[a];
    EndFacts(p, x, y);
    NothingMissing(CALM, ASKED, run, steps, a, |run| - 1, 0, 1, QUERY);
    assert x == Sent(p)[0] && y == Sent(p)[1];
  }

  lemma ListeningFacts(p: Sys, x: Sample)
    requires Listening(p, x)
    ensures Sent(p) == [x] && CameLive(p, 0) && x in Held(p)
  {
    assert Box(p, 0)[2] == Row(Sent(p)[0]);
  }

  lemma EndFacts(p: Sys, x: Sample, y: Sample)
    requires x.receivedAt < y.receivedAt && p.pipe == Done(Done(EMPTY, x), y)
    requires p.srv.outbox == map[0 := [Hello, Greeting, Row(x)], 1 := [Hello, Greeting, Reply([x, y])]]
    requires p.consumed == map[0 := 3, 1 := 3] && p.threads == map[0 := Ended, 1 := Looping]
    ensures Sent(p) == [x, y] && !CameLive(p, 1)
    ensures Consumed(p, 1) == |Box(p, 1)| && !ThreadOf(p, 1).Replying?
  {
    forall s, k | 0 <= k < |Box(p, s)|
      ensures Box(p, s)[k] != Row(y)
    {
      assert s == 0 || s == 1;
    }
  }

  // ---------- A connection spoiled ----------

  /** A run in which the page's connection is accepted, and a sample is broadcast before the handshake is
      answered: it comes first on the wire. */
  lemma SpoilingHappens(x: Sample) returns (run: seq<Sys>, steps: seq<Step>)
    ensures IsRun(CALM, ASKED, run, steps)
    ensures Box(run[|run| - 1], 0) == [Row(x)] && Alive(run[|run| - 1], 0)
    ensures App.ReadyOf(run[|run| - 1].ui, 0) == App.Connecting
    ensures exists i: nat :: i < |steps| && Openings.WritesTo(run[i], steps[i], 0) && !Openings.Shaken(steps, i, 0)
  {
    hide Can, Do, AppRuns.Do, Done, Server.Forward, Openings.WritesTo, Openings.Shaken;
    run, steps := StartRun();
    var p := Start(ASKED);
    PageConnects(p.ui);
    run, steps := Act(run, steps, p, CONNECT);
    p := p.(ui := AppRuns.Do(p.ui, CONNECT));
    run, steps := AcceptPage(run, steps, p, 0);
    p := Accepted(p, 0);
    run, steps := Flow(run, steps, p, x);
    Server.ForwardToOne(p.srv, Row(x), 0);
    assert Server.Outbox(p.srv, 0) + [Row(x)] == [Row(x)];
    p := p.(pipe := Done(p.pipe, x), srv := Server.Forward(p.srv, Row(x)));
    assert Box(p, 0) == [Row(x)];
    Openings.OpensIff(CALM, ASKED, run, steps, |steps|, 0);
  }
}
