/** The whole platform as one step system: the gateway pipeline, the WebSocket server and one browser
    page, joined by sockets that deliver frames in order. Connections carry the page's socket numbers. */
module Platform {
  import opened Basics
  import opened Pipeline
  import PipelineSteps
  import Server
  import History
  import Requests
  import App
  import AppRuns

  /** What the server puts on a socket. */
  datatype Frame =
    | Hello                         // the handshake response
    | Greeting                      // the status message
    | Row(x: Sample)                // a broadcast sample
    | Reply(items: seq<Sample>)     // the answer to a history request

  /** Where a client's thread is. */
  datatype Thread = Handshaking | Welcoming | Looping | Replying(items: seq<Sample>) | Ended

  /** A history query made: on which connection, with how many rows stored, asking for how many. */
  datatype Query = Query(s: nat, stored: nat, n: nat)

  datatype Sys = Sys(
    pipe: PipelineSteps.State,
    inFlight: Option<Sample>,       // entered broadcast, not yet sent
    srv: Server.State<Frame>,
    ui: App.Ui,
    threads: map<nat, Thread>,
    consumed: map<nat, nat>,        // frames the page has taken from each connection
    taken: set<nat>,                // requests of the page the server has read
    // what has happened so far
    registeredAt: map<nat, nat>,    // how many samples had been broadcast when the client was listed
    queries: seq<Query>,
    notSent: set<nat>,              // numbers of samples that the cut or the drop setting swallowed
    discarded: set<Sample>)         // received by the page but ignored while paused, or cleared by the user

  datatype Step =
    | Store(step: PipelineSteps.Step)
    | Broadcast(now: int, r1: nat, r2: nat)
    | Deliver(failing: set<nat>)
    | AcceptClient(s: nat)
    | Shake(s: nat)
    | Greet(s: nat, now: int)
    | Take(j: nat, ix: seq<nat>)
    | Answer(s: nat)
    | EndThread(s: nat)
    | PageOpens(s: nat)
    | PageReceives(s: nat)
    | PageActs(e: AppRuns.UiEvent)

  function Start(lastN: App.Number): Sys {
    Sys(PipelineSteps.Start(Db([], None)), None, Server.Start(), App.INITIAL.(lastN := lastN),
        map[], map[], {}, map[], [], {}, {})
  }

  function Sent(p: Sys): seq<Sample> { p.pipe.sent }
  function Stored(p: Sys): seq<Sample> { p.pipe.db.visible }
  function Box(p: Sys, s: nat): seq<Frame> { Server.Outbox(p.srv, s) }
  function ThreadOf(p: Sys, s: nat): Thread { if s in p.threads then p.threads[s] else Ended }
  function Alive(p: Sys, s: nat): bool { s in p.srv.alive }

  function Times(rows: seq<Sample>): (ts: seq<int>)
    ensures |ts| == |rows|
  {
    seq(|rows|, i requires 0 <= i < |rows| => rows[i].receivedAt)
  }

  /** The limit the server reads from the page's request text. */
  function LimitOf(last: nat): nat {
    History.ClampLimit(Requests.FindInt(Requests.RequestText(last), Requests.LAST_KEY, 300))
  }

  function AnswerRows(rows: seq<Sample>, ix: seq<nat>): seq<Sample>
    requires forall k :: 0 <= k < |ix| ==> ix[k] < |rows|
  {
    seq(|ix|, k requires 0 <= k < |ix| => rows[ix[|ix| - 1 - k]])
  }

  function Decode(f: Frame): App.Message {
    match f
    case Hello => App.Unknown
    case Greeting => App.Status
    case Row(x) => App.Telemetry(x)
    case Reply(items) => App.History(seq(|items|, i requires 0 <= i < |items| => Some(items[i])))
  }

  /** Receive times strictly increase, and every database step succeeds. */
  ghost predicate Healthy(p: Sys, step: PipelineSteps.Step) {
    && PipelineSteps.Succeeds(step)
    && (step.Push? ==> forall i :: 0 <= i < |p.pipe.pushed| ==> p.pipe.pushed[i].receivedAt < step.x.receivedAt)
  }

  ghost predicate Can(p: Sys, step: Step) {
    match step
    case Store(st) =>
      PipelineSteps.Enabled(p.pipe, st) && !st.Send? && (st.EndBatch? ==> p.inFlight.None?) && Healthy(p, st)
    case Broadcast(_, _, _) => PipelineSteps.Enabled(p.pipe, PipelineSteps.Send(true)) && p.inFlight.None?
    case Deliver(_) => p.inFlight.Some?
    case AcceptClient(s) => s in p.ui.sockets && s !in p.threads
    case Shake(s) => ThreadOf(p, s) == Handshaking && Alive(p, s)
    case Greet(s, _) => ThreadOf(p, s) == Welcoming && Alive(p, s)
    case Take(j, ix) =>
      && j < |p.ui.requests| && j !in p.taken
      && (var s := p.ui.requests[j].0;
          && ThreadOf(p, s) == Looping && Alive(p, s)
          && (forall i :: 0 <= i < j && p.ui.requests[i].0 == s ==> i in p.taken))
      && History.NewestFirst(Times(Stored(p)), LimitOf(p.ui.requests[j].1), ix)
    case Answer(s) => ThreadOf(p, s).Replying? && Alive(p, s)
    case EndThread(s) => ThreadOf(p, s) != Ended
    case PageOpens(s) =>
      AppRuns.Enabled(p.ui, AppRuns.SocketOpens(s)) && s !in p.consumed && Box(p, s) != [] && Box(p, s)[0] == Hello
    case PageReceives(s) =>
      App.ReadyOf(p.ui, s) == App.Open && s in p.consumed && p.consumed[s] < |Box(p, s)|
    case PageActs(e) => AppRuns.Enabled(p.ui, e) && !e.SocketOpens? && !e.MessageArrives?
  }

  function Elements(xs: seq<Sample>): set<Sample> { set x | x in xs }

  function Do(c: Server.Config, p: Sys, step: Step): Sys
    requires Can(p, step)
  {
    match step
    case Store(st) => p.(pipe := PipelineSteps.Do(p.pipe, st))
    case Broadcast(now, r1, r2) =>
      var x := p.pipe.batch[p.pipe.phase.next];
      var forwarded := Server.Decide(p.srv, c, now, r1, r2).Forwarded?;
      p.(pipe := PipelineSteps.Do(p.pipe, PipelineSteps.Send(true)),
         srv := Server.Enter(p.srv, c, now, r1, r2),
         inFlight := if forwarded then Some(x) else None,
         notSent := if forwarded then p.notSent else p.notSent + {|Sent(p)|})
    case Deliver(failing) => p.(srv := Server.Deliver(p.srv, Row(p.inFlight.value), failing), inFlight := None)
    case AcceptClient(s) =>
      p.(srv := Server.Accept(p.srv, s), threads := p.threads[s := Handshaking],
         registeredAt := p.registeredAt[s := |Sent(p)|])
    case Shake(s) => p.(srv := Server.Send(p.srv, s, Hello), threads := p.threads[s := Welcoming])
    case Greet(s, now) =>
      p.(srv := Server.Send(Server.Anchor(p.srv, now), s, Greeting), threads := p.threads[s := Looping])
    case Take(j, ix) =>
      var (s, last) := p.ui.requests[j];
      p.(threads := p.threads[s := Replying(AnswerRows(Stored(p), ix))], taken := p.taken + {j},
         queries := p.queries + [Query(s, |Stored(p)|, LimitOf(last))])
    case Answer(s) =>
      p.(srv := Server.Send(p.srv, s, Reply(p.threads[s].items)), threads := p.threads[s := Looping])
    case EndThread(s) => p.(srv := Server.Remove(p.srv, s), threads := p.threads[s := Ended])
    case PageOpens(s) => p.(ui := AppRuns.Do(p.ui, AppRuns.SocketOpens(s)), consumed := p.consumed[s := 1])
    case PageReceives(s) =>
      var f := Box(p, s)[p.consumed[s]];
      p.(ui := AppRuns.Do(p.ui, AppRuns.MessageArrives(s, Decode(f))), consumed := p.consumed[s := p.consumed[s] + 1],
         discarded := if f.Row? && p.ui.paused then p.discarded + {f.x} else p.discarded)
    case PageActs(e) =>
      var ui := AppRuns.Do(p.ui, e);
      p.(ui := ui, discarded := p.discarded + (Elements(p.ui.pushed) - Elements(ui.pushed)))
  }

  ghost predicate IsRun(c: Server.Config, lastN: App.Number, run: seq<Sys>, steps: seq<Step>) {
    && |run| == |steps| + 1 && run[0] == Start(lastN)
    && forall i :: 0 <= i < |steps| ==> Can(run[i], steps[i]) && run[i + 1] == Do(c, run[i], steps[i])
  }

  // ---------- What the page has been given ----------

  /** Everything the page was given: still in its log, or thrown away by its user. */
  ghost function Held(p: Sys): set<Sample> { Elements(p.ui.pushed) + p.discarded }

  function Rows(f: Frame): set<Sample> {
    match f
    case Row(x) => {x}
    case Reply(items) => Elements(items)
    case _ => {}
  }

  function Consumed(p: Sys, s: nat): nat { if s in p.consumed then p.consumed[s] else 0 }

  /** The samples between the server and the page: in an unread frame, in a reply not yet sent, or in
      the broadcast that is about to send. */
  ghost predicate InTransit(p: Sys, s: nat, x: Sample) {
    || (exists k :: Consumed(p, s) <= k < |Box(p, s)| && x in Rows(Box(p, s)[k]))
    || (ThreadOf(p, s).Replying? && x in ThreadOf(p, s).items)
    || p.inFlight == Some(x)
  }

  /** The rows a query asks for: the newest `n` of those stored. */
  ghost function Low(q: Query): nat { if q.n < q.stored then q.stored - q.n else 0 }

  ghost function Window(p: Sys, q: Query): seq<Sample>
    requires q.stored <= |Stored(p)|
  {
    Stored(p)[Low(q)..q.stored]
  }
}
