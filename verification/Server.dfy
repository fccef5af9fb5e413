/** The client list, the broadcast and the timed cut of ws_server.c. Every method runs under the
    server mutex; clocks and random numbers are parameters. A client is an id, a frame sent to it one
    element of its outbox. */
module Server {
  import opened Basics

  /** The impairment settings, as ws_server_start clamps them. */
  datatype Config = Config(delayMs: nat, jitterMs: nat, dropPct: nat, cutStartS: nat, cutDurationS: nat,
                           modeClose: bool)

  const NS_PER_S := 1_000_000_000

  function CutStart(c: Config): nat { c.cutStartS * NS_PER_S }
  function CutEnd(c: Config): nat { CutStart(c) + c.cutDurationS * NS_PER_S }

  /** What a broadcast call decides on entry. */
  datatype Verdict = Suppressed | Dropped | Forwarded(delayMs: nat)

  datatype State<M> = State(
    clients: seq<nat>,            // the linked list, newest first
    alive: set<nat>,
    outbox: map<nat, seq<M>>,     // everything ever sent to each client
    anchor: Option<int>,
    cutCloseFired: bool,
    cutMsgs: nat, droppedMsgs: nat, delayedMsgs: nat,
    // history
    closings: nat, calls: nat, forwarded: nat)

  function Start<M>(): State<M> {
    State([], {}, map[], None, false, 0, 0, 0, 0, 0, 0)
  }

  predicate InWindow(c: Config, anchor: Option<int>, now: int) {
    c.cutDurationS > 0 && anchor.Some?
    && var elapsed := if now - anchor.value < 0 then 0 else now - anchor.value;
       CutStart(c) <= elapsed < CutEnd(c)
  }

  predicate CutActive<M>(s: State<M>, c: Config, now: int) { InWindow(c, s.anchor, now) }

  function DelayFor(c: Config, random: nat): nat {
    var delay := if c.jitterMs > 0 then c.delayMs + random % (2 * c.jitterMs + 1) - c.jitterMs else c.delayMs;
    if delay < 0 then 0 else delay
  }

  function Decide<M>(s: State<M>, c: Config, now: int, r1: nat, r2: nat): Verdict {
    if CutActive(s, c, now) then Suppressed
    else if c.dropPct > 0 && r1 % 100 < c.dropPct then Dropped
    else Forwarded(DelayFor(c, r2))
  }

  /** The broadcast call up to the point where it sends or, for a delayed message, sleeps unlocked. */
  function Enter<M>(s: State<M>, c: Config, now: int, r1: nat, r2: nat): State<M> {
    var t := s.(calls := s.calls + 1);
    match Decide(s, c, now, r1, r2)
    case Suppressed =>
      var t := t.(cutMsgs := s.cutMsgs + 1);
      if c.modeClose && !s.cutCloseFired
      then t.(alive := s.alive - (set x | x in s.clients), cutCloseFired := true, closings := s.closings + 1)
      else t
    case Dropped => t.(cutCloseFired := false, droppedMsgs := s.droppedMsgs + 1)
    case Forwarded(ms) =>
      t.(cutCloseFired := false, forwarded := s.forwarded + 1,
         delayedMsgs := if ms > 0 then s.delayedMsgs + 1 else s.delayedMsgs)
  }

  function Outbox<M>(s: State<M>, x: nat): seq<M> {
    if x in s.outbox then s.outbox[x] else []
  }

  predicate Reached<M>(s: State<M>, x: nat, failing: set<nat>) { x in s.alive && x !in failing }

  function Keep<M>(s: State<M>, xs: seq<nat>, failing: set<nat>): seq<nat> {
    if xs == [] then []
    else Keep(s, xs[..|xs| - 1], failing) + if Reached(s, xs[|xs| - 1], failing) then [xs[|xs| - 1]] else []
  }

  /** The sending loop over some clients of the list: each one alive gets the message, and one whose
      send fails dies. */
  function AliveAfter<M>(s: State<M>, xs: seq<nat>, failing: set<nat>): set<nat> {
    s.alive - (set x | x in xs && x in failing)
  }

  function OutboxAfter<M>(s: State<M>, xs: seq<nat>, msg: M, failing: set<nat>): map<nat, seq<M>> {
    map x | x in s.outbox.Keys + (set y | y in xs && Reached(s, y, failing)) ::
      if x in xs && Reached(s, x, failing) then Outbox(s, x) + [msg] else Outbox(s, x)
  }

  /** The sending loop as a whole; clients not reached are unlinked. */
  function Deliver<M>(s: State<M>, msg: M, failing: set<nat>): State<M> {
    s.(clients := Keep(s, s.clients, failing),
       alive := AliveAfter(s, s.clients, failing),
       outbox := OutboxAfter(s, s.clients, msg, failing))
  }

  function Accept<M>(s: State<M>, x: nat): State<M> {
    s.(clients := [x] + s.clients, alive := s.alive + {x})
  }

  function Anchor<M>(s: State<M>, now: int): State<M> {
    if s.anchor.None? then s.(anchor := Some(now)) else s
  }

  /** A client's thread ends: it is no longer alive, and unlinked. */
  function Remove<M>(s: State<M>, x: nat): State<M> {
    s.(alive := s.alive - {x}, clients := Without(s.clients, x))
  }

  function Without(xs: seq<nat>, x: nat): seq<nat> {
    if xs == [] then [] else if xs[0] == x then xs[1..] else [xs[0]] + Without(xs[1..], x)
  }

  /** A reply sent on a client's own thread. */
  function Send<M>(s: State<M>, x: nat, msg: M): State<M> {
    s.(outbox := s.outbox[x := Outbox(s, x) + [msg]])
  }

  ghost predicate Distinct(xs: seq<nat>) {
    forall i, j :: 0 <= i < j < |xs| ==> xs[i] != xs[j]
  }

  lemma {:induction false} KeepFacts<M>(srv: State<M>, xs: seq<nat>, failing: set<nat>)
    requires Distinct(xs)
    ensures var ys := Keep(srv, xs, failing);
            && (forall x :: x in ys <==> x in xs && Reached(srv, x, failing))
            && Distinct(ys)
  {
    if xs != [] {
      var init := xs[..|xs| - 1];
      KeepFacts(srv, init, failing);
      assert xs == init + [xs[|xs| - 1]];
      var ys := Keep(srv, init, failing);
      forall i, j | 0 <= i < j < |Keep(srv, xs, failing)|
        ensures Keep(srv, xs, failing)[i] != Keep(srv, xs, failing)[j]
      {
        assert ys != [] ==> ys[if i < |ys| then i else 0] in init;
      }
    }
  }

  /** Unlinking keeps the order of those that stay. */
  lemma {:induction false} KeepJoin<M>(srv: State<M>, xs: seq<nat>, ys: seq<nat>, failing: set<nat>)
    ensures Keep(srv, xs + ys, failing) == Keep(srv, xs, failing) + Keep(srv, ys, failing)
  {
    if ys == [] {
      assert xs + ys == xs;
    } else {
      var n := |ys| - 1;
      assert (xs + ys)[..|xs + ys| - 1] == xs + ys[..n];
      KeepJoin(srv, xs, ys[..n], failing);
    }
  }

  lemma {:induction false} WithoutFacts(xs: seq<nat>, x: nat)
    requires Distinct(xs)
    ensures var ys := Without(xs, x);
            && (forall y :: y in ys <==> y in xs && y != x) && Distinct(ys)
  {
    if xs != [] {
      var tail := xs[1..];
      assert xs == [xs[0]] + tail;
      assert Distinct(tail) by {
        forall i, j | 0 <= i < j < |tail|
          ensures tail[i] != tail[j]
        {
          assert xs[i + 1] != xs[j + 1];
        }
      }
      assert xs[0] !in tail by {
        forall i | 0 <= i < |tail|
          ensures xs[0] != tail[i]
        {
          assert xs[0] != xs[i + 1];
        }
      }
      WithoutFacts(tail, x);
      if xs[0] != x {
        DistinctCons(xs[0], Without(tail, x));
      }
    }
  }

  lemma DistinctCons(x: nat, ys: seq<nat>)
    requires Distinct(ys) && x !in ys
    ensures Distinct([x] + ys)
  {
  }

  /** The configured window, in nanoseconds since the anchor; a clock that went back counts as at the anchor. */
  ghost predicate Due(c: Config, anchor: Option<int>, now: int) {
    && anchor.Some? && c.cutDurationS > 0
    && c.cutStartS * 1_000_000_000 <= Max(now - anchor.value, 0) < (c.cutStartS + c.cutDurationS) * 1_000_000_000
  }

  lemma DueIffActive<M>(s: State<M>, c: Config, now: int)
    ensures CutActive(s, c, now) <==> Due(c, s.anchor, now)
  {
  }

  // ---------- The code ----------

  class WsServer<M(==)> {
    const config: Config
    var clients: seq<nat>
    var alive: set<nat>
    var outbox: map<nat, seq<M>>
    var anchor: Option<int>
    var cutCloseFired: bool
    var cutMsgs: nat
    var droppedMsgs: nat
    var delayedMsgs: nat
    ghost var closings: nat
    ghost var calls: nat
    ghost var forwarded: nat

    constructor (config: Config)
      ensures View() == Start() && this.config == config && Valid()
    {
      this.config := config;
      clients, alive, outbox, anchor, cutCloseFired := [], {}, map[], None, false;
      cutMsgs, droppedMsgs, delayedMsgs, closings, calls, forwarded := 0, 0, 0, 0, 0, 0;
    }

    ghost function View(): State<M>
      reads this
    {
      State(clients, alive, outbox, anchor, cutCloseFired, cutMsgs, droppedMsgs, delayedMsgs,
            closings, calls, forwarded)
    }

    /** Each call is counted once; the list names each client once, and every client alive. */
    ghost predicate Valid()
      reads this
    {
      Counted(View()) && Distinct(clients) && forall x :: x in alive ==> x in clients
    }

    method ImpairmentCutActive(now: int) returns (active: bool)
      ensures active == CutActive(View(), config, now)
    {
      if config.cutDurationS <= 0 {
        return false;
      }
      if anchor.None? {
        return false;
      }
      var elapsed := now - anchor.value;
      if elapsed < 0 {
        elapsed := 0;
      }
      var start := config.cutStartS * NS_PER_S;
      var end := start + config.cutDurationS * NS_PER_S;
      active := elapsed >= start && elapsed < end;
    }

    /** Afterwards no client is alive. */
    method CloseAllClients()
      requires forall x :: x in alive ==> x in clients
      modifies this`alive
      ensures alive == old(alive) - (set x | x in clients) && alive == {}
    {
      ghost var all := alive;
      for i := 0 to |clients|
        invariant alive == all - (set x | x in clients[..i])
      {
        alive := alive - {clients[i]};
      }
      assert clients[..|clients|] == clients;
    }

    /** ws_server_broadcast until it sends or sleeps. Nothing is sent yet; the call is counted under its
        verdict; only a suppressed call closes connections, and then all of them. */
    method BroadcastEnter(now: int, r1: nat, r2: nat) returns (verdict: Verdict)
      requires Valid()
      modifies this
      ensures Valid() && verdict == Decide(old(View()), config, now, r1, r2)
      ensures View() == Enter(old(View()), config, now, r1, r2)
      ensures outbox == old(outbox) && clients == old(clients) && calls == old(calls) + 1
      ensures cutMsgs == old(cutMsgs) + if verdict.Suppressed? then 1 else 0
      ensures droppedMsgs == old(droppedMsgs) + if verdict.Dropped? then 1 else 0
      ensures forwarded == old(forwarded) + if verdict.Forwarded? then 1 else 0
      ensures verdict.Suppressed? <==> Due(config, anchor, now)
      ensures verdict.Dropped? <==> !Due(config, anchor, now) && r1 % 100 < config.dropPct
      ensures verdict.Forwarded? ==>
        config.delayMs - config.jitterMs <= verdict.delayMs <= config.delayMs + config.jitterMs
      ensures !verdict.Suppressed? ==> alive == old(alive)
      ensures alive != old(alive) ==>
        verdict.Suppressed? && config.modeClose && alive == {} && closings == old(closings) + 1
      ensures verdict.Suppressed? && config.modeClose && !old(cutCloseFired) ==> alive == {}
    {
      hide InWindow, DelayFor, CutActive, Distinct, Due;
      DueIffActive(View(), config, now);
      DelayWithin(config, r2);
      var cut := ImpairmentCutActive(now);
      calls := calls + 1;
      if cut {
        cutMsgs := cutMsgs + 1;
        if config.modeClose && !cutCloseFired {
          CloseAllClients();
          cutCloseFired := true;
          closings := closings + 1;
        }
        return Suppressed;
      }
      if cutCloseFired {
        cutCloseFired := false;
      }
      if config.dropPct > 0 && r1 % 100 < config.dropPct {
        droppedMsgs := droppedMsgs + 1;
        return Dropped;
      }
      var delay := DelayFor(config, r2);
      forwarded := forwarded + 1;
      if delay > 0 {
        delayedMsgs := delayedMsgs + 1;
      }
      verdict := Forwarded(delay);
    }

    /** The rest of ws_server_broadcast: the loop over the client list. */
    method BroadcastDeliver(msg: M, failing: set<nat>)
      requires Valid()
      modifies this
      ensures Valid() && View() == Deliver(old(View()), msg, failing)
      ensures forall x :: x in alive <==> x in old(alive) && x !in failing
      ensures forall x :: Outbox(View(), x) == Outbox(old(View()), x) + if x in alive then [msg] else []
      ensures forall x :: x in clients <==> x in alive
    {
      hide OutboxAfter, AliveAfter, Keep;
      ghost var s := View();
      DeliverFacts(s, msg, failing);
      var list := clients;
      var kept := [];
      DeliverNothing(s, msg, failing);
      for i := 0 to |list|
        invariant kept == Keep(s, list[..i], failing)
        invariant alive == AliveAfter(s, list[..i], failing) && outbox == OutboxAfter(s, list[..i], msg, failing)
        modifies this`alive, this`outbox
      {
        var c := list[i];
        DeliverStep(s, list, i, msg, failing);
        if c in alive {
          if c in failing {
            alive := alive - {c};
          } else {
            outbox := outbox[c := (if c in outbox then outbox[c] else []) + [msg]];
            kept := kept + [c];
          }
        }
      }
      assert list[..|list|] == list;
      clients := kept;
    }

    /** A client is listed before anything is sent to it. */
    method AcceptClient(x: nat)
      requires Valid() && x !in clients
      modifies this
      ensures Valid() && View() == Accept(old(View()), x)
      ensures clients == [x] + old(clients) && alive == old(alive) + {x}
    {
      DistinctCons(x, clients);
      clients := [x] + clients;
      alive := alive + {x};
    }

    /** The experiment clock starts with the first client whose handshake succeeds. */
    method AnchorExperiment(now: int)
      requires Valid()
      modifies this`anchor
      ensures Valid() && View() == Anchor(old(View()), now)
      ensures anchor == if old(anchor).Some? then old(anchor) else Some(now)
    {
      if anchor.None? {
        anchor := Some(now);
      }
    }

    method ClientRemove(x: nat)
      requires Valid()
      modifies this
      ensures Valid() && View() == Remove(old(View()), x)
      ensures x !in alive && forall y :: y in clients <==> y in old(clients) && y != x
    {
      WithoutFacts(clients, x);
      alive := alive - {x};
      var i := 0;
      while i < |clients| && clients[i] != x
        invariant i <= |clients| && forall j :: 0 <= j < i ==> clients[j] != x
        modifies {}
      {
        i := i + 1;
      }
      WithoutIs(clients, x, i);
      if i < |clients| {
        clients := clients[..i] + clients[i + 1..];
      }
    }
  }

  lemma {:induction false} WithoutIs(xs: seq<nat>, x: nat, i: nat)
    requires i <= |xs| && (forall j :: 0 <= j < i ==> xs[j] != x) && (i < |xs| ==> xs[i] == x)
    ensures Without(xs, x) == if i < |xs| then xs[..i] + xs[i + 1..] else xs
  {
    if i > 0 {
      var tail := xs[1..];
      forall j | 0 <= j < i - 1
        ensures tail[j] != x
      {
        assert tail[j] == xs[j + 1];
      }
      WithoutIs(tail, x, i - 1);
      assert Without(xs, x) == [xs[0]] + Without(tail, x);
      if i < |xs| {
        assert xs[..i] == [xs[0]] + tail[..i - 1] && xs[i + 1..] == tail[i..];
      } else {
        assert xs == [xs[0]] + tail;
      }
    }
  }

  lemma DeliverFacts<M>(s: State<M>, msg: M, failing: set<nat>)
    requires Distinct(s.clients) && forall x :: x in s.alive ==> x in s.clients
    ensures var t := Deliver(s, msg, failing);
            && (forall x :: x in t.alive <==> x in s.alive && x !in failing)
            && (forall x :: Outbox(t, x) == Outbox(s, x) + if x in t.alive then [msg] else [])
            && (forall x :: x in t.clients <==> x in t.alive) && Distinct(t.clients)
            && (Counted(s) ==> Counted(t))
  {
    KeepFacts(s, s.clients, failing);
    assert forall x :: Outbox(s, x) + [] == Outbox(s, x);
  }

  lemma DeliverNothing<M>(s: State<M>, msg: M, failing: set<nat>)
    ensures Keep(s, [], failing) == [] && AliveAfter(s, [], failing) == s.alive
    ensures OutboxAfter(s, [], msg, failing) == s.outbox
  {
  }

  lemma DeliverStep<M>(s: State<M>, xs: seq<nat>, i: nat, msg: M, failing: set<nat>)
    requires Distinct(xs) && i < |xs|
    ensures var done, c := xs[..i], xs[i];
            var alive, outbox := AliveAfter(s, done, failing), OutboxAfter(s, done, msg, failing);
            && (c in alive <==> c in s.alive)
            && Keep(s, xs[..i + 1], failing) == Keep(s, done, failing) + (if Reached(s, c, failing) then [c] else [])
            && AliveAfter(s, xs[..i + 1], failing) == (if c in failing then alive - {c} else alive)
            && OutboxAfter(s, xs[..i + 1], msg, failing)
               == (if Reached(s, c, failing) then outbox[c := (if c in outbox then outbox[c] else []) + [msg]]
                   else outbox)
  {
    var c := xs[i];
    assert xs[..i + 1][..i] == xs[..i];
    assert forall x :: x in xs[..i + 1] <==> x in xs[..i] || x == c;
    assert c !in xs[..i];
    OutboxStep(s, xs[..i], xs[..i + 1], c, msg, failing);
  }

  lemma OutboxStep<M>(s: State<M>, xs: seq<nat>, ys: seq<nat>, c: nat, msg: M, failing: set<nat>)
    requires c !in xs && forall x :: x in ys <==> x in xs || x == c
    ensures var outbox := OutboxAfter(s, xs, msg, failing);
            OutboxAfter(s, ys, msg, failing)
            == if Reached(s, c, failing) then outbox[c := (if c in outbox then outbox[c] else []) + [msg]] else outbox
  {
  }

  // ---------- The cut over whole runs ----------

  datatype Event<M> =
    | Accepted(x: nat)
    | Anchored(now: int)
    | Entered(now: int, r1: nat, r2: nat)
    | Delivered(msg: M, failing: set<nat>)
    | Replied(x: nat, reply: M)
    | Removed(x: nat)

  function Do<M>(s: State<M>, c: Config, e: Event<M>): State<M> {
    match e
    case Accepted(x) => Accept(s, x)
    case Anchored(now) => Anchor(s, now)
    case Entered(now, r1, r2) => Enter(s, c, now, r1, r2)
    case Delivered(msg, failing) => Deliver(s, msg, failing)
    case Replied(x, reply) => Send(s, x, reply)
    case Removed(x) => Remove(s, x)
  }

  function TimeOf<M>(e: Event<M>): Option<int> {
    match e
    case Anchored(now) => Some(now)
    case Entered(now, _, _) => Some(now)
    case _ => None
  }

  /** A run with a monotonic clock. */
  ghost predicate IsRun<M>(c: Config, run: seq<State<M>>, events: seq<Event<M>>) {
    && |run| == |events| + 1 && run[0] == Start()
    && (forall i :: 0 <= i < |events| ==> run[i + 1] == Do(run[i], c, events[i]))
    && (forall i, j :: 0 <= i < j < |events| && TimeOf(events[i]).Some? && TimeOf(events[j]).Some? ==>
          TimeOf(events[i]).value <= TimeOf(events[j]).value)
  }

  /** Every valid broadcast call is counted once. */
  ghost predicate Counted<M>(s: State<M>) {
    s.calls == s.cutMsgs + s.droppedMsgs + s.forwarded && s.delayedMsgs <= s.forwarded
  }

  lemma CountedStep<M>(s: State<M>, c: Config, e: Event<M>)
    requires Counted(s)
    ensures Counted(Do(s, c, e))
  {
  }

  lemma {:induction false} CallsAreCounted<M>(c: Config, run: seq<State<M>>, events: seq<Event<M>>, k: nat)
    requires IsRun(c, run, events) && k < |run|
    ensures Counted(run[k])
  {
    if k > 0 {
      CallsAreCounted(c, run, events, k - 1);
      CountedStep(run[k - 1], c, events[k - 1]);
    }
  }

  /** Closing happened at most once, and only after it is the window open or over. */
  ghost predicate ClosedOnce<M>(s: State<M>, c: Config, latest: Option<int>) {
    && (s.anchor.Some? ==> latest.Some? && s.anchor.value <= latest.value)
    && s.closings <= 1
    && (s.cutCloseFired ==> s.closings == 1)
    && (s.closings == 1 && !s.cutCloseFired ==>
          s.anchor.Some? && latest.value - s.anchor.value >= CutEnd(c))
    && (s.closings == 1 ==> s.anchor.Some? && latest.value - s.anchor.value >= CutStart(c))
  }

  function Latest<M>(events: seq<Event<M>>): Option<int> {
    if events == [] then None
    else if TimeOf(events[|events| - 1]).Some? then TimeOf(events[|events| - 1])
    else Latest(events[..|events| - 1])
  }

  lemma {:induction false} LatestIsTime<M>(events: seq<Event<M>>)
    ensures Latest(events).Some? ==> exists i :: 0 <= i < |events| && TimeOf(events[i]) == Latest(events)
  {
    if events != [] && TimeOf(events[|events| - 1]).None? {
      var n := |events| - 1;
      LatestIsTime(events[..n]);
      if Latest(events[..n]).Some? {
        var i :| 0 <= i < n && TimeOf(events[..n][i]) == Latest(events[..n]);
        assert TimeOf(events[i]) == Latest(events);
      }
    }
  }

  lemma ClosedOnceStep<M>(s: State<M>, c: Config, e: Event<M>, latest: Option<int>)
    requires ClosedOnce(s, c, latest)
    requires TimeOf(e).Some? && latest.Some? ==> latest.value <= TimeOf(e).value
    ensures ClosedOnce(Do(s, c, e), c, if TimeOf(e).Some? then TimeOf(e) else latest)
  {
  }

  lemma {:induction false} ClosedOnceHolds<M>(c: Config, run: seq<State<M>>, events: seq<Event<M>>, k: nat)
    requires IsRun(c, run, events) && k < |run|
    ensures ClosedOnce(run[k], c, Latest(events[..k]))
  {
    if k > 0 {
      ClosedOnceHolds(c, run, events, k - 1);
      var latest, e := Latest(events[..k - 1]), events[k - 1];
      LatestIsTime(events[..k - 1]);
      if TimeOf(e).Some? && latest.Some? {
        var i :| 0 <= i < k - 1 && TimeOf(events[..k - 1][i]) == latest;
        assert TimeOf(events[i]) == latest;
      }
      assert events[..k][..k - 1] == events[..k - 1];
      ClosedOnceStep(run[k - 1], c, e, latest);
    }
  }

  /** With a monotonic clock the close-all action fires at most once per run. */
  lemma CloseAllAtMostOnce<M>(c: Config, run: seq<State<M>>, events: seq<Event<M>>, k: nat)
    requires IsRun(c, run, events) && k < |run|
    ensures run[k].closings <= 1
  {
    ClosedOnceHolds(c, run, events, k);
  }

  lemma {:induction false} AnchorStays<M>(c: Config, run: seq<State<M>>, events: seq<Event<M>>, i: nat, j: nat)
    requires IsRun(c, run, events) && i <= j < |run| && run[i].anchor.Some?
    ensures run[j].anchor == run[i].anchor
  {
    if i < j {
      AnchorStays(c, run, events, i, j - 1);
    }
  }

  lemma AnchoredBefore<M>(c: Config, run: seq<State<M>>, events: seq<Event<M>>, i: nat)
    requires IsRun(c, run, events) && i < |events| && TimeOf(events[i]).Some? && run[i].anchor.Some?
    ensures run[i].anchor.value <= TimeOf(events[i]).value
  {
    ClosedOnceHolds(c, run, events, i);
    LatestIsTime(events[..i]);
    var k :| 0 <= k < i && TimeOf(events[..i][k]) == Latest(events[..i]);
    assert TimeOf(events[k]).value <= TimeOf(events[i]).value;
  }

  /** The first client's handshake in the first `k` events, at `t`. */
  ghost predicate FirstAnchored<M>(events: seq<Event<M>>, k: nat, t: int)
    requires k <= |events|
  {
    exists a :: 0 <= a < k && events[a] == Anchored(t) && forall b :: 0 <= b < a ==> !events[b].Anchored?
  }

  /** The anchor is the time of the first client's handshake. */
  lemma {:induction false} AnchorIsFirst<M>(c: Config, run: seq<State<M>>, events: seq<Event<M>>, k: nat)
    requires IsRun(c, run, events) && k < |run|
    ensures run[k].anchor.None? <==> forall a :: 0 <= a < k ==> !events[a].Anchored?
    ensures forall t :: run[k].anchor == Some(t) <==> FirstAnchored(events, k, t)
  {
    hide Enter, Deliver, Remove;
    if k > 0 {
      AnchorIsFirst(c, run, events, k - 1);
      AnchorStep(run[k - 1], c, events[k - 1]);
      forall t
        ensures run[k].anchor == Some(t) <==> FirstAnchored(events, k, t)
      {
        FirstAnchoredStep(events, k - 1, t);
      }
    }
  }

  lemma AnchorStep<M>(s: State<M>, c: Config, e: Event<M>)
    ensures Do(s, c, e).anchor == if s.anchor.None? && e.Anchored? then Some(e.now) else s.anchor
  {
  }

  lemma FirstAnchoredStep<M>(events: seq<Event<M>>, k: nat, t: int)
    requires k < |events|
    ensures FirstAnchored(events, k + 1, t)
       <==> FirstAnchored(events, k, t)
            || (events[k] == Anchored(t) && forall b :: 0 <= b < k ==> !events[b].Anchored?)
  {
  }

  /** In every run a broadcast call is suppressed if and only if a cut is configured and the call comes, after the
      first client's handshake, not before the configured start and before start and duration are over. */
  lemma SuppressedIff<M>(c: Config, run: seq<State<M>>, events: seq<Event<M>>, i: nat)
    requires IsRun(c, run, events) && i < |events| && events[i].Entered?
    ensures var e := events[i];
            Decide(run[i], c, e.now, e.r1, e.r2).Suppressed?
            <==> c.cutDurationS > 0
                 && exists t :: FirstAnchored(events, i, t)
                      && c.cutStartS * 1_000_000_000 <= e.now - t < (c.cutStartS + c.cutDurationS) * 1_000_000_000
  {
    hide FirstAnchored;
    var e := events[i];
    AnchorIsFirst(c, run, events, i);
    DueIffActive(run[i], c, e.now);
    assert TimeOf(e) == Some(e.now);
    if run[i].anchor.Some? {
      assert FirstAnchored(events, i, run[i].anchor.value);
      AnchoredBefore(c, run, events, i);
    }
  }

  /** The cut is one stretch of the run, no longer than configured: between two calls that are suppressed
      every call is, and the two are less than the duration apart. */
  lemma CutIsOneStretch<M>(c: Config, run: seq<State<M>>, events: seq<Event<M>>, i: nat, j: nat, k: nat)
    requires IsRun(c, run, events) && i < j < k < |events|
    requires events[i].Entered? && events[j].Entered? && events[k].Entered?
    requires CutActive(run[i], c, events[i].now) && CutActive(run[k], c, events[k].now)
    ensures CutActive(run[j], c, events[j].now)
    ensures events[k].now - events[i].now < c.cutDurationS * NS_PER_S
  {
    AnchorStays(c, run, events, i, j);
    AnchorStays(c, run, events, i, k);
    AnchoredBefore(c, run, events, i);
    assert TimeOf(events[i]) == Some(events[i].now) && TimeOf(events[j]) == Some(events[j].now);
    assert TimeOf(events[k]) == Some(events[k].now);
  }

  /** The delays a forwarded message can get: the configured one, give or take the jitter, and none negative. */
  lemma DelayRange(c: Config, d: nat)
    ensures (exists r: nat :: DelayFor(c, r) == d) <==> c.delayMs - c.jitterMs <= d <= c.delayMs + c.jitterMs
  {
    hide DelayFor;
    if c.delayMs - c.jitterMs <= d <= c.delayMs + c.jitterMs {
      DelayReached(c, d);
    }
    if r: nat :| DelayFor(c, r) == d {
      DelayWithin(c, r);
    }
  }

  lemma DelayWithin(c: Config, r: nat)
    ensures c.delayMs - c.jitterMs <= DelayFor(c, r) <= c.delayMs + c.jitterMs
  {
    assert 0 <= r % (2 * c.jitterMs + 1) <= 2 * c.jitterMs;
  }

  lemma DelayReached(c: Config, d: nat)
    requires c.delayMs - c.jitterMs <= d <= c.delayMs + c.jitterMs
    ensures DelayFor(c, d - c.delayMs + c.jitterMs) == d
  {
    SmallRemainder(d - c.delayMs + c.jitterMs, 2 * c.jitterMs + 1);
  }

  lemma SmallRemainder(r: nat, m: nat)
    requires r < m
    ensures r % m == r
  {
  }

  // ---------- Small lists ----------

  /** A broadcast outside any cut that is neither dropped nor delayed. */
  function Forward<M>(s: State<M>, msg: M): State<M> {
    Deliver(s.(calls := s.calls + 1, forwarded := s.forwarded + 1, cutCloseFired := false), msg, {})
  }

  lemma ForwardToNobody<M>(s: State<M>, msg: M)
    requires s.clients == []
    ensures var t := Forward(s, msg);
            t.outbox == s.outbox && t.clients == [] && t.alive == s.alive && t.anchor == s.anchor
  {
    DeliverNothing(s.(calls := s.calls + 1, forwarded := s.forwarded + 1, cutCloseFired := false), msg, {});
  }

  lemma ForwardToOne<M>(s: State<M>, msg: M, x: nat)
    requires s.clients == [x] && s.alive == {x}
    ensures var t := Forward(s, msg);
            && t.clients == [x] && t.alive == {x} && t.anchor == s.anchor
            && t.outbox == s.outbox[x := Outbox(s, x) + [msg]]
  {
    var t := s.(calls := s.calls + 1, forwarded := s.forwarded + 1, cutCloseFired := false);
    assert [x][..0] == [];
    assert Keep(t, [], {}) == [];
    assert Keep(t, [x], {}) == [x];
  }

  lemma FirstSent<M>(s: State<M>, x: nat, msg: M)
    requires x !in s.outbox
    ensures Send(s, x, msg) == s.(outbox := s.outbox[x := [msg]])
  {
    assert [] + [msg] == [msg];
  }

  lemma NextSent<M>(s: State<M>, before: map<nat, seq<M>>, x: nat, sent: seq<M>, msg: M)
    requires s.outbox == before[x := sent]
    ensures Send(s, x, msg) == s.(outbox := before[x := sent + [msg]])
  {
    assert before[x := sent][x := sent + [msg]] == before[x := sent + [msg]];
  }
}
