/** Who may sleep and who must wake whom: the queue mutex and condition variable of
    telemetry_gateway.c as an interleaving of the writer, any number of callback threads and the
    thread that stops the gateway. Only the length of the queue matters here. */
module Wakeup {
  datatype Writer =
    | LoopTest           // while (g->running)
    | WantMutex
    | Testing            // has the mutex, at the condition of the wait loop
    | Blocked            // in pthread_cond_wait, not yet woken
    | Woken              // signalled or woken spuriously, needs the mutex back
    | Popping(n: nat)    // has the mutex, `n` samples taken so far
    | Working(n: nat)    // has released it with a batch of `n`
    | Done

  datatype Producer = Idle | WantPush | Holding | Linked | Signalled

  datatype Stopper = NotCalled | Cleared | HasMutex | Broadcasted | Released

  datatype Owner = Nobody | TheWriter | TheProducer(p: nat) | TheStopper

  datatype State = State(
    running: bool,
    queue: nat,
    owner: Owner,
    writer: Writer,
    producers: map<nat, Producer>,
    stopper: Stopper)

  datatype Step = WriterStep | SpuriousWakeup | ProducerStep(p: nat) | StopStep

  ghost predicate Init(s: State) {
    && s.running && s.queue == 0 && s.owner == Nobody && s.writer == LoopTest && s.stopper == NotCalled
    && forall p :: p in s.producers ==> s.producers[p] == Idle
  }

  function Wake(w: Writer): Writer { if w == Blocked then Woken else w }

  /** The writer's next step in state `s`, for batches of at most `max`; `s` itself where it must wait. */
  function WriterNext(s: State, max: nat): (r: State)
  {
    match s.writer
    case LoopTest => s.(writer := if s.running then WantMutex else Done)
    case WantMutex => if s.owner == Nobody then s.(owner := TheWriter, writer := Testing) else s
    case Woken => if s.owner == Nobody then s.(owner := TheWriter, writer := Testing) else s
    case Testing =>
      if s.running && s.queue == 0 then s.(owner := Nobody, writer := Blocked) else s.(writer := Popping(0))
    case Popping(n) =>
      if s.queue > 0 && n < max then s.(queue := s.queue - 1, writer := Popping(n + 1))
      else s.(owner := Nobody, writer := if n == 0 then LoopTest else Working(n))
    case Working(_) => s.(writer := LoopTest)
    case Blocked => s
    case Done => s
  }

  function ProducerNext(s: State, p: nat): State
    requires p in s.producers
  {
    match s.producers[p]
    case Idle => if s.running then s.(producers := s.producers[p := WantPush]) else s
    case WantPush =>
      if s.owner == Nobody then s.(owner := TheProducer(p), producers := s.producers[p := Holding]) else s
    case Holding => s.(queue := s.queue + 1, producers := s.producers[p := Linked])
    case Linked => s.(writer := Wake(s.writer), producers := s.producers[p := Signalled])
    case Signalled => s.(owner := Nobody, producers := s.producers[p := Idle])
  }

  function StopNext(s: State): State {
    match s.stopper
    case NotCalled => s.(running := false, stopper := Cleared)
    case Cleared => if s.owner == Nobody then s.(owner := TheStopper, stopper := HasMutex) else s
    case HasMutex => s.(writer := Wake(s.writer), stopper := Broadcasted)
    case Broadcasted => s.(owner := Nobody, stopper := Released)
    case Released => s
  }

  /** One step of one thread; a thread that cannot move takes no step. */
  ghost predicate Next(s: State, s': State, max: nat, step: Step) {
    && s' != s
    && match step
       case WriterStep => s' == WriterNext(s, max)
       case SpuriousWakeup => s.writer == Blocked && s' == s.(writer := Woken)
       case ProducerStep(p) => p in s.producers && s' == ProducerNext(s, p)
       case StopStep => s' == StopNext(s)
  }

  ghost predicate IsRun(run: seq<State>, steps: seq<Step>, max: nat) {
    && |run| == |steps| + 1 && Init(run[0])
    && forall i :: 0 <= i < |steps| ==> Next(run[i], run[i + 1], max, steps[i])
  }

  // ---------- The invariant ----------

  ghost predicate HoldsMutex(pc: Producer) { pc == Holding || pc == Linked || pc == Signalled }

  ghost predicate Inv(s: State) {
    && (s.owner == TheWriter <==> s.writer == Testing || s.writer.Popping?)
    && (forall p :: s.owner == TheProducer(p) ==> p in s.producers && HoldsMutex(s.producers[p]))
    && (forall p :: p in s.producers && HoldsMutex(s.producers[p]) ==> s.owner == TheProducer(p))
    && (s.owner == TheStopper <==> s.stopper == HasMutex || s.stopper == Broadcasted)
    && (s.running <==> s.stopper == NotCalled)
    && (s.writer == Blocked ==> s.queue == 0 || (s.owner.TheProducer? && s.producers[s.owner.p] == Linked))
    && (s.writer == Blocked ==> s.stopper != Broadcasted && s.stopper != Released)
  }

  lemma InvPreserved(s: State, s': State, max: nat, step: Step)
    requires Inv(s) && Next(s, s', max, step)
    ensures Inv(s')
  {
    match step
    case WriterStep =>
    case SpuriousWakeup =>
    case ProducerStep(p) =>
    case StopStep =>
  }

  lemma {:induction false} InvHolds(run: seq<State>, steps: seq<Step>, max: nat, k: nat)
    requires IsRun(run, steps, max) && k < |run|
    ensures Inv(run[k])
  {
    if k > 0 {
      InvHolds(run, steps, max, k - 1);
      InvPreserved(run[k - 1], run[k], max, steps[k - 1]);
    }
  }

  // ---------- No wake-up is lost ----------

  /** In every reachable state a writer asleep and not woken means that there is no work, or that the
      callback that just linked some still holds the mutex and signals next; and that stop has not
      broadcast yet. */
  lemma NoLostWakeup(run: seq<State>, steps: seq<Step>, max: nat, k: nat)
    requires IsRun(run, steps, max) && k < |run| && run[k].writer == Blocked
    ensures var s := run[k];
            && s.stopper != Broadcasted && s.stopper != Released
            && (s.owner == Nobody ==> s.queue == 0)
            && (s.queue > 0 ==> s.owner.TheProducer? && s.owner.p in s.producers
                                && ProducerNext(s, s.owner.p).writer == Woken)
            && (!s.running ==> s.stopper == Cleared || s.stopper == HasMutex)
  {
    InvHolds(run, steps, max, k);
  }

  /** No two threads are inside the mutex at once. */
  lemma MutualExclusion(run: seq<State>, steps: seq<Step>, max: nat, k: nat, p: nat, q: nat)
    requires IsRun(run, steps, max) && k < |run|
    requires p in run[k].producers && q in run[k].producers && p != q
    ensures var s := run[k];
            && !(HoldsMutex(s.producers[p]) && HoldsMutex(s.producers[q]))
            && !(HoldsMutex(s.producers[p]) && (s.writer == Testing || s.writer.Popping?))
            && !(HoldsMutex(s.producers[p]) && (s.stopper == HasMutex || s.stopper == Broadcasted))
            && !((s.writer == Testing || s.writer.Popping?) && (s.stopper == HasMutex || s.stopper == Broadcasted))
  {
    InvHolds(run, steps, max, k);
  }

  // ---------- The join in stop returns ----------

  /** How many steps the writer still has to take once `running` is false. */
  function WriterRank(w: Writer, max: nat): nat {
    match w
    case Done => 0
    case LoopTest => 1
    case Working(_) => 2
    case Popping(n) => if n < max then 3 + (max - n) else 3
    case Testing => 4 + max
    case WantMutex => 5 + max
    case Woken => 5 + max
    case Blocked => 6 + max
  }

  /** How many steps until whoever has the mutex releases it. */
  function OwnerRank(s: State, max: nat): nat {
    match s.owner
    case Nobody => 0
    case TheWriter => WriterRank(s.writer, max)
    case TheStopper => if s.stopper == HasMutex then 2 else 1
    case TheProducer(p) =>
      if p !in s.producers then 0
      else match s.producers[p]
           case Holding => 3
           case Linked => 2
           case _ => 1
  }

  /** After stop has broadcast, no step of any thread sets the writer back, and each of its own steps
      brings it nearer to its end. */
  lemma StopBringsWriterNearer(s: State, s': State, max: nat, step: Step)
    requires Inv(s) && !s.running && Next(s, s', max, step)
    ensures !s'.running && WriterRank(s'.writer, max) <= WriterRank(s.writer, max)
    ensures step == WriterStep ==> WriterRank(s'.writer, max) < WriterRank(s.writer, max)
  {
  }

  /** And it is never stuck: the writer can move, or the holder of the mutex can, towards its release. */
  lemma WriterNeverStuck(run: seq<State>, steps: seq<Step>, max: nat, k: nat)
    requires IsRun(run, steps, max) && k < |run|
    requires run[k].stopper == Released && run[k].writer != Done
    ensures var s := run[k];
            || Next(s, WriterNext(s, max), max, WriterStep)
            || (exists p: nat :: p in s.producers && Next(s, ProducerNext(s, p), max, ProducerStep(p))
                                 && OwnerRank(ProducerNext(s, p), max) < OwnerRank(s, max))
  {
    InvHolds(run, steps, max, k);
    var s := run[k];
    if s.owner.TheProducer? {
      var p := s.owner.p;
      assert Next(s, ProducerNext(s, p), max, ProducerStep(p));
    }
  }

  /** How many steps a callback still has to take once `running` is false. */
  function ProducerRank(pc: Producer): nat {
    match pc
    case WantPush => 4
    case Holding => 3
    case Linked => 2
    case Signalled => 1
    case Idle => 0
  }

  function ProducersRank(producers: map<nat, Producer>, n: nat): nat {
    if n == 0 then 0
    else ProducersRank(producers, n - 1) + if n - 1 in producers then ProducerRank(producers[n - 1]) else 0
  }

  function StopperRank(pc: Stopper): nat {
    match pc
    case NotCalled => 4
    case Cleared => 3
    case HasMutex => 2
    case Broadcasted => 1
    case Released => 0
  }

  /** For callbacks with numbers below `n`. */
  function TotalRank(s: State, max: nat, n: nat): nat {
    WriterRank(s.writer, max) + ProducersRank(s.producers, n) + StopperRank(s.stopper)
  }

  lemma {:induction false} ProducersRankUpdate(producers: map<nat, Producer>, n: nat, p: nat, pc: Producer)
    requires p in producers
    ensures ProducersRank(producers[p := pc], n)
         == ProducersRank(producers, n) + if p < n then ProducerRank(pc) - ProducerRank(producers[p]) else 0
  {
    if n > 0 {
      ProducersRankUpdate(producers, n - 1, p, pc);
    }
  }

  /** Once `running` is false every step of every thread, spurious wake-ups included, uses up rank. */
  lemma EveryStepLowers(s: State, s': State, max: nat, step: Step, n: nat)
    requires Inv(s) && !s.running && Next(s, s', max, step) && forall p :: p in s.producers ==> p < n
    ensures TotalRank(s', max, n) < TotalRank(s, max, n)
    ensures !s'.running && s'.producers.Keys == s.producers.Keys
  {
    hide Inv, ProducersRank;
    StopBringsWriterNearer(s, s', max, step);
    if step.ProducerStep? {
      ProducersRankUpdate(s.producers, n, step.p, s'.producers[step.p]);
      assert s'.producers == s.producers[step.p := s'.producers[step.p]];
    }
  }

  /** A run goes on for at most so many steps after stop was called. */
  lemma {:induction false} StopBoundsRun(run: seq<State>, steps: seq<Step>, max: nat, k: nat, m: nat, n: nat)
    requires IsRun(run, steps, max) && k <= m < |run| && !run[k].running
    requires forall p :: p in run[k].producers ==> p < n
    ensures !run[m].running && run[m].producers.Keys == run[k].producers.Keys
    ensures m - k + TotalRank(run[m], max, n) <= TotalRank(run[k], max, n)
  {
    hide Inv, TotalRank, Next;
    if k < m {
      StopBoundsRun(run, steps, max, k, m - 1, n);
      InvHolds(run, steps, max, m - 1);
      EveryStepLowers(run[m - 1], run[m], max, steps[m - 1], n);
    }
  }

  /** And it can only end with the writer done and the mutex free: the join in stop returns. */
  lemma StopEndsDone(run: seq<State>, steps: seq<Step>, max: nat, k: nat)
    requires IsRun(run, steps, max) && k < |run| && !run[k].running
    requires forall s', step :: !Next(run[k], s', max, step)
    ensures run[k].writer == Done && run[k].owner == Nobody && run[k].stopper == Released
  {
    InvHolds(run, steps, max, k);
    var s := run[k];
    assert !Next(s, StopNext(s), max, StopStep) && !Next(s, WriterNext(s, max), max, WriterStep);
    HolderMoves(s, max);
  }

  lemma HolderMoves(s: State, max: nat)
    requires Inv(s)
    ensures s.owner.TheProducer? ==> exists s', step :: Next(s, s', max, step)
  {
    if s.owner.TheProducer? {
      assert Next(s, ProducerNext(s, s.owner.p), max, ProducerStep(s.owner.p));
    }
  }
}
