/** Which accepted connections can ever be opened: a client is listed for broadcasts before its handshake is
    answered, and a broadcast in between comes first on the wire. */
module Openings {
  import PipelineSteps
  import Server
  import App
  import AppRuns
  import opened Platform
  import opened PlatformInv

  /** The step is a broadcast that sends to connection `s`. */
  ghost predicate WritesTo(p: Sys, step: Step, s: nat) {
    step.Deliver? && s in p.srv.clients && Server.Reached(p.srv, s, step.failing)
  }

  /** A thread past the handshake has sent something. */
  ghost predicate Answering(p: Sys, s: nat) {
    ThreadOf(p, s).Welcoming? || ThreadOf(p, s).Looping? || ThreadOf(p, s).Replying? ==> Box(p, s) != []
  }

  lemma AnsweringStep(c: Server.Config, p: Sys, step: Step, s: nat)
    requires Can(p, step) && Answering(p, s)
    ensures Answering(Do(c, p, step), s)
  {
    hide Server.Enter, Server.Deliver, AppRuns.Do, PipelineSteps.Do, Server.Decide;
    BoxGrows(c, p, step);
    assert Box(p, s) <= Box(Do(c, p, step), s);
  }

  /** The first frame on a connection is written by its handshake or by a broadcast. */
  lemma FirstFrame(c: Server.Config, p: Sys, step: Step, s: nat)
    requires Can(p, step) && Answering(p, s) && Box(p, s) == []
    ensures var box := Box(Do(c, p, step), s);
            && (box != [] <==> step == Shake(s) || WritesTo(p, step, s))
            && (box != [] ==> (box[0] == Hello <==> step == Shake(s)))
  {
    hide Server.Enter, Server.Deliver, AppRuns.Do, PipelineSteps.Do, Server.Decide;
    match step
    case Broadcast(now, r1, r2) => EnterKeepsBoxes(c, p.srv, now, r1, r2);
    case Deliver(failing) => DeliverBoxes(p.srv, Row(p.inFlight.value), failing);
    case _ =>
  }

  ghost predicate Shaken(steps: seq<Step>, k: nat, s: nat)
    requires k <= |steps|
  {
    exists m :: 0 <= m < k && steps[m] == Shake(s)
  }

  /** Some broadcast before step `k` wrote to the connection before its handshake was answered. */
  ghost predicate Forestalled(run: seq<Sys>, steps: seq<Step>, k: nat, s: nat)
    requires k <= |steps| < |run|
  {
    exists i: nat :: i < k && WritesTo(run[i], steps[i], s) && !Shaken(steps, i, s)
  }

  /** What is known of a connection after `k` steps. */
  ghost predicate Opening(run: seq<Sys>, steps: seq<Step>, k: nat, s: nat)
    requires k <= |steps| < |run|
  {
    && Answering(run[k], s)
    && (Box(run[k], s) == [] <==> !Shaken(steps, k, s) && !Forestalled(run, steps, k, s))
    && (Box(run[k], s) != [] ==> (Box(run[k], s)[0] == Hello <==> !Forestalled(run, steps, k, s)))
    && (Box(run[k], s) != [] && Box(run[k], s)[0] == Hello ==> Shaken(steps, k, s))
  }

  lemma ShakenStep(steps: seq<Step>, k: nat, s: nat)
    requires k < |steps|
    ensures Shaken(steps, k + 1, s) <==> Shaken(steps, k, s) || steps[k] == Shake(s)
  {
  }

  lemma ForestalledStep(run: seq<Sys>, steps: seq<Step>, k: nat, s: nat)
    requires k < |steps| < |run|
    ensures Forestalled(run, steps, k + 1, s)
       <==> Forestalled(run, steps, k, s) || (WritesTo(run[k], steps[k], s) && !Shaken(steps, k, s))
  {
    hide WritesTo, Shaken;
  }

  lemma OpeningStep(c: Server.Config, lastN: App.Number, run: seq<Sys>, steps: seq<Step>, k: nat, s: nat)
    requires IsRun(c, lastN, run, steps) && k < |steps| && Opening(run, steps, k, s)
    ensures Opening(run, steps, k + 1, s)
  {
    hide Can, Do, Box, WritesTo, Shaken, Forestalled, Answering;
    ShakenStep(steps, k, s);
    ForestalledStep(run, steps, k, s);
    AnsweringStep(c, run[k], steps[k], s);
    BoxGrows(c, run[k], steps[k]);
    assert Box(run[k], s) <= Box(run[k + 1], s);
    NotBoth(run[k], steps[k], s);
    if Box(run[k], s) == [] {
      FirstFrame(c, run[k], steps[k], s);
    }
  }

  lemma NotBoth(p: Sys, step: Step, s: nat)
    ensures !(step == Shake(s) && WritesTo(p, step, s))
  {
  }

  lemma {:induction false} OpeningHolds(c: Server.Config, lastN: App.Number, run: seq<Sys>, steps: seq<Step>, k: nat,
                                        s: nat)
    requires IsRun(c, lastN, run, steps) && k < |run|
    ensures Opening(run, steps, k, s)
  {
    hide Can, Do, Opening;
    if k == 0 {
      NothingSent(lastN, run, steps, s);
    } else {
      OpeningHolds(c, lastN, run, steps, k - 1, s);
      OpeningStep(c, lastN, run, steps, k - 1, s);
    }
  }

  lemma NothingSent(lastN: App.Number, run: seq<Sys>, steps: seq<Step>, s: nat)
    requires |run| == |steps| + 1 && run[0] == Start(lastN)
    ensures Opening(run, steps, 0, s)
  {
  }

  /** In every run: a connection on which something was sent starts with the handshake, and so can be opened,
      if and only if no broadcast wrote to it before its handshake was answered. */
  lemma OpensIff(c: Server.Config, lastN: App.Number, run: seq<Sys>, steps: seq<Step>, k: nat, s: nat)
    requires IsRun(c, lastN, run, steps) && k < |run| && Box(run[k], s) != []
    ensures Box(run[k], s)[0] == Hello <==>
            forall i: nat :: i < k && WritesTo(run[i], steps[i], s) ==> Shaken(steps, i, s)
  {
    hide Can, Do, Box, WritesTo, Shaken, Answering;
    OpeningHolds(c, lastN, run, steps, k, s);
  }

  /** The page opens a connection only if it starts with the handshake. */
  lemma {:induction false} OnlyHelloOpens(c: Server.Config, lastN: App.Number, run: seq<Sys>, steps: seq<Step>,
                                          k: nat, s: nat)
    requires IsRun(c, lastN, run, steps) && k < |run| && s in run[k].consumed
    ensures Box(run[k], s) != [] && Box(run[k], s)[0] == Hello
  {
    hide Can, Do, Box;
    if k == 0 {
      NothingRead(lastN);
      assert false;
    } else {
      if s in run[k - 1].consumed {
        OnlyHelloOpens(c, lastN, run, steps, k - 1, s);
        BoxGrows(c, run[k - 1], steps[k - 1]);
        assert Box(run[k - 1], s) <= Box(run[k], s);
      } else {
        NewlyOpened(c, run[k - 1], steps[k - 1], s);
      }
    }
  }

  lemma NothingRead(lastN: App.Number)
    ensures Start(lastN).consumed == map[]
  {
  }

  lemma NewlyOpened(c: Server.Config, p: Sys, step: Step, s: nat)
    requires Can(p, step) && s !in p.consumed && s in Do(c, p, step).consumed
    ensures var q := Do(c, p, step); Box(q, s) != [] && Box(q, s)[0] == Hello
  {
    hide AppRuns.Do, Server.Enter, Server.Deliver, PipelineSteps.Do;
    BoxGrows(c, p, step);
    assert Box(p, s) <= Box(Do(c, p, step), s);
  }

  /** Once a broadcast has written to a connection before its handshake was answered, the page never opens
      it, at any moment of the run. */
  lemma SpoiledHandshake(c: Server.Config, lastN: App.Number, run: seq<Sys>, steps: seq<Step>, i: nat, k: nat, s: nat)
    requires IsRun(c, lastN, run, steps) && i < |steps| && k < |run|
    requires WritesTo(run[i], steps[i], s) && !Shaken(steps, i, s)
    ensures s !in run[k].consumed
  {
    hide Can, Do, Box, WritesTo, Answering, Shaken, Forestalled;
    ShakenStays(steps, k, i, s);
    ForestalledFrom(run, steps, i, k, s);
    OpeningHolds(c, lastN, run, steps, k, s);
    if s in run[k].consumed {
      OnlyHelloOpens(c, lastN, run, steps, k, s);
    }
  }

  lemma ShakenStays(steps: seq<Step>, k: nat, i: nat, s: nat)
    requires k <= |steps| && i <= |steps|
    ensures k <= i && Shaken(steps, k, s) ==> Shaken(steps, i, s)
  {
  }

  lemma ForestalledFrom(run: seq<Sys>, steps: seq<Step>, i: nat, k: nat, s: nat)
    requires i < |steps| && k <= |steps| < |run| && WritesTo(run[i], steps[i], s) && !Shaken(steps, i, s)
    ensures i < k ==> Forestalled(run, steps, k, s)
  {
  }
}
