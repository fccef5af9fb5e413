/** What the cut and the drop setting withhold, and what a small window loses, over every run. */
module Losses {
  import opened Basics
  import opened Pipeline
  import PipelineSteps
  import Server
  import App
  import AppRuns
  import opened Platform
  import opened PlatformInv
  import opened Recovery

  // ---------- Withheld samples reach nobody ----------

  /** `x` was broadcast by a call that forwarded it. */
  ghost predicate WasForwarded(p: Sys, x: Sample) {
    exists j :: 0 <= j < |Sent(p)| && j !in p.notSent && Sent(p)[j] == x
  }

  /** Only forwarded samples are on a wire or about to be. */
  ghost predicate OnlyForwarded(p: Sys) {
    && (forall i :: i in p.notSent ==> i < |Sent(p)|)
    && (forall s, f :: f in Box(p, s) && f.Row? ==> WasForwarded(p, f.x))
    && (p.inFlight.Some? ==> WasForwarded(p, p.inFlight.value))
  }

  /** A frame new on a wire is no live sample, or the one in flight. */
  lemma NewRows(c: Server.Config, p: Sys, step: Step, s: nat, f: Frame)
    requires Can(p, step) && f in Box(Do(c, p, step), s) && f !in Box(p, s) && f.Row?
    ensures p.inFlight == Some(f.x)
  {
    hide Server.Enter, Server.Deliver, AppRuns.Do, PipelineSteps.Do, Server.Decide;
    match step
    case Broadcast(now, r1, r2) => EnterKeepsBoxes(c, p.srv, now, r1, r2);
    case Deliver(failing) => DeliverBoxes(p.srv, Row(p.inFlight.value), failing);
    case _ =>
  }

  /** What a step adds to the samples broadcast and to those withheld, and what it puts in flight. */
  lemma Progress(c: Server.Config, p: Sys, step: Step)
    requires Can(p, step)
    ensures var t := Do(c, p, step);
            && Sent(p) <= Sent(t)
            && (step.Broadcast? ==> |Sent(t)| == |Sent(p)| + 1) && (!step.Broadcast? ==> Sent(t) == Sent(p))
            && (forall i :: i in t.notSent ==> i in p.notSent || (step.Broadcast? && i == |Sent(p)|))
            && (|| t.inFlight.None?
                || t.inFlight == p.inFlight
                || (step.Broadcast? && t.notSent == p.notSent && t.inFlight.value == Sent(t)[|Sent(p)|]))
  {
    hide Server.Enter, Server.Deliver, AppRuns.Do, Server.Decide;
    if step.Store? {
      PipeGrows(p.pipe, step.step);
    }
  }

  lemma ForwardedStays(c: Server.Config, p: Sys, step: Step, x: Sample)
    requires Can(p, step) && WasForwarded(p, x)
    ensures WasForwarded(Do(c, p, step), x)
  {
    hide Can, Do;
    Progress(c, p, step);
    var j :| 0 <= j < |Sent(p)| && j !in p.notSent && Sent(p)[j] == x;
    assert Sent(Do(c, p, step))[j] == x;
  }

  lemma OnlyForwardedStep(c: Server.Config, p: Sys, step: Step)
    requires Can(p, step) && OnlyForwarded(p)
    ensures OnlyForwarded(Do(c, p, step))
  {
    hide Can, Do, WasForwarded, Box;
    var t := Do(c, p, step);
    Progress(c, p, step);
    forall s, f | f in Box(t, s) && f.Row?
      ensures WasForwarded(t, f.x)
    {
      if f !in Box(p, s) {
        NewRows(c, p, step, s, f);
      }
      ForwardedStays(c, p, step, f.x);
    }
    if t.inFlight.Some? {
      if t.inFlight == p.inFlight {
        ForwardedStays(c, p, step, p.inFlight.value);
      } else {
        JustForwarded(t, |Sent(p)|);
      }
    }
  }

  lemma JustForwarded(t: Sys, j: nat)
    requires j < |Sent(t)| && j !in t.notSent
    ensures WasForwarded(t, Sent(t)[j])
  {
  }

  lemma {:induction false} OnlyForwardedHolds(c: Server.Config, lastN: App.Number, run: seq<Sys>, steps: seq<Step>,
                                              k: nat)
    requires IsRun(c, lastN, run, steps) && k < |run|
    ensures OnlyForwarded(run[k])
  {
    hide Can, Do, OnlyForwarded;
    if k == 0 {
      NothingForwarded(lastN);
    } else {
      OnlyForwardedHolds(c, lastN, run, steps, k - 1);
      OnlyForwardedStep(c, run[k - 1], steps[k - 1]);
    }
  }

  lemma NothingForwarded(lastN: App.Number)
    ensures OnlyForwarded(Start(lastN))
  {
  }

  /** A withheld sample is on no wire and in no broadcast still sending, at any moment of any run: only a
      replay can bring it to a page. */
  lemma WithheldReachesNobody(c: Server.Config, lastN: App.Number, run: seq<Sys>, steps: seq<Step>, k: nat, i: nat)
    requires IsRun(c, lastN, run, steps) && k < |run| && i in run[k].notSent
    ensures i < |Sent(run[k])| && run[k].inFlight != Some(Sent(run[k])[i])
    ensures forall s :: Row(Sent(run[k])[i]) !in Box(run[k], s)
  {
    hide Can, Do, Box, PipeOk;
    OnlyForwardedHolds(c, lastN, run, steps, k);
    InvHolds(c, lastN, run, steps, k);
    var p := run[k];
    PipeFacts(p);
    assert !WasForwarded(p, Sent(p)[i]) by {
      forall j | 0 <= j < |Sent(p)| && j !in p.notSent
        ensures Sent(p)[j] != Sent(p)[i]
      {
        assert Stored(p)[j] == Sent(p)[j] && Stored(p)[i] == Sent(p)[i];
      }
    }
  }

  /** A broadcast withholds its sample if and only if it enters during the cut or is picked by the drop
      setting; nothing else withholds any. */
  lemma WithheldIff(c: Server.Config, p: Sys, step: Step)
    requires Can(p, step) && forall i :: i in p.notSent ==> i < |Sent(p)|
    ensures var t := Do(c, p, step);
            && (forall i :: i in t.notSent && i !in p.notSent ==> step.Broadcast? && i == |Sent(p)|)
            && (step.Broadcast? ==>
                  (|Sent(p)| in t.notSent
                   <==> Server.Due(c, p.srv.anchor, step.now) || (c.dropPct > 0 && step.r1 % 100 < c.dropPct)))
  {
    hide Server.InWindow, Server.Due, PipelineSteps.Do, AppRuns.Do, Server.Enter, Server.Deliver;
    if step.Broadcast? {
      Server.DueIffActive(p.srv, c, step.now);
    }
  }

  /** A sample whose broadcast call enters during the cut, or is dropped, reaches no client live, then or at
      any later moment of the run. */
  lemma CutReachesNobody(c: Server.Config, lastN: App.Number, run: seq<Sys>, steps: seq<Step>, m: nat, k: nat)
    requires IsRun(c, lastN, run, steps) && m < k < |run| && steps[m].Broadcast?
    requires || Server.Due(c, run[m].srv.anchor, steps[m].now)
             || (c.dropPct > 0 && steps[m].r1 % 100 < c.dropPct)
    ensures var i := |Sent(run[m])|;
            && i < |Sent(run[k])| && run[k].inFlight != Some(Sent(run[k])[i])
            && forall s :: Row(Sent(run[k])[i]) !in Box(run[k], s)
  {
    hide Can, Do, Box, Server.Due;
    OnlyForwardedHolds(c, lastN, run, steps, m);
    WithheldIff(c, run[m], steps[m]);
    WithheldStays(c, lastN, run, steps, m + 1, k);
    WithheldReachesNobody(c, lastN, run, steps, k, |Sent(run[m])|);
  }

  lemma {:induction false} WithheldStays(c: Server.Config, lastN: App.Number, run: seq<Sys>, steps: seq<Step>,
                                         a: nat, b: nat)
    requires IsRun(c, lastN, run, steps) && a <= b < |run|
    ensures run[a].notSent <= run[b].notSent
  {
    hide Can, Do, Inv;
    if a < b {
      WithheldStays(c, lastN, run, steps, a, b - 1);
      InvHolds(c, lastN, run, steps, b - 1);
      InvStep(c, run[b - 1], steps[b - 1]);
    }
  }

  // ---------- What a small window loses ----------

  /** In every run: when the page had everything from `first` to `k`, made one query, was told nothing was
      withheld since, and has read its connection to the end, the samples it lacks are exactly those from
      `k` up to the low end of the window that did not come live. */
  lemma LostExactly(c: Server.Config, lastN: App.Number, run: seq<Sys>, steps: seq<Step>,
                    a: nat, b: nat, first: nat, k: nat, q: Query, i: nat)
    requires IsRun(c, lastN, run, steps) && a <= b < |run|
    requires k <= |Sent(run[a])| && forall j :: first <= j < k ==> Sent(run[a])[j] in Held(run[a])
    requires q in run[b].queries && Alive(run[b], q.s) && forall r :: r in run[b].queries ==> r == q
    requires forall j :: j in run[b].notSent ==> j < q.stored
    requires Consumed(run[b], q.s) == |Box(run[b], q.s)| && !ThreadOf(run[b], q.s).Replying? && run[b].inFlight == None
    requires first <= i < |Sent(run[b])|
    ensures Sent(run[b])[i] !in Held(run[b]) <==> k <= i < Low(q) && !CameLive(run[b], i)
  {
    hide Can, Do, Held, PipeOk, Live, ReadOk, Provenance, QueriesOk, RepliesOk, CameLive;
    InvHolds(c, lastN, run, steps, b);
    RunGrows(c, lastN, run, steps, a, b);
    HeldExactly(run[b], i);
    if i < k {
      assert Sent(run[b])[i] == Sent(run[a])[i];
    } else if i >= Low(q) {
      CompleteFromWindow(run[b], q, i);
    }
  }
}
