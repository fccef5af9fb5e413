/** What the analysis scripts compute from the page's log, and what happened on the platform. */
module Measured {
  import opened Basics
  import opened Pipeline
  import Server
  import App
  import opened Platform
  import opened PlatformInv
  import opened Recovery
  import opened LogRows
  import Gaps

  // ---------- Ids ----------

  function Ids(s: seq<Sample>): (ids: seq<int>)
    ensures |ids| == |s|
  {
    seq(|s|, i requires 0 <= i < |s| => s[i].seqNo)
  }

  function Id(first: int, step: int, i: int): int { first + i * step }

  lemma IdsGrow(first: int, step: int, i: int, j: int)
    requires step >= 1
    ensures Id(first, step, i) < Id(first, step, j) <==> i < j
  {
    Gaps.Distribute(j, i, step);
    if i < j {
      Gaps.AtLeast(j - i, step);
    } else if j < i {
      Gaps.Distribute(i, j, step);
      Gaps.AtLeast(i - j, step);
    }
  }

  lemma IdsOnGrid(first: int, step: int, a: int, v: int) returns (i: int)
    requires step >= 1 && Gaps.OnGrid(v, Id(first, step, a), step)
    ensures v == Id(first, step, i)
  {
    var k := (v - Id(first, step, a)) / step;
    i := a + k;
    Gaps.Distribute(i, a, step);
  }

  lemma IdOnGrid(first: int, step: int, a: int, i: int)
    requires step >= 1
    ensures Gaps.OnGrid(Id(first, step, i), Id(first, step, a), step)
  {
    Gaps.Distribute(i, a, step);
    Gaps.Steps(i - a, Id(first, step, a), step);
  }

  /** The robot's ids grow by the same step from one stored sample to the next. */
  ghost predicate Regular(p: Sys, first: int, step: int) {
    step >= 1 && forall i :: 0 <= i < |Stored(p)| ==> Stored(p)[i].seqNo == Id(first, step, i)
  }

  // ---------- What was missed ----------

  /** Sample `i` did not come live, though an earlier and a later one did. */
  ghost predicate Missed(p: Sys, i: nat)
    requires i < |Sent(p)|
  {
    !CameLive(p, i) && exists a, b :: 0 <= a < i < b < |Sent(p)| && CameLive(p, a) && CameLive(p, b)
  }

  ghost function MissedIds(p: Sys): set<int> { set i | 0 <= i < |Sent(p)| && Missed(p, i) :: Sent(p)[i].seqNo }

  /** Those of them that the page has nevertheless, and those it has not. */
  ghost function BroughtBack(p: Sys): set<int> {
    set i | 0 <= i < |Sent(p)| && Missed(p, i) && Sent(p)[i] in p.ui.pushed :: Sent(p)[i].seqNo
  }

  ghost function StillMissing(p: Sys): set<int> {
    set i | 0 <= i < |Sent(p)| && Missed(p, i) && Sent(p)[i] !in p.ui.pushed :: Sent(p)[i].seqNo
  }

  /** What is known of a state of a run in which the user gave nothing up. */
  ghost predicate Kept(p: Sys, first: int, step: int) {
    && Inv(p) && WiresInOrder(p) && RowsInOrder(p) && Written(p, App.Live) && Written(p, App.Replay)
    && p.discarded == {} && Regular(p, first, step)
  }

  lemma KeptHolds(c: Server.Config, lastN: App.Number, run: seq<Sys>, steps: seq<Step>, k: nat, first: int, step: int)
    requires IsRun(c, lastN, run, steps) && k < |run| && run[k].discarded == {} && Regular(run[k], first, step)
    ensures Kept(run[k], first, step)
  {
    hide Can, Do, Inv, WiresInOrder, RowsInOrder, Written, Regular, Connected;
    InvHolds(c, lastN, run, steps, k);
    RowsInOrderHolds(c, lastN, run, steps, k);
    WrittenHolds(c, lastN, run, steps, k, App.Live);
    WrittenHolds(c, lastN, run, steps, k, App.Replay);
  }

  // ---------- The live rows ----------

  lemma RowIsLive(p: Sys, i: nat)
    requires Written(p, App.Live) && p.discarded == {} && i < |Sent(p)|
    ensures Sent(p)[i] in Rowed(p, App.Live) <==> CameLive(p, i)
  {
    hide Rowed, Box;
    var x := Sent(p)[i];
    if CameLive(p, i) {
      var s, k :| 0 <= k < Consumed(p, s) <= |Box(p, s)| && Box(p, s)[k] == Row(x);
      assert x in Carried(Box(p, s)[k], App.Live);
    }
    if ReadAs(p, x, App.Live) {
      var s, k :| 0 <= k < Consumed(p, s) <= |Box(p, s)| && x in Carried(Box(p, s)[k], App.Live);
      assert Box(p, s)[k] == Row(x);
    }
  }

  /** Which broadcast a live row shows. */
  lemma RowNumber(p: Sys, first: int, step: int, j: nat) returns (i: nat)
    requires Kept(p, first, step) && j < |Rowed(p, App.Live)|
    ensures i < |Sent(p)| && Sent(p)[i] == Rowed(p, App.Live)[j] && CameLive(p, i)
    ensures Ids(Rowed(p, App.Live))[j] == Id(first, step, i)
  {
    hide Inv, RowsInOrder, CameLive, Rowed, Written, Box, Id;
    RowedBehind(p, Rowed(p, App.Live)[j]);
    i :| 0 <= i < |Sent(p)| && Sent(p)[i] == Rowed(p, App.Live)[j];
    RowIsLive(p, i);
    SentId(p, first, step, i);
  }

  lemma SentId(p: Sys, first: int, step: int, i: nat)
    requires Inv(p) && Regular(p, first, step) && i < |Sent(p)|
    ensures i < |Stored(p)| && Stored(p)[i] == Sent(p)[i] && Sent(p)[i].seqNo == Id(first, step, i)
  {
    hide PipeOk, Id;
    PipeFacts(p);
  }

  /** Later rows show later broadcasts. */
  lemma RowNumbersGrow(p: Sys, first: int, step: int, j: nat, k: nat)
    requires Kept(p, first, step) && j < k < |Rowed(p, App.Live)|
    ensures Ids(Rowed(p, App.Live))[j] < Ids(Rowed(p, App.Live))[k]
  {
    hide Inv, CameLive, Rowed, Written, WiresInOrder, Id, Regular;
    StepPositive(p, first, step);
    var a := RowNumber(p, first, step, j);
    var b := RowNumber(p, first, step, k);
    InvFacts(p);
    SentInOrder(p);
    IdsGrow(first, step, a, b);
    assert Rowed(p, App.Live)[j].receivedAt < Rowed(p, App.Live)[k].receivedAt;
  }

  /** The ids the scripts read off the live rows increase by steps of the progression. */
  lemma LiveIdsRegular(p: Sys, first: int, step: int)
    requires Kept(p, first, step)
    ensures var live := Ids(Rowed(p, App.Live)); Gaps.Increasing(live) && Gaps.OnProgression(live, step)
  {
    hide Kept, Rowed, Id, Gaps.OnGrid, Ids;
    StepPositive(p, first, step);
    var rows := Rowed(p, App.Live);
    forall j, k | 0 <= j < k < |rows|
      ensures Ids(rows)[j] < Ids(rows)[k]
    {
      RowNumbersGrow(p, first, step, j, k);
    }
    forall j | 0 <= j < |rows|
      ensures Gaps.OnGrid(Ids(rows)[j], Ids(rows)[0], step)
    {
      var a := RowNumber(p, first, step, 0);
      var i := RowNumber(p, first, step, j);
      IdOnGrid(first, step, a, i);
    }
  }

  lemma StepPositive(p: Sys, first: int, step: int)
    requires Kept(p, first, step)
    ensures step >= 1 && Inv(p) && Regular(p, first, step) && Written(p, App.Live) && Written(p, App.Replay)
    ensures p.discarded == {}
  {
  }

  lemma RowOf(p: Sys, first: int, step: int, i: nat) returns (j: nat)
    requires Kept(p, first, step) && i < |Sent(p)| && CameLive(p, i)
    ensures j < |Rowed(p, App.Live)| && Rowed(p, App.Live)[j] == Sent(p)[i]
    ensures Ids(Rowed(p, App.Live))[j] == Id(first, step, i)
  {
    hide Inv, RowsInOrder, CameLive, Rowed, Written, WiresInOrder, Id;
    RowIsLive(p, i);
    SentId(p, first, step, i);
    j :| 0 <= j < |Rowed(p, App.Live)| && Rowed(p, App.Live)[j] == Sent(p)[i];
  }

  lemma LiveIffId(p: Sys, first: int, step: int, i: nat)
    requires Kept(p, first, step) && i < |Sent(p)|
    ensures Sent(p)[i].seqNo in Ids(Rowed(p, App.Live)) <==> CameLive(p, i)
  {
    hide Kept, Rowed, Id, CameLive;
    StepPositive(p, first, step);
    SentId(p, first, step, i);
    var ids := Ids(Rowed(p, App.Live));
    if CameLive(p, i) {
      var j := RowOf(p, first, step, i);
      assert ids[j] == Sent(p)[i].seqNo;
    }
    if Sent(p)[i].seqNo in ids {
      var j :| 0 <= j < |ids| && ids[j] == Sent(p)[i].seqNo;
      var n := RowNumber(p, first, step, j);
      IdsGrow(first, step, i, n);
      IdsGrow(first, step, n, i);
    }
  }

  /** An id of the progression between the live ones that no live row has is that of a missed sample. */
  lemma GapIsMissed(p: Sys, first: int, step: int, v: int)
    requires Kept(p, first, step)
    requires step >= 1 && v in Gaps.TrulyMissing(Ids(Rowed(p, App.Live)), step)
    ensures v in MissedIds(p)
  {
    hide Kept, Rowed, Id, Gaps.OnGrid, CameLive;
    StepPositive(p, first, step);
    var rows := Rowed(p, App.Live);
    var a := RowNumber(p, first, step, 0);
    var b := RowNumber(p, first, step, |rows| - 1);
    var i := IdsOnGrid(first, step, a, v);
    IdsGrow(first, step, a, i);
    IdsGrow(first, step, i, b);
    SentId(p, first, step, i);
    LiveIffId(p, first, step, i);
    assert Missed(p, i);
  }

  lemma MissedIsGap(p: Sys, first: int, step: int, i: nat)
    requires Kept(p, first, step) && i < |Sent(p)| && Missed(p, i)
    ensures step >= 1 && Sent(p)[i].seqNo in Gaps.TrulyMissing(Ids(Rowed(p, App.Live)), step)
  {
    hide Kept, Rowed, Id, Gaps.OnGrid, CameLive;
    StepPositive(p, first, step);
    LiveIdsRegular(p, first, step);
    var rows, live := Rowed(p, App.Live), Ids(Rowed(p, App.Live));
    var a, b :| 0 <= a < i < b < |Sent(p)| && CameLive(p, a) && CameLive(p, b);
    var j := RowOf(p, first, step, a);
    var k := RowOf(p, first, step, b);
    SentId(p, first, step, i);
    IdsGrow(first, step, a, i);
    IdsGrow(first, step, i, b);
    var zero := RowNumber(p, first, step, 0);
    IdOnGrid(first, step, zero, i);
    assert live[0] <= live[j] < Sent(p)[i].seqNo < live[k] <= live[|live| - 1];
    LiveIffId(p, first, step, i);
  }

  // ---------- The replay rows ----------

  function ReplayIds(p: Sys): set<int> { set x | x in Rowed(p, App.Replay) :: x.seqNo }

  /** A broadcast sample has a replay row if and only if the page has read it in a reply. */
  lemma RowIsReplayed(p: Sys, first: int, step: int, i: nat)
    requires Kept(p, first, step) && i < |Sent(p)|
    ensures Sent(p)[i].seqNo in ReplayIds(p) <==> CameReplayed(p, i)
  {
    hide Kept, Rowed, CameReplayed, Id, Written;
    StepPositive(p, first, step);
    SentId(p, first, step, i);
    if CameReplayed(p, i) {
      ReplayedIsRead(p, i);
      assert Sent(p)[i] in Rowed(p, App.Replay) by {
        RowsOf(p);
      }
    }
    if Sent(p)[i].seqNo in ReplayIds(p) {
      var x :| x in Rowed(p, App.Replay) && x.seqNo == Sent(p)[i].seqNo;
      RowsOf(p);
      ReadIsReplayed(p, first, step, i, x);
    }
  }

  lemma RowsOf(p: Sys)
    requires Written(p, App.Replay) && p.discarded == {}
    ensures forall x :: x in Rowed(p, App.Replay) <==> ReadAs(p, x, App.Replay)
  {
  }

  lemma ReplayedIsRead(p: Sys, i: nat)
    requires i < |Stored(p)| && CameReplayed(p, i)
    ensures ReadAs(p, Stored(p)[i], App.Replay)
  {
    hide Box;
    var q, k :| q in p.queries && q.stored <= |Stored(p)| && 0 <= k < Consumed(p, q.s) <= |Box(p, q.s)|
      && Box(p, q.s)[k] == Reply(Window(p, q)) && Low(q) <= i < q.stored;
    assert Window(p, q)[i - Low(q)] == Stored(p)[i];
    assert Stored(p)[i] in Carried(Box(p, q.s)[k], App.Replay);
  }

  lemma ReadIsReplayed(p: Sys, first: int, step: int, i: nat, x: Sample)
    requires Inv(p) && Regular(p, first, step) && i < |Stored(p)| && x.seqNo == Stored(p)[i].seqNo
    requires ReadAs(p, x, App.Replay)
    ensures CameReplayed(p, i)
  {
    hide PipeOk, Listed, Live, ReadOk, Provenance, QueriesOk, RepliesOk, Box, Id, Window, Low;
    var s, k :| 0 <= k < Consumed(p, s) <= |Box(p, s)| && x in Carried(Box(p, s)[k], App.Replay);
    var q := ReplyIsWindow(p, s, k);
    var m := InWindowAt(p, q, x);
    IdsGrow(first, step, i, m);
    IdsGrow(first, step, m, i);
  }

  lemma ReplyIsWindow(p: Sys, s: nat, k: nat) returns (q: Query)
    requires RepliesOk(p) && k < |Box(p, s)| && Box(p, s)[k].Reply?
    ensures q in p.queries && q.s == s && q.stored <= |Stored(p)| && Box(p, s)[k] == Reply(Window(p, q))
  {
    hide Window, Box;
    assert IsWindow(p, s, Box(p, s)[k].items);
    q :| q in p.queries && q.s == s && q.stored <= |Stored(p)| && Box(p, s)[k].items == Window(p, q);
  }

  lemma InWindowAt(p: Sys, q: Query, x: Sample) returns (m: nat)
    requires q.stored <= |Stored(p)| && x in Window(p, q)
    ensures Low(q) <= m < q.stored && Stored(p)[m] == x
  {
    var j :| 0 <= j < |Window(p, q)| && Window(p, q)[j] == x;
    m := Low(q) + j;
  }

  // ---------- What the scripts measure ----------

  /** In every run in which the user gave nothing up: the ids missing between the live rows are exactly the
      broadcast samples that did not come live, and the replay rows have exactly those of them that the
      page holds. */
  lemma LogTellsTruth(c: Server.Config, lastN: App.Number, run: seq<Sys>, steps: seq<Step>, k: nat,
                      first: int, step: int)
    requires IsRun(c, lastN, run, steps) && k < |run| && run[k].discarded == {} && Regular(run[k], first, step)
    ensures var p, live := run[k], Ids(Rowed(run[k], App.Live));
            && Gaps.Increasing(live) && Gaps.OnProgression(live, step)
            && Gaps.TrulyMissing(live, step) == MissedIds(p)
            && MissedIds(p) * ReplayIds(p) == BroughtBack(p)
            && MissedIds(p) - ReplayIds(p) == StillMissing(p)
  {
    hide Can, Do, Kept, Rowed, Regular, Missed;
    var p := run[k];
    KeptHolds(c, lastN, run, steps, k, first, step);
    StepPositive(p, first, step);
    LiveIdsRegular(p, first, step);
    forall v | v in Gaps.TrulyMissing(Ids(Rowed(p, App.Live)), step)
      ensures v in MissedIds(p)
    {
      GapIsMissed(p, first, step, v);
    }
    forall i | 0 <= i < |Sent(p)| && Missed(p, i)
      ensures Sent(p)[i].seqNo in Gaps.TrulyMissing(Ids(Rowed(p, App.Live)), step)
      ensures Sent(p)[i].seqNo in ReplayIds(p) <==> Sent(p)[i] in p.ui.pushed
    {
      MissedIsGap(p, first, step, i);
      MissedIsBack(p, first, step, i);
    }
    SameId(p, first, step);
  }

  lemma MissedIsBack(p: Sys, first: int, step: int, i: nat)
    requires Kept(p, first, step) && i < |Sent(p)| && Missed(p, i)
    ensures Sent(p)[i].seqNo in ReplayIds(p) <==> Sent(p)[i] in p.ui.pushed
  {
    hide Kept, Rowed, CameReplayed, CameLive, Inv, Written;
    StepPositive(p, first, step);
    RowIsReplayed(p, first, step, i);
    HeldExactly(p, i);
  }

  lemma SameId(p: Sys, first: int, step: int)
    requires Inv(p) && Regular(p, first, step)
    ensures forall i, j :: 0 <= i < |Sent(p)| && 0 <= j < |Sent(p)| && Sent(p)[i].seqNo == Sent(p)[j].seqNo ==> i == j
  {
    hide Inv, Regular, Id;
    forall i, j | 0 <= i < |Sent(p)| && 0 <= j < |Sent(p)| && Sent(p)[i].seqNo == Sent(p)[j].seqNo
      ensures i == j
    {
      SentId(p, first, step, i);
      SentId(p, first, step, j);
      RegularStep(p, first, step);
      IdsGrow(first, step, i, j);
      IdsGrow(first, step, j, i);
    }
  }

  lemma RegularStep(p: Sys, first: int, step: int)
    requires Regular(p, first, step)
    ensures step >= 1
  {
  }

  /** analyze_one_file on the log of a run: infer the step, expand the gaps, look them up among the replay
      rows. What it finds missing is what was missed, if and only if the true step is the one inferred;
      then its counts are those of the samples brought back and still missing, and its ratio is one
      exactly when something was missed and the page holds all of it. */
  method AnalyseRun(ghost c: Server.Config, ghost lastN: App.Number, ghost run: seq<Sys>, ghost steps: seq<Step>,
                    ghost k: nat, ghost first: int, ghost step: int, log: seq<App.LogRow>, baseline: bool)
    returns (missing: set<int>, r: Gaps.Recovery)
    requires IsRun(c, lastN, run, steps) && k < |run| && run[k].discarded == {} && Regular(run[k], first, step)
    requires log == run[k].ui.uiLog
    ensures var live := Ids(Selected(log, App.Live));
            missing == MissedIds(run[k]) <==> |live| < 2 || Gaps.IsFirstMode(step, Gaps.PositiveDiffs(live))
    ensures missing == MissedIds(run[k]) && !baseline ==>
      && r.recovered == |BroughtBack(run[k])| && r.unrecovered == |StillMissing(run[k])|
      && (r.ratio == Some(1.0) <==> MissedIds(run[k]) != {} && StillMissing(run[k]) == {})
    ensures baseline ==> r.recovered == 0 && r.ratio != Some(1.0)
  {
    hide IsRun, Regular, Selected, MissedIds, BroughtBack, StillMissing, Gaps.IsFirstMode, Gaps.TrulyMissing,
      Gaps.Increasing, Gaps.OnProgression;
    LogTellsTruth(c, lastN, run, steps, k, first, step);
    RegularStep(run[k], first, step);
    var inferred;
    missing, inferred := Gaps.MissingExpected(Ids(Selected(log, App.Live)));
    var replay := set x | x in Selected(log, App.Replay) :: x.seqNo;
    r := Gaps.AccountRecovery(missing, replay, baseline);
    Gaps.RecoveryAccounting(missing, replay, baseline);
    if missing == MissedIds(run[k]) {
      assert missing == missing * replay + (missing - replay);
      Gaps.DisjointSize(missing * replay, missing - replay);
    }
  }

  /** Gap-free recovery as the scripts see it: under the conditions of `Recovery.NothingMissing`, when no
      sample before number `from` came live, nothing stays missing. */
  lemma RecoveryScoresOne(c: Server.Config, lastN: App.Number, run: seq<Sys>, steps: seq<Step>,
                          a: nat, b: nat, from: nat, k: nat, q: Query)
    requires IsRun(c, lastN, run, steps) && a <= b < |run|
    requires k <= |Sent(run[a])| && forall i :: from <= i < k ==> Sent(run[a])[i] in Held(run[a])
    requires q in run[b].queries && Alive(run[b], q.s) && q.stored - q.n <= k
    requires forall i :: i in run[b].notSent ==> i < q.stored
    requires Consumed(run[b], q.s) == |Box(run[b], q.s)| && !ThreadOf(run[b], q.s).Replying? && run[b].inFlight == None
    requires run[b].discarded == {}
    requires forall i :: 0 <= i < from && i < |Sent(run[b])| ==> !CameLive(run[b], i)
    ensures StillMissing(run[b]) == {}
  {
    hide Can, Do, Held, CameLive;
    NothingMissing(c, lastN, run, steps, a, b, from, k, q);
  }
}
