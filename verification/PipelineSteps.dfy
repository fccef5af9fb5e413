/** The pipeline as a step system: samples pushed by callbacks at any time, and the writer's turn cut
    into its statements, so that readers of the database see every state in between. */
module PipelineSteps {
  import opened Basics
  import opened Pipeline

  datatype Phase =
    | Waiting                               // in or before queue_pop_batch
    | InHand                                // a batch popped, BEGIN not yet tried
    | Storing(results: seq<InsertResult>)   // BEGIN succeeded, one result per INSERT so far
    | Sending(next: nat)                    // transaction over, `next` samples passed to broadcast

  datatype State = State(
    queue: seq<Sample>,
    batch: seq<Sample>,
    phase: Phase,
    db: Db,
    dbRows: nat,
    commitCount: nat,
    // what has happened so far
    pushed: seq<Sample>,      // every sample that got a queue node
    finished: seq<Sample>,    // the samples of all batches the writer is done with
    begun: seq<Sample>,       // those of them, and of the batch in hand, whose BEGIN succeeded
    sent: seq<Sample>)        // passed to ws_server_broadcast

  datatype Step =
    | Push(x: Sample)
    | Pop(max: nat)
    | TryBegin(ok: bool)
    | TryInsert(r: InsertResult)
    | EndTransaction(c: CommitResult)
    | Send(encoded: bool)
    | EndBatch

  function Start(db: Db): State {
    State([], [], Waiting, db, 0, 0, [], [], [], [])
  }

  predicate Enabled(s: State, step: Step) {
    match step
    case Push(_) => true
    case Pop(max) => s.phase.Waiting? && s.queue != [] && max > 0
    case TryBegin(ok) => s.phase.InHand? && (ok ==> s.db.txn.None?)
    case TryInsert(_) => s.phase.Storing? && |s.phase.results| < |s.batch|
    case EndTransaction(_) => s.phase.Storing? && |s.phase.results| == |s.batch|
    case Send(_) => s.phase.Sending? && s.phase.next < |s.batch|
    case EndBatch => s.phase.Sending? && s.phase.next == |s.batch|
  }

  function Do(s: State, step: Step): State
    requires Enabled(s, step)
  {
    match step
    case Push(x) => s.(queue := s.queue + [x], pushed := s.pushed + [x])
    case Pop(max) =>
      var n := Min(max, |s.queue|);
      s.(batch := s.queue[..n], queue := s.queue[n..], phase := InHand)
    case TryBegin(ok) =>
      if ok then s.(db := Begin(s.db), phase := Storing([]), begun := s.begun + s.batch)
      else s.(phase := Waiting, finished := s.finished + s.batch, batch := [])
    case TryInsert(r) =>
      var done := s.phase.results;
      s.(db := Insert(s.db, s.batch[|done|], r), phase := Storing(done + [r]))
    case EndTransaction(r) =>
      s.(db := if AllInserted(s.phase.results) then Commit(s.db, r) else Rollback(s.db),
         dbRows := s.dbRows + |s.batch|, commitCount := s.commitCount + 1, phase := Sending(0))
    case Send(encoded) =>
      var x := s.batch[s.phase.next];
      s.(sent := if encoded then s.sent + [x] else s.sent, phase := Sending(s.phase.next + 1))
    case EndBatch => s.(phase := Waiting, finished := s.finished + s.batch, batch := [])
  }

  ghost predicate IsRun(db: Db, run: seq<State>, steps: seq<Step>) {
    && |run| == |steps| + 1 && run[0] == Start(db)
    && forall i :: 0 <= i < |steps| ==> Enabled(run[i], steps[i]) && run[i + 1] == Do(run[i], steps[i])
  }

  // ---------- Conservation, in every run ----------

  ghost predicate Conserved(s: State) {
    && s.pushed == s.finished + s.batch + s.queue
    && s.dbRows + (if s.phase.Storing? then |s.batch| else 0) == |s.begun|
    && (s.phase.Waiting? ==> s.batch == [])
    && (s.phase.Storing? ==> |s.phase.results| <= |s.batch|)
    && (s.phase.Sending? ==> s.phase.next <= |s.batch|)
    && s.commitCount <= |s.begun|
    && (!s.phase.Waiting? ==> s.batch != [])
    && (s.phase.Storing? ==> s.commitCount + |s.batch| <= |s.begun|)
  }

  lemma ConservedStep(s: State, step: Step)
    requires Conserved(s) && Enabled(s, step)
    ensures Conserved(Do(s, step))
  {
  }

  /** No sample is lost, repeated or reordered between the callback and the end of its batch, and
      db_rows counts exactly the samples of batches whose BEGIN succeeded. */
  lemma {:induction false} Conservation(db: Db, run: seq<State>, steps: seq<Step>, k: nat)
    requires IsRun(db, run, steps) && k < |run|
    ensures Conserved(run[k])
  {
    if k > 0 {
      Conservation(db, run, steps, k - 1);
      ConservedStep(run[k - 1], steps[k - 1]);
    }
  }

  // ---------- Order, where every database step succeeds ----------

  predicate Succeeds(step: Step) {
    match step
    case TryBegin(ok) => ok
    case TryInsert(r) => r == Inserted
    case EndTransaction(r) => r == Committed
    case Send(encoded) => encoded
    case _ => true
  }

  ghost predicate AllSucceed(steps: seq<Step>) {
    forall i :: 0 <= i < |steps| ==> Succeeds(steps[i])
  }

  ghost predicate InStep(s: State) {
    && Conserved(s)
    && (match s.phase
        case Waiting => s.db == Db(s.finished, None) && s.sent == s.finished
        case InHand => s.db == Db(s.finished, None) && s.sent == s.finished
        case Storing(rs) =>
          AllInserted(rs) && s.db == Db(s.finished, Some(s.batch[..|rs|])) && s.sent == s.finished
        case Sending(n) => s.db == Db(s.finished + s.batch, None) && s.sent == s.finished + s.batch[..n])
  }

  lemma InStepStep(s: State, step: Step)
    requires InStep(s) && Enabled(s, step) && Succeeds(step)
    ensures InStep(Do(s, step))
  {
    ConservedStep(s, step);
    match step
    case TryInsert(r) =>
      var n := |s.phase.results|;
      assert s.batch[..n + 1] == s.batch[..n] + [s.batch[n]];
    case Send(encoded) =>
      var n := s.phase.next;
      assert s.batch[..n + 1] == s.batch[..n] + [s.batch[n]];
    case EndTransaction(r) =>
      assert s.batch[..|s.batch|] == s.batch;
    case EndBatch =>
      assert s.batch[..|s.batch|] == s.batch;
    case _ =>
  }

  lemma {:induction false} InStepHolds(run: seq<State>, steps: seq<Step>, k: nat)
    requires IsRun(Db([], None), run, steps) && AllSucceed(steps) && k < |run|
    ensures InStep(run[k])
  {
    if k > 0 {
      InStepHolds(run, steps, k - 1);
      InStepStep(run[k - 1], steps[k - 1]);
    }
  }

  /** Where every database step succeeds, what was sent is at all times a prefix of what a reader of
      the database sees, which is a prefix of what was pushed. */
  lemma SentWithinStoredWithinPushed(run: seq<State>, steps: seq<Step>, k: nat)
    requires IsRun(Db([], None), run, steps) && AllSucceed(steps) && k < |run|
    ensures run[k].sent <= run[k].db.visible <= run[k].pushed
  {
    InStepHolds(run, steps, k);
    var s := run[k];
    if s.phase.Sending? {
      assert s.batch == s.batch[..s.phase.next] + s.batch[s.phase.next..];
      assert s.db.visible == s.sent + s.batch[s.phase.next..];
    }
    assert s.pushed == s.finished + (s.batch + s.queue);
  }

  // ---------- The steps are the writer's turn ----------

  /** Runs the steps from `s`; None if one of them is not enabled. */
  function Execute(s: State, steps: seq<Step>): Option<State> {
    if steps == [] then Some(s)
    else
      match Execute(s, steps[..|steps| - 1])
      case None => None
      case Some(t) => if Enabled(t, steps[|steps| - 1]) then Some(Do(t, steps[|steps| - 1])) else None
  }

  lemma {:induction false} ExecuteAppend(s: State, a: seq<Step>, b: seq<Step>)
    requires Execute(s, a).Some?
    ensures Execute(s, a + b) == Execute(Execute(s, a).value, b)
  {
    if b == [] {
      assert a + b == a;
    } else {
      ExecuteAppend(s, a, b[..|b| - 1]);
      assert (a + b)[..|a + b| - 1] == a + b[..|b| - 1];
    }
  }

  function InsertSteps(rs: seq<InsertResult>): seq<Step> {
    seq(|rs|, i requires 0 <= i < |rs| => TryInsert(rs[i]))
  }

  function SendSteps(encoded: seq<bool>): seq<Step> {
    seq(|encoded|, i requires 0 <= i < |encoded| => Send(encoded[i]))
  }

  lemma {:induction false} ExecuteInserts(s: State, rs: seq<InsertResult>)
    requires s.phase == Storing([]) && |rs| <= |s.batch|
    ensures Execute(s, InsertSteps(rs)) == Some(s.(db := InsertAll(s.db, s.batch[..|rs|], rs), phase := Storing(rs)))
  {
    hide Insert;
    if rs != [] {
      var n := |rs| - 1;
      ExecuteInserts(s, rs[..n]);
      assert InsertSteps(rs)[..n] == InsertSteps(rs[..n]);
      assert rs == rs[..n] + [rs[n]];
      assert s.batch[..n + 1][..n] == s.batch[..n];
    }
  }

  lemma {:induction false} ExecuteSends(s: State, encoded: seq<bool>)
    requires s.phase == Sending(0) && |encoded| <= |s.batch|
    ensures Execute(s, SendSteps(encoded))
         == Some(s.(sent := s.sent + Encoded(s.batch[..|encoded|], encoded), phase := Sending(|encoded|)))
  {
    if encoded == [] {
      assert s.sent + [] == s.sent;
    } else {
      var n := |encoded| - 1;
      ExecuteSends(s, encoded[..n]);
      assert SendSteps(encoded)[..n] == SendSteps(encoded[..n]);
      assert s.batch[..n + 1][..n] == s.batch[..n];
      var before := Encoded(s.batch[..n], encoded[..n]);
      assert s.sent + before + [s.batch[n]] == s.sent + (before + [s.batch[n]]);
      assert before + [] == before;
    }
  }

  function TurnSteps(db: Db, a: Answers, encoded: seq<bool>): seq<Step> {
    if !BeginSucceeds(db, a) then [TryBegin(false)]
    else [TryBegin(true)] + InsertSteps(a.inserts) + [EndTransaction(a.commit)] + SendSteps(encoded) + [EndBatch]
  }

  lemma ExecuteOne(s: State, step: Step)
    requires Enabled(s, step)
    ensures Execute(s, [step]) == Some(Do(s, step))
  {
    assert [step][..0] == [];
  }

  /** Executing the steps of a turn leaves exactly the database, counters and sent samples that the
      imperative turn promises. */
  lemma TurnIsItsSteps(s: State, a: Answers, encoded: seq<bool>)
    requires s.phase == InHand && |a.inserts| == |s.batch| == |encoded|
    ensures Execute(s, TurnSteps(s.db, a, encoded)).Some?
    ensures var t := Execute(s, TurnSteps(s.db, a, encoded)).value;
            && t.phase == Waiting && t.finished == s.finished + s.batch && t.queue == s.queue
            && t.db == BatchDb(s.db, s.batch, a)
            && (BeginSucceeds(s.db, a) ==>
                  t.dbRows == s.dbRows + |s.batch| && t.commitCount == s.commitCount + 1
                  && t.sent == s.sent + Encoded(s.batch, encoded))
            && (!BeginSucceeds(s.db, a) ==>
                  t.dbRows == s.dbRows && t.commitCount == s.commitCount && t.sent == s.sent)
  {
    hide Execute;
    if !BeginSucceeds(s.db, a) {
      ExecuteOne(s, TryBegin(false));
    } else {
      var s1 := Do(s, TryBegin(true));
      ExecuteOne(s, TryBegin(true));
      assert s.batch[..|s.batch|] == s.batch;
      ExecuteInserts(s1, a.inserts);
      var s2 := s1.(db := InsertAll(s1.db, s.batch, a.inserts), phase := Storing(a.inserts));
      ExecuteOne(s2, EndTransaction(a.commit));
      var s3 := Do(s2, EndTransaction(a.commit));
      ExecuteSends(s3, encoded);
      var s4 := s3.(sent := s3.sent + Encoded(s.batch, encoded), phase := Sending(|encoded|));
      ExecuteOne(s4, EndBatch);
      var p1 := [TryBegin(true)];
      var p2 := p1 + InsertSteps(a.inserts);
      var p3 := p2 + [EndTransaction(a.commit)];
      var p4 := p3 + SendSteps(encoded);
      ExecuteAppend(s, p1, InsertSteps(a.inserts));
      ExecuteAppend(s, p2, [EndTransaction(a.commit)]);
      ExecuteAppend(s, p3, SendSteps(encoded));
      ExecuteAppend(s, p4, [EndBatch]);
    }
  }
}
