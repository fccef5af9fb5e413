/** The gateway pipeline: callback, queue, writer thread, database, broadcast. The writer's turn over
    one batch is imperative code; the interleaving with callbacks and readers is a step system whose
    steps that code is made of. */
module Pipeline {
  import opened Basics

  /** A telemetry sample, as far as the pipeline looks at it. */
  datatype Sample = Sample(receivedAt: int, seqNo: nat)

  // ---------- SQLite as the writer sees it ----------

  /** A failing INSERT leaves the transaction open (Failed) or makes SQLite roll it back (Aborted). */
  datatype InsertResult = Inserted | Failed | Aborted

  /** A failing COMMIT leaves the transaction open or rolls it back. */
  datatype CommitResult = Committed | StillOpen | RolledBack

  /** `visible` is what a reader sees, `txn` the rows of the open transaction. */
  datatype Db = Db(visible: seq<Sample>, txn: Option<seq<Sample>>)

  function Begin(db: Db): Db { db.(txn := Some([])) }

  /** Outside a transaction an INSERT commits by itself. */
  function Insert(db: Db, x: Sample, r: InsertResult): Db {
    match r
    case Failed => db
    case Aborted => db.(txn := None)
    case Inserted =>
      if db.txn.Some? then db.(txn := Some(db.txn.value + [x])) else db.(visible := db.visible + [x])
  }

  function Commit(db: Db, r: CommitResult): Db {
    if db.txn.None? then db
    else match r
         case Committed => Db(db.visible + db.txn.value, None)
         case StillOpen => db
         case RolledBack => db.(txn := None)
  }

  function Rollback(db: Db): Db { db.(txn := None) }

  /** What the environment answers to the statements of one batch. */
  datatype Answers = Answers(begin: bool, inserts: seq<InsertResult>, commit: CommitResult)

  function InsertAll(db: Db, batch: seq<Sample>, rs: seq<InsertResult>): Db
    requires |rs| == |batch|
  {
    if batch == [] then db
    else Insert(InsertAll(db, batch[..|batch| - 1], rs[..|rs| - 1]), batch[|batch| - 1], rs[|rs| - 1])
  }

  predicate AllInserted(rs: seq<InsertResult>) {
    forall i :: 0 <= i < |rs| ==> rs[i] == Inserted
  }

  /** BEGIN IMMEDIATE fails inside a transaction, whatever else might make it fail. */
  predicate BeginSucceeds(db: Db, a: Answers) { a.begin && db.txn.None? }

  function BatchDb(db: Db, batch: seq<Sample>, a: Answers): Db
    requires |a.inserts| == |batch|
  {
    if !BeginSucceeds(db, a) then db
    else
      var filled := InsertAll(Begin(db), batch, a.inserts);
      if AllInserted(a.inserts) then Commit(filled, a.commit) else Rollback(filled)
  }

  // ---------- The writer's turn ----------

  /** The fields of the gateway that the writer thread updates; `sent` is what it passed to broadcast. */
  class Writer {
    var db: Db
    var dbRows: nat
    var commitCount: nat
    var sent: seq<Sample>

    constructor (db: Db)
      ensures this.db == db && dbRows == 0 && commitCount == 0 && sent == []
    {
      this.db, dbRows, commitCount, sent := db, 0, 0, [];
    }

    /** The body of the writer loop for a batch in hand. `encoded[i]` says whether the JSON text of
        sample i could be allocated. */
    method Turn(buf: array<Sample>, n: nat, a: Answers, encoded: seq<bool>)
      requires n <= buf.Length && |a.inserts| == n && |encoded| == n
      modifies this
      ensures db == BatchDb(old(db), buf[..n], a)
      ensures BeginSucceeds(old(db), a) ==>
        dbRows == old(dbRows) + n && commitCount == old(commitCount) + 1
        && sent == old(sent) + Encoded(buf[..n], encoded)
      ensures !BeginSucceeds(old(db), a) ==>
        dbRows == old(dbRows) && commitCount == old(commitCount) && sent == old(sent)
    {
      if !(a.begin && db.txn.None?) {
        return;
      }
      db := Begin(db);
      var ok := true;
      for i := 0 to n
        invariant db == InsertAll(Begin(old(db)), buf[..i], a.inserts[..i])
        invariant ok == AllInserted(a.inserts[..i])
        invariant dbRows == old(dbRows) && commitCount == old(commitCount) && sent == old(sent)
      {
        Snoc(buf[..], i);
        Snoc(a.inserts, i);
        db := Insert(db, buf[i], a.inserts[i]);
        if a.inserts[i] != Inserted {
          ok := false;
        }
      }
      assert a.inserts[..n] == a.inserts;
      if ok {
        db := Commit(db, a.commit);
      } else {
        db := Rollback(db);
      }
      dbRows := dbRows + n;
      commitCount := commitCount + 1;
      for i := 0 to n
        invariant db == BatchDb(old(db), buf[..n], a)
        invariant dbRows == old(dbRows) + n && commitCount == old(commitCount) + 1
        invariant sent == old(sent) + Encoded(buf[..i], encoded[..i])
      {
        Snoc(buf[..], i);
        Snoc(encoded, i);
        EncodedStep(old(sent), buf[..i], encoded[..i], buf[i]);
        if encoded[i] {
          sent := sent + [buf[i]];
        }
      }
      assert encoded[..n] == encoded;
    }
  }

  function Encoded(batch: seq<Sample>, encoded: seq<bool>): seq<Sample>
    requires |encoded| == |batch|
  {
    if batch == [] then []
    else
      var n := |batch| - 1;
      Encoded(batch[..n], encoded[..n]) + if encoded[n] then [batch[n]] else []
  }

  /** What is broadcast of a batch: its samples in order, less those whose text got no memory. */
  lemma {:induction false} EncodedIs(batch: seq<Sample>, encoded: seq<bool>, i: nat)
    requires |encoded| == |batch| && i < |batch|
    ensures encoded[i] ==>
      |Encoded(batch[..i], encoded[..i])| < |Encoded(batch, encoded)|
      && Encoded(batch, encoded)[|Encoded(batch[..i], encoded[..i])|] == batch[i]
    ensures (forall j :: 0 <= j < |batch| ==> encoded[j]) ==> Encoded(batch, encoded) == batch
    ensures (forall j :: 0 <= j < |batch| ==> !encoded[j]) ==> Encoded(batch, encoded) == []
    decreases |batch|
  {
    var n := |batch| - 1;
    assert batch == batch[..n] + [batch[n]];
    if i < n {
      EncodedIs(batch[..n], encoded[..n], i);
      assert batch[..n][..i] == batch[..i] && encoded[..n][..i] == encoded[..i];
    } else if n > 0 {
      EncodedIs(batch[..n], encoded[..n], 0);
    }
  }

  lemma EncodedStep(sent: seq<Sample>, batch: seq<Sample>, encoded: seq<bool>, x: Sample)
    requires |encoded| == |batch|
    ensures sent + (Encoded(batch, encoded) + [x]) == sent + Encoded(batch, encoded) + [x]
    ensures sent + (Encoded(batch, encoded) + []) == sent + Encoded(batch, encoded)
  {
  }

  lemma Snoc<T>(s: seq<T>, i: nat)
    requires i < |s|
    ensures s[..i + 1][..i] == s[..i] && s[..i + 1][i] == s[i] && |s[..i + 1]| == i + 1
  {
  }

  // ---------- Visibility of a batch ----------

  /** An INSERT succeeds although an earlier one of the batch made SQLite abort the transaction. */
  ghost predicate InsertAfterAbort(rs: seq<InsertResult>) {
    exists i, j :: 0 <= i < j < |rs| && rs[i] == Aborted && rs[j] == Inserted
  }

  lemma {:induction false} InsertsInTransaction(db: Db, batch: seq<Sample>, rs: seq<InsertResult>)
    requires |rs| == |batch| && db.txn.Some? && Aborted !in rs
    ensures var d := InsertAll(db, batch, rs);
            d.visible == db.visible && d.txn.Some?
            && (AllInserted(rs) ==> d.txn.value == db.txn.value + batch)
  {
    if batch != [] {
      var n := |batch| - 1;
      InsertsInTransaction(db, batch[..n], rs[..n]);
      assert batch == batch[..n] + [batch[n]];
    }
  }

  lemma InsertAfterAbortStep(rs: seq<InsertResult>, r: InsertResult)
    ensures InsertAfterAbort(rs + [r]) <==> InsertAfterAbort(rs) || (Aborted in rs && r == Inserted)
  {
    var all, n := rs + [r], |rs|;
    if InsertAfterAbort(rs) {
      var i, j :| 0 <= i < j < n && rs[i] == Aborted && rs[j] == Inserted;
      assert all[i] == Aborted && all[j] == Inserted;
    }
    if Aborted in rs && r == Inserted {
      var i :| 0 <= i < n && rs[i] == Aborted;
      assert all[i] == Aborted && all[n] == Inserted;
    }
    if InsertAfterAbort(all) {
      var i, j :| 0 <= i < j < |all| && all[i] == Aborted && all[j] == Inserted;
      assert rs[i] == Aborted && (j < n ==> rs[j] == Inserted);
    }
  }

  /** Rows become visible before the end of the transaction only if it is gone, and then not all. */
  lemma {:induction false} InsertsThroughAbort(db: Db, batch: seq<Sample>, rs: seq<InsertResult>)
    requires |rs| == |batch| && db.txn.Some?
    ensures var d := InsertAll(db, batch, rs);
            && db.visible <= d.visible && (d.txn.Some? <==> Aborted !in rs)
            && (d.visible != db.visible <==> InsertAfterAbort(rs))
            && (Aborted in rs ==> |d.visible| < |db.visible| + |batch|)
            && |d.visible| <= |db.visible| + |batch|
  {
    if batch != [] {
      var n := |batch| - 1;
      var init, r := rs[..n], rs[n];
      InsertsThroughAbort(db, batch[..n], init);
      assert rs == init + [r];
      InsertAfterAbortStep(init, r);
      assert Aborted in rs <==> Aborted in init || r == Aborted;
    }
  }

  /** A batch becomes visible wholly or not at all, if and only if no INSERT succeeds after another one
      of the batch made SQLite abort the transaction. */
  lemma VisibleWhollyOrNot(db: Db, batch: seq<Sample>, a: Answers)
    requires |a.inserts| == |batch| && batch != [] && BeginSucceeds(db, a)
    ensures var after := BatchDb(db, batch, a).visible;
            after == db.visible || after == db.visible + batch <==> !InsertAfterAbort(a.inserts)
  {
    InsertsThroughAbort(Begin(db), batch, a.inserts);
    if Aborted !in a.inserts {
      InsertsInTransaction(Begin(db), batch, a.inserts);
    }
  }

  /** The case in which it goes wrong: the first INSERT is aborted, the second one succeeds. */
  lemma HalfABatchHappens(x: Sample, y: Sample)
    ensures var after := BatchDb(Db([], None), [x, y], Answers(true, [Aborted, Inserted], Committed)).visible;
            after == [y] && after != [] && after != [x, y]
  {
    var rs := [Aborted, Inserted];
    assert rs[0] == Aborted && [x, y][..1] == [x] && rs[..1] == [Aborted];
    assert InsertAll(Db([], Some([])), [x], [Aborted]) == Db([], None);
  }

  /** The batch is stored exactly when every statement of its transaction succeeds. */
  lemma StoredIffAllSucceed(db: Db, batch: seq<Sample>, a: Answers)
    requires |a.inserts| == |batch| && batch != []
    ensures BatchDb(db, batch, a).visible == db.visible + batch
       <==> BeginSucceeds(db, a) && AllInserted(a.inserts) && a.commit == Committed
  {
    if BeginSucceeds(db, a) {
      InsertsThroughAbort(Begin(db), batch, a.inserts);
      if Aborted !in a.inserts {
        InsertsInTransaction(Begin(db), batch, a.inserts);
      }
    }
  }

  /** A COMMIT that leaves its transaction open blocks storage for good: BEGIN fails from then on. */
  lemma {:induction false} OpenTransactionBlocksAll(db: Db, batches: seq<seq<Sample>>, answers: seq<Answers>)
    requires |answers| == |batches| && db.txn.Some?
    requires forall i :: 0 <= i < |batches| ==> |answers[i].inserts| == |batches[i]|
    ensures StoreAll(db, batches, answers) == db
  {
    if batches != [] {
      OpenTransactionBlocksAll(db, batches[..|batches| - 1], answers[..|answers| - 1]);
    }
  }

  function StoreAll(db: Db, batches: seq<seq<Sample>>, answers: seq<Answers>): Db
    requires |answers| == |batches|
    requires forall i :: 0 <= i < |batches| ==> |answers[i].inserts| == |batches[i]|
  {
    if batches == [] then db
    else
      var n := |batches| - 1;
      BatchDb(StoreAll(db, batches[..n], answers[..n]), batches[n], answers[n])
  }

  ghost predicate Matching(batches: seq<seq<Sample>>, answers: seq<Answers>) {
    |answers| == |batches| && forall i :: 0 <= i < |batches| ==> |answers[i].inserts| == |batches[i]|
  }

  /** Whatever batches come and whatever the database answers, nothing is stored any more. */
  ghost predicate Blocked(db: Db) {
    forall batches, answers :: Matching(batches, answers) ==> StoreAll(db, batches, answers) == db
  }

  /** Every INSERT of the batch succeeded and its COMMIT left the transaction open. */
  predicate LeftOpen(a: Answers) { a.begin && AllInserted(a.inserts) && a.commit == StillOpen }

  lemma OpenAfterIff(db: Db, batch: seq<Sample>, a: Answers)
    requires |a.inserts| == |batch|
    ensures BatchDb(db, batch, a).txn.Some? <==> db.txn.Some? || LeftOpen(a)
  {
    if BeginSucceeds(db, a) {
      InsertsThroughAbort(Begin(db), batch, a.inserts);
    }
  }

  lemma {:induction false} OpenAfterAllIff(db: Db, batches: seq<seq<Sample>>, answers: seq<Answers>)
    requires Matching(batches, answers)
    ensures StoreAll(db, batches, answers).txn.Some?
       <==> db.txn.Some? || exists i :: 0 <= i < |answers| && LeftOpen(answers[i])
  {
    if batches != [] {
      var n := |batches| - 1;
      OpenAfterAllIff(db, batches[..n], answers[..n]);
      OpenAfterIff(StoreAll(db, batches[..n], answers[..n]), batches[n], answers[n]);
      assert forall i :: 0 <= i < n ==> answers[..n][i] == answers[i];
    }
  }

  lemma BlockedIffOpen(db: Db)
    ensures Blocked(db) <==> db.txn.Some?
  {
    if db.txn.Some? {
      forall batches, answers | Matching(batches, answers)
        ensures StoreAll(db, batches, answers) == db
      {
        OpenTransactionBlocksAll(db, batches, answers);
      }
    } else {
      var batches, answers := [[Sample(0, 0)]], [Answers(true, [Inserted], Committed)];
      assert Matching(batches, answers);
      assert batches[..0] == [] && answers[..0] == [];
      assert StoreAll(db, batches, answers) == BatchDb(db, batches[0], answers[0]);
      StoredIffAllSucceed(db, batches[0], answers[0]);
    }
  }

  /** After any history of batches that started on a closed transaction, storage is blocked for good if and
      only if the COMMIT of some batch failed and left its transaction open. */
  lemma StorageBlockedIff(db: Db, batches: seq<seq<Sample>>, answers: seq<Answers>)
    requires Matching(batches, answers) && db.txn.None?
    ensures Blocked(StoreAll(db, batches, answers)) <==> exists i :: 0 <= i < |answers| && LeftOpen(answers[i])
  {
    OpenAfterAllIff(db, batches, answers);
    BlockedIffOpen(StoreAll(db, batches, answers));
  }

  /** The case in which it is: the COMMIT of the first batch leaves its transaction open. */
  lemma StorageBlockedHappens(x: Sample)
    ensures Blocked(StoreAll(Db([], None), [[x]], [Answers(true, [Inserted], StillOpen)]))
  {
    var answers := [Answers(true, [Inserted], StillOpen)];
    assert LeftOpen(answers[0]);
    StorageBlockedIff(Db([], None), [[x]], answers);
  }
}
