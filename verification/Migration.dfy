/** The schema migration of db_sqlite.c, interrupted after any number of its statements. */
module Migration {
  import opened Basics

  /** The columns of telemetry_state, in the order of the CREATE TABLE; others an old database may have. */
  datatype Column =
    | Id | ReceivedAtNs | Topic | RobotId | Seq | MsgTimestampNs | ImuId
    | AccX | AccY | AccZ | GyroX | GyroY | GyroZ | TiltId | TiltX | TiltY | TiltZ | TiltStatus
    | Motor1Id | Motor1Tics | Motor1Rpm | Motor1TemperatureC | Motor1VoltagePowerStageMv | Motor1CurrentPowerStageMa
    | Motor2Id | Motor2Tics | Motor2Rpm | Motor2TemperatureC | Motor2VoltagePowerStageMv | Motor2CurrentPowerStageMa
    | Raw
    | Other(name: string)

  const MOTORS: seq<Column> :=
    [Motor1Id, Motor1Tics, Motor1Rpm, Motor1TemperatureC, Motor1VoltagePowerStageMv, Motor1CurrentPowerStageMa,
     Motor2Id, Motor2Tics, Motor2Rpm, Motor2TemperatureC, Motor2VoltagePowerStageMv, Motor2CurrentPowerStageMa]

  const BASE: seq<Column> :=
    [Id, ReceivedAtNs, Topic, RobotId, Seq, MsgTimestampNs, ImuId, AccX, AccY, AccZ, GyroX, GyroY, GyroZ,
     TiltId, TiltX, TiltY, TiltZ, TiltStatus]

  function Schema(): seq<Column> { BASE + MOTORS + [Raw] }

  /** The database file, and how many more statements succeed before the process stops: from then on
      every statement fails. */
  datatype Db = Db(version: int, table: Option<seq<Column>>, budget: nat)

  datatype Outcome = Outcome(db: Db, ok: bool)

  // ---------- Specification ----------

  function Spend(d: Db, n: nat): Outcome {
    if d.budget >= n then Outcome(d.(budget := d.budget - n), true) else Outcome(d.(budget := 0), false)
  }

  function CreateTable(d: Db): Outcome {
    var r := Spend(d, 1);
    if r.ok && d.table.None? then Outcome(r.db.(table := Some(Schema())), true) else r
  }

  /** The two indexes need their columns. */
  function CreateIndexes(d: Db): Outcome {
    if d.table.Some? && ReceivedAtNs in d.table.value && RobotId in d.table.value then Spend(d, 2)
    else Outcome(d, false)
  }

  function AddColumns(d: Db, names: seq<Column>): Outcome
    decreases |names|
  {
    if names == [] then Outcome(d, true)
    else if d.table.Some? && names[0] in d.table.value then AddColumns(d, names[1..])
    else if d.budget == 0 || d.table.None? then Outcome(d, false)
    else AddColumns(d.(table := Some(d.table.value + [names[0]]), budget := d.budget - 1), names[1..])
  }

  function SetVersion(d: Db): Outcome {
    var r := Spend(d, 1);
    if r.ok then Outcome(r.db.(version := 2), true) else r
  }

  function AddMotorsAndSetVersion(d: Db): Outcome {
    var r := AddColumns(d, MOTORS);
    if r.ok then SetVersion(r.db) else r
  }

  function MigrateV2(d: Db): Outcome {
    var r := Spend(d, 3);
    if !r.ok then r else
    var r := CreateTable(r.db);
    if !r.ok then r else
    var r := CreateIndexes(r.db);
    if !r.ok then r else AddMotorsAndSetVersion(r.db)
  }

  function UpgradeV1(d: Db): Outcome {
    var r := Spend(d, 3);
    if r.ok then AddMotorsAndSetVersion(r.db) else r
  }

  function EnsureSchema(d: Db): Outcome {
    if d.version == 0 then MigrateV2(d)
    else if d.version == 1 then UpgradeV1(d)
    else if d.version == 2 then Outcome(d, true)
    else Outcome(d, false)
  }

  // ---------- What a run may do to a file ----------

  ghost predicate Distinct(cols: seq<Column>) {
    forall i, j :: 0 <= i < j < |cols| ==> cols[i] != cols[j]
  }

  /** What the migration expects of a file, and keeps: a known version, a table from version 1 on, no
      column twice, the indexed columns present, and version 2 only with all motor columns. */
  ghost predicate Good(d: Db) {
    && 0 <= d.version <= 2
    && (d.version >= 1 ==> d.table.Some?)
    && (d.table.Some? ==> Distinct(d.table.value) && ReceivedAtNs in d.table.value && RobotId in d.table.value)
    && (d.version == 2 ==> forall c :: c in MOTORS ==> c in d.table.value)
  }

  /** The old columns are still there, in their places. */
  ghost predicate Extends(d: Db, e: Db) {
    d.table.Some? ==> e.table.Some? && d.table.value <= e.table.value
  }

  /** A run, finished or stopped, leaves a good file with every old column, and success is version 2. */
  ghost predicate Kept(d: Db, e: Db, ok: bool) {
    Good(e) && Extends(d, e) && d.version <= e.version && (ok <==> e.version == 2)
  }

  // ---------- The code ----------

  class Connection {
    var version: int
    var table: Option<seq<Column>>
    var budget: nat

    constructor (d: Db)
      ensures View() == d
    {
      version, table, budget := d.version, d.table, d.budget;
    }

    ghost function View(): Db
      reads this
    {
      Db(version, table, budget)
    }

    /** One statement that leaves schema and version alone. */
    method Exec() returns (ok: bool)
      modifies this`budget
      ensures Outcome(View(), ok) == Spend(old(View()), 1)
    {
      if budget == 0 {
        return false;
      }
      budget := budget - 1;
      ok := true;
    }

    method ApplyPragmas() returns (ok: bool)
      modifies this`budget
      ensures Outcome(View(), ok) == Spend(old(View()), 3)
    {
      ok := Exec();
      if !ok { return; }
      ok := Exec();
      if !ok { return; }
      ok := Exec();
    }

    /** PRAGMA table_info */
    method ColumnExists(name: Column) returns (exists_: bool)
      ensures exists_ == (table.Some? && name in table.value)
    {
      if table.None? {
        return false;
      }
      for i := 0 to |table.value|
        invariant name !in table.value[..i]
      {
        if table.value[i] == name {
          return true;
        }
      }
      exists_ := false;
    }

    method EnsureColumn(name: Column) returns (ok: bool)
      modifies this`table, this`budget
      ensures Outcome(View(), ok) == AddColumns(old(View()), [name])
    {
      var present := ColumnExists(name);
      if present {
        return true;
      }
      if table.None? {
        return false;
      }
      ok := Exec();
      if ok {
        table := Some(table.value + [name]);
      }
    }

    method EnsureMotors() returns (ok: bool)
      modifies this`table, this`budget
      ensures Outcome(View(), ok) == AddColumns(old(View()), MOTORS)
    {
      var cols := MOTORS;
      for i := 0 to |cols|
        invariant AddColumns(old(View()), cols) == AddColumns(View(), cols[i..])
      {
        AddColumnsStep(View(), cols[i..]);
        assert cols[i..][1..] == cols[i + 1..];
        ok := EnsureColumn(cols[i]);
        if !ok {
          return;
        }
      }
      ok := true;
    }

    method SetUserVersion() returns (ok: bool)
      modifies this`version, this`budget
      ensures Outcome(View(), ok) == SetVersion(old(View()))
    {
      ok := Exec();
      if ok {
        version := 2;
      }
    }

    /** CREATE TABLE IF NOT EXISTS */
    method ExecCreateTable() returns (ok: bool)
      modifies this`table, this`budget
      ensures Outcome(View(), ok) == CreateTable(old(View()))
    {
      ok := Exec();
      if ok && table.None? {
        table := Some(Schema());
      }
    }

    /** CREATE INDEX IF NOT EXISTS, twice */
    method ExecCreateIndexes() returns (ok: bool)
      modifies this`budget
      ensures Outcome(View(), ok) == CreateIndexes(old(View()))
    {
      if table.None? || ReceivedAtNs !in table.value || RobotId !in table.value {
        return false;
      }
      ok := Exec();
      if !ok { return; }
      ok := Exec();
    }

    method DbMigrateV2() returns (ok: bool)
      modifies this
      ensures Outcome(View(), ok) == MigrateV2(old(View()))
      ensures old(Good(View())) && old(version) == 0 ==> Kept(old(View()), View(), ok) && (old(budget) >= 19 ==> ok)
    {
      hide Schema, CreateTable, CreateIndexes, AddColumns, Spend, Good, Extends;
      if Good(View()) && version == 0 {
        MigrateSafe(View());
      }
      ok := ApplyPragmas();
      if !ok { return; }
      ok := ExecCreateTable();
      if !ok { return; }
      ok := ExecCreateIndexes();
      if !ok { return; }
      ok := EnsureMotors();
      if !ok { return; }
      ok := SetUserVersion();
    }

    method DbUpgradeV1ToV2() returns (ok: bool)
      modifies this
      ensures Outcome(View(), ok) == UpgradeV1(old(View()))
      ensures old(Good(View())) && old(version) == 1 ==> Kept(old(View()), View(), ok) && (old(budget) >= 16 ==> ok)
    {
      hide AddColumns, Spend, Good, Extends;
      if Good(View()) && version == 1 {
        UpgradeSafe(View());
      }
      ok := ApplyPragmas();
      if !ok { return; }
      ok := EnsureMotors();
      if !ok { return; }
      ok := SetUserVersion();
    }

    method DbEnsureSchema() returns (ok: bool)
      modifies this
      ensures Outcome(View(), ok) == EnsureSchema(old(View()))
      ensures old(Good(View())) ==> Kept(old(View()), View(), ok) && (old(budget) >= 19 ==> ok)
      ensures old(version) !in {0, 1, 2} ==> !ok && View() == old(View())
    {
      hide MigrateV2, UpgradeV1, Good, Extends;
      if Good(View()) {
        EnsureSchemaSafe(View());
      }
      if version == 0 {
        ok := DbMigrateV2();
      } else if version == 1 {
        ok := DbUpgradeV1ToV2();
      } else {
        ok := version == 2;
      }
    }
  }

  lemma AddColumnsStep(d: Db, names: seq<Column>)
    requires names != []
    ensures var r := AddColumns(d, [names[0]]);
            AddColumns(d, names) == if r.ok then AddColumns(r.db, names[1..]) else r
  {
    assert [names[0]][1..] == [];
  }

  // ---------- Safety ----------

  lemma {:induction false} AddColumnsGood(d: Db, names: seq<Column>)
    requires d.table.Some? && Distinct(d.table.value)
    ensures var r := AddColumns(d, names);
            && r.db.table.Some? && Distinct(r.db.table.value) && d.table.value <= r.db.table.value
            && r.db.version == d.version && r.db.budget <= d.budget
            && (r.ok ==> forall c :: c in names ==> c in r.db.table.value)
            && (d.budget >= |names| ==> r.ok && r.db.budget >= d.budget - |names|)
    decreases |names|
  {
    if names != [] && (names[0] in d.table.value || d.budget > 0) {
      var e := if names[0] in d.table.value then d
               else d.(table := Some(d.table.value + [names[0]]), budget := d.budget - 1);
      AddColumnsGood(e, names[1..]);
      PrefixKeeps(e.table.value, AddColumns(d, names).db.table.value, names[0]);
      assert forall c :: c in names <==> c == names[0] || c in names[1..];
    }
  }

  lemma PrefixKeeps(s: seq<Column>, t: seq<Column>, c: Column)
    requires s <= t && c in s
    ensures c in t
  {
    var k :| 0 <= k < |s| && s[k] == c;
    assert t[k] == c;
  }

  function Position(c: Column): nat {
    match c
    case Id => 0 case ReceivedAtNs => 1 case Topic => 2 case RobotId => 3 case Seq => 4 case MsgTimestampNs => 5
    case ImuId => 6 case AccX => 7 case AccY => 8 case AccZ => 9 case GyroX => 10 case GyroY => 11 case GyroZ => 12
    case TiltId => 13 case TiltX => 14 case TiltY => 15 case TiltZ => 16 case TiltStatus => 17
    case Motor1Id => 18 case Motor1Tics => 19 case Motor1Rpm => 20 case Motor1TemperatureC => 21
    case Motor1VoltagePowerStageMv => 22 case Motor1CurrentPowerStageMa => 23
    case Motor2Id => 24 case Motor2Tics => 25 case Motor2Rpm => 26 case Motor2TemperatureC => 27
    case Motor2VoltagePowerStageMv => 28 case Motor2CurrentPowerStageMa => 29
    case Raw => 30
    case Other(_) => 31
  }

  lemma SchemaDistinct()
    ensures Distinct(Schema()) && ReceivedAtNs in Schema() && RobotId in Schema()
  {
    BaseInOrder();
    MotorsInOrder();
    forall i | 0 <= i < |Schema()|
      ensures Position(Schema()[i]) == i
    {
    }
    assert Schema()[1] == ReceivedAtNs && Schema()[3] == RobotId;
  }

  lemma BaseInOrder()
    ensures |BASE| == 18 && forall i :: 0 <= i < |BASE| ==> Position(BASE[i]) == i
  {
  }

  lemma MotorsInOrder()
    ensures |MOTORS| == 12 && forall i :: 0 <= i < |MOTORS| ==> Position(MOTORS[i]) == 18 + i
  {
  }

  lemma AddMotorsGood(d: Db)
    requires Good(d) && d.table.Some?
    ensures var r := AddMotorsAndSetVersion(d);
            && Good(r.db) && Extends(d, r.db)
            && (r.ok ==> r.db.version == 2)
            && (d.budget >= 13 ==> r.ok)
  {
    MotorsInOrder();
    AddColumnsGood(d, MOTORS);
  }

  /** Stopped after any number of statements, the migration leaves a good file with every old column,
      and it succeeds exactly by recording version 2; with statements to spare it does succeed. */
  lemma EnsureSchemaSafe(d: Db)
    requires Good(d)
    ensures var r := EnsureSchema(d);
            && Good(r.db) && Extends(d, r.db) && d.version <= r.db.version
            && (r.ok <==> r.db.version == 2)
            && (d.budget >= 19 ==> r.ok)
  {
    hide Good, Schema, AddMotorsAndSetVersion;
    VersionsOf(d);
    if d.version == 0 {
      MigrateSafe(d);
    } else if d.version == 1 {
      UpgradeSafe(d);
    }
  }

  lemma VersionsOf(d: Db)
    requires Good(d)
    ensures 0 <= d.version <= 2 && (d.version == 1 ==> d.table.Some?)
  {
  }

  lemma UpgradeSafe(d: Db)
    requires Good(d) && d.version == 1
    ensures var r := UpgradeV1(d);
            && Good(r.db) && Extends(d, r.db) && 1 <= r.db.version
            && (r.ok <==> r.db.version == 2) && (d.budget >= 16 ==> r.ok)
  {
    hide AddMotorsAndSetVersion;
    var s := Spend(d, 3).db;
    AddMotorsGood(s);
    AddMotorsVersion(s);
  }

  /** Version 2 is recorded by the last statement only. */
  lemma AddMotorsVersion(d: Db)
    requires d.table.Some? && Distinct(d.table.value) && d.version < 2
    ensures var r := AddMotorsAndSetVersion(d);
            (r.ok <==> r.db.version == 2) && (!r.ok ==> r.db.version == d.version)
  {
    AddColumnsGood(d, MOTORS);
  }

  lemma MigrateSafe(d: Db)
    requires Good(d) && d.version == 0
    ensures var r := MigrateV2(d);
            && Good(r.db) && Extends(d, r.db) && 0 <= r.db.version
            && (r.ok <==> r.db.version == 2) && (d.budget >= 19 ==> r.ok)
  {
    hide AddMotorsAndSetVersion, Schema;
    SchemaDistinct();
    var s1 := Spend(d, 3).db;
    var s2 := CreateTable(s1).db;
    if s2.table.Some? {
      var s3 := CreateIndexes(s2).db;
      AddMotorsGood(s3);
      AddMotorsVersion(s3);
    }
  }

  /** With enough statements the migration succeeds exactly when the version is known and the table, where
      there is one, has the indexed columns (version 0) or there is one at all (version 1). */
  lemma CompletesIff(d: Db)
    requires d.budget >= 19 && (d.table.Some? ==> Distinct(d.table.value))
    ensures EnsureSchema(d).ok <==>
            (|| (d.version == 0 && (d.table.Some? ==> ReceivedAtNs in d.table.value && RobotId in d.table.value))
             || (d.version == 1 && d.table.Some?)
             || d.version == 2)
  {
    hide Schema;
    MotorsInOrder();
    SchemaDistinct();
    var s := Spend(d, 3).db;
    if d.version == 0 {
      var t := CreateTable(s).db;
      if ReceivedAtNs in t.table.value && RobotId in t.table.value {
        AddColumnsGood(CreateIndexes(t).db, MOTORS);
      }
    } else if d.version == 1 && d.table.Some? {
      AddColumnsGood(s, MOTORS);
    }
  }

  // ---------- Which columns there are in the end ----------

  lemma {:induction false} OnlyNamesAdded(d: Db, names: seq<Column>)
    requires d.table.Some?
    ensures var r := AddColumns(d, names);
            r.db.table.Some? && forall c :: c in r.db.table.value ==> c in d.table.value || c in names
    decreases |names|
  {
    if names != [] && (names[0] in d.table.value || d.budget > 0) {
      var e := if names[0] in d.table.value then d
               else d.(table := Some(d.table.value + [names[0]]), budget := d.budget - 1);
      OnlyNamesAdded(e, names[1..]);
      assert forall c :: c in names <==> c == names[0] || c in names[1..];
    }
  }

  lemma MotorsAdded(d: Db)
    requires Good(d) && d.table.Some? && AddMotorsAndSetVersion(d).ok
    ensures var e := AddMotorsAndSetVersion(d).db;
            e.table.Some? && forall c :: c in e.table.value <==> c in MOTORS || c in d.table.value
  {
    hide MOTORS;
    AddColumnsGood(d, MOTORS);
    OnlyNamesAdded(d, MOTORS);
    forall c | c in d.table.value
      ensures c in AddColumns(d, MOTORS).db.table.value
    {
      PrefixKeeps(d.table.value, AddColumns(d, MOTORS).db.table.value, c);
    }
  }

  /** After a run that succeeds the table has the motor columns and those it had before, and a new table has every
      column of the schema; no others. */
  lemma ColumnsAfter(d: Db)
    requires Good(d) && EnsureSchema(d).ok
    ensures var e := EnsureSchema(d).db;
            e.table.Some?
            && forall c :: c in e.table.value
                 <==> c in MOTORS || (if d.table.Some? then c in d.table.value else c in Schema())
  {
    hide AddMotorsAndSetVersion, Schema, MOTORS;
    SchemaDistinct();
    if d.version == 0 {
      MotorsAdded(CreateIndexes(CreateTable(Spend(d, 3).db).db).db);
    } else if d.version == 1 {
      MotorsAdded(Spend(d, 3).db);
    }
  }

  // ---------- Restarts ----------

  /** The file after the process was started again with each of these budgets in turn. */
  function Restarts(d: Db, budgets: seq<nat>): Db {
    if budgets == [] then d
    else EnsureSchema(Restarts(d, budgets[..|budgets| - 1]).(budget := budgets[|budgets| - 1])).db
  }

  lemma {:induction false} RestartsSafe(d: Db, budgets: seq<nat>)
    requires Good(d)
    ensures Good(Restarts(d, budgets)) && Extends(d, Restarts(d, budgets)) && d.version <= Restarts(d, budgets).version
  {
    hide EnsureSchema;
    if budgets != [] {
      var n := |budgets| - 1;
      RestartsSafe(d, budgets[..n]);
      var e := Restarts(d, budgets[..n]).(budget := budgets[n]);
      EnsureSchemaSafe(e);
    }
  }

  /** However often and wherever the migration was stopped, one run that is let finish reaches version 2
      with every motor column exactly once and no old column lost or moved; more runs change nothing. */
  lemma RestartableMigration(d: Db, budgets: seq<nat>, last: nat, more: nat)
    requires Good(d) && last >= 19
    ensures var e := Restarts(d, budgets + [last]);
            && e.version == 2 && e.table.Some? && Distinct(e.table.value) && Extends(d, e)
            && (forall c :: c in MOTORS ==> c in e.table.value)
            && EnsureSchema(e.(budget := more)) == Outcome(e.(budget := more), true)
  {
    hide EnsureSchema;
    RestartsSafe(d, budgets);
    assert (budgets + [last])[..|budgets|] == budgets;
    EnsureSchemaSafe(Restarts(d, budgets).(budget := last));
    RestartsSafe(d, budgets + [last]);
    NothingToDo(Restarts(d, budgets + [last]).(budget := more));
  }

  lemma NothingToDo(d: Db)
    requires d.version == 2
    ensures EnsureSchema(d) == Outcome(d, true)
  {
  }
}
