/** A sample on its two ways to the browser: sent live as JSON, and stored, read back and written as JSON. */
module Fidelity {
  import opened Basics
  import opened Migration
  import History
  import Requests
  import StrBuf

  type int32 = i: int | -0x8000_0000 <= i < 0x8000_0000
  type uint32 = n: int | 0 <= n < 0x1_0000_0000
  type int64 = i: int | -0x8000_0000_0000_0000 <= i < 0x8000_0000_0000_0000
  type uint64 = n: int | 0 <= n < 0x1_0000_0000_0000_0000

  datatype Vector = Vector(x: real, y: real, z: real)

  datatype Motor = Motor(id: string, tics: uint32, rpm: int32, temperatureC: int32, voltageMv: int32, currentMa: int32)

  /** telemetry_state_t. Texts are C strings, and floats are exact. */
  datatype State = State(
    receivedAtNs: int64, msgTimestampNs: uint64, seqNo: uint32, robotId: string, imuId: string, tiltId: string,
    acc: Vector, gyro: Vector, tilt: Vector, tiltStatus: uint32, motor1: Motor, motor2: Motor,
    topic: string, raw: seq<nat>)

  // ---------- printf ----------

  /** A format is cut at its conversions; `args` are the converted arguments. */
  function Printf(fmt: seq<string>, args: seq<string>): string
    requires |fmt| == |args| + 1
  {
    if args == [] then fmt[0] else fmt[0] + args[0] + Printf(fmt[1..], args[1..])
  }

  /** The format of two prints in a row. */
  function Merge(f: seq<string>, g: seq<string>): (r: seq<string>)
    requires f != [] && g != []
    ensures |r| == |f| + |g| - 1
  {
    f[..|f| - 1] + [f[|f| - 1] + g[0]] + g[1..]
  }

  lemma {:induction false} PrintfMerge(f: seq<string>, a: seq<string>, g: seq<string>, b: seq<string>)
    requires |f| == |a| + 1 && |g| == |b| + 1
    ensures Printf(f, a) + Printf(g, b) == Printf(Merge(f, g), a + b)
    decreases |a|
  {
    if a == [] {
      assert a + b == b;
      assert Merge(f, g) == [f[0] + g[0]] + g[1..];
      if b != [] {
        assert Merge(f, g)[1..] == g[1..];
        Regroup(f[0], g[0], b[0], Printf(g[1..], b[1..]));
      }
    } else {
      PrintfMerge(f[1..], a[1..], g, b);
      MergeTail(f, g);
      assert (a + b)[1..] == a[1..] + b;
      Regroup(f[0] + a[0], "", Printf(f[1..], a[1..]), Printf(g, b));
    }
  }

  lemma MergeTail(f: seq<string>, g: seq<string>)
    requires |f| > 1 && g != []
    ensures Merge(f, g)[0] == f[0] && Merge(f, g)[1..] == Merge(f[1..], g)
  {
    var n := |f| - 1;
    assert f[..n][1..] == f[1..][..n - 1];
    assert f[..n][0] == f[0];
  }

  lemma Regroup(a: string, b: string, c: string, d: string)
    ensures a + b + c + d == a + (b + c + d)
    ensures a + c + d == a + (c + d)
  {
  }

  /** Arguments that first differ in how they start print differently. */
  lemma {:induction false} PrintfDiffers(fmt: seq<string>, a: seq<string>, b: seq<string>, k: nat)
    requires |fmt| == |a| + 1 == |b| + 1 && k < |a|
    requires a[..k] == b[..k] && a[k] != "" && b[k] != "" && a[k][0] != b[k][0]
    ensures Printf(fmt, a) != Printf(fmt, b)
    decreases k
  {
    if k == 0 {
      assert Printf(fmt, a)[|fmt[0]|] == a[0][0];
      assert Printf(fmt, b)[|fmt[0]|] == b[0][0];
    } else {
      assert a[0] == a[..k][0] == b[0];
      assert a[1..][..k - 1] == a[..k][1..] == b[1..][..k - 1];
      PrintfDiffers(fmt[1..], a[1..], b[1..], k - 1);
      var head := fmt[0] + a[0];
      var s, t := Printf(fmt[1..], a[1..]), Printf(fmt[1..], b[1..]);
      assert (head + s)[|head|..] == s && (head + t)[|head|..] == t;
    }
  }

  // ---------- The live text ----------

  const LIVE_FORMAT: seq<string> :=
    ["{\"type\":\"telemetry\",\"t\":", ",\"t_ns\":", ",\"seq\":", ",\"msg_ts_ns\":",
     ",\"robot_id\":\"", "\",\"imu_id\":\"", "\",\"tilt_id\":\"", "\",\"tilt_status\":",
     ",\"accel\":{\"x\":", ",\"y\":", ",\"z\":", "},\"gyro\":{\"x\":", ",\"y\":", ",\"z\":",
     "},\"tilt\":{\"x\":", ",\"y\":", ",\"z\":",
     "}" + ",\"motors\":{\"motor1\":{\"id\":\"", "\",\"tics\":", ",\"rpm\":", ",\"temperature_c\":",
     ",\"voltage_power_stage_mv\":", ",\"current_power_stage_ma\":",
     "},\"motor2\":{\"id\":\"", "\",\"tics\":", ",\"rpm\":", ",\"temperature_c\":",
     ",\"voltage_power_stage_mv\":", ",\"current_power_stage_ma\":", "}}" + "}"]

  function Seconds(ns: int): real { ns as real / 1000000000.0 }

  function LiveVectorArgs(v: Vector, fmt: real -> string): (r: seq<string>)
    ensures |r| == 3
  {
    [fmt(v.x), fmt(v.y), fmt(v.z)]
  }

  function LiveMotorArgs(m: Motor): (r: seq<string>)
    ensures |r| == 6
  {
    [m.id, Requests.Digits(m.tics), Requests.Decimal(m.rpm), Requests.Decimal(m.temperatureC),
     Requests.Decimal(m.voltageMv), Requests.Decimal(m.currentMa)]
  }

  function LiveHeadArgs(s: State, fmt: real -> string): (r: seq<string>)
    ensures |r| == 8
  {
    [fmt(Seconds(s.receivedAtNs)), Requests.Decimal(s.receivedAtNs), Requests.Digits(s.seqNo),
     Requests.Digits(s.msgTimestampNs),
     s.robotId, s.imuId, s.tiltId, Requests.Digits(s.tiltStatus)]
  }

  function LiveArgs(s: State, fmt: real -> string): (r: seq<string>)
    ensures |r| == 29
  {
    LiveHeadArgs(s, fmt)
    + LiveVectorArgs(s.acc, fmt) + LiveVectorArgs(s.gyro, fmt) + LiveVectorArgs(s.tilt, fmt)
    + LiveMotorArgs(s.motor1) + LiveMotorArgs(s.motor2)
  }

  /** telemetry_state_to_json_alloc; `fmt` is what %.6f prints. */
  function LiveText(s: State, fmt: real -> string): string { Printf(LIVE_FORMAT, LiveArgs(s, fmt)) }

  // ---------- Storing ----------

  datatype Value = Null | Integer(i: int) | Real(r: real) | Text(s: string) | Blob(b: seq<nat>)

  type Row = map<Column, Value>

  /** Conversions to a signed type wrap. */
  function ToInt32(n: int): (r: int32)
    ensures -0x8000_0000 <= n < 0x8000_0000 ==> r == n
    ensures 0x8000_0000 <= n < 0x1_0000_0000 ==> r == n - 0x1_0000_0000
  {
    var m := n % 0x1_0000_0000;
    if m < 0x8000_0000 then m else m - 0x1_0000_0000
  }

  function ToInt64(n: int): (r: int64)
    ensures -0x8000_0000_0000_0000 <= n < 0x8000_0000_0000_0000 ==> r == n
    ensures 0x8000_0000_0000_0000 <= n < 0x1_0000_0000_0000_0000 ==> r == n - 0x1_0000_0000_0000_0000
  {
    var m := n % 0x1_0000_0000_0000_0000;
    if m < 0x8000_0000_0000_0000 then m else m - 0x1_0000_0000_0000_0000
  }

  /** The columns the insert statement names, up to the motors, and all of them. */
  const INSERTED_HEAD: seq<Column> :=
    [ReceivedAtNs, Topic, RobotId, Seq, MsgTimestampNs, ImuId, AccX, AccY, AccZ, GyroX, GyroY, GyroZ,
     TiltId, TiltX, TiltY, TiltZ, TiltStatus]

  function Inserted(): seq<Column> { INSERTED_HEAD + MOTORS + [Raw] }

  function BoundVector(v: Vector): (r: seq<Value>)
    ensures |r| == 3
  {
    [Real(v.x), Real(v.y), Real(v.z)]
  }

  function BoundMotor(m: Motor): (r: seq<Value>)
    ensures |r| == 6
  {
    [Text(m.id), Integer(m.tics), Integer(m.rpm), Integer(m.temperatureC), Integer(m.voltageMv), Integer(m.currentMa)]
  }

  function BoundHead(s: State): (r: seq<Value>)
    ensures |r| == 6
  {
    [Integer(s.receivedAtNs), Text(s.topic), Text(s.robotId), Integer(ToInt32(s.seqNo)),
     Integer(ToInt64(s.msgTimestampNs)),
     Text(s.imuId)]
  }

  /** The values bound to the thirty parameters, in their order. */
  function Bound(s: State): (r: seq<Value>)
    ensures |r| == 30
  {
    BoundHead(s) + BoundVector(s.acc) + BoundVector(s.gyro) + [Text(s.tiltId)] + BoundVector(s.tilt)
    + [Integer(ToInt32(s.tiltStatus))] + BoundMotor(s.motor1) + BoundMotor(s.motor2)
    + [if s.raw == [] then Null else Blob(s.raw)]
  }

  /** The prepared insert statement: the values of its parameters so far. */
  class Statement {
    var bound: seq<Value>

    /** sqlite3_reset and sqlite3_clear_bindings */
    constructor ()
      ensures bound == []
    {
      bound := [];
    }

    method Bind(v: Value)
      modifies this
      ensures bound == old(bound) + [v]
    {
      bound := bound + [v];
    }

    method BindDoubles(v: Vector)
      modifies this
      ensures bound == old(bound) + BoundVector(v)
    {
      Bind(Real(v.x));
      Bind(Real(v.y));
      Bind(Real(v.z));
    }

    method BindMotor(m: Motor)
      modifies this
      ensures bound == old(bound) + BoundMotor(m)
    {
      Bind(Text(m.id));
      Bind(Integer(m.tics));
      Bind(Integer(m.rpm));
      Bind(Integer(m.temperatureC));
      Bind(Integer(m.voltageMv));
      Bind(Integer(m.currentMa));
    }
  }

  /** VALUES(?,...): the named columns get the bound values. */
  function Assign(cols: seq<Column>, values: seq<Value>): Row
    requires |cols| == |values|
  {
    if cols == [] then map[]
    else
      var n := |cols| - 1;
      Assign(cols[..n], values[..n])[cols[n] := values[n]]
  }

  function Stored(s: State): Row {
    MotorsLength();
    Assign(Inserted(), Bound(s))
  }

  lemma MotorsLength()
    ensures |MOTORS| == 12
  {
  }

  predicate Is(row: Row, c: Column, v: Value) { c in row && row[c] == v }

  predicate VectorIn(row: Row, v: Vector, x: Column, y: Column, z: Column) {
    Is(row, x, Real(v.x)) && Is(row, y, Real(v.y)) && Is(row, z, Real(v.z))
  }

  predicate MotorIn(row: Row, m: Motor, id: Column, tics: Column, rpm: Column, temp: Column, mv: Column, ma: Column) {
    && Is(row, id, Text(m.id)) && Is(row, tics, Integer(m.tics)) && Is(row, rpm, Integer(m.rpm))
    && Is(row, temp, Integer(m.temperatureC)) && Is(row, mv, Integer(m.voltageMv)) && Is(row, ma, Integer(m.currentMa))
  }

  /** Every field of the sample is in the column of its name; a signed column holds an unsigned field as
      the conversion leaves it. */
  predicate HoldsByName(row: Row, s: State) {
    && HeadIn(row, s)
    && MotorIn(row, s.motor1, Motor1Id, Motor1Tics, Motor1Rpm, Motor1TemperatureC, Motor1VoltagePowerStageMv,
               Motor1CurrentPowerStageMa)
    && MotorIn(row, s.motor2, Motor2Id, Motor2Tics, Motor2Rpm, Motor2TemperatureC, Motor2VoltagePowerStageMv,
               Motor2CurrentPowerStageMa)
    && Is(row, Raw, if s.raw == [] then Null else Blob(s.raw))
  }

  predicate HeadIn(row: Row, s: State) {
    && Is(row, ReceivedAtNs, Integer(s.receivedAtNs)) && Is(row, Topic, Text(s.topic))
    && Is(row, RobotId, Text(s.robotId)) && Is(row, Seq, Integer(ToInt32(s.seqNo)))
    && Is(row, MsgTimestampNs, Integer(ToInt64(s.msgTimestampNs)))
    && Is(row, ImuId, Text(s.imuId))
    && VectorIn(row, s.acc, AccX, AccY, AccZ) && VectorIn(row, s.gyro, GyroX, GyroY, GyroZ)
    && Is(row, TiltId, Text(s.tiltId)) && VectorIn(row, s.tilt, TiltX, TiltY, TiltZ)
    && Is(row, TiltStatus, Integer(ToInt32(s.tiltStatus)))
  }

  /** db_writer_insert_state. The values are bound by position; they arrive under the right names. */
  method InsertState(s: State) returns (row: Row)
    ensures row == Stored(s) && HoldsByName(row, s)
  {
    hide Assign, BoundVector, BoundMotor, ToInt32, ToInt64, Inserted;
    var st := new Statement();
    st.Bind(Integer(s.receivedAtNs));
    st.Bind(Text(s.topic));
    st.Bind(Text(s.robotId));
    st.Bind(Integer(ToInt32(s.seqNo)));
    st.Bind(Integer(ToInt64(s.msgTimestampNs)));
    st.Bind(Text(s.imuId));
    assert st.bound == BoundHead(s);
    st.BindDoubles(s.acc);
    st.BindDoubles(s.gyro);
    st.Bind(Text(s.tiltId));
    st.BindDoubles(s.tilt);
    st.Bind(Integer(ToInt32(s.tiltStatus)));
    st.BindMotor(s.motor1);
    st.BindMotor(s.motor2);
    if s.raw != [] {
      st.Bind(Blob(s.raw));
    } else {
      st.Bind(Null);
    }
    assert st.bound == Bound(s);
    InsertedDistinct();
    StoredByName(s);
    row := Assign(Inserted(), st.bound);
  }

  /** The insert statement can be prepared when the table has every column it names. */
  ghost predicate Prepares(d: Db) {
    d.table.Some? && forall c :: c in Inserted() ==> c in d.table.value
  }

  /** After a migration that succeeded it can, if and only if the file was new or its old table had every column
      but the motors': the migration adds no others to a table it finds. */
  lemma PreparesIff(d: Db)
    requires Good(d) && EnsureSchema(d).ok
    ensures Prepares(EnsureSchema(d).db)
       <==> d.table.None? || forall c :: c in INSERTED_HEAD + [Raw] ==> c in d.table.value
  {
    hide EnsureSchema, Good, INSERTED_HEAD, MOTORS, Schema;
    ColumnsAfter(d);
    InsertedInSchema();
    assert forall c :: c in Inserted() <==> c in INSERTED_HEAD + [Raw] || c in MOTORS;
    HeadIsNoMotor();
  }

  lemma InsertedInSchema()
    ensures forall c :: c in Inserted() ==> c in Schema()
  {
    assert INSERTED_HEAD == BASE[1..];
  }

  lemma HeadIsNoMotor()
    ensures forall c :: c in INSERTED_HEAD + [Raw] ==> c !in MOTORS
  {
    HeadInOrder();
    MotorsInOrder();
    forall c | c in INSERTED_HEAD + [Raw]
      ensures Position(c) < 18 || Position(c) == 30
    {
      assert c == Raw || exists i :: 0 <= i < |INSERTED_HEAD| && INSERTED_HEAD[i] == c;
    }
  }

  /** The slices of the thirty bound values. */
  lemma BoundSlices(s: State)
    ensures var b := Bound(s);
            && b[0] == Integer(s.receivedAtNs) && b[1] == Text(s.topic) && b[2] == Text(s.robotId)
            && b[3] == Integer(ToInt32(s.seqNo)) && b[4] == Integer(ToInt64(s.msgTimestampNs)) && b[5] == Text(s.imuId)
            && b[6..9] == BoundVector(s.acc) && b[9..12] == BoundVector(s.gyro) && b[12] == Text(s.tiltId)
            && b[13..16] == BoundVector(s.tilt) && b[16] == Integer(ToInt32(s.tiltStatus))
            && b[17..23] == BoundMotor(s.motor1) && b[23..29] == BoundMotor(s.motor2)
            && b[29] == if s.raw == [] then Null else Blob(s.raw)
  {
    hide BoundVector, BoundMotor, ToInt32, ToInt64;
    var b1 := BoundHead(s) + BoundVector(s.acc) + BoundVector(s.gyro);
    var b2 := b1 + [Text(s.tiltId)] + BoundVector(s.tilt);
    var b3 := b2 + [Integer(ToInt32(s.tiltStatus))] + BoundMotor(s.motor1);
    var b4 := b3 + BoundMotor(s.motor2);
    assert b1[..6] == BoundHead(s) && b1[6..9] == BoundVector(s.acc) && b1[9..12] == BoundVector(s.gyro);
    assert b2[..12] == b1 && b2[12] == Text(s.tiltId) && b2[13..16] == BoundVector(s.tilt);
    assert b3[..16] == b2 && b3[16] == Integer(ToInt32(s.tiltStatus)) && b3[17..23] == BoundMotor(s.motor1);
    assert b4[..23] == b3 && b4[23..29] == BoundMotor(s.motor2);
    var b := Bound(s);
    assert b[..29] == b4;
    PrefixAt(b, b4);
    PrefixAt(b4, b3);
    PrefixAt(b3, b2);
    PrefixAt(b2, b1);
    PrefixAt(b1, BoundHead(s));
  }

  lemma PrefixAt(s: seq<Value>, t: seq<Value>)
    requires t <= s
    ensures forall k :: 0 <= k < |t| ==> s[k] == t[k]
    ensures forall lo, hi :: 0 <= lo <= hi <= |t| ==> s[lo..hi] == t[lo..hi]
  {
  }

  lemma BoundScalars(s: State)
    ensures var b := Bound(s);
            && b[0] == Integer(s.receivedAtNs) && b[1] == Text(s.topic) && b[2] == Text(s.robotId)
            && b[3] == Integer(ToInt32(s.seqNo)) && b[4] == Integer(ToInt64(s.msgTimestampNs)) && b[5] == Text(s.imuId)
            && b[12] == Text(s.tiltId) && b[16] == Integer(ToInt32(s.tiltStatus))
  {
    hide Bound, ToInt32, ToInt64;
    BoundSlices(s);
  }

  /** What the column at a position of the statement holds. */
  lemma StoredAt(s: State, k: nat)
    requires k < 30
    ensures |Inserted()| == 30 && Is(Stored(s), Inserted()[k], Bound(s)[k])
  {
    hide Assign, Bound, Inserted, Distinct;
    InsertedDistinct();
    AssignAt(Inserted(), Bound(s), k);
  }

  lemma StoredVector(s: State, k: nat, v: Vector)
    requires k + 3 <= 30 && Bound(s)[k..k + 3] == BoundVector(v) && |Inserted()| == 30
    ensures VectorIn(Stored(s), v, Inserted()[k], Inserted()[k + 1], Inserted()[k + 2])
  {
    hide Stored, Bound, Inserted, Is;
    StoredAt(s, k);
    StoredAt(s, k + 1);
    StoredAt(s, k + 2);
    assert Bound(s)[k..k + 3][0] == Bound(s)[k] && Bound(s)[k..k + 3][1] == Bound(s)[k + 1];
    assert Bound(s)[k..k + 3][2] == Bound(s)[k + 2];
  }

  lemma StoredMotor(s: State, k: nat, m: Motor)
    requires k + 6 <= 30 && Bound(s)[k..k + 6] == BoundMotor(m) && |Inserted()| == 30
    ensures var c := Inserted();
            MotorIn(Stored(s), m, c[k], c[k + 1], c[k + 2], c[k + 3], c[k + 4], c[k + 5])
  {
    hide Stored, Bound, Inserted, Is;
    var b, motor := Bound(s), BoundMotor(m);
    assert motor[0] == b[k] && motor[1] == b[k + 1] && motor[2] == b[k + 2] && motor[3] == b[k + 3];
    assert motor[4] == b[k + 4] && motor[5] == b[k + 5];
    StoredAt(s, k);
    StoredAt(s, k + 1);
    StoredAt(s, k + 2);
    StoredAt(s, k + 3);
    StoredAt(s, k + 4);
    StoredAt(s, k + 5);
  }

  lemma StoredScalars(s: State)
    ensures var row := Stored(s);
            && Is(row, ReceivedAtNs, Integer(s.receivedAtNs)) && Is(row, Topic, Text(s.topic))
            && Is(row, RobotId, Text(s.robotId)) && Is(row, Seq, Integer(ToInt32(s.seqNo)))
            && Is(row, MsgTimestampNs, Integer(ToInt64(s.msgTimestampNs)))
            && Is(row, ImuId, Text(s.imuId)) && Is(row, TiltId, Text(s.tiltId))
            && Is(row, TiltStatus, Integer(ToInt32(s.tiltStatus)))
  {
    hide Stored, Bound, BoundVector, BoundMotor, Is, ToInt32, ToInt64, Inserted, INSERTED_HEAD, MOTORS;
    InsertedNames();
    BoundScalars(s);
    StoredAt(s, 0);
    StoredAt(s, 1);
    StoredAt(s, 2);
    StoredAt(s, 3);
    StoredAt(s, 4);
    StoredAt(s, 5);
    StoredAt(s, 12);
    StoredAt(s, 16);
  }

  lemma StoredHead(s: State)
    ensures HeadIn(Stored(s), s)
  {
    hide Stored, Bound, BoundVector, BoundMotor, Is, VectorIn, ToInt32, ToInt64, Inserted,
      INSERTED_HEAD, MOTORS;
    InsertedNames();
    BoundSlices(s);
    StoredScalars(s);
    StoredVector(s, 6, s.acc);
    StoredVector(s, 9, s.gyro);
    StoredVector(s, 13, s.tilt);
  }

  lemma StoredByName(s: State)
    ensures HoldsByName(Stored(s), s)
  {
    hide Stored, Bound, BoundVector, BoundMotor, Is, HeadIn, MotorIn, ToInt32, ToInt64, Inserted,
      INSERTED_HEAD, MOTORS;
    InsertedNames();
    BoundSlices(s);
    StoredHead(s);
    StoredMotor(s, 17, s.motor1);
    StoredMotor(s, 23, s.motor2);
    StoredAt(s, 29);
  }

  /** Where each name stands in the statement. */
  lemma InsertedNames()
    ensures var c := Inserted();
            && |c| == 30
            && c[0] == ReceivedAtNs && c[1] == Topic && c[2] == RobotId && c[3] == Seq && c[4] == MsgTimestampNs
            && c[5] == ImuId && c[6] == AccX && c[7] == AccY && c[8] == AccZ && c[9] == GyroX && c[10] == GyroY
            && c[11] == GyroZ && c[12] == TiltId && c[13] == TiltX && c[14] == TiltY && c[15] == TiltZ
            && c[16] == TiltStatus
            && c[17] == Motor1Id && c[18] == Motor1Tics && c[19] == Motor1Rpm && c[20] == Motor1TemperatureC
            && c[21] == Motor1VoltagePowerStageMv && c[22] == Motor1CurrentPowerStageMa
            && c[23] == Motor2Id && c[24] == Motor2Tics && c[25] == Motor2Rpm && c[26] == Motor2TemperatureC
            && c[27] == Motor2VoltagePowerStageMv && c[28] == Motor2CurrentPowerStageMa && c[29] == Raw
  {
    hide INSERTED_HEAD, MOTORS;
    HeadNames();
    MotorNames();
    InsertedParts();
    var c := Inserted();
    assert c[17] == MOTORS[0] && c[18] == MOTORS[1] && c[19] == MOTORS[2] && c[20] == MOTORS[3] && c[21] == MOTORS[4];
    assert c[22] == MOTORS[5] && c[23] == MOTORS[6] && c[24] == MOTORS[7] && c[25] == MOTORS[8] && c[26] == MOTORS[9];
    assert c[27] == MOTORS[10] && c[28] == MOTORS[11];
  }

  lemma InsertedParts()
    ensures |INSERTED_HEAD| == 17 && |MOTORS| == 12 && |Inserted()| == 30 && Inserted()[29] == Raw
    ensures forall k :: 0 <= k < 17 ==> Inserted()[k] == INSERTED_HEAD[k]
    ensures forall k :: 17 <= k < 29 ==> Inserted()[k] == MOTORS[k - 17]
  {
  }

  lemma HeadNames()
    ensures var c := INSERTED_HEAD;
            && |c| == 17
            && c[0] == ReceivedAtNs && c[1] == Topic && c[2] == RobotId && c[3] == Seq && c[4] == MsgTimestampNs
            && c[5] == ImuId && c[6] == AccX && c[7] == AccY && c[8] == AccZ && c[9] == GyroX && c[10] == GyroY
            && c[11] == GyroZ && c[12] == TiltId && c[13] == TiltX && c[14] == TiltY && c[15] == TiltZ
            && c[16] == TiltStatus
  {
    assert |INSERTED_HEAD| == 17;
  }

  lemma MotorNames()
    ensures var c := MOTORS;
            && |c| == 12
            && c[0] == Motor1Id && c[1] == Motor1Tics && c[2] == Motor1Rpm && c[3] == Motor1TemperatureC
            && c[4] == Motor1VoltagePowerStageMv && c[5] == Motor1CurrentPowerStageMa
            && c[6] == Motor2Id && c[7] == Motor2Tics && c[8] == Motor2Rpm && c[9] == Motor2TemperatureC
            && c[10] == Motor2VoltagePowerStageMv && c[11] == Motor2CurrentPowerStageMa
  {
  }

  lemma {:induction false} AssignAt(cols: seq<Column>, values: seq<Value>, k: nat)
    requires |cols| == |values| && k < |cols| && Distinct(cols)
    ensures cols[k] in Assign(cols, values) && Assign(cols, values)[cols[k]] == values[k]
  {
    var n := |cols| - 1;
    if k < n {
      assert cols[..n][k] == cols[k] && cols[k] != cols[n];
      AssignAt(cols[..n], values[..n], k);
    }
  }

  // ---------- Reading ----------

  /** The columns of the history query, up to the motors, and all of them. */
  const SELECTED_HEAD: seq<Column> :=
    [ReceivedAtNs, RobotId, Seq, MsgTimestampNs, ImuId, AccX, AccY, AccZ, GyroX, GyroY, GyroZ, TiltId,
     TiltX, TiltY, TiltZ, TiltStatus]

  function Selected(): seq<Column> { SELECTED_HEAD + MOTORS }

  /** The answer's columns for one row; a column the row was stored without is NULL. */
  function Select(cols: seq<Column>, row: Row): (v: seq<Value>)
    ensures |v| == |cols|
  {
    seq(|cols|, k requires 0 <= k < |cols| => if cols[k] in row then row[cols[k]] else Null)
  }

  function HistoryColumns(row: Row): (v: seq<Value>)
    ensures |v| == 28
  {
    MotorsLength();
    Select(Selected(), row)
  }

  function ColumnInt(v: Value): int32 { if v.Integer? then ToInt32(v.i) else 0 }

  function ColumnInt64(v: Value): int64 { if v.Integer? then ToInt64(v.i) else 0 }

  function ColumnDouble(v: Value): real { if v.Real? then v.r else 0.0 }

  function ColumnText(v: Value): string { if v.Text? then v.s else "" }

  const ROW_FORMAT: seq<string> :=
    ["{\"type\":\"telemetry\",\"t\":", ",\"t_ns\":", ",\"seq\":", ",\"msg_ts_ns\":",
     ",\"robot_id\":\"", "\",\"imu_id\":\"", "\",\"tilt_id\":\"", "\",\"tilt_status\":",
     ",\"accel\":{\"x\":", ",\"y\":", ",\"z\":", "},\"gyro\":{\"x\":", ",\"y\":", ",\"z\":",
     "},\"tilt\":{\"x\":", ",\"y\":", ",\"z\":", "}"]

  const MOTORS_FORMAT: seq<string> :=
    [",\"motors\":{\"motor1\":{\"id\":\"", "\",\"tics\":", ",\"rpm\":", ",\"temperature_c\":",
     ",\"voltage_power_stage_mv\":", ",\"current_power_stage_ma\":",
     "},\"motor2\":{\"id\":\"", "\",\"tics\":", ",\"rpm\":", ",\"temperature_c\":",
     ",\"voltage_power_stage_mv\":", ",\"current_power_stage_ma\":", "}}"]

  function DoubleArgs(v: seq<Value>, fmt: real -> string): (r: seq<string>)
    requires |v| == 3
    ensures |r| == 3
  {
    [fmt(ColumnDouble(v[0])), fmt(ColumnDouble(v[1])), fmt(ColumnDouble(v[2]))]
  }

  function MotorArgs(v: seq<Value>): (r: seq<string>)
    requires |v| == 6
    ensures |r| == 6
  {
    [ColumnText(v[0]), Requests.Decimal(ColumnInt64(v[1])), Requests.Decimal(ColumnInt(v[2])),
     Requests.Decimal(ColumnInt(v[3])), Requests.Decimal(ColumnInt(v[4])), Requests.Decimal(ColumnInt(v[5]))]
  }

  function RowArgs(v: seq<Value>, fmt: real -> string): (r: seq<string>)
    requires |v| == 28
    ensures |r| == 17
  {
    [fmt(Seconds(ColumnInt64(v[0]))), Requests.Decimal(ColumnInt64(v[0])), Requests.Decimal(ColumnInt(v[2])),
     Requests.Decimal(ColumnInt64(v[3])), ColumnText(v[1]), ColumnText(v[4]), ColumnText(v[11]),
     Requests.Decimal(ColumnInt(v[15]))]
    + DoubleArgs(v[5..8], fmt) + DoubleArgs(v[8..11], fmt) + DoubleArgs(v[12..15], fmt)
  }

  function MotorsArgs(v: seq<Value>): (r: seq<string>)
    requires |v| == 28
    ensures |r| == 12
  {
    MotorArgs(v[16..22]) + MotorArgs(v[22..28])
  }

  /** append_row_as_sample_json: the motors appear when either of them has an id. */
  function RowText(v: seq<Value>, fmt: real -> string): string
    requires |v| == 28
  {
    Printf(ROW_FORMAT, RowArgs(v, fmt))
    + (if v[16] != Null || v[22] != Null then Printf(MOTORS_FORMAT, MotorsArgs(v)) else "")
    + "}"
  }

  method AppendRow(sb: StrBuf.Buffer, v: seq<Value>, fmt: real -> string)
    requires |v| == 28 && sb.Valid() && sb.len + |RowText(v, fmt)| + 1 <= StrBuf.HALF
    modifies sb, sb.buf
    ensures sb.Valid() && (sb.buf == old(sb.buf) || fresh(sb.buf))
    ensures sb.Text() == old(sb.Text()) + RowText(v, fmt)
  {
    hide Printf, RowArgs, MotorsArgs, StrBuf.IsCapacity;
    var head := Printf(ROW_FORMAT, RowArgs(v, fmt));
    var hasMotors := v[16] != Null || v[22] != Null;
    ghost var motors := if hasMotors then Printf(MOTORS_FORMAT, MotorsArgs(v)) else "";
    ghost var before := sb.Text();
    var ok := sb.Appendf(Some(head), true, true);
    if hasMotors {
      ok := sb.Appendf(Some(Printf(MOTORS_FORMAT, MotorsArgs(v))), true, true);
    }
    assert sb.Text() == before + head + motors;
    ok := sb.Append("}", true);
    Regroup(before, head, motors, "}");
  }

  // ---------- Both ways print the same ----------

  lemma HeadInOrder()
    ensures |INSERTED_HEAD| == 17 && forall i :: 0 <= i < |INSERTED_HEAD| ==> Position(INSERTED_HEAD[i]) == i + 1
  {
  }

  lemma InsertedDistinct()
    ensures |Inserted()| == 30 && Distinct(Inserted())
  {
    hide INSERTED_HEAD, MOTORS;
    HeadInOrder();
    MotorsInOrder();
    forall i | 0 <= i < 30
      ensures Position(Inserted()[i]) == i + 1
    {
    }
  }

  /** The query leaves out the topic and the raw bytes, and keeps the order. */
  lemma SelectedOrder()
    ensures |Inserted()| == 30 && Selected() == Inserted()[..1] + Inserted()[2..29]
  {
    assert |INSERTED_HEAD| == 17 && SELECTED_HEAD == INSERTED_HEAD[..1] + INSERTED_HEAD[2..];
    HeadSplits(INSERTED_HEAD, MOTORS);
  }

  lemma HeadSplits(head: seq<Column>, motors: seq<Column>)
    requires |head| == 17 && |motors| == 12
    ensures var all := head + motors + [Raw]; all[..1] + all[2..29] == head[..1] + head[2..] + motors
  {
  }

  lemma SelectStored(s: State)
    ensures HistoryColumns(Stored(s)) == Bound(s)[..1] + Bound(s)[2..29]
  {
    hide Assign, Bound, Distinct, Inserted, Selected;
    var row, b := Stored(s), Bound(s);
    InsertedDistinct();
    SelectedOrder();
    var ins := Inserted();
    forall k | 0 <= k < 28
      ensures HistoryColumns(row)[k] == (b[..1] + b[2..29])[k]
    {
      AssignAt(ins, b, if k == 0 then 0 else k + 1);
    }
  }

  lemma LiveIsMerged()
    ensures LIVE_FORMAT == Merge(Merge(ROW_FORMAT, MOTORS_FORMAT), ["}"])
  {
    assert LIVE_FORMAT[..17] == ROW_FORMAT[..17];
    assert LIVE_FORMAT[17] == ROW_FORMAT[17] + MOTORS_FORMAT[0];
    assert LIVE_FORMAT[18..29] == MOTORS_FORMAT[1..12];
    assert LIVE_FORMAT[29] == MOTORS_FORMAT[12] + "}";
    MergeAll(ROW_FORMAT, MOTORS_FORMAT, LIVE_FORMAT);
  }

  lemma MergeAll(f: seq<string>, g: seq<string>, live: seq<string>)
    requires |f| == 18 && |g| == 13 && |live| == 30
    requires live[..17] == f[..17] && live[17] == f[17] + g[0] && live[18..29] == g[1..12] && live[29] == g[12] + "}"
    ensures live == Merge(Merge(f, g), ["}"])
  {
    var m := Merge(f, g);
    assert m == f[..17] + [f[17] + g[0]] + g[1..];
    assert m[..17] == f[..17] && m[17] == f[17] + g[0] && m[18..29] == g[1..12] && m[29] == g[12];
    var r := Merge(m, ["}"]);
    assert r == m[..29] + [m[29] + "}"];
    assert r[..17] == m[..17] && r[18..29] == m[18..29];
    assert r == r[..17] + [r[17]] + r[18..29] + [r[29]];
    assert live == live[..17] + [live[17]] + live[18..29] + [live[29]];
  }

  lemma RowTextMerged(v: seq<Value>, fmt: real -> string)
    requires |v| == 28 && (v[16] != Null || v[22] != Null)
    ensures |LIVE_FORMAT| == 30
    ensures RowText(v, fmt) == Printf(LIVE_FORMAT, RowArgs(v, fmt) + MotorsArgs(v))
  {
    hide Printf, RowArgs, MotorsArgs, Merge, LIVE_FORMAT;
    LiveIsMerged();
    var a, b := RowArgs(v, fmt), MotorsArgs(v);
    PrintfMerge(ROW_FORMAT, a, MOTORS_FORMAT, b);
    PrintfMerge(Merge(ROW_FORMAT, MOTORS_FORMAT), a + b, ["}"], []);
    assert a + b + [] == a + b;
    PrintfLast("}");
  }

  lemma PrintfLast(s: string)
    ensures Printf([s], []) == s
  {
  }

  /** Where the bound values turn up in the answer. */
  lemma ColumnsOfStored(s: State)
    ensures var v := HistoryColumns(Stored(s));
            && v[0] == Integer(s.receivedAtNs) && v[1] == Text(s.robotId) && v[2] == Integer(ToInt32(s.seqNo))
            && v[3] == Integer(ToInt64(s.msgTimestampNs)) && v[4] == Text(s.imuId)
            && v[5..8] == BoundVector(s.acc) && v[8..11] == BoundVector(s.gyro)
            && v[11] == Text(s.tiltId) && v[12..15] == BoundVector(s.tilt) && v[15] == Integer(ToInt32(s.tiltStatus))
            && v[16..22] == BoundMotor(s.motor1) && v[22..28] == BoundMotor(s.motor2)
  {
    hide HistoryColumns, Stored, Bound, BoundVector, BoundMotor, ToInt32, ToInt64;
    SelectStored(s);
    BoundSlices(s);
    var v, b := HistoryColumns(Stored(s)), Bound(s);
    Shifted(v, b, 5, 8);
    Shifted(v, b, 8, 11);
    Shifted(v, b, 12, 15);
    Shifted(v, b, 16, 22);
    Shifted(v, b, 22, 28);
  }

  lemma Shifted(v: seq<Value>, b: seq<Value>, lo: nat, hi: nat)
    requires |b| == 30 && v == b[..1] + b[2..29] && 1 <= lo <= hi <= 28
    ensures v[lo..hi] == b[lo + 1..hi + 1]
  {
    forall k | 0 <= k < hi - lo
      ensures v[lo..hi][k] == b[lo + 1..hi + 1][k]
    {
      assert v[lo + k] == b[2..29][lo + k - 1] == b[lo + k + 1];
    }
  }

  lemma MotorArgsOfBound(m: Motor)
    ensures MotorArgs(BoundMotor(m)) == LiveMotorArgs(m)
  {
    hide Requests.Digits;
  }

  lemma DoubleArgsOfBound(v: Vector, fmt: real -> string)
    ensures DoubleArgs(BoundVector(v), fmt) == LiveVectorArgs(v, fmt)
  {
  }

  /** The arguments of the two prints agree but for the three unsigned values stored in signed columns. */
  lemma ArgsOfStored(s: State, fmt: real -> string)
    ensures var v := HistoryColumns(Stored(s));
            && v[16] != Null
            && RowArgs(v, fmt) + MotorsArgs(v)
               == LiveArgs(s, fmt)[2 := Requests.Decimal(ToInt32(s.seqNo))]
                                  [3 := Requests.Decimal(ToInt64(s.msgTimestampNs))]
                                  [7 := Requests.Decimal(ToInt32(s.tiltStatus))]
  {
    hide Stored, HistoryColumns, Requests.Decimal, Requests.Digits, MotorArgs, LiveMotorArgs, DoubleArgs,
      LiveVectorArgs,
      BoundVector, BoundMotor;
    ColumnsOfStored(s);
    MotorArgsOfBound(s.motor1);
    MotorArgsOfBound(s.motor2);
    DoubleArgsOfBound(s.acc, fmt);
    DoubleArgsOfBound(s.gyro, fmt);
    DoubleArgsOfBound(s.tilt, fmt);
    var v := HistoryColumns(Stored(s));
    BoundMotorIsText(s.motor1);
    assert v[16] == v[16..22][0];
  }

  lemma BoundMotorIsText(m: Motor)
    ensures BoundMotor(m)[0] == Text(m.id)
  {
  }

  /** What the browser gets on a replay is what it got live exactly when the sequence number and the tilt
      status fit in 31 bits and the message time in 63. */
  lemma ReplayFidelity(s: State, fmt: real -> string)
    ensures RowText(HistoryColumns(Stored(s)), fmt) == LiveText(s, fmt)
            <==> s.seqNo < 0x8000_0000 && s.tiltStatus < 0x8000_0000 && s.msgTimestampNs < 0x8000_0000_0000_0000
  {
    hide Printf, RowArgs, MotorsArgs, LiveArgs, Stored, HistoryColumns, Requests.Decimal, LIVE_FORMAT;
    var v := HistoryColumns(Stored(s));
    ArgsOfStored(s, fmt);
    RowTextMerged(v, fmt);
    var live := LiveArgs(s, fmt);
    var replayed := RowArgs(v, fmt) + MotorsArgs(v);
    UnsignedArgs(s, fmt);
    if s.seqNo >= 0x8000_0000 {
      Signs(s.seqNo, ToInt32(s.seqNo));
      PrintfDiffers(LIVE_FORMAT, live, replayed, 2);
    } else if s.msgTimestampNs >= 0x8000_0000_0000_0000 {
      Signs(s.seqNo, s.seqNo);
      Signs(s.msgTimestampNs, ToInt64(s.msgTimestampNs));
      PrintfDiffers(LIVE_FORMAT, live, replayed, 3);
    } else if s.tiltStatus >= 0x8000_0000 {
      Signs(s.seqNo, s.seqNo);
      Signs(s.msgTimestampNs, s.msgTimestampNs);
      Signs(s.tiltStatus, ToInt32(s.tiltStatus));
      PrintfDiffers(LIVE_FORMAT, live, replayed, 7);
    } else {
      Signs(s.seqNo, s.seqNo);
      Signs(s.msgTimestampNs, s.msgTimestampNs);
      Signs(s.tiltStatus, s.tiltStatus);
      assert replayed == live;
    }
  }

  lemma UnsignedArgs(s: State, fmt: real -> string)
    ensures LiveArgs(s, fmt)[2] == Requests.Digits(s.seqNo)
    ensures LiveArgs(s, fmt)[3] == Requests.Digits(s.msgTimestampNs)
    ensures LiveArgs(s, fmt)[7] == Requests.Digits(s.tiltStatus)
  {
    hide Requests.Digits, LiveVectorArgs, LiveMotorArgs;
    var head := LiveHeadArgs(s, fmt);
    assert LiveArgs(s, fmt)[..8] == head;
    assert LiveArgs(s, fmt)[2] == LiveArgs(s, fmt)[..8][2];
    assert LiveArgs(s, fmt)[3] == LiveArgs(s, fmt)[..8][3];
    assert LiveArgs(s, fmt)[7] == LiveArgs(s, fmt)[..8][7];
  }

  /** An unsigned value and a signed one: printed alike when equal, and with different first characters
      when the second is negative. */
  lemma Signs(n: nat, i: int)
    ensures i == n ==> Requests.Decimal(i) == Requests.Digits(n)
    ensures Requests.Digits(n) != "" && Requests.Decimal(i) != ""
    ensures i < 0 ==> Requests.Decimal(i)[0] != Requests.Digits(n)[0]
  {
  }

  // ---------- A whole history answer ----------

  ghost predicate Faithful(s: State) {
    s.seqNo < 0x8000_0000 && s.tiltStatus < 0x8000_0000 && s.msgTimestampNs < 0x8000_0000_0000_0000
  }

  function HistoryRow(s: State, fmt: real -> string): History.Row {
    History.Row(s.receivedAtNs, RowText(HistoryColumns(Stored(s)), fmt))
  }

  function HistoryRows(stored: seq<State>, fmt: real -> string): (rows: seq<History.Row>)
    ensures |rows| == |stored|
  {
    seq(|stored|, k requires 0 <= k < |stored| => HistoryRow(stored[k], fmt))
  }

  /** The answer to a history request carries, in order, the very texts the last samples had live. */
  lemma HistoryIsLiveTexts(stored: seq<State>, fmt: real -> string, limit: int, ix: seq<nat>, k: nat)
    requires var rows := HistoryRows(stored, fmt);
             && History.StrictlyIncreasing(History.Times(rows))
             && History.NewestFirst(History.Times(rows), History.ClampLimit(limit), ix)
    requires k < |ix| && Faithful(stored[|stored| - |ix| + k])
    ensures History.Items(HistoryRows(stored, fmt), ix)[k] == LiveText(stored[|stored| - |ix| + k], fmt)
  {
    hide LiveText, HistoryColumns, Stored, RowText;
    var rows := HistoryRows(stored, fmt);
    History.ItemsAreSuffix(rows, limit, ix);
    ReplayFidelity(stored[|stored| - |ix| + k], fmt);
  }
}
