/** The live text, the text of a row and the history answer as JSON: which value stands behind which name. */
module LiveJson {
  import opened Migration
  import opened Fidelity
  import opened JsonText
  import History
  import Requests

  // ---------- The live text ----------

  function VectorJson(v: Vector, fmt: real -> string): Json {
    Object([Member("x", Number(fmt(v.x))), Member("y", Number(fmt(v.y))), Member("z", Number(fmt(v.z)))])
  }

  function MotorJson(m: Motor): Json {
    Object([Member("id", Quoted(m.id)), Member("tics", Number(Requests.Decimal(m.tics))),
            Member("rpm", Number(Requests.Decimal(m.rpm))),
            Member("temperature_c", Number(Requests.Decimal(m.temperatureC))),
            Member("voltage_power_stage_mv", Number(Requests.Decimal(m.voltageMv))),
            Member("current_power_stage_ma", Number(Requests.Decimal(m.currentMa)))])
  }

  /** A telemetry message, name by name; `t` is the receive time in seconds. */
  function SampleJson(s: State, t: real, fmt: real -> string): Json {
    Object([Member("type", Fixed("\"telemetry\"")), Member("t", Number(fmt(t))),
            Member("t_ns", Number(Requests.Decimal(s.receivedAtNs))),
            Member("seq", Number(Requests.Decimal(s.seqNo))),
            Member("msg_ts_ns", Number(Requests.Decimal(s.msgTimestampNs))),
            Member("robot_id", Quoted(s.robotId)), Member("imu_id", Quoted(s.imuId)),
            Member("tilt_id", Quoted(s.tiltId)),
            Member("tilt_status", Number(Requests.Decimal(s.tiltStatus))),
            Member("accel", VectorJson(s.acc, fmt)), Member("gyro", VectorJson(s.gyro, fmt)),
            Member("tilt", VectorJson(s.tilt, fmt)),
            Member("motors", Object([Member("motor1", MotorJson(s.motor1)), Member("motor2", MotorJson(s.motor2))]))])
  }

  lemma UnsignedIsDecimal(n: nat)
    ensures Requests.Digits(n) == Requests.Decimal(n)
  {
  }

  lemma SampleParts(s: State, t: real, fmt: real -> string)
    requires t * 1000000000.0 == s.receivedAtNs as real
    ensures SampleJson(s, t, fmt)
         == WithMotors(Message(LiveHeadArgs(s, fmt), LiveVectorArgs(s.acc, fmt), LiveVectorArgs(s.gyro, fmt),
                               LiveVectorArgs(s.tilt, fmt)),
                       LiveMotorArgs(s.motor1), LiveMotorArgs(s.motor2))
  {
    hide Requests.Decimal, Requests.Digits;
    UnsignedIsDecimal(s.seqNo);
    UnsignedIsDecimal(s.msgTimestampNs);
    UnsignedIsDecimal(s.tiltStatus);
    UnsignedIsDecimal(s.motor1.tics);
    UnsignedIsDecimal(s.motor2.tics);
    assert t == Seconds(s.receivedAtNs);
  }

  lemma ArgsRegroup(s: State, fmt: real -> string)
    ensures LiveArgs(s, fmt)
         == LiveHeadArgs(s, fmt)
            + (LiveVectorArgs(s.acc, fmt) + LiveVectorArgs(s.gyro, fmt) + LiveVectorArgs(s.tilt, fmt))
            + (LiveMotorArgs(s.motor1) + LiveMotorArgs(s.motor2))
  {
    hide LiveHeadArgs, LiveVectorArgs, LiveMotorArgs;
  }

  /** What is sent for a sample is one JSON object, with every field of the sample as the value of its name: the
      time is the receive time in seconds, and its nanoseconds, the ids, vectors and motors are the sample's. */
  lemma LiveIsObject(s: State, t: real, fmt: real -> string)
    requires t * 1000000000.0 == s.receivedAtNs as real
    ensures LiveText(s, fmt) == Print(SampleJson(s, t, fmt))
  {
    hide Printf, Print, LIVE_FORMAT, Message, WithMotors, LiveHeadArgs, LiveVectorArgs, LiveMotorArgs, SampleJson;
    SampleParts(s, t, fmt);
    ArgsRegroup(s, fmt);
    WithMotorsPrinted(LiveHeadArgs(s, fmt), LiveVectorArgs(s.acc, fmt), LiveVectorArgs(s.gyro, fmt),
                      LiveVectorArgs(s.tilt, fmt), LiveMotorArgs(s.motor1), LiveMotorArgs(s.motor2));
  }

  // ---------- The text of a row ----------

  /** A column of a row; one the row was stored without is NULL. */
  function Cell(row: Row, c: Column): Value { if c in row then row[c] else Null }

  function WholeText(v: Value): string { Requests.Decimal(if v.Integer? then v.i else 0) }

  function RealOf(v: Value): real { if v.Real? then v.r else 0.0 }

  function StringOf(v: Value): string { if v.Text? then v.s else "" }

  function CellsVector(row: Row, x: Column, y: Column, z: Column, fmt: real -> string): Json {
    Object([Member("x", Number(fmt(RealOf(Cell(row, x))))), Member("y", Number(fmt(RealOf(Cell(row, y))))),
            Member("z", Number(fmt(RealOf(Cell(row, z)))))])
  }

  function CellsMotor(row: Row, id: Column, tics: Column, rpm: Column, temp: Column, mv: Column, ma: Column): Json {
    Object([Member("id", Quoted(StringOf(Cell(row, id)))), Member("tics", Number(WholeText(Cell(row, tics)))),
            Member("rpm", Number(WholeText(Cell(row, rpm)))),
            Member("temperature_c", Number(WholeText(Cell(row, temp)))),
            Member("voltage_power_stage_mv", Number(WholeText(Cell(row, mv)))),
            Member("current_power_stage_ma", Number(WholeText(Cell(row, ma))))])
  }

  /** The members of a row's message, by column; NULL is zero or the empty text. */
  function CellsMembers(row: Row, t: real, fmt: real -> string): seq<Member> {
    [Member("type", Fixed("\"telemetry\"")), Member("t", Number(fmt(t))),
     Member("t_ns", Number(WholeText(Cell(row, ReceivedAtNs)))), Member("seq", Number(WholeText(Cell(row, Seq)))),
     Member("msg_ts_ns", Number(WholeText(Cell(row, MsgTimestampNs)))),
     Member("robot_id", Quoted(StringOf(Cell(row, RobotId)))), Member("imu_id", Quoted(StringOf(Cell(row, ImuId)))),
     Member("tilt_id", Quoted(StringOf(Cell(row, TiltId)))),
     Member("tilt_status", Number(WholeText(Cell(row, TiltStatus)))),
     Member("accel", CellsVector(row, AccX, AccY, AccZ, fmt)),
     Member("gyro", CellsVector(row, GyroX, GyroY, GyroZ, fmt)),
     Member("tilt", CellsVector(row, TiltX, TiltY, TiltZ, fmt))]
  }

  /** The motors are there if either of them has an id. */
  function RowJson(row: Row, t: real, fmt: real -> string): Json {
    if Cell(row, Motor1Id) == Null && Cell(row, Motor2Id) == Null then Object(CellsMembers(row, t, fmt))
    else
      Object(CellsMembers(row, t, fmt)
             + [Member("motors",
                       Object([Member("motor1", CellsMotor(row, Motor1Id, Motor1Tics, Motor1Rpm, Motor1TemperatureC,
                                                           Motor1VoltagePowerStageMv, Motor1CurrentPowerStageMa)),
                               Member("motor2", CellsMotor(row, Motor2Id, Motor2Tics, Motor2Rpm, Motor2TemperatureC,
                                                           Motor2VoltagePowerStageMv, Motor2CurrentPowerStageMa))]))])
  }

  ghost predicate FitsInt(v: Value) { v.Integer? ==> -0x8000_0000 <= v.i < 0x8000_0000 }

  ghost predicate FitsInt64(v: Value) { v.Integer? ==> -0x8000_0000_0000_0000 <= v.i < 0x8000_0000_0000_0000 }

  /** Whole numbers within what the reading functions return. */
  ghost predicate CellsFit(row: Row) {
    && FitsInt64(Cell(row, ReceivedAtNs)) && FitsInt64(Cell(row, MsgTimestampNs))
    && FitsInt(Cell(row, Seq)) && FitsInt(Cell(row, TiltStatus))
    && forall c :: c in MOTORS ==> FitsInt(Cell(row, c))
  }

  lemma SelectedAt(row: Row, k: nat)
    requires k < 28
    ensures |Selected()| == 28 && |Inserted()| == 30
    ensures HistoryColumns(row)[k] == Cell(row, Selected()[k])
    ensures Selected()[k] == Inserted()[if k == 0 then 0 else k + 1]
  {
    hide Inserted, Selected;
    SelectedOrder();
  }

  lemma WholeTextIs(v: Value)
    ensures FitsInt(v) ==> Requests.Decimal(ColumnInt(v)) == WholeText(v)
    ensures FitsInt64(v) ==> Requests.Decimal(ColumnInt64(v)) == WholeText(v)
  {
  }

  /** Where the query's columns come from. */
  lemma HeadCells(row: Row)
    ensures var v := HistoryColumns(row);
            && v[0] == Cell(row, ReceivedAtNs) && v[1] == Cell(row, RobotId) && v[2] == Cell(row, Seq)
            && v[3] == Cell(row, MsgTimestampNs) && v[4] == Cell(row, ImuId)
            && v[11] == Cell(row, TiltId) && v[15] == Cell(row, TiltStatus)
  {
    hide Inserted, Selected, HistoryColumns, Cell;
    InsertedNames();
    SelectedAt(row, 0);
    SelectedAt(row, 1);
    SelectedAt(row, 2);
    SelectedAt(row, 3);
    SelectedAt(row, 4);
    SelectedAt(row, 11);
    SelectedAt(row, 15);
  }

  lemma VectorCells(row: Row)
    ensures var v := HistoryColumns(row);
            && v[5] == Cell(row, AccX) && v[6] == Cell(row, AccY) && v[7] == Cell(row, AccZ)
            && v[8] == Cell(row, GyroX) && v[9] == Cell(row, GyroY) && v[10] == Cell(row, GyroZ)
            && v[12] == Cell(row, TiltX) && v[13] == Cell(row, TiltY) && v[14] == Cell(row, TiltZ)
  {
    hide Inserted, Selected, HistoryColumns, Cell;
    InsertedNames();
    SelectedAt(row, 5);
    SelectedAt(row, 6);
    SelectedAt(row, 7);
    SelectedAt(row, 8);
    SelectedAt(row, 9);
    SelectedAt(row, 10);
    SelectedAt(row, 12);
    SelectedAt(row, 13);
    SelectedAt(row, 14);
  }

  lemma MotorCells(row: Row)
    ensures var v := HistoryColumns(row);
            && v[16] == Cell(row, Motor1Id) && v[17] == Cell(row, Motor1Tics) && v[18] == Cell(row, Motor1Rpm)
            && v[19] == Cell(row, Motor1TemperatureC) && v[20] == Cell(row, Motor1VoltagePowerStageMv)
            && v[21] == Cell(row, Motor1CurrentPowerStageMa)
            && v[22] == Cell(row, Motor2Id) && v[23] == Cell(row, Motor2Tics) && v[24] == Cell(row, Motor2Rpm)
            && v[25] == Cell(row, Motor2TemperatureC) && v[26] == Cell(row, Motor2VoltagePowerStageMv)
            && v[27] == Cell(row, Motor2CurrentPowerStageMa)
  {
    hide Inserted, Selected, HistoryColumns, Cell;
    InsertedNames();
    SelectedAt(row, 16);
    SelectedAt(row, 17);
    SelectedAt(row, 18);
    SelectedAt(row, 19);
    SelectedAt(row, 20);
    SelectedAt(row, 21);
    SelectedAt(row, 22);
    SelectedAt(row, 23);
    SelectedAt(row, 24);
    SelectedAt(row, 25);
    SelectedAt(row, 26);
    SelectedAt(row, 27);
  }

  function HeadArgs(row: Row, t: real, fmt: real -> string): (a: seq<string>)
    ensures |a| == 8
  {
    [fmt(t), WholeText(Cell(row, ReceivedAtNs)), WholeText(Cell(row, Seq)), WholeText(Cell(row, MsgTimestampNs)),
     StringOf(Cell(row, RobotId)), StringOf(Cell(row, ImuId)), StringOf(Cell(row, TiltId)),
     WholeText(Cell(row, TiltStatus))]
  }

  lemma MembersOfCells(row: Row, t: real, fmt: real -> string)
    ensures var v := HistoryColumns(row);
            CellsMembers(row, t, fmt)
            == Message(HeadArgs(row, t, fmt), DoubleArgs(v[5..8], fmt), DoubleArgs(v[8..11], fmt),
                       DoubleArgs(v[12..15], fmt))
  {
    hide HistoryColumns, Cell, Requests.Decimal;
    VectorCells(row);
  }

  lemma RowArgsOfCells(row: Row, t: real, fmt: real -> string)
    requires CellsFit(row) && t * 1000000000.0 == ColumnInt64(Cell(row, ReceivedAtNs)) as real
    ensures var v := HistoryColumns(row);
            RowArgs(v, fmt)
            == HeadArgs(row, t, fmt)
               + (DoubleArgs(v[5..8], fmt) + DoubleArgs(v[8..11], fmt) + DoubleArgs(v[12..15], fmt))
  {
    hide HistoryColumns, Cell, Requests.Decimal, DoubleArgs, ToInt32, ToInt64;
    var v := HistoryColumns(row);
    HeadCells(row);
    WholeTextIs(v[0]);
    WholeTextIs(v[2]);
    WholeTextIs(v[3]);
    WholeTextIs(v[15]);
    assert t == Seconds(ColumnInt64(v[0]));
  }

  lemma MotorOfCells(row: Row, v: seq<Value>, id: Column, tics: Column, rpm: Column, temp: Column, mv: Column,
                     ma: Column)
    requires |v| == 6 && v[0] == Cell(row, id) && v[1] == Cell(row, tics) && v[2] == Cell(row, rpm)
    requires v[3] == Cell(row, temp) && v[4] == Cell(row, mv) && v[5] == Cell(row, ma)
    requires forall k :: 1 <= k < 6 ==> FitsInt(v[k])
    ensures CellsMotor(row, id, tics, rpm, temp, mv, ma) == MotorOf(MotorArgs(v))
  {
    hide Cell, Requests.Decimal, ToInt32, WholeText, ColumnInt;
    WholeTextIs(v[1]);
    WholeTextIs(v[2]);
    WholeTextIs(v[3]);
    WholeTextIs(v[4]);
    WholeTextIs(v[5]);
  }

  lemma MotorsFit(row: Row)
    requires CellsFit(row)
    ensures FitsInt(Cell(row, Motor1Tics)) && FitsInt(Cell(row, Motor1Rpm)) && FitsInt(Cell(row, Motor1TemperatureC))
    ensures FitsInt(Cell(row, Motor1VoltagePowerStageMv)) && FitsInt(Cell(row, Motor1CurrentPowerStageMa))
    ensures FitsInt(Cell(row, Motor2Tics)) && FitsInt(Cell(row, Motor2Rpm)) && FitsInt(Cell(row, Motor2TemperatureC))
    ensures FitsInt(Cell(row, Motor2VoltagePowerStageMv)) && FitsInt(Cell(row, Motor2CurrentPowerStageMa))
  {
    hide MOTORS, FitsInt, Cell;
    MotorNames();
  }

  lemma MotorsOfCells(row: Row, t: real, fmt: real -> string)
    requires CellsFit(row)
    ensures var v := HistoryColumns(row);
            RowJson(row, t, fmt)
            == if v[16] == Null && v[22] == Null then Object(CellsMembers(row, t, fmt))
               else WithMotors(CellsMembers(row, t, fmt), MotorArgs(v[16..22]), MotorArgs(v[22..28]))
  {
    hide HistoryColumns, Cell, CellsMembers, MotorArgs, CellsMotor, MotorOf, FitsInt, CellsFit;
    var v := HistoryColumns(row);
    MotorCells(row);
    MotorsFit(row);
    MotorOfCells(row, v[16..22], Motor1Id, Motor1Tics, Motor1Rpm, Motor1TemperatureC, Motor1VoltagePowerStageMv,
                 Motor1CurrentPowerStageMa);
    MotorOfCells(row, v[22..28], Motor2Id, Motor2Tics, Motor2Rpm, Motor2TemperatureC, Motor2VoltagePowerStageMv,
                 Motor2CurrentPowerStageMa);
  }

  /** What a history answer has for any row, also one stored before there were motors or by someone else: one JSON
      object with every column as the value of its name. */
  lemma RowIsObject(row: Row, t: real, fmt: real -> string)
    requires CellsFit(row) && t * 1000000000.0 == ColumnInt64(Cell(row, ReceivedAtNs)) as real
    ensures RowText(HistoryColumns(row), fmt) == Print(RowJson(row, t, fmt))
  {
    hide HistoryColumns, Cell, CellsMembers, Message, MotorArgs, DoubleArgs, Printf, Print, RowArgs, HeadArgs, RowJson,
      WithMotors, LIVE_FORMAT, ROW_FORMAT, MOTORS_FORMAT;
    var v := HistoryColumns(row);
    var h, a, b, c := HeadArgs(row, t, fmt), DoubleArgs(v[5..8], fmt), DoubleArgs(v[8..11], fmt),
                      DoubleArgs(v[12..15], fmt);
    MembersOfCells(row, t, fmt);
    RowArgsOfCells(row, t, fmt);
    MotorsOfCells(row, t, fmt);
    if v[16] == Null && v[22] == Null {
      WithoutMotors(h, a, b, c);
      TextWithoutMotors(v, fmt);
    } else {
      RowTextMerged(v, fmt);
      WithMotorsPrinted(h, a, b, c, MotorArgs(v[16..22]), MotorArgs(v[22..28]));
    }
  }

  lemma TextWithoutMotors(v: seq<Value>, fmt: real -> string)
    requires |v| == 28 && v[16] == Null && v[22] == Null
    ensures |ROW_FORMAT| == 18 && RowText(v, fmt) == Printf(ROW_FORMAT, RowArgs(v, fmt)) + "}"
  {
    hide Printf, RowArgs;
    var row := Printf(ROW_FORMAT, RowArgs(v, fmt));
    assert row + "" == row;
  }

  // ---------- The history answer ----------

  function Printed(js: seq<Json>): (texts: seq<string>)
    ensures |texts| == |js|
  {
    seq(|js|, k requires 0 <= k < |js| => Print(js[k]))
  }

  function HistoryJson(js: seq<Json>): Json {
    Object([Member("type", Fixed("\"history\"")), Member("items", Array(js))])
  }

  lemma {:induction false} JoinIsItems(js: seq<Json>)
    ensures History.Join(Printed(js)) == PrintItems(js)
  {
    if |js| > 1 {
      assert Printed(js)[1..] == Printed(js[1..]);
      JoinIsItems(js[1..]);
    }
  }

  /** The history text of some objects is the JSON object with the array of them, in order. */
  lemma HistoryIsObject(js: seq<Json>)
    ensures History.HistoryText(Printed(js)) == Print(HistoryJson(js))
  {
    hide PrintItems, History.Join;
    JoinIsItems(js);
    var type_, items := Member("type", Fixed("\"history\"")), Member("items", Array(js));
    assert [type_, items][1..] == [items];
    assert PrintMembers([items]) == "\"" + "items" + "\":" + ("[" + PrintItems(js) + "]");
    assert PrintMembers([type_, items]) == "\"" + "type" + "\":" + "\"history\"" + "," + PrintMembers([items]);
    HistoryTexts(PrintItems(js));
  }

  lemma HistoryTexts(list: string)
    ensures History.PREFIX + list + History.SUFFIX
         == "{" + ("\"" + "type" + "\":" + "\"history\"" + "," + ("\"" + "items" + "\":" + ("[" + list + "]"))) + "}"
  {
  }

  /** The answer to a history request for samples that fit the columns is one object with the last samples as its
      items, in the order stored, each as it was sent live. */
  lemma AnswerIsObjects(stored: seq<State>, fmt: real -> string, limit: int, ix: seq<nat>, seconds: State -> real)
    requires var rows := HistoryRows(stored, fmt);
             && History.StrictlyIncreasing(History.Times(rows))
             && History.NewestFirst(History.Times(rows), History.ClampLimit(limit), ix)
    requires forall s :: s in stored ==> Faithful(s) && seconds(s) * 1000000000.0 == s.receivedAtNs as real
    ensures |ix| <= |stored|
    ensures var last := stored[|stored| - |ix|..];
            var js := seq(|last|, k requires 0 <= k < |last| => SampleJson(last[k], seconds(last[k]), fmt));
            History.HistoryText(History.Items(HistoryRows(stored, fmt), ix)) == Print(HistoryJson(js))
  {
    hide History.NewestFirst, History.StrictlyIncreasing, History.HistoryText, Print, LiveText, SampleJson, Faithful;
    WindowFits(stored, fmt, limit, ix);
    var last := stored[|stored| - |ix|..];
    var js := seq(|last|, k requires 0 <= k < |last| => SampleJson(last[k], seconds(last[k]), fmt));
    var items := History.Items(HistoryRows(stored, fmt), ix);
    forall k | 0 <= k < |ix|
      ensures items[k] == Printed(js)[k]
    {
      assert last[k] in stored;
      HistoryIsLiveTexts(stored, fmt, limit, ix, k);
      LiveIsObject(last[k], seconds(last[k]), fmt);
    }
    assert items == Printed(js);
    HistoryIsObject(js);
  }

  lemma WindowFits(stored: seq<State>, fmt: real -> string, limit: int, ix: seq<nat>)
    requires History.NewestFirst(History.Times(HistoryRows(stored, fmt)), History.ClampLimit(limit), ix)
    ensures |ix| <= |stored| && forall k :: 0 <= k < |ix| ==> ix[k] < |stored|
  {
  }
}
