/** JSON, and the telemetry message as the formats of the gateway print it: which argument stands behind which
    name. */
module JsonText {
  import opened Fidelity

  // ---------- JSON ----------

  /** A text stands between quotation marks as it is, and a number as its digits; `Fixed` is a value that the
      format itself holds. */
  datatype Json =
    | Fixed(token: string)
    | Number(digits: string)
    | Quoted(text: string)
    | Object(members: seq<Member>)
    | Array(items: seq<Json>)

  datatype Member = Member(name: string, value: Json)

  function Print(j: Json): string
    decreases j, 0
  {
    match j
    case Fixed(t) => t
    case Number(d) => d
    case Quoted(t) => "\"" + t + "\""
    case Object(ms) => "{" + PrintMembers(ms) + "}"
    case Array(js) => "[" + PrintItems(js) + "]"
  }

  function PrintMembers(ms: seq<Member>): string
    decreases ms, 1
  {
    if ms == [] then ""
    else
      var first := "\"" + ms[0].name + "\":" + Print(ms[0].value);
      if |ms| == 1 then first else first + "," + PrintMembers(ms[1..])
  }

  function PrintItems(js: seq<Json>): string
    decreases js, 1
  {
    if js == [] then ""
    else if |js| == 1 then Print(js[0])
    else Print(js[0]) + "," + PrintItems(js[1..])
  }

  // ---------- The same by printf ----------

  /** A value that one printf prints: the parts of its format, and the arguments between them. */
  function Format(j: Json): (f: seq<string>)
    requires NoArrays(j)
    ensures f != []
    decreases j, 0
  {
    match j
    case Fixed(t) => [t]
    case Number(_) => ["", ""]
    case Quoted(_) => ["\"", "\""]
    case Object(ms) => Merge(Merge(["{"], MembersFormat(ms)), ["}"])
  }

  function MembersFormat(ms: seq<Member>): (f: seq<string>)
    requires forall k :: 0 <= k < |ms| ==> NoArrays(ms[k].value)
    ensures f != []
    decreases ms, 1
  {
    if ms == [] then [""]
    else
      var first := Merge(["\"" + ms[0].name + "\":"], Format(ms[0].value));
      if |ms| == 1 then first else Merge(first, Merge([","], MembersFormat(ms[1..])))
  }

  predicate NoArrays(j: Json) {
    match j
    case Object(ms) => forall k :: 0 <= k < |ms| ==> NoArrays(ms[k].value)
    case Array(_) => false
    case _ => true
  }

  function Args(j: Json): seq<string>
    requires NoArrays(j)
    decreases j, 0
  {
    match j
    case Fixed(_) => []
    case Number(d) => [d]
    case Quoted(t) => [t]
    case Object(ms) => MembersArgs(ms)
  }

  function MembersArgs(ms: seq<Member>): seq<string>
    requires forall k :: 0 <= k < |ms| ==> NoArrays(ms[k].value)
    decreases ms, 1
  {
    if ms == [] then [] else Args(ms[0].value) + MembersArgs(ms[1..])
  }

  lemma {:induction false} PrintIsPrintf(j: Json)
    requires NoArrays(j)
    ensures |Format(j)| == |Args(j)| + 1 && Print(j) == Printf(Format(j), Args(j))
    decreases j, 0
  {
    match j
    case Fixed(t) => PrintfLast(t);
    case Number(d) => OneArgument("", d, "");
    case Quoted(t) => OneArgument("\"", t, "\"");
    case Object(ms) =>
      hide Printf, Merge;
      MembersPrint(ms);
      Around("{", MembersFormat(ms), MembersArgs(ms), "}");
  }

  lemma OneArgument(a: string, x: string, b: string)
    ensures Printf([a, b], [x]) == a + x + b
  {
    assert [a, b][1..] == [b] && [x][1..] == [];
  }

  lemma Around(a: string, f: seq<string>, args: seq<string>, b: string)
    requires |f| == |args| + 1
    ensures |Merge(Merge([a], f), [b])| == |args| + 1
    ensures Printf(Merge(Merge([a], f), [b]), args) == a + Printf(f, args) + b
  {
    hide Printf, Merge;
    PrintfMerge([a], [], f, args);
    assert [] + args == args && args + [] == args;
    PrintfMerge(Merge([a], f), args, [b], []);
    PrintfLast(a);
    PrintfLast(b);
  }

  lemma {:induction false} MembersPrint(ms: seq<Member>)
    requires forall k :: 0 <= k < |ms| ==> NoArrays(ms[k].value)
    ensures |MembersFormat(ms)| == |MembersArgs(ms)| + 1
    ensures PrintMembers(ms) == Printf(MembersFormat(ms), MembersArgs(ms))
    decreases ms, 1
  {
    hide Printf, Merge;
    if ms == [] {
      PrintfLast("");
    } else {
      var name, value := "\"" + ms[0].name + "\":", ms[0].value;
      PrintIsPrintf(value);
      PrintfMerge([name], [], Format(value), Args(value));
      PrintfLast(name);
      assert [] + Args(value) == Args(value) && Args(value) + [] == Args(value);
      if |ms| > 1 {
        MembersPrint(ms[1..]);
        var f, a := MembersFormat(ms[1..]), MembersArgs(ms[1..]);
        PrintfMerge([","], [], f, a);
        PrintfLast(",");
        assert [] + a == a;
        PrintfMerge(Merge([name], Format(value)), Args(value), Merge([","], f), a);
        Regroup(name + Print(value), "", ",", PrintMembers(ms[1..]));
      }
    }
  }

  // ---------- The objects ----------

  function VectorOf(a: seq<string>): Json
    requires |a| == 3
  {
    Object([Member("x", Number(a[0])), Member("y", Number(a[1])), Member("z", Number(a[2]))])
  }

  function MotorOf(a: seq<string>): Json
    requires |a| == 6
  {
    Object([Member("id", Quoted(a[0])), Member("tics", Number(a[1])), Member("rpm", Number(a[2])),
            Member("temperature_c", Number(a[3])), Member("voltage_power_stage_mv", Number(a[4])),
            Member("current_power_stage_ma", Number(a[5]))])
  }

  function MotorsOf(a: seq<string>, b: seq<string>): Json
    requires |a| == 6 && |b| == 6
  {
    Object([Member("motor1", MotorOf(a)), Member("motor2", MotorOf(b))])
  }

  // ---------- Their formats ----------

  const VECTOR_FORMAT: seq<string> := ["{\"x\":", ",\"y\":", ",\"z\":", "}"]

  predicate IsScalar(j: Json) { j.Number? || j.Quoted? }

  function Quote(j: Json): string { if j.Quoted? then "\"" else "" }

  function Content(j: Json): string
    requires IsScalar(j)
  {
    if j.Quoted? then j.text else j.digits
  }

  /** What a format has in front of the `k`th of some members without members of their own. */
  function Before(ms: seq<Member>, k: nat): string
    requires k < |ms|
  {
    (if k == 0 then "" else Quote(ms[k - 1].value) + ",") + ("\"" + ms[k].name + "\":") + Quote(ms[k].value)
  }

  lemma BeforeShift(ms: seq<Member>, k: nat)
    requires 1 <= k < |ms|
    ensures k == 1 ==> Before(ms, 1) == Quote(ms[0].value) + ("," + Before(ms[1..], 0))
    ensures k > 1 ==> Before(ms, k) == Before(ms[1..], k - 1)
  {
    hide Quote;
    if k == 1 {
      var q, name := Quote(ms[0].value), "\"" + ms[1].name + "\":";
      assert "" + name == name;
      Regroup(q, ",", name, Quote(ms[1].value));
      Regroup(",", "", name, Quote(ms[1].value));
    }
  }

  lemma BeforeFirst(ms: seq<Member>)
    requires ms != []
    ensures Before([ms[0]], 0) == Before(ms, 0)
  {
  }

  lemma MergeInFront(a: string, b: string, f: seq<string>)
    requires f != []
    ensures Merge([a, b], Merge([","], f)) == [a, b + ("," + f[0])] + f[1..]
  {
    var h := Merge([","], f);
    assert h == ["," + f[0]] + f[1..];
    assert h[1..] == f[1..] && [a, b][..1] == [a];
  }

  lemma ScalarFormat(m: Member)
    requires IsScalar(m.value)
    ensures Merge(["\"" + m.name + "\":"], Format(m.value)) == [Before([m], 0), Quote(m.value)]
    ensures Args(m.value) == [Content(m.value)]
  {
    var name := "\"" + m.name + "\":";
    assert "" + name == name;
  }

  lemma {:induction false} ScalarsFormat(ms: seq<Member>)
    requires ms != [] && forall k :: 0 <= k < |ms| ==> IsScalar(ms[k].value)
    ensures forall k :: 0 <= k < |ms| ==> NoArrays(ms[k].value)
    ensures var f, a := MembersFormat(ms), MembersArgs(ms);
            && |f| == |ms| + 1 && f[|ms|] == Quote(ms[|ms| - 1].value)
            && |a| == |ms|
            && forall k :: 0 <= k < |ms| ==> f[k] == Before(ms, k) && a[k] == Content(ms[k].value)
  {
    hide Merge, Format, Args, Quote, Content, Before;
    ScalarFormat(ms[0]);
    BeforeFirst(ms);
    if |ms| > 1 {
      var rest := ms[1..];
      ScalarsFormat(rest);
      MergeInFront(Before(ms, 0), Quote(ms[0].value), MembersFormat(rest));
      forall k | 1 <= k < |ms|
        ensures MembersFormat(ms)[k] == Before(ms, k)
      {
        BeforeShift(ms, k);
      }
    }
  }

  lemma BracesAround(f: seq<string>)
    requires |f| >= 2
    ensures Merge(Merge(["{"], f), ["}"]) == ["{" + f[0]] + f[1..|f| - 1] + [f[|f| - 1] + "}"]
  {
    var n := |f| - 1;
    var open := Merge(["{"], f);
    assert open == ["{" + f[0]] + f[1..];
    assert open[..n] == ["{" + f[0]] + f[1..n];
  }

  lemma VectorFormat(a: seq<string>)
    requires |a| == 3
    ensures NoArrays(VectorOf(a)) && Format(VectorOf(a)) == VECTOR_FORMAT && Args(VectorOf(a)) == a
  {
    hide MembersFormat, MembersArgs, Merge;
    var ms := VectorOf(a).members;
    ScalarsFormat(ms);
    BracesAround(MembersFormat(ms));
    assert Before(ms, 0) == "\"x\":" && Before(ms, 1) == ",\"y\":" && Before(ms, 2) == ",\"z\":";
    var f := MembersFormat(ms);
    assert f[1..3] == [",\"y\":", ",\"z\":"];
    assert "{" + f[0] == "{\"x\":" && f[3] + "}" == "}";
  }

  const MOTOR_FORMAT: seq<string> :=
    ["{\"id\":\"", "\",\"tics\":", ",\"rpm\":", ",\"temperature_c\":", ",\"voltage_power_stage_mv\":",
     ",\"current_power_stage_ma\":", "}"]

  lemma NumberNamed(ms: seq<Member>, k: nat, p: string)
    requires 1 <= k < |ms| && !ms[k].value.Quoted?
    requires p == (if ms[k - 1].value.Quoted? then "\",\"" else ",\"") + ms[k].name + "\":"
    ensures Before(ms, k) == p
  {
  }

  lemma MotorIdNames(ms: seq<Member>)
    requires |ms| == 6 && ms[0].value.Quoted? && forall k :: 1 <= k < 6 ==> ms[k].value.Number?
    requires ms[0].name == "id" && ms[1].name == "tics" && ms[2].name == "rpm"
    ensures Before(ms, 0) == "\"id\":\"" && Before(ms, 1) == "\",\"tics\":" && Before(ms, 2) == ",\"rpm\":"
  {
    assert Before(ms, 0) == "\"id\":\"";
    hide Before;
    NumberNamed(ms, 1, "\",\"tics\":");
    NumberNamed(ms, 2, ",\"rpm\":");
  }

  lemma StageNames(ms: seq<Member>)
    requires |ms| == 6 && forall k :: 1 <= k < 6 ==> ms[k].value.Number?
    requires ms[3].name == "temperature_c"
    requires ms[4].name == "voltage_power_stage_mv" && ms[5].name == "current_power_stage_ma"
    ensures Before(ms, 3) == ",\"temperature_c\":" && Before(ms, 4) == ",\"voltage_power_stage_mv\":"
    ensures Before(ms, 5) == ",\"current_power_stage_ma\":"
  {
    hide Before;
    NumberNamed(ms, 3, ",\"temperature_c\":");
    NumberNamed(ms, 4, ",\"voltage_power_stage_mv\":");
    NumberNamed(ms, 5, ",\"current_power_stage_ma\":");
  }

  lemma MotorFormat(a: seq<string>)
    requires |a| == 6
    ensures NoArrays(MotorOf(a)) && Format(MotorOf(a)) == MOTOR_FORMAT && Args(MotorOf(a)) == a
  {
    hide MembersFormat, MembersArgs, Merge, Before;
    var ms := MotorOf(a).members;
    ScalarsFormat(ms);
    MotorIdNames(ms);
    StageNames(ms);
    var f := MembersFormat(ms);
    BracesAround(f);
    assert f[1..6] == MOTOR_FORMAT[1..6];
    assert "{" + f[0] == "{\"id\":\"" && f[6] + "}" == "}";
  }

  // ---------- The message as a whole ----------

  lemma MergeAt(f: seq<string>, x: string, y: string, g: seq<string>, xy: string)
    requires xy == x + y
    ensures Merge(f + [x], [y] + g) == f + [xy] + g
  {
    assert (f + [x])[..|f|] == f && ([y] + g)[1..] == g;
  }

  lemma MergeAssociative(f: seq<string>, g: seq<string>, h: seq<string>)
    requires f != [] && g != [] && h != []
    ensures Merge(Merge(f, g), h) == Merge(f, Merge(g, h))
  {
    var m, n := |f| - 1, |g| - 1;
    var left, right := Merge(Merge(f, g), h), Merge(f, Merge(g, h));
    if n == 0 {
      assert Merge(f, g) == f[..m] + [f[m] + g[0]];
      assert Merge(g, h) == [g[0] + h[0]] + h[1..];
      assert f[m] + g[0] + h[0] == f[m] + (g[0] + h[0]);
    } else {
      assert Merge(f, g) == f[..m] + [f[m] + g[0]] + g[1..n] + [g[n]];
      assert Merge(g, h) == [g[0]] + g[1..n] + [g[n] + h[0]] + h[1..];
      assert left == f[..m] + [f[m] + g[0]] + g[1..n] + [g[n] + h[0]] + h[1..];
      assert right == left;
    }
  }

  /** The members of an object, in two parts. */
  lemma {:induction false} MembersJoin(ms: seq<Member>, ns: seq<Member>)
    requires ms != [] && ns != []
    requires forall k :: 0 <= k < |ms| ==> NoArrays(ms[k].value)
    requires forall k :: 0 <= k < |ns| ==> NoArrays(ns[k].value)
    ensures forall k :: 0 <= k < |ms + ns| ==> NoArrays((ms + ns)[k].value)
    ensures MembersFormat(ms + ns) == Merge(MembersFormat(ms), Merge([","], MembersFormat(ns)))
    ensures MembersArgs(ms + ns) == MembersArgs(ms) + MembersArgs(ns)
  {
    hide Merge, Format, Args, NoArrays;
    var m, tail := ms[0], ms[1..];
    assert (ms + ns)[1..] == tail + ns;
    if tail == [] {
      assert tail + ns == ns && MembersArgs(tail) == [];
    } else {
      MembersJoin(tail, ns);
      var first, rest, more := Merge(["\"" + m.name + "\":"], Format(m.value)), MembersFormat(tail), MembersFormat(ns);
      MergeAssociative([","], rest, Merge([","], more));
      MergeAssociative(first, Merge([","], rest), Merge([","], more));
    }
  }

  lemma NamedVector(m: Member, a: seq<string>, p: string)
    requires |a| == 3 && m.value == VectorOf(a) && p == "\"" + m.name + "\":" + VECTOR_FORMAT[0]
    ensures NoArrays(m.value) && MembersFormat([m]) == [p] + VECTOR_FORMAT[1..] && MembersArgs([m]) == a
  {
    hide Format, Args, VectorOf;
    VectorFormat(a);
    OneMember(m);
  }

  function VectorsOf(a: seq<string>, b: seq<string>, c: seq<string>): (ms: seq<Member>)
    requires |a| == |b| == |c| == 3
    ensures |ms| == 3
  {
    [Member("accel", VectorOf(a)), Member("gyro", VectorOf(b)), Member("tilt", VectorOf(c))]
  }

  const VECTORS_FORMAT: seq<string> :=
    ["\"accel\":{\"x\":", ",\"y\":", ",\"z\":", "},\"gyro\":{\"x\":", ",\"y\":", ",\"z\":",
     "},\"tilt\":{\"x\":", ",\"y\":", ",\"z\":", "}"]

  lemma VectorsFormat(a: seq<string>, b: seq<string>, c: seq<string>)
    requires |a| == |b| == |c| == 3
    ensures forall k :: 0 <= k < 3 ==> NoArrays(VectorsOf(a, b, c)[k].value)
    ensures MembersFormat(VectorsOf(a, b, c)) == VECTORS_FORMAT && MembersArgs(VectorsOf(a, b, c)) == a + b + c
  {
    hide MembersFormat, MembersArgs, Merge, VectorOf;
    var ms := VectorsOf(a, b, c);
    NamedVector(ms[0], a, "\"accel\":{\"x\":");
    NamedVector(ms[1], b, "\"gyro\":{\"x\":");
    NamedVector(ms[2], c, "\"tilt\":{\"x\":");
    MembersJoin([ms[0]], [ms[1]]);
    MembersJoin([ms[0]] + [ms[1]], [ms[2]]);
    assert [ms[0]] + [ms[1]] + [ms[2]] == ms;
    JoinVectors(["\"accel\":{\"x\":"], "\"gyro\":{\"x\":", "},\"gyro\":{\"x\":");
    var two := ["\"accel\":{\"x\":", ",\"y\":", ",\"z\":", "},\"gyro\":{\"x\":"];
    assert MembersFormat([ms[0]] + [ms[1]]) == two + VECTOR_FORMAT[1..];
    JoinVectors(two, "\"tilt\":{\"x\":", "},\"tilt\":{\"x\":");
  }

  /** A format that ends in a vector, and one more vector behind it. */
  lemma JoinVectors(f: seq<string>, p: string, q: string)
    requires q == "}" + ("," + p)
    ensures Merge(f + VECTOR_FORMAT[1..], Merge([","], [p] + VECTOR_FORMAT[1..]))
         == f + [",\"y\":", ",\"z\":", q] + VECTOR_FORMAT[1..]
  {
    hide Merge;
    var y: seq<string> := [",\"y\":", ",\"z\":"];
    assert f + VECTOR_FORMAT[1..] == f + y + ["}"];
    Joined(f + y, "}", p, VECTOR_FORMAT[1..], q);
    assert f + [",\"y\":", ",\"z\":", q] == f + y + [q];
  }

  lemma Joined(f: seq<string>, x: string, y: string, g: seq<string>, xy: string)
    requires xy == x + ("," + y)
    ensures Merge(f + [x], Merge([","], [y] + g)) == f + [xy] + g
  {
    MergeAt([], ",", y, g, "," + y);
    assert [] + [","] == [","] && [] + ["," + y] + g == ["," + y] + g;
    MergeAt(f, x, "," + y, g, xy);
  }

  function NumbersOf(a: seq<string>): seq<Member>
    requires |a| == 8
  {
    [Member("t", Number(a[0])), Member("t_ns", Number(a[1])), Member("seq", Number(a[2])),
     Member("msg_ts_ns", Number(a[3])), Member("robot_id", Quoted(a[4])), Member("imu_id", Quoted(a[5])),
     Member("tilt_id", Quoted(a[6])), Member("tilt_status", Number(a[7]))]
  }

  const TYPE := Member("type", Fixed("\"telemetry\""))

  const HEAD_FORMAT: seq<string> :=
    ["\"type\":\"telemetry\",\"t\":", ",\"t_ns\":", ",\"seq\":", ",\"msg_ts_ns\":", ",\"robot_id\":\"",
     "\",\"imu_id\":\"", "\",\"tilt_id\":\"", "\",\"tilt_status\":", ""]

  /** What stands in front of a member behind another one. */
  lemma NamedBefore(ms: seq<Member>, k: nat, p: string)
    requires 1 <= k < |ms|
    requires p == (if ms[k - 1].value.Quoted? then "\",\"" else ",\"") + ms[k].name
                  + if ms[k].value.Quoted? then "\":\"" else "\":"
    ensures Before(ms, k) == p
  {
  }

  lemma NumberNames(a: seq<string>)
    requires |a| == 8
    ensures var ms := NumbersOf(a);
            && Before(ms, 0) == "\"t\":" && Before(ms, 1) == ",\"t_ns\":" && Before(ms, 2) == ",\"seq\":"
            && Before(ms, 3) == ",\"msg_ts_ns\":"
  {
    var ms := NumbersOf(a);
    assert Before(ms, 0) == "\"t\":";
    hide Before;
    NamedBefore(ms, 1, ",\"t_ns\":");
    NamedBefore(ms, 2, ",\"seq\":");
    NamedBefore(ms, 3, ",\"msg_ts_ns\":");
  }

  lemma IdNames(a: seq<string>)
    requires |a| == 8
    ensures var ms := NumbersOf(a);
            Before(ms, 4) == ",\"robot_id\":\"" && Before(ms, 5) == "\",\"imu_id\":\""
  {
    hide Before;
    var ms := NumbersOf(a);
    NamedBefore(ms, 4, ",\"robot_id\":\"");
    NamedBefore(ms, 5, "\",\"imu_id\":\"");
  }

  lemma TiltNames(a: seq<string>)
    requires |a| == 8
    ensures var ms := NumbersOf(a);
            Before(ms, 6) == "\",\"tilt_id\":\"" && Before(ms, 7) == "\",\"tilt_status\":"
  {
    hide Before;
    var ms := NumbersOf(a);
    NamedBefore(ms, 6, "\",\"tilt_id\":\"");
    NamedBefore(ms, 7, "\",\"tilt_status\":");
  }

  lemma HeadFormat(a: seq<string>)
    requires |a| == 8
    ensures var ms := [TYPE] + NumbersOf(a);
            && (forall k :: 0 <= k < |ms| ==> NoArrays(ms[k].value))
            && MembersFormat(ms) == HEAD_FORMAT && MembersArgs(ms) == a
  {
    hide MembersFormat, MembersArgs, Merge, Before;
    var ms := NumbersOf(a);
    ScalarsFormat(ms);
    NumberNames(a);
    IdNames(a);
    TiltNames(a);
    var f := MembersFormat(ms);
    assert f == ["\"t\":"] + HEAD_FORMAT[1..];
    TypeFormat();
    MembersJoin([TYPE], ms);
    Joined([], "\"type\":\"telemetry\"", "\"t\":", HEAD_FORMAT[1..], HEAD_FORMAT[0]);
    assert [] + ["\"type\":\"telemetry\""] == ["\"type\":\"telemetry\""];
    assert [] + [HEAD_FORMAT[0]] + HEAD_FORMAT[1..] == HEAD_FORMAT;
    assert MembersArgs(ms) == a && [] + MembersArgs(ms) == MembersArgs(ms);
  }

  lemma TypeFormat()
    ensures MembersFormat([TYPE]) == ["\"type\":\"telemetry\""] && MembersArgs([TYPE]) == []
  {
    assert "\"" + TYPE.name + "\":" == "\"type\":";
    assert "\"type\":" + "\"telemetry\"" == "\"type\":\"telemetry\"";
    assert Merge(["\"type\":"], ["\"telemetry\""]) == ["\"type\":\"telemetry\""];
  }

  // ---------- The motors ----------

  lemma NamedMotor(m: Member, a: seq<string>, p: string)
    requires |a| == 6 && m.value == MotorOf(a) && p == "\"" + m.name + "\":" + MOTOR_FORMAT[0]
    ensures NoArrays(m.value) && MembersFormat([m]) == [p] + MOTOR_FORMAT[1..] && MembersArgs([m]) == a
  {
    hide Format, Args, MotorOf;
    MotorFormat(a);
    OneMember(m);
  }

  /** A motor, and one more behind it. */
  lemma JoinMotors(p: string, q: string, r: string)
    requires r == "}" + ("," + q)
    ensures Merge([p] + MOTOR_FORMAT[1..], Merge([","], [q] + MOTOR_FORMAT[1..]))
         == [p] + MOTOR_FORMAT[1..6] + [r] + MOTOR_FORMAT[1..6] + ["}"]
  {
    hide Merge;
    var middle := MOTOR_FORMAT[1..6];
    assert MOTOR_FORMAT[1..] == middle + ["}"];
    SplitEnds(p, middle, q, r);
    Joined([p] + middle, "}", q, middle + ["}"], r);
  }

  lemma SplitEnds(p: string, f: seq<string>, q: string, r: string)
    ensures [p] + (f + ["}"]) == [p] + f + ["}"]
    ensures [p] + f + [r] + (f + ["}"]) == [p] + f + [r] + f + ["}"]
  {
  }

  lemma OneMember(m: Member)
    requires NoArrays(m.value)
    ensures MembersFormat([m]) == Merge(["\"" + m.name + "\":"], Format(m.value))
    ensures MembersArgs([m]) == Args(m.value)
  {
    hide Merge, Format, Args;
    assert Args(m.value) + [] == Args(m.value);
  }

  lemma ObjectFormat(ms: seq<Member>)
    requires forall k :: 0 <= k < |ms| ==> NoArrays(ms[k].value)
    ensures NoArrays(Object(ms)) && Args(Object(ms)) == MembersArgs(ms)
    ensures Format(Object(ms)) == Merge(Merge(["{"], MembersFormat(ms)), ["}"])
  {
  }

  /** An object as the only member: `p` is where its first name ends, `q` where it ends. */
  lemma NamedObject(name: string, ms: seq<Member>, f: seq<string>, p: string, q: string)
    requires (forall k :: 0 <= k < |ms| ==> NoArrays(ms[k].value)) && MembersFormat(ms) == f && |f| >= 2
    requires p == "\"" + name + "\":" + ("{" + f[0]) && q == f[|f| - 1] + "}"
    ensures NoArrays(Object(ms)) && MembersFormat([Member(name, Object(ms))]) == [p] + f[1..|f| - 1] + [q]
    ensures MembersArgs([Member(name, Object(ms))]) == MembersArgs(ms)
  {
    hide Merge, MembersFormat, Format, MembersArgs;
    ObjectFormat(ms);
    OneMember(Member(name, Object(ms)));
    NamedBraces("\"" + name + "\":", f, p, q);
  }

  lemma NamedBraces(start: string, f: seq<string>, p: string, q: string)
    requires |f| >= 2 && p == start + ("{" + f[0]) && q == f[|f| - 1] + "}"
    ensures Merge([start], Merge(Merge(["{"], f), ["}"])) == [p] + f[1..|f| - 1] + [q]
  {
    hide Merge;
    BracesAround(f);
    var middle := f[1..|f| - 1];
    PlusAssociative(["{" + f[0]], middle, [q]);
    MergeAt([], start, "{" + f[0], middle + [q], p);
    PlusAssociative([p], middle, [q]);
    assert [] + [start] == [start] && [] + [p] == [p];
  }

  lemma PlusAssociative(a: seq<string>, b: seq<string>, c: seq<string>)
    ensures a + b + c == a + (b + c)
  {
  }

  const MOTOR1 := "\"motor1\":{\"id\":\""
  const MOTOR2 := "\"motor2\":{\"id\":\""
  const BETWEEN := "},\"motor2\":{\"id\":\""
  const MOTORS_START := "\"motors\":{\"motor1\":{\"id\":\""

  lemma MotorsFormat(a: seq<string>, b: seq<string>)
    requires |a| == 6 && |b| == 6
    ensures NoArrays(MotorsOf(a, b))
    ensures MembersFormat([Member("motors", MotorsOf(a, b))]) == [MOTORS_START] + MOTORS_FORMAT[1..]
    ensures MembersArgs([Member("motors", MotorsOf(a, b))]) == a + b
  {
    hide MembersFormat, MembersArgs, Merge, MotorOf, MOTOR_FORMAT, MOTORS_FORMAT, MOTOR1, MOTOR2, BETWEEN, MOTORS_START;
    var m1, m2 := Member("motor1", MotorOf(a)), Member("motor2", MotorOf(b));
    MotorStarts();
    NamedMotor(m1, a, MOTOR1);
    NamedMotor(m2, b, MOTOR2);
    MembersJoin([m1], [m2]);
    JoinMotors(MOTOR1, MOTOR2, BETWEEN);
    MotorsTail(MembersFormat([m1] + [m2]));
    NamedObject("motors", [m1] + [m2], MembersFormat([m1] + [m2]), MOTORS_START, "}}");
    assert MotorsOf(a, b) == Object([m1] + [m2]) by {
      assert [m1] + [m2] == [m1, m2];
    }
  }

  lemma MotorStarts()
    ensures |MOTOR_FORMAT| == 7
    ensures MOTOR1 == "\"" + "motor1" + "\":" + MOTOR_FORMAT[0] && MOTOR2 == "\"" + "motor2" + "\":" + MOTOR_FORMAT[0]
    ensures BETWEEN == "}" + ("," + MOTOR2) && MOTORS_START == "\"" + "motors" + "\":" + ("{" + MOTOR1)
    ensures "}" + "}" == "}}"
  {
  }

  lemma MotorsParts()
    ensures |MOTOR_FORMAT| == 7 && |MOTORS_FORMAT| == 13 && MOTORS_FORMAT[6] == BETWEEN && MOTORS_FORMAT[12] == "}}"
    ensures MOTORS_FORMAT[1..6] == MOTOR_FORMAT[1..6] && MOTORS_FORMAT[7..12] == MOTOR_FORMAT[1..6]
  {
  }

  lemma MotorsTail(f: seq<string>)
    requires |MOTOR_FORMAT| == 7
    requires f == [MOTOR1] + MOTOR_FORMAT[1..6] + [BETWEEN] + MOTOR_FORMAT[1..6] + ["}"]
    ensures |f| == 13 && f[0] == MOTOR1 && f[12] == "}"
    ensures |MOTORS_FORMAT| == 13 && f[1..12] + ["}}"] == MOTORS_FORMAT[1..]
  {
    hide MOTOR_FORMAT, MOTORS_FORMAT, MOTOR1, BETWEEN;
    MotorsParts();
    assert MOTORS_FORMAT[1..] == MOTORS_FORMAT[1..6] + [MOTORS_FORMAT[6]] + MOTORS_FORMAT[7..12] + [MOTORS_FORMAT[12]];
    assert f[1..12] == MOTOR_FORMAT[1..6] + [BETWEEN] + MOTOR_FORMAT[1..6];
  }

  // ---------- Whole messages ----------

  /** The formats of the parts, put together, are the one format of the live text. */
  lemma PartsMakeLive()
    ensures var head := Merge(HEAD_FORMAT, Merge([","], VECTORS_FORMAT));
            Merge(Merge(["{"], Merge(head, Merge([","], [MOTORS_START] + MOTORS_FORMAT[1..]))), ["}"]) == LIVE_FORMAT
  {
    hide Merge, LIVE_FORMAT, MOTORS_FORMAT;
    var head := Merge(HEAD_FORMAT, Merge([","], VECTORS_FORMAT));
    HeadMakesRow();
    MotorsMake();
    MergeAssociative(["{"], head, MOTORS_FORMAT);
    LiveIsMerged();
  }

  lemma HeadAndVectors(h: string, head: seq<string>, v: string, vectors: seq<string>, p: string, q: string)
    requires p == "{" + h && q == "" + ("," + v)
    ensures Merge(["{"], Merge([h] + head + [""], Merge([","], [v] + vectors))) == [p] + head + [q] + vectors
  {
    hide Merge;
    Joined([h] + head, "", v, vectors, q);
    PlusAssociative([h], head, [q]);
    PlusAssociative([h], head + [q], vectors);
    MergeAt([], "{", h, head + [q] + vectors, p);
    assert [] + ["{"] == ["{"] && [] + [p] == [p];
    PlusAssociative([p], head, [q]);
    PlusAssociative([p], head + [q], vectors);
  }

  lemma HeadSplit()
    ensures HEAD_FORMAT == [HEAD_FORMAT[0]] + HEAD_FORMAT[1..8] + [""] && |VECTORS_FORMAT| == 10
    ensures VECTORS_FORMAT == [VECTORS_FORMAT[0]] + VECTORS_FORMAT[1..]
    ensures ROW_FORMAT == [ROW_FORMAT[0]] + ROW_FORMAT[1..8] + [ROW_FORMAT[8]] + ROW_FORMAT[9..]
    ensures ROW_FORMAT[1..8] == HEAD_FORMAT[1..8] && ROW_FORMAT[9..] == VECTORS_FORMAT[1..]
  {
  }

  lemma HeadTexts()
    ensures ROW_FORMAT[0] == "{" + HEAD_FORMAT[0] && ROW_FORMAT[8] == "" + ("," + VECTORS_FORMAT[0])
  {
  }

  lemma HeadMakesRow()
    ensures Merge(["{"], Merge(HEAD_FORMAT, Merge([","], VECTORS_FORMAT))) == ROW_FORMAT
  {
    HeadSplit();
    HeadTexts();
    hide Merge, HEAD_FORMAT, VECTORS_FORMAT, ROW_FORMAT;
    HeadAndVectors(HEAD_FORMAT[0], HEAD_FORMAT[1..8], VECTORS_FORMAT[0], VECTORS_FORMAT[1..], ROW_FORMAT[0],
                   ROW_FORMAT[8]);
  }

  lemma MotorsMake()
    ensures |MOTORS_FORMAT| == 13 && Merge([","], [MOTORS_START] + MOTORS_FORMAT[1..]) == MOTORS_FORMAT
  {
    hide Merge;
    MergeAt([], ",", MOTORS_START, MOTORS_FORMAT[1..], MOTORS_FORMAT[0]);
    assert [] + [","] == [","] && [] + [MOTORS_FORMAT[0]] == [MOTORS_FORMAT[0]];
  }

  function Message(h: seq<string>, a: seq<string>, b: seq<string>, c: seq<string>): (ms: seq<Member>)
    requires |h| == 8 && |a| == |b| == |c| == 3
    ensures ms != []
  {
    [TYPE] + NumbersOf(h) + VectorsOf(a, b, c)
  }

  lemma MessageFormat(h: seq<string>, a: seq<string>, b: seq<string>, c: seq<string>)
    requires |h| == 8 && |a| == |b| == |c| == 3
    ensures var ms := Message(h, a, b, c);
            && (forall k :: 0 <= k < |ms| ==> NoArrays(ms[k].value))
            && MembersFormat(ms) == Merge(HEAD_FORMAT, Merge([","], VECTORS_FORMAT))
            && MembersArgs(ms) == h + (a + b + c)
  {
    hide Merge, MembersFormat, MembersArgs, HEAD_FORMAT, VECTORS_FORMAT, NumbersOf, VectorsOf;
    HeadFormat(h);
    VectorsFormat(a, b, c);
    MembersJoin([TYPE] + NumbersOf(h), VectorsOf(a, b, c));
  }

  lemma WithoutMotors(h: seq<string>, a: seq<string>, b: seq<string>, c: seq<string>)
    requires |h| == 8 && |a| == |b| == |c| == 3
    ensures Printf(ROW_FORMAT, h + (a + b + c)) + "}" == Print(Object(Message(h, a, b, c)))
  {
    hide Merge, MembersFormat, MembersArgs, Printf, ROW_FORMAT, HEAD_FORMAT, VECTORS_FORMAT, Message, Format, Args;
    var ms, args := Message(h, a, b, c), h + (a + b + c);
    MessageFormat(h, a, b, c);
    ObjectFormat(ms);
    PrintIsPrintf(Object(ms));
    HeadMakesRow();
    PrintfMerge(ROW_FORMAT, args, ["}"], []);
    PrintfLast("}");
    assert args + [] == args;
  }

  function WithMotors(ms: seq<Member>, m1: seq<string>, m2: seq<string>): Json
    requires |m1| == |m2| == 6
  {
    Object(ms + [Member("motors", MotorsOf(m1, m2))])
  }

  lemma WithMotorsFormat(h: seq<string>, a: seq<string>, b: seq<string>, c: seq<string>, m1: seq<string>,
                         m2: seq<string>)
    requires |h| == 8 && |a| == |b| == |c| == 3 && |m1| == |m2| == 6
    ensures var j := WithMotors(Message(h, a, b, c), m1, m2);
            NoArrays(j) && Format(j) == LIVE_FORMAT && Args(j) == h + (a + b + c) + (m1 + m2)
  {
    hide Merge, MembersFormat, MembersArgs, LIVE_FORMAT, HEAD_FORMAT, VECTORS_FORMAT, MOTORS_FORMAT, MOTORS_START,
      Message, MotorsOf, Format, Args;
    var ms, motors := Message(h, a, b, c), [Member("motors", MotorsOf(m1, m2))];
    MotorsMake();
    MessageFormat(h, a, b, c);
    MotorsFormat(m1, m2);
    MembersJoin(ms, motors);
    ObjectFormat(ms + motors);
    PartsMakeLive();
  }

  lemma WithMotorsPrinted(h: seq<string>, a: seq<string>, b: seq<string>, c: seq<string>, m1: seq<string>,
                          m2: seq<string>)
    requires |h| == 8 && |a| == |b| == |c| == 3 && |m1| == |m2| == 6
    ensures |LIVE_FORMAT| == 30
    ensures Printf(LIVE_FORMAT, h + (a + b + c) + (m1 + m2)) == Print(WithMotors(Message(h, a, b, c), m1, m2))
  {
    hide Printf, Print, LIVE_FORMAT, Message, Format, Args, WithMotors;
    WithMotorsFormat(h, a, b, c, m1, m2);
    PrintIsPrintf(WithMotors(Message(h, a, b, c), m1, m2));
  }
}
