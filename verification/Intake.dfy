/** The MQTT callback of telemetry_gateway.c: which messages become queued samples, and what they hold. */
module Intake {
  import opened Basics
  import opened Fidelity
  import SampleQueue

  const TOPIC := "/robot/v1/telemetry/state"

  datatype Header = Header(robotId: string, timestampNs: uint64, seqNo: uint32)

  /** A decoded message; what the sender left out is None, a text left out is empty. */
  datatype Message = Message(
    header: Option<Header>, imuId: string, tiltId: string,
    acc: Option<Vector>, gyro: Option<Vector>, tilt: Option<Vector>,
    tiltStatus: uint32, motor1: Option<Motor>, motor2: Option<Motor>)

  /** A text field of `cap` bytes, NUL included. */
  function SafeCopy(cap: nat, src: string, fallback: string): string
    requires cap > 0
  {
    var s := if src != "" then src else fallback;
    if |s| < cap then s else s[..cap - 1]
  }

  const ORIGIN := Vector(0.0, 0.0, 0.0)

  function VectorOf(v: Option<Vector>): Vector { if v.Some? then v.value else ORIGIN }

  function MotorOf(m: Option<Motor>, fallback: string): Motor {
    match m
    case None => Motor(SafeCopy(32, "", fallback), 0, 0, 0, 0, 0)
    case Some(v) => v.(id := SafeCopy(32, v.id, fallback))
  }

  /** The sample made of a message received at `now`. */
  function Sampled(m: Message, now: int64, raw: seq<nat>): State {
    State(now,
          if m.header.Some? then m.header.value.timestampNs else 0,
          if m.header.Some? then m.header.value.seqNo else 0,
          SafeCopy(64, if m.header.Some? then m.header.value.robotId else "", "robot"),
          SafeCopy(32, m.imuId, "imu0"), SafeCopy(32, m.tiltId, "tilt0"),
          VectorOf(m.acc), VectorOf(m.gyro), VectorOf(m.tilt), m.tiltStatus,
          MotorOf(m.motor1, "motor1"), MotorOf(m.motor2, "motor2"), TOPIC, raw)
  }

  /** One delivery by the MQTT library, with what decoding and allocation make of it. */
  datatype Delivery = Delivery(topic: string, payload: seq<nat>, decoded: Option<Message>, now: int64, gotRaw: bool,
                               gotNode: bool)

  function Accepted(running: bool, d: Delivery): bool { running && d.topic == TOPIC }

  /** The samples a delivery adds to the queue: one or none. */
  function Queued(running: bool, d: Delivery): seq<State> {
    if Accepted(running, d) && d.decoded.Some? && d.gotNode
    then [Sampled(d.decoded.value, d.now, if d.gotRaw then d.payload else [])]
    else []
  }

  // ---------- What a queued sample holds ----------

  /** `text` is the sender's, or the default where the sender's is empty, cut to what the field has room for. */
  ghost predicate IsCopy(text: string, sent: string, default: string, cap: nat)
    requires cap > 0
  {
    var whole := if sent == "" then default else sent;
    text <= whole && |text| == Min(|whole|, cap - 1)
  }

  ghost predicate VectorSent(v: Vector, sent: Option<Vector>) {
    match sent
    case Some(w) => v.x == w.x && v.y == w.y && v.z == w.z
    case None => v.x == 0.0 && v.y == 0.0 && v.z == 0.0
  }

  ghost predicate MotorSent(m: Motor, sent: Option<Motor>, default: string) {
    match sent
    case Some(w) =>
      && IsCopy(m.id, w.id, default, 32) && m.tics == w.tics && m.rpm == w.rpm && m.temperatureC == w.temperatureC
      && m.voltageMv == w.voltageMv && m.currentMa == w.currentMa
    case None =>
      m.id == default && m.tics == 0 && m.rpm == 0 && m.temperatureC == 0 && m.voltageMv == 0 && m.currentMa == 0
  }

  /** Field by field, what the sender sent, and zero or the field's own default for what was left out. */
  ghost predicate Holds(s: State, m: Message, d: Delivery) {
    && s.receivedAtNs == d.now && s.topic == d.topic && s.raw == (if d.gotRaw then d.payload else [])
    && s.msgTimestampNs == (if m.header.Some? then m.header.value.timestampNs else 0)
    && s.seqNo == (if m.header.Some? then m.header.value.seqNo else 0)
    && IsCopy(s.robotId, if m.header.Some? then m.header.value.robotId else "", "robot", 64)
    && IsCopy(s.imuId, m.imuId, "imu0", 32) && IsCopy(s.tiltId, m.tiltId, "tilt0", 32)
    && VectorSent(s.acc, m.acc) && VectorSent(s.gyro, m.gyro) && VectorSent(s.tilt, m.tilt)
    && s.tiltStatus == m.tiltStatus
    && MotorSent(s.motor1, m.motor1, "motor1") && MotorSent(s.motor2, m.motor2, "motor2")
  }

  lemma CopyIs(cap: nat, src: string, fallback: string)
    requires cap > 0
    ensures IsCopy(SafeCopy(cap, src, fallback), src, fallback, cap)
  {
  }

  lemma MotorHolds(m: Option<Motor>, fallback: string)
    requires 0 < |fallback| < 32
    ensures MotorSent(MotorOf(m, fallback), m, fallback)
  {
    hide IsCopy;
    CopyIs(32, if m.Some? then m.value.id else "", fallback);
    CopyIsFaithful(32, fallback, fallback);
  }

  /** A delivery that is taken, decodes and finds memory puts exactly one sample into the queue, and it holds what
      was sent; any other puts none. */
  lemma QueuedHolds(running: bool, d: Delivery)
    ensures if running && d.topic == "/robot/v1/telemetry/state" && d.decoded.Some? && d.gotNode
            then |Queued(running, d)| == 1 && Holds(Queued(running, d)[0], d.decoded.value, d)
            else Queued(running, d) == []
  {
    hide SafeCopy, IsCopy, MotorOf, MotorSent;
    if d.decoded.Some? {
      var m := d.decoded.value;
      CopyIs(64, if m.header.Some? then m.header.value.robotId else "", "robot");
      CopyIs(32, m.imuId, "imu0");
      CopyIs(32, m.tiltId, "tilt0");
      MotorHolds(m.motor1, "motor1");
      MotorHolds(m.motor2, "motor2");
    }
  }

  class Gateway {
    var running: bool
    var rxMsgs: nat
    var rxBytes: nat
    const queue: SampleQueue.Queue<State>

    constructor ()
      ensures running && rxMsgs == 0 && rxBytes == 0
      ensures fresh(queue) && queue.Valid() && queue.Contents() == [] && fresh(queue.spine)
    {
      running, rxMsgs, rxBytes := true, 0, 0;
      queue := new SampleQueue.Queue<State>();
    }

    /** on_message */
    method OnMessage(d: Delivery)
      requires queue.Valid()
      modifies this, queue, queue.spine
      ensures queue.Valid() && running == old(running)
      ensures forall n :: n in queue.spine ==> n in old(queue.spine) || fresh(n)
      ensures queue.Contents() == old(queue.Contents()) + Queued(running, d)
      ensures running && d.topic == TOPIC && d.decoded.Some? && d.gotNode ==>
        exists s :: queue.Contents() == old(queue.Contents()) + [s] && Holds(s, d.decoded.value, d)
      ensures !(running && d.topic == TOPIC && d.decoded.Some? && d.gotNode) ==>
        queue.Contents() == old(queue.Contents())
      ensures rxMsgs == old(rxMsgs) + if Accepted(running, d) then 1 else 0
      ensures rxBytes == old(rxBytes) + if Accepted(running, d) then |d.payload| else 0
    {
      hide Holds, Sampled;
      QueuedHolds(running, d);
      ghost var before := queue.Contents();
      assert before + [] == before;
      if !running {
        return;
      }
      if d.topic != TOPIC {
        return;
      }
      rxMsgs := rxMsgs + 1;
      rxBytes := rxBytes + |d.payload|;
      if d.decoded.None? {
        return;
      }
      var raw := if d.gotRaw then d.payload else [];
      queue.Push(Sampled(d.decoded.value, d.now, raw), d.gotNode);
      assert d.gotNode ==> Queued(running, d) == [Queued(running, d)[0]];
    }
  }

  function AllQueued(ds: seq<Delivery>): seq<State> {
    if ds == [] then [] else AllQueued(ds[..|ds| - 1]) + Queued(true, ds[|ds| - 1])
  }

  function Count(ds: seq<Delivery>, p: Delivery -> bool): nat {
    if ds == [] then 0 else Count(ds[..|ds| - 1], p) + if p(ds[|ds| - 1]) then 1 else 0
  }

  /** While the gateway runs, every message counted is queued, was not decodable, or found no memory. */
  lemma {:induction false} EveryMessageAccountedFor(ds: seq<Delivery>)
    ensures Count(ds, (d: Delivery) => Accepted(true, d))
         == |AllQueued(ds)| + Count(ds, (d: Delivery) => Accepted(true, d) && d.decoded.None?)
            + Count(ds, (d: Delivery) => Accepted(true, d) && d.decoded.Some? && !d.gotNode)
  {
    if ds != [] {
      EveryMessageAccountedFor(ds[..|ds| - 1]);
    }
  }

  /** A text gets through unchanged exactly if it is not empty and leaves room for the NUL. */
  lemma CopyIsFaithful(cap: nat, src: string, fallback: string)
    requires cap > 0 && fallback != "" && |fallback| < cap
    ensures var r := SafeCopy(cap, src, fallback);
            && 0 < |r| < cap
            && (r == src <==> 0 < |src| < cap)
  {
    var s := if src != "" then src else fallback;
    if |s| >= cap {
      assert |s[..cap - 1]| < |s|;
    }
  }

  /** Every queued sample has all its texts, each within its field: so its row always shows the motors. */
  lemma QueuedShowsMotors(m: Message, now: int64, raw: seq<nat>)
    ensures var s := Sampled(m, now, raw);
            && 0 < |s.robotId| < 64 && 0 < |s.imuId| < 32 && 0 < |s.tiltId| < 32
            && 0 < |s.motor1.id| < 32 && 0 < |s.motor2.id| < 32
            && HistoryColumns(Stored(s))[16] == Text(s.motor1.id) && HistoryColumns(Stored(s))[22] == Text(s.motor2.id)
  {
    hide HistoryColumns, Stored, SafeCopy;
    var s := Sampled(m, now, raw);
    CopyIsFaithful(64, if m.header.Some? then m.header.value.robotId else "", "robot");
    CopyIsFaithful(32, m.imuId, "imu0");
    CopyIsFaithful(32, m.tiltId, "tilt0");
    CopyIsFaithful(32, if m.motor1.Some? then m.motor1.value.id else "", "motor1");
    CopyIsFaithful(32, if m.motor2.Some? then m.motor2.value.id else "", "motor2");
    ColumnsOfStored(s);
    var v := HistoryColumns(Stored(s));
    assert v[16] == v[16..22][0] && v[22] == v[22..28][0];
  }

  /** From the sender to the page: the replayed text of a message is its live text if and only if the three
      unsigned numbers of the message fit the signed columns. */
  lemma MessageReplaysFaithfully(m: Message, now: int64, raw: seq<nat>, fmt: real -> string)
    ensures var s := Sampled(m, now, raw);
            RowText(HistoryColumns(Stored(s)), fmt) == LiveText(s, fmt)
            <==> m.tiltStatus < 0x8000_0000
                 && (m.header.Some? ==> m.header.value.seqNo < 0x8000_0000
                                        && m.header.value.timestampNs < 0x8000_0000_0000_0000)
  {
    hide RowText, HistoryColumns, Stored, LiveText;
    ReplayFidelity(Sampled(m, now, raw), fmt);
  }
}
