/** The planned disconnection in a run's log, and the time from its end to the first live sample. */
module RecoveryTime {
  import opened Basics

  /** IndexError is Python's, raised where an empty list is indexed. */
  datatype Result<+T> = Ok(value: T) | IndexError

  datatype Event = WsOpen | WsClose | LiveTelemetry | OtherEvent

  /** A log row; its time is missing where the cell was not a number. */
  datatype Row = Row(event: Event, wallMs: Option<real>)

  datatype Pair = Pair(closeT: real, openT: real)

  /** What sort_values leaves: times ascending, rows without a time last. */
  ghost predicate Sorted(rows: seq<Row>) {
    forall i, j :: 0 <= i < j < |rows| && rows[j].wallMs.Some? ==>
      rows[i].wallMs.Some? && rows[i].wallMs.value <= rows[j].wallMs.value
  }

  predicate Timed(r: Row, e: Event) { r.event == e && r.wallMs.Some? }

  /** A connection was lost in row `i` and is next seen open, later, in row `j`. */
  ghost predicate Outage(rows: seq<Row>, i: nat, j: nat) {
    && i < j < |rows| && Timed(rows[i], WsClose) && Timed(rows[j], WsOpen)
    && rows[i].wallMs.value < rows[j].wallMs.value
    && forall k :: i < k < j ==> !Timed(rows[k], WsOpen)
  }

  /** After the close in row `i` the connection is seen open, but never with a time. */
  ghost predicate NoOpenTime(rows: seq<Row>, i: nat) {
    && i < |rows| && Timed(rows[i], WsClose)
    && (exists k :: i < k < |rows| && rows[k].event == WsOpen)
    && (forall k :: i < k < |rows| ==> !Timed(rows[k], WsOpen))
  }

  function Abs(x: real): (a: real)
    ensures a >= 0.0 && (a == x || a == -x)
  {
    if x < 0.0 then -x else x
  }

  /** How far an outage is from the planned length. */
  function Distance(rows: seq<Row>, i: nat, j: nat, target: real): (d: real)
    requires i < |rows| && j < |rows| && rows[i].wallMs.Some? && rows[j].wallMs.Some?
    ensures d >= 0.0
    ensures rows[j].wallMs.value == rows[i].wallMs.value + target + d
            || rows[j].wallMs.value == rows[i].wallMs.value + target - d
  {
    Abs(rows[j].wallMs.value - rows[i].wallMs.value - target)
  }

  /** The first row from `from` on that shows the connection open at a known time. */
  method FirstTimedOpen(rows: seq<Row>, from: nat) returns (anyOpen: bool, j: nat)
    requires from <= |rows|
    ensures from <= j <= |rows|
    ensures anyOpen <==> exists k :: from <= k < |rows| && rows[k].event == WsOpen
    ensures j < |rows| ==> Timed(rows[j], WsOpen)
    ensures forall k :: from <= k < j ==> !Timed(rows[k], WsOpen)
  {
    anyOpen, j := false, from;
    while j < |rows| && !Timed(rows[j], WsOpen)
      invariant from <= j <= |rows|
      invariant anyOpen <==> exists k :: from <= k < j && rows[k].event == WsOpen
      invariant forall k :: from <= k < j ==> !Timed(rows[k], WsOpen)
    {
      if rows[j].event == WsOpen {
        anyOpen := true;
      }
      j := j + 1;
    }
    if j < |rows| {
      assert rows[j].event == WsOpen;
      anyOpen := true;
    }
  }

  /** `best` is the outage closest to the plan among those that start before row `n`, the first of equals. */
  ghost predicate Closest(rows: seq<Row>, target: real, n: nat, best: Option<(nat, nat)>) {
    match best
    case None => forall k: nat, l: nat :: k < n ==> !Outage(rows, k, l)
    case Some((i, j)) =>
      && i < n && Outage(rows, i, j)
      && forall k: nat, l: nat :: k < n && Outage(rows, k, l) ==>
           Distance(rows, i, j, target) < Distance(rows, k, l, target)
           || (Distance(rows, i, j, target) == Distance(rows, k, l, target) && i <= k)
  }

  lemma OutageUnique(rows: seq<Row>, i: nat, j: nat, l: nat)
    requires Outage(rows, i, j) && Outage(rows, i, l)
    ensures j == l
  {
  }

  /** planned_disconnect_pair. The candidates are gone through in order, and a later one is preferred only
      when strictly closer, which is what the first of the stably sorted candidates is. */
  method PlannedDisconnectPair(rows: seq<Row>, outageS: real)
    returns (r: Result<Option<Pair>>, ghost at: Option<(nat, nat)>)
    ensures r.IndexError? <==> exists i: nat :: NoOpenTime(rows, i)
    ensures r.Ok? ==> Closest(rows, outageS * 1000.0, |rows|, at) && (at.None? <==> r.value.None?)
    ensures r.Ok? && at.Some? ==> rows[at.value.0].wallMs == Some(r.value.value.closeT)
    ensures r.Ok? && at.Some? ==> rows[at.value.1].wallMs == Some(r.value.value.openT)
  {
    var target := outageS * 1000.0;
    var best: Option<(nat, nat)> := None;
    for idx := 0 to |rows|
      invariant Closest(rows, target, idx, best)
      invariant forall i: nat :: i < idx ==> !NoOpenTime(rows, i)
    {
      if Timed(rows[idx], WsClose) {
        var anyOpen, j := FirstTimedOpen(rows, idx + 1);
        if anyOpen && j == |rows| {
          assert NoOpenTime(rows, idx);
          return IndexError, None;
        }
        if j < |rows| && rows[idx].wallMs.value < rows[j].wallMs.value {
          best := Better(rows, target, idx, j, best);
        } else {
          assert forall l: nat :: !Outage(rows, idx, l);
        }
      }
    }
    at := best;
    match best
    case None => r := Ok(None);
    case Some((i, j)) => r := Ok(Some(Pair(rows[i].wallMs.value, rows[j].wallMs.value)));
  }

  method Better(rows: seq<Row>, target: real, idx: nat, j: nat, best: Option<(nat, nat)>)
    returns (r: Option<(nat, nat)>)
    requires Outage(rows, idx, j) && Closest(rows, target, idx, best)
    ensures Closest(rows, target, idx + 1, r)
  {
    var here := Distance(rows, idx, j, target);
    r := if best.None? || here < Distance(rows, best.value.0, best.value.1, target) then Some((idx, j)) else best;
    forall k: nat, l: nat | k < idx + 1 && Outage(rows, k, l)
      ensures k < idx || l == j
    {
      if k == idx {
        OutageUnique(rows, idx, j, l);
      }
    }
  }

  /** compute_recovery_time_ms: from the end of the outage to the first live sample not before it. */
  method ComputeRecoveryTime(rows: seq<Row>, outageS: real)
    returns (r: Result<Option<real>>, ghost at: Option<(nat, nat)>)
    requires Sorted(rows)
    ensures r.IndexError? <==> exists i: nat :: NoOpenTime(rows, i)
    ensures r.Ok? ==> Closest(rows, outageS * 1000.0, |rows|, at)
    ensures r.Ok? && at.None? ==> r.value.None?
    ensures r.Ok? && at.Some? ==> IsRecoveryTime(rows, rows[at.value.1].wallMs.value, r.value)
  {
    var p;
    p, at := PlannedDisconnectPair(rows, outageS);
    if p.IndexError? {
      return IndexError, at;
    }
    if p.value.None? {
      return Ok(None), at;
    }
    var openT := p.value.value.openT;
    for k := 0 to |rows|
      invariant forall l :: 0 <= l < k && Timed(rows[l], LiveTelemetry) ==> rows[l].wallMs.value < openT
    {
      if Timed(rows[k], LiveTelemetry) && rows[k].wallMs.value >= openT {
        assert rows[k].wallMs.value == openT + (rows[k].wallMs.value - openT);
        return Ok(Some(rows[k].wallMs.value - openT)), at;
      }
    }
    r := Ok(None);
  }

  /** No live sample comes in the recovery time, and one comes at its end. */
  ghost predicate IsRecoveryTime(rows: seq<Row>, openT: real, t: Option<real>) {
    match t
    case None => forall l :: 0 <= l < |rows| && Timed(rows[l], LiveTelemetry) ==> rows[l].wallMs.value < openT
    case Some(d) =>
      && d >= 0.0
      && (exists k :: 0 <= k < |rows| && Timed(rows[k], LiveTelemetry) && rows[k].wallMs.value == openT + d)
      && (forall l :: 0 <= l < |rows| && Timed(rows[l], LiveTelemetry) ==>
            rows[l].wallMs.value < openT || openT + d <= rows[l].wallMs.value)
  }

  /** The recovery time of a pair of times is one number. */
  lemma RecoveryTimeUnique(rows: seq<Row>, openT: real, t: Option<real>, u: Option<real>)
    requires IsRecoveryTime(rows, openT, t) && IsRecoveryTime(rows, openT, u)
    ensures t == u
  {
    if t.Some? && u.Some? {
      var k :| 0 <= k < |rows| && Timed(rows[k], LiveTelemetry) && rows[k].wallMs.value == openT + t.value;
      var l :| 0 <= l < |rows| && Timed(rows[l], LiveTelemetry) && rows[l].wallMs.value == openT + u.value;
    }
  }

  /** The choice is one pair. */
  lemma ClosestUnique(rows: seq<Row>, target: real, p: Option<(nat, nat)>, q: Option<(nat, nat)>)
    requires Closest(rows, target, |rows|, p) && Closest(rows, target, |rows|, q)
    ensures p == q
  {
    if p.Some? && q.Some? {
      var (i, j) := p.value;
      var (k, l) := q.value;
      assert i == k;
      OutageUnique(rows, i, j, l);
    }
  }
}
