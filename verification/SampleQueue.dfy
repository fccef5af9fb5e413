/** The linked queue between the MQTT callback and the writer thread of telemetry_gateway.c. Its
    methods run under the queue mutex; waiting for work is the subject of module Wakeup. */
module SampleQueue {
  import opened Basics

  class Node<T> {
    const value: T
    var next: Node?<T>

    constructor (value: T)
      ensures this.value == value && this.next == null
    {
      this.value := value;
      this.next := null;
    }
  }

  lemma AppendShift<T>(a: seq<T>, x: T, b: seq<T>)
    ensures a + ([x] + b) == a + [x] + b
  {
  }

  class Queue<T(0)> {
    var head: Node?<T>
    var tail: Node?<T>
    var len: nat
    var lenMax: nat
    ghost var spine: seq<Node<T>>

    /** Head, tail, the links and the length describe one list of distinct nodes, the spine. */
    ghost predicate Valid()
      reads this, spine
    {
      && len == |spine| <= lenMax
      && (spine == [] ==> head == null && tail == null)
      && (spine != [] ==> head == spine[0] && tail == spine[|spine| - 1] && spine[|spine| - 1].next == null)
      && (forall i {:trigger spine[i].next} :: 0 <= i < |spine| - 1 ==> spine[i].next == spine[i + 1])
      && (forall i, j :: 0 <= i < j < |spine| ==> spine[i] != spine[j])
    }

    ghost function Contents(): (s: seq<T>)
      reads this
      ensures |s| == |spine|
    {
      var nodes := spine;
      seq(|nodes|, i requires 0 <= i < |nodes| => nodes[i].value)
    }

    constructor ()
      ensures Valid() && Contents() == [] && lenMax == 0 && fresh(spine)
    {
      head, tail, len, lenMax, spine := null, null, 0, 0, [];
    }

    /** queue_push; when the node cannot be allocated the sample is dropped. */
    method Push(x: T, gotNode: bool)
      requires Valid()
      modifies this, spine
      ensures Valid() && fresh(set n | n in spine && n !in old(spine))
      ensures Contents() == if gotNode then old(Contents()) + [x] else old(Contents())
      ensures lenMax == Max(old(lenMax), |Contents()|)
    {
      if !gotNode {
        return;
      }
      var n := new Node(x);
      ghost var before := Contents();
      if tail != null {
        tail.next := n;
      } else {
        head := n;
      }
      tail := n;
      len := len + 1;
      spine := spine + [n];
      assert Contents() == before + [x];
      if len > lenMax {
        lenMax := len;
      }
    }

    /** queue_pop_batch after its wait: the longest prefix of at most `max` samples. */
    method PopBatch(out: array<T>, max: int) returns (n: nat)
      requires Valid() && max <= out.Length
      modifies this, out
      ensures Valid() && lenMax == old(lenMax)
      ensures n == if max <= 0 then 0 else Min(max, |old(Contents())|)
      ensures out[..n] + Contents() == old(Contents())
      ensures n <= |old(spine)| && spine == old(spine)[n..]
    {
      n := 0;
      while head != null && n < max
        invariant n <= |old(spine)| && (n > 0 ==> n <= max)
        invariant Valid() && spine == old(spine)[n..] && lenMax == old(lenMax)
        invariant out[..n] + Contents() == old(Contents())
        decreases len
      {
        ghost var taken := out[..n];
        var x := PopHead();
        out[n] := x;
        n := n + 1;
        assert out[..n] == taken + [x];
        AppendShift(taken, x, Contents());
      }
    }

    /** One turn of the loop: unlinks the head node. */
    method PopHead() returns (x: T)
      requires Valid() && head != null
      modifies this
      ensures Valid() && lenMax == old(lenMax)
      ensures old(Contents()) == [x] + Contents()
      ensures spine == old(spine)[1..]
    {
      ghost var nodes, all := spine, Contents();
      var q := head;
      x := q.value;
      head := q.next;
      if head == null {
        tail := null;
      }
      len := len - 1;
      spine := nodes[1..];
      assert all == [x] + Contents();
    }
  }
}
