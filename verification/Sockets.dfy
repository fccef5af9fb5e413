/** A connected TCP socket, and the loops of ws_server.c that hide its short reads and writes.
    The kernel's choices are a finite schedule; once it is used up every call completes in full. */
module Sockets {
  import opened Basics

  datatype Step = Interrupted | Partial(n: nat) | Failed

  ghost predicate Faultless(schedule: seq<Step>) {
    Failed !in schedule
  }

  datatype Received<T> = Chunk(data: seq<T>) | Closed | Eintr | Error

  lemma AppendAssociative<T>(a: seq<T>, b: seq<T>, c: seq<T>)
    ensures a + (b + c) == a + b + c
  {
  }

  class Socket<T(0)> {
    var incoming: seq<T>        // what the peer has sent and nobody has received yet
    var outgoing: seq<T>        // what has been handed to the kernel
    var schedule: seq<Step>

    constructor (incoming: seq<T>, schedule: seq<Step>)
      ensures this.incoming == incoming && this.outgoing == [] && this.schedule == schedule
    {
      this.incoming := incoming;
      this.outgoing := [];
      this.schedule := schedule;
    }

    /** recv of at most `n` elements. An empty stream reads as closed by the peer. */
    method Recv(n: nat) returns (r: Received<T>)
      requires n > 0
      modifies this`incoming, this`schedule
      ensures schedule == if old(schedule) == [] then [] else old(schedule)[1..]
      ensures r.Chunk? ==> 0 < |r.data| <= n && old(incoming) == r.data + incoming
      ensures !r.Chunk? ==> incoming == old(incoming)
      ensures r.Closed? ==> incoming == []
      ensures r.Eintr? ==> old(schedule) != []
      ensures r.Error? ==> Failed in old(schedule)
    {
      var limit := n;
      if schedule != [] {
        var step := schedule[0];
        schedule := schedule[1..];
        match step {
          case Interrupted => return Eintr;
          case Failed => return Error;
          case Partial(k) => limit := Min(n, k + 1);
        }
      }
      if incoming == [] {
        return Closed;
      }
      var k := Min(limit, |incoming|);
      r := Chunk(incoming[..k]);
      incoming := incoming[k..];
    }

    /** recv_all: fills `buf[..n]` or fails. Without socket errors it fails only on a short stream. */
    method RecvAll(buf: array<T>, n: nat) returns (ok: bool)
      requires n <= buf.Length
      modifies this`incoming, this`schedule, buf
      ensures Faultless(old(schedule)) ==> Faultless(schedule) && ok == (n <= |old(incoming)|)
      ensures ok ==> old(incoming) == buf[..n] + incoming
    {
      var got := 0;
      while got < n
        invariant got <= n
        invariant old(incoming) == buf[..got] + incoming
        invariant Faultless(old(schedule)) ==> Faultless(schedule)
        decreases n - got, |schedule|
      {
        var r := Recv(n - got);
        match r {
          case Closed => return false;
          case Error => return false;
          case Eintr =>
          case Chunk(data) =>
            ghost var before := buf[..got];
            forall i | 0 <= i < |data| {
              buf[got + i] := data[i];
            }
            assert buf[..got + |data|] == before + data;
            AppendAssociative(before, data, incoming);
            got := got + |data|;
        }
      }
      ok := true;
    }

    /** send of `data`: a chunk is what the kernel took, from its front. It never reads as closed. */
    method Send(data: seq<T>) returns (r: Received<T>)
      requires data != []
      modifies this`outgoing, this`schedule
      ensures schedule == if old(schedule) == [] then [] else old(schedule)[1..]
      ensures r.Chunk? ==> r.data != [] && r.data <= data && outgoing == old(outgoing) + r.data
      ensures !r.Chunk? ==> outgoing == old(outgoing) && !r.Closed?
      ensures r.Eintr? ==> old(schedule) != []
      ensures r.Error? ==> Failed in old(schedule)
    {
      var limit := |data|;
      if schedule != [] {
        var step := schedule[0];
        schedule := schedule[1..];
        match step {
          case Interrupted => return Eintr;
          case Failed => return Error;
          case Partial(k) => limit := Min(|data|, k + 1);
        }
      }
      r := Chunk(data[..limit]);
      outgoing := outgoing + data[..limit];
    }

    /** send_all: everything or a failure, which leaves a prefix sent. */
    method SendAll(data: seq<T>) returns (ok: bool)
      modifies this`outgoing, this`schedule
      ensures Faultless(old(schedule)) ==> ok && Faultless(schedule)
      ensures ok ==> outgoing == old(outgoing) + data
      ensures old(outgoing) <= outgoing <= old(outgoing) + data
    {
      var sent := 0;
      while sent < |data|
        invariant sent <= |data|
        invariant outgoing == old(outgoing) + data[..sent]
        invariant Faultless(old(schedule)) ==> Faultless(schedule)
        decreases |data| - sent, |schedule|
      {
        var r := Send(data[sent..]);
        match r {
          case Chunk(part) =>
            assert data[..sent + |part|] == data[..sent] + part;
            sent := sent + |part|;
          case Eintr =>
          case _ => return false;
        }
      }
      ok := true;
    }
  }
}
