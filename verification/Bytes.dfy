/** Bytes and the big-endian integers that SHA-1 (the message length) and WebSocket framing
    (the extended payload length) both write. */
module Bytes {
  type byte = n: nat | n < 256

  function Pow256(k: nat): (p: nat)
    ensures p >= 1
  {
    if k == 0 then 1 else 256 * Pow256(k - 1)
  }

  /** The `k` low-order bytes of `n`, most significant first. */
  function BigEndian(n: nat, k: nat): (s: seq<byte>)
    ensures |s| == k
  {
    seq(k, i requires 0 <= i < k => ByteAt(n, k - 1 - i))
  }

  function FromBigEndian(s: seq<byte>): nat {
    if s == [] then 0 else 256 * FromBigEndian(s[..|s| - 1]) + s[|s| - 1]
  }

  function ByteAt(n: nat, up: nat): byte {
    n / Pow256(up) % 256
  }

  lemma BigEndianStep(n: nat, k: nat)
    ensures BigEndian(n, k + 1) == BigEndian(n / 256, k) + [n % 256]
  {
    var s, t := BigEndian(n, k + 1), BigEndian(n / 256, k) + [n % 256];
    forall i | 0 <= i < k + 1
      ensures s[i] == t[i]
    {
      ByteAtStep(n, k - i);
    }
  }

  lemma ByteAtStep(n: nat, up: nat)
    ensures ByteAt(n, 0) == n % 256
    ensures up > 0 ==> ByteAt(n, up) == ByteAt(n / 256, up - 1)
  {
    if up > 0 {
      DivDiv(n, Pow256(up - 1));
    }
    assert Pow256(0) == 1;
  }

  lemma {:induction false} BigEndianRoundTrip(n: nat, k: nat)
    requires n < Pow256(k)
    ensures FromBigEndian(BigEndian(n, k)) == n
  {
    if k > 0 {
      var s := BigEndian(n, k);
      BigEndianStep(n, k - 1);
      assert s[..|s| - 1] == BigEndian(n / 256, k - 1);
      assert s[|s| - 1] == n % 256;
      assert n / 256 < Pow256(k - 1);
      BigEndianRoundTrip(n / 256, k - 1);
    }
  }

  lemma {:induction false} FromBigEndianBound(s: seq<byte>)
    ensures FromBigEndian(s) < Pow256(|s|)
  {
    if s != [] {
      FromBigEndianBound(s[..|s| - 1]);
    }
  }

  lemma {:induction false} FromBigEndianRoundTrip(s: seq<byte>)
    ensures BigEndian(FromBigEndian(s), |s|) == s
  {
    if s != [] {
      var init, last := s[..|s| - 1], s[|s| - 1];
      FromBigEndianRoundTrip(init);
      Snoc(FromBigEndian(init), last, init);
      assert s == init + [last];
    }
  }

  lemma Snoc(n: nat, b: byte, init: seq<byte>)
    requires BigEndian(n, |init|) == init
    ensures BigEndian(256 * n + b, |init| + 1) == init + [b]
  {
    LastByte(n, b);
    BigEndianStep(256 * n + b, |init|);
  }

  lemma LastByte(n: nat, b: byte)
    ensures (256 * n + b) / 256 == n && (256 * n + b) % 256 == b
  {
  }

  lemma DivDiv(n: nat, p: nat)
    requires p >= 1
    ensures n / 256 / p == n / (256 * p)
  {
    var q, r := n / (256 * p), n % (256 * p);
    assert n == 256 * (p * q) + r;
    assert n / 256 == p * q + r / 256;
    assert 0 <= r / 256 < p;
    assert (p * q + r / 256) / p == q by {
      DivUnique(p * q + r / 256, p, q, r / 256);
    }
  }

  lemma DivUnique(n: nat, p: nat, q: nat, r: nat)
    requires p >= 1 && n == p * q + r && r < p
    ensures n / p == q
  {
    var q' := n / p;
    if q' < q {
      MulMonotonic(p, q' + 1, q);
      assert false;
    } else if q < q' {
      MulMonotonic(p, q + 1, q');
      assert false;
    }
  }

  lemma MulMonotonic(p: nat, a: nat, b: nat)
    requires a <= b
    ensures p * a <= p * b
  {
  }
}
