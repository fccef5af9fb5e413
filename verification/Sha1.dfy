/** SHA-1 twice: as FIPS 180-4 defines it on whole messages, and as the streaming context of
    ws_server.c computes it, one `Update` at a time. */
module Sha1 {
  import opened Basics
  import opened Bytes

  type word = bv32
  type octet = bv8

  /** The five 32-bit words: the chaining value H, or the working variables a..e. */
  datatype Words = Words(a: word, b: word, c: word, d: word, e: word)

  // ---------- FIPS 180-4 ----------

  // Section 4.1.1
  function Ch(x: word, y: word, z: word): word { (x & y) ^ (!x & z) }
  function Parity(x: word, y: word, z: word): word { x ^ y ^ z }
  function Maj(x: word, y: word, z: word): word { (x & y) ^ (x & z) ^ (y & z) }

  function F(t: nat, x: word, y: word, z: word): word
    requires t < 80
  {
    if t < 20 then Ch(x, y, z)
    else if t < 40 then Parity(x, y, z)
    else if t < 60 then Maj(x, y, z)
    else Parity(x, y, z)
  }

  // Section 4.2.1
  function K(t: nat): word
    requires t < 80
  {
    if t < 20 then 0x5A827999 else if t < 40 then 0x6ED9EBA1 else if t < 60 then 0x8F1BBCDC else 0xCA62C1D6
  }

  /** The constants are the square roots of 2, 3, 5 and 10 times 2^30, cut to whole numbers. */
  lemma KIsRoot(t: nat)
    requires t < 80
    ensures var k, n := K(t) as nat, if t < 20 then 2 else if t < 40 then 3 else if t < 60 then 5 else 10;
            k * k <= n * 0x1000_0000_0000_0000 < (k + 1) * (k + 1)
  {
  }

  function BigEndianWord(b0: octet, b1: octet, b2: octet, b3: octet): word {
    (b0 as word << 24) | (b1 as word << 16) | (b2 as word << 8) | b3 as word
  }

  function WordAt(block: seq<octet>, i: nat): word
    requires 4 * i + 3 < |block|
  {
    BigEndianWord(block[4 * i], block[4 * i + 1], block[4 * i + 2], block[4 * i + 3])
  }

  // Section 2.2.2
  function RotL(n: nat, x: word): word
    requires n < 32
  {
    x.RotateLeft(n)
  }

  function Xor4(a: word, b: word, c: word, d: word): word { a ^ b ^ c ^ d }

  // Section 6.1.2, step 1
  ghost function Schedule(block: seq<octet>, t: nat): word
    requires |block| == 64
  {
    if t < 16 then WordAt(block, t)
    else RotL(1, Xor4(Schedule(block, t - 3), Schedule(block, t - 8), Schedule(block, t - 14), Schedule(block, t - 16)))
  }

  function Plus(x: word, y: word): word { x + y }

  function Temp(rotated: word, f: word, e: word, k: word, w: word): word { rotated + f + e + k + w }

  ghost function ScheduleWords(block: seq<octet>): (ws: seq<word>)
    requires |block| == 64
    ensures |ws| == 80 && forall t :: 0 <= t < 80 ==> ws[t] == Schedule(block, t)
  {
    seq(80, t requires 0 <= t < 80 => Schedule(block, t))
  }

  // Section 6.1.2, step 3
  function Round(v: Words, t: nat, w: word): Words
    requires t < 80
  {
    Words(Temp(RotL(5, v.a), F(t, v.b, v.c, v.d), v.e, K(t), w), v.a, RotL(30, v.b), v.c, v.d)
  }

  /** The working variables after one round for each of the schedule words `ws`. */
  ghost function Rounds(h: Words, ws: seq<word>): Words
    requires |ws| <= 80
  {
    if ws == [] then h else Round(Rounds(h, ws[..|ws| - 1]), |ws| - 1, ws[|ws| - 1])
  }

  // Section 6.1.2, step 4
  ghost function Compress(h: Words, block: seq<octet>): Words
    requires |block| == 64
  {
    var v := Rounds(h, ScheduleWords(block));
    Words(Plus(h.a, v.a), Plus(h.b, v.b), Plus(h.c, v.c), Plus(h.d, v.d), Plus(h.e, v.e))
  }

  // Section 5.3.1
  const INITIAL := Words(0x67452301, 0xEFCDAB89, 0x98BADCFE, 0x10325476, 0xC3D2E1F0)

  ghost function HashBlocks(m: seq<octet>): Words
    requires |m| % 64 == 0
  {
    if m == [] then INITIAL else Compress(HashBlocks(m[..|m| - 64]), m[|m| - 64..])
  }

  // Section 5.1.1: a one bit, the fewest zero bits that leave room for it, the length in bits.
  function ZeroBytes(n: nat): nat { (55 - n) % 64 }

  function Zeros(n: nat): (s: seq<octet>)
    ensures |s| == n && forall i :: 0 <= i < n ==> s[i] == 0
  {
    seq(n, _ => 0)
  }

  function Octet(n: nat): octet
    requires n < 256
  {
    n as octet
  }

  function LengthField(bits: nat): (s: seq<octet>)
    ensures |s| == 8
  {
    seq(8, i requires 0 <= i < 8 => Octet(ByteAt(bits, 7 - i)))
  }

  function Pad(m: seq<octet>): (p: seq<octet>)
    ensures |p| % 64 == 0
  {
    m + [0x80] + Zeros(ZeroBytes(|m|)) + LengthField(8 * |m|)
  }

  /** The four octets of a word, most significant first. */
  function Octets(w: word): (s: seq<octet>)
    ensures |s| == 4
  {
    [((w >> 24) & 0xFF) as octet, ((w >> 16) & 0xFF) as octet, ((w >> 8) & 0xFF) as octet, (w & 0xFF) as octet]
  }

  function WordsOctets(h: Words): (s: seq<octet>)
    ensures |s| == 20
  {
    Octets(h.a) + Octets(h.b) + Octets(h.c) + Octets(h.d) + Octets(h.e)
  }

  /** The digest of a message shorter than 2^64 bits. */
  ghost function Digest(m: seq<octet>): seq<octet> {
    WordsOctets(HashBlocks(Pad(m)))
  }

  /** Padding is minimal: no smaller number of zero bytes completes a block. */
  lemma PaddingIsMinimal(n: nat, k: nat)
    requires (n + 1 + k + 8) % 64 == 0
    ensures (n + 1 + ZeroBytes(n) + 8) % 64 == 0 && ZeroBytes(n) <= k
  {
  }

  lemma OctetsRoundTrip(w: word)
    ensures WordAt(Octets(w), 0) == w
  {
  }

  // ---------- ws_server.c's forms of the round functions ----------

  function Rol32(x: word, n: word): word
    requires 1 <= n <= 31
  {
    (x << n) | (x >> (32 - n))
  }

  function RoundFunction(i: nat, b: word, c: word, d: word): word
    requires i < 80
  {
    if i < 20 then (b & c) | (!b & d)
    else if i < 40 then b ^ c ^ d
    else if i < 60 then (b & c) | (b & d) | (c & d)
    else b ^ c ^ d
  }

  /** The OR forms of Ch and Maj are the standard's XOR forms. */
  lemma RoundFunctionIsF(i: nat, b: word, c: word, d: word)
    requires i < 80
    ensures RoundFunction(i, b, c, d) == F(i, b, c, d)
  {
    ChOr(b, c, d);
    MajOr(b, c, d);
  }

  lemma ChOr(x: word, y: word, z: word)
    ensures (x & y) | (!x & z) == Ch(x, y, z)
  {
  }

  lemma MajOr(x: word, y: word, z: word)
    ensures (x & y) | (x & z) | (y & z) == Maj(x, y, z)
  {
  }

  lemma Rol32IsRotate(x: word)
    ensures Rol32(x, 1) == RotL(1, x)
    ensures Rol32(x, 5) == RotL(5, x)
    ensures Rol32(x, 30) == RotL(30, x)
  {
  }

  lemma HashBlocksAppend(m: seq<octet>, block: seq<octet>)
    requires |m| % 64 == 0 && |block| == 64
    ensures |m + block| % 64 == 0
    ensures HashBlocks(m + block) == Compress(HashBlocks(m), block)
  {
    assert (m + block)[..|m + block| - 64] == m;
    assert (m + block)[|m + block| - 64..] == block;
  }

  // ---------- The streaming context ----------

  ghost function StateWords(state: array<word>): Words
    requires state.Length == 5
    reads state
  {
    Words(state[0], state[1], state[2], state[3], state[4])
  }

  /** Compresses the 64 bytes of `data` from `off` on into `state`. */
  method Transform(state: array<word>, data: array<octet>, off: nat)
    requires state.Length == 5 && off + 64 <= data.Length
    modifies state
    ensures StateWords(state) == Compress(old(StateWords(state)), old(data[off..off + 64]))
  {
    var w := ExpandSchedule(data, off);
    var v := RunRounds(Words(state[0], state[1], state[2], state[3], state[4]), w);
    state[0] := Plus(state[0], v.a);
    state[1] := Plus(state[1], v.b);
    state[2] := Plus(state[2], v.c);
    state[3] := Plus(state[3], v.d);
    state[4] := Plus(state[4], v.e);
  }

  method RunRounds(h: Words, w: array<word>) returns (v: Words)
    requires w.Length == 80
    ensures v == Rounds(h, w[..])
  {
    var a, b, c, d, e := h.a, h.b, h.c, h.d, h.e;
    for i := 0 to 80
      invariant Words(a, b, c, d, e) == Rounds(h, w[..i])
    {
      var f := RoundFunction(i, b, c, d);
      var k := K(i);
      CodeRoundIsRound(i, Words(a, b, c, d, e), w[i]);
      assert w[..i + 1][..i] == w[..i];
      var temp := Temp(Rol32(a, 5), f, e, k, w[i]);
      e := d;
      d := c;
      c := Rol32(b, 30);
      b := a;
      a := temp;
    }
    assert w[..80] == w[..];
    v := Words(a, b, c, d, e);
  }

  lemma CodeRoundIsRound(i: nat, v: Words, w: word)
    requires i < 80
    ensures Words(Temp(Rol32(v.a, 5), RoundFunction(i, v.b, v.c, v.d), v.e, K(i), w), v.a, Rol32(v.b, 30), v.c, v.d)
         == Round(v, i, w)
  {
    hide Temp, F, RoundFunction, Rol32, RotL, K;
    RoundFunctionIsF(i, v.b, v.c, v.d);
    Rol32IsRotate(v.a);
    Rol32IsRotate(v.b);
  }

  method ExpandSchedule(data: array<octet>, off: nat) returns (w: array<word>)
    requires off + 64 <= data.Length
    ensures fresh(w) && w.Length == 80
    ensures w[..] == ScheduleWords(data[off..off + 64])
  {
    ghost var block := data[off..off + 64];
    hide Schedule, Xor4, Rol32;
    w := LoadWords(data, off);
    for i := 16 to 80
      invariant forall j :: 0 <= j < i ==> w[j] == Schedule(block, j)
    {
      w[i] := Rol32(Xor4(w[i - 3], w[i - 8], w[i - 14], w[i - 16]), 1);
      ScheduleAt(block, i);
    }
  }

  lemma ScheduleAt(block: seq<octet>, i: nat)
    requires |block| == 64 && i >= 16
    ensures Schedule(block, i)
         == Rol32(Xor4(Schedule(block, i - 3), Schedule(block, i - 8),
                       Schedule(block, i - 14), Schedule(block, i - 16)), 1)
  {
    Rol32IsRotate(Xor4(Schedule(block, i - 3), Schedule(block, i - 8),
                       Schedule(block, i - 14), Schedule(block, i - 16)));
  }

  method LoadWords(data: array<octet>, off: nat) returns (w: array<word>)
    requires off + 64 <= data.Length
    ensures fresh(w) && w.Length == 80
    ensures forall j :: 0 <= j < 16 ==> w[j] == Schedule(data[off..off + 64], j)
  {
    hide BigEndianWord;
    ghost var block := data[off..off + 64];
    w := new word[80];
    for i := 0 to 16
      invariant forall j :: 0 <= j < i ==> w[j] == WordAt(block, j)
    {
      w[i] := BigEndianWord(data[off + i * 4], data[off + i * 4 + 1], data[off + i * 4 + 2], data[off + i * 4 + 3]);
    }
  }

  /** `h` has absorbed the whole blocks of `m`; the buffer holds the bytes after them. */
  ghost predicate Represents(h: Words, buffer: seq<octet>, m: seq<octet>) {
    && |buffer| == 64
    && h == HashBlocks(m[..WholeBlocks(|m|)])
    && buffer[..|m| % 64] == m[WholeBlocks(|m|)..]
  }

  const TWO_64 := 0x1_0000_0000_0000_0000

  class Context {
    const state: array<word>
    const buffer: array<octet>
    var count: nat            // bits, modulo 2^64
    ghost var message: seq<octet>   // everything passed to Update so far

    ghost predicate Valid()
      reads this, state, buffer
    {
      && state.Length == 5 && buffer.Length == 64
      && count == 8 * |message| % TWO_64
      && Represents(StateWords(state), buffer[..], message)
    }

    constructor ()
      ensures Valid() && fresh(state) && fresh(buffer)
      ensures message == []
    {
      state := new word[5];
      buffer := new octet[64](_ => 0);
      count := 0;
      message := [];
      new;
      state[0], state[1], state[2], state[3], state[4] := 0x67452301, 0xEFCDAB89, 0x98BADCFE, 0x10325476, 0xC3D2E1F0;
    }

    /** Appends the first `len` bytes of `data` to the message. */
    method Update(data: array<octet>, len: nat)
      requires Valid() && data != buffer && len <= data.Length
      modifies this, state, buffer
      ensures Valid()
      ensures message == old(message) + data[..len]
    {
      hide HashBlocks;
      ghost var m, bytes, before := message, data[..len], buffer[..];
      var idx := count / 8 % 64;
      IndexInBlock(|m|);
      CountAfter(|m|, len);
      count := (count + len * 8) % TWO_64;
      var part := 64 - idx;
      var i := 0;
      message := m + bytes;
      if len >= part {
        i := CompressWholeBlocks(data, len, idx, m);
        idx := 0;
      }
      if i < len {
        CopyInto(buffer, idx, data, i, len - i);
      }
      if len >= part {
        RestBuffered(StateWords(state), m, bytes, i, buffer[..]);
      } else {
        HeldBack(StateWords(state), m, bytes, before, buffer[..]);
      }
    }

    /** The branch of Update that completes the buffered block, then takes whole blocks from `data`. */
    method CompressWholeBlocks(data: array<octet>, len: nat, idx: nat, ghost m: seq<octet>) returns (i: nat)
      requires state.Length == 5 && buffer.Length == 64 && data != buffer && len <= data.Length
      requires idx == |m| % 64 && 64 - idx <= len
      requires Represents(StateWords(state), buffer[..], m)
      modifies state, buffer
      ensures 64 - idx <= i <= len < i + 64 && |m + data[..len][..i]| % 64 == 0
      ensures StateWords(state) == HashBlocks(m + data[..len][..i])
    {
      ghost var bytes := data[..len];
      var part := 64 - idx;
      CopyInto(buffer, idx, data, 0, part);
      FirstBlock(m, bytes[..part], buffer[..]);
      assert buffer[0..64] == buffer[..];
      Transform(state, buffer, 0);
      i := part;
      while i + 63 < len
        invariant part <= i <= len && |m + bytes[..i]| % 64 == 0
        invariant StateWords(state) == HashBlocks(m + bytes[..i])
      {
        ghost var block := bytes[i..i + 64];
        assert data[i..i + 64] == block by {
          Subslice(data[..], len, i);
        }
        NextBlock(m, bytes, i, block);
        Transform(state, data, i);
        i := i + 64;
      }
      assert data[..len] == bytes;
    }

    /** Pads the message and returns its digest; the context is used up. */
    method Final() returns (out: array<octet>)
      requires Valid()
      requires |message| < 0x2000_0000_0000_0000
      modifies this, state, buffer
      ensures fresh(out) && out[..] == Digest(old(message))
    {
      hide HashBlocks, Represents, Digest, Zeros, LengthField, WordsOctets;
      ghost var m := message;
      var pad := new octet[64](i => if i == 0 then 0x80 else 0);
      var lenBe := LengthBytes(count);
      var idx := count / 8 % 64;
      IndexInBlock(|m|);
      var padLen := if idx < 56 then 56 - idx else 120 - idx;
      PadLength(|m|, idx);
      assert 8 * |m| % TWO_64 == 8 * |m|;
      PadBytes(pad[..], padLen);
      Update(pad, padLen);
      ghost var length := lenBe[..8];
      Update(lenBe, 8);
      FinalDigest(m, padLen - 1, length, message, StateWords(state), buffer[..]);
      out := StateOctets(state);
    }
  }

  /** The eight bytes of a 64-bit bit count, most significant first. */
  method LengthBytes(count: nat) returns (lenBe: array<octet>)
    ensures fresh(lenBe) && lenBe[..] == LengthField(count)
  {
    lenBe := new octet[8];
    var bits := count;
    for i := 0 to 8
      invariant bits == count / Pow256(i)
      invariant forall j :: 8 - i <= j < 8 ==> lenBe[j] == LengthField(count)[j]
    {
      lenBe[7 - i] := Octet(bits % 256);
      DivSwap(count, Pow256(i));
      bits := bits / 256;
    }
  }

  method StateOctets(state: array<word>) returns (out: array<octet>)
    requires state.Length == 5
    ensures fresh(out) && out[..] == WordsOctets(StateWords(state))
  {
    out := new octet[20];
    ghost var bytes := WordsOctets(StateWords(state));
    for i := 0 to 5
      invariant out[..4 * i] == bytes[..4 * i]
    {
      PutWord(out, i * 4, state[i]);
      WordsOctetsAt(state[..], i);
      assert out[..4 * i + 4] == out[..4 * i] + out[4 * i..4 * i + 4];
      assert bytes[..4 * i + 4] == bytes[..4 * i] + bytes[4 * i..4 * i + 4];
    }
  }

  method PutWord(out: array<octet>, at: nat, w: word)
    requires at + 4 <= out.Length
    modifies out
    ensures out[..at] == old(out[..at]) && out[at..at + 4] == Octets(w)
  {
    out[at] := ((w >> 24) & 0xFF) as octet;
    out[at + 1] := ((w >> 16) & 0xFF) as octet;
    out[at + 2] := ((w >> 8) & 0xFF) as octet;
    out[at + 3] := (w & 0xFF) as octet;
  }

  lemma WordsOctetsAt(s: seq<word>, i: nat)
    requires |s| == 5 && i < 5
    ensures WordsOctets(Words(s[0], s[1], s[2], s[3], s[4]))[4 * i..4 * i + 4] == Octets(s[i])
  {
    hide Octets;
    FiveSlices(Octets(s[0]), Octets(s[1]), Octets(s[2]), Octets(s[3]), Octets(s[4]));
    if i == 0 {} else if i == 1 {} else if i == 2 {} else if i == 3 {} else {}
  }

  function WholeBlocks(n: nat): (k: nat)
    ensures k <= n && k % 64 == 0 && n - k == n % 64
  {
    n / 64 * 64
  }

  lemma CountAfter(n: nat, len: nat)
    ensures (8 * n % TWO_64 + len * 8) % TWO_64 == 8 * (n + len) % TWO_64
  {
  }

  lemma PadLength(n: nat, idx: nat)
    requires idx == n % 64
    ensures ZeroBytes(n) == (if idx < 56 then 56 - idx else 120 - idx) - 1
  {
  }

  lemma IndexInBlock(n: nat)
    ensures 8 * n % TWO_64 / 8 % 64 == n % 64
  {
  }

  lemma DivSwap(n: nat, p: nat)
    requires p >= 1
    ensures n / p / 256 == n / (256 * p)
  {
    var a := n / p;
    var q, r := a / 256, a % 256;
    assert n == p * a + n % p;
    assert p * a == 256 * p * q + p * r;
    MulMonotonic(p, r, 255);
    DivUnique(n, 256 * p, q, p * r + n % p);
  }

  /** The bytes held back plus the first `64 - |m| % 64` new ones are the next block. */
  lemma FirstBlock(m: seq<octet>, first: seq<octet>, block: seq<octet>)
    requires |first| == 64 - |m| % 64
    requires |block| == 64 && block[..|m| % 64] == m[WholeBlocks(|m|)..] && block[|m| % 64..] == first
    ensures |m + first| % 64 == 0
    ensures HashBlocks(m + first) == Compress(HashBlocks(m[..WholeBlocks(|m|)]), block)
  {
    HashBlocksAppend(m[..WholeBlocks(|m|)], block);
    assert block == block[..|m| % 64] + block[|m| % 64..];
    assert m[..WholeBlocks(|m|)] + block == m + first;
  }

  lemma FiveSlices(a: seq<octet>, b: seq<octet>, c: seq<octet>, d: seq<octet>, e: seq<octet>)
    requires |a| == |b| == |c| == |d| == |e| == 4
    ensures var s := a + b + c + d + e;
            s[0..4] == a && s[4..8] == b && s[8..12] == c && s[12..16] == d && s[16..20] == e
  {
  }

  lemma PadBytes(pad: seq<octet>, n: nat)
    requires |pad| == 64 && 1 <= n <= 64
    requires pad[0] == 0x80 && forall i :: 1 <= i < 64 ==> pad[i] == 0
    ensures pad[..n] == [0x80] + Zeros(n - 1)
  {
  }

  lemma FinalMessage(m: seq<octet>, zeros: nat, length: seq<octet>, padded: seq<octet>)
    requires zeros == ZeroBytes(|m|) && length == LengthField(8 * |m|)
    requires padded == m + ([0x80] + Zeros(zeros)) + length
    ensures padded == Pad(m) && padded[..WholeBlocks(|padded|)] == Pad(m)
  {
    assert padded == m + [0x80] + Zeros(zeros) + length;
  }

  lemma FinalDigest(m: seq<octet>, zeros: nat, length: seq<octet>, padded: seq<octet>, h: Words, buffer: seq<octet>)
    requires zeros == ZeroBytes(|m|) && length == LengthField(8 * |m|)
    requires padded == m + ([0x80] + Zeros(zeros)) + length && Represents(h, buffer, padded)
    ensures WordsOctets(h) == Digest(m)
  {
    hide HashBlocks, WordsOctets;
    FinalMessage(m, zeros, length, padded);
  }

  lemma BlockRemainder(n: nat, len: nat, i: nat, part: nat)
    requires part == 64 - n % 64
    requires if len < part then i == 0 else part <= i <= len < i + 64 && (n + i) % 64 == 0
    ensures (n + len) % 64 == (if len < part then n % 64 else 0) + len - i
  {
  }

  lemma Subslice(s: seq<octet>, len: nat, i: nat)
    requires i + 64 <= len <= |s|
    ensures s[i..i + 64] == s[..len][i..i + 64]
  {
  }

  lemma NextBlock(m: seq<octet>, bytes: seq<octet>, i: nat, block: seq<octet>)
    requires i + 64 <= |bytes| && |m + bytes[..i]| % 64 == 0 && block == bytes[i..i + 64]
    ensures |m + bytes[..i + 64]| % 64 == 0
    ensures HashBlocks(m + bytes[..i + 64]) == Compress(HashBlocks(m + bytes[..i]), block)
  {
    hide HashBlocks, Compress;
    HashBlocksAppend(m + bytes[..i], block);
    assert m + bytes[..i] + block == m + bytes[..i + 64];
  }

  /** The message ends inside the buffered block: the buffer alone grows. */
  lemma HeldBack(h: Words, m: seq<octet>, bytes: seq<octet>, before: seq<octet>, after: seq<octet>)
    requires Represents(h, before, m) && |m| % 64 + |bytes| < 64 && |after| == 64
    requires after[..|m| % 64] == before[..|m| % 64]
    requires after[|m| % 64..|m| % 64 + |bytes|] == bytes
    ensures Represents(h, after, m + bytes)
  {
    hide HashBlocks;
    var all, idx := m + bytes, |m| % 64;
    BlockRemainder(|m|, |bytes|, 0, 64 - idx);
    assert after[..idx + |bytes|] == after[..idx] + after[idx..idx + |bytes|];
    assert all[..WholeBlocks(|all|)] == m[..WholeBlocks(|m|)];
    assert all[WholeBlocks(|all|)..] == m[WholeBlocks(|m|)..] + bytes;
  }

  /** All but the last bytes are compressed: the buffer holds only the rest. */
  lemma RestBuffered(h: Words, m: seq<octet>, bytes: seq<octet>, i: nat, buffer: seq<octet>)
    requires i <= |bytes| < i + 64 && 64 - |m| % 64 <= i && |m + bytes[..i]| % 64 == 0
    requires h == HashBlocks(m + bytes[..i]) && |buffer| == 64
    requires buffer[..|bytes| - i] == bytes[i..]
    ensures Represents(h, buffer, m + bytes)
  {
    hide HashBlocks;
    var all := m + bytes;
    BlockRemainder(|m|, |bytes|, i, 64 - |m| % 64);
    assert all[..WholeBlocks(|all|)] == m + bytes[..i];
    assert all[WholeBlocks(|all|)..] == bytes[i..];
  }

  method CopyInto(dst: array<octet>, at: nat, src: array<octet>, from: nat, n: nat)
    requires dst != src && at + n <= dst.Length && from + n <= src.Length
    modifies dst
    ensures dst[..at] == old(dst[..at])
    ensures dst[at..at + n] == src[from..from + n]
  {
    forall j | 0 <= j < n {
      dst[at + j] := src[from + j];
    }
  }

  method ArrayOf(s: seq<octet>) returns (a: array<octet>)
    ensures fresh(a) && a[..] == s
  {
    a := new octet[|s|];
    forall j | 0 <= j < |s| {
      a[j] := s[j];
    }
  }

  /** However a message is cut into Update calls, the digest is the standard's digest of the whole. */
  method DigestOfChunks(chunks: seq<seq<octet>>) returns (digest: seq<octet>)
    requires |Concat(chunks)| < 0x2000_0000_0000_0000
    ensures digest == Digest(Concat(chunks))
  {
    hide Represents, Digest;
    var ctx := new Context();
    for i := 0 to |chunks|
      invariant ctx.Valid() && fresh(ctx) && fresh(ctx.state) && fresh(ctx.buffer)
      invariant ctx.message == Concat(chunks[..i])
    {
      var data := ArrayOf(chunks[i]);
      ConcatStep(chunks, i);
      assert data[..data.Length] == chunks[i];
      ctx.Update(data, data.Length);
    }
    assert chunks[..|chunks|] == chunks;
    var out := ctx.Final();
    digest := out[..];
  }
}
