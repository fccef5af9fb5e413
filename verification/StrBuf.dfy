/** The growable string buffer of db_sqlite.c, with size_t arithmetic written out. */
module StrBuf {
  import opened Basics

  const SIZE_T := 0x1_0000_0000_0000_0000
  const HALF := 0x8000_0000_0000_0000
  const FIRST: nat := 1024
  const TMP := 512

  /** 1024 doubled some number of times. */
  ghost predicate IsCapacity(c: nat) {
    exists j: nat :: c == 1024 * Pow2(j)
  }

  lemma DoubledIsCapacity(c: nat)
    requires IsCapacity(c)
    ensures IsCapacity(2 * c) && c >= FIRST
  {
    var j: nat :| c == FIRST * Pow2(j);
    assert 2 * c == FIRST * Pow2(j + 1);
  }

  lemma FirstIsCapacity()
    ensures IsCapacity(FIRST)
  {
    assert FIRST == FIRST * Pow2(0);
  }

  // ---------- The doubling loop ----------

  /** `ncap` after `k` turns, as size_t computes it. */
  function Doubled(c: nat, k: nat): nat {
    if k == 0 then c else Doubled(c, k - 1) * 2 % SIZE_T
  }

  /** From any capacity of at most 2^63 bytes the loop reaches a request if and only if the request is
      at most 2^63; beyond that `ncap` wraps to zero and stays there. */
  lemma LoopEndsIff(c: nat, need: nat)
    requires IsCapacity(c) && c <= HALF
    ensures (exists k: nat :: Doubled(c, k) >= need) <==> need <= HALF
  {
    var j: nat :| c == FIRST * Pow2(j);
    Power63();
    if j > 53 {
      PowMonotonic(54, j);
    }
    var top := 53 - j;
    DoubledExact(j, top);
    assert Doubled(c, top) == HALF;
    forall k: nat
      ensures Doubled(c, k) <= HALF
    {
      if k <= top {
        DoubledExact(j, k);
        PowMonotonic(j + k, 53);
      } else {
        DoubledStuck(c, top, k);
      }
    }
  }

  lemma Power63()
    ensures FIRST * Pow2(53) == HALF && FIRST * Pow2(54) == SIZE_T
  {
    assert Pow2(9) == 512;
    PowSum(9, 9);
    PowSum(18, 9);
    PowSum(27, 27);
    assert Pow2(54) == 2 * Pow2(53);
  }

  lemma {:induction false} PowSum(a: nat, b: nat)
    ensures Pow2(a + b) == Pow2(a) * Pow2(b)
  {
    if b > 0 {
      PowSum(a, b - 1);
    }
  }

  lemma {:induction false} PowMonotonic(a: nat, b: nat)
    requires a <= b
    ensures Pow2(a) <= Pow2(b)
  {
    if a < b {
      PowMonotonic(a, b - 1);
    }
  }

  lemma {:induction false} DoubledExact(j: nat, k: nat)
    requires j + k <= 53
    ensures Doubled(FIRST * Pow2(j), k) == FIRST * Pow2(j + k)
  {
    if k > 0 {
      DoubledExact(j, k - 1);
      Power63();
      PowMonotonic(j + k, 53);
    }
  }

  lemma {:induction false} DoubledStuck(c: nat, top: nat, k: nat)
    requires Doubled(c, top) == HALF && k > top
    ensures Doubled(c, k) == 0
    decreases k
  {
    if k > top + 1 {
      DoubledStuck(c, top, k - 1);
    }
  }

  // ---------- How far the buffer grows ----------

  /** `c` doubled until it reaches `need`. */
  function Grown(c: nat, need: nat): (g: nat)
    requires c > 0
    ensures g >= c && g >= need
    decreases need - c
  {
    if need <= c then c else Grown(2 * c, need)
  }

  /** The capacity once `need` bytes are reserved; a null buffer starts with 1024. */
  function Capacity(cap: nat, need: nat): nat {
    if need <= cap then cap else Grown(if cap != 0 then cap else FIRST, need)
  }

  /** The grown capacity is the least one that suffices: below twice the need if it is not the first. */
  lemma CapacityIsLeast(cap: nat, need: nat)
    requires (cap == 0 || IsCapacity(cap)) && need > 0
    ensures var c := Capacity(cap, need);
            && IsCapacity(c) && c >= need && c >= cap && (c == cap || c == FIRST || c < 2 * need)
            && forall d: nat :: IsCapacity(d) && d >= need && d >= cap ==> c <= d
  {
    FirstIsCapacity();
    var start := if cap != 0 then cap else FIRST;
    GrownReaches(start, need);
    forall d: nat | IsCapacity(d) && d >= need && d >= cap
      ensures Capacity(cap, need) <= d
    {
      var i: nat :| start == FIRST * Pow2(i);
      var j: nat :| d == FIRST * Pow2(j);
      if j < i {
        PowMonotonic(j + 1, i);
      }
      GrownIsLeast(i, j, need);
    }
  }

  lemma {:induction false} GrownReaches(c: nat, need: nat)
    requires IsCapacity(c)
    ensures var g := Grown(c, need); IsCapacity(g) && (g == c || g < 2 * need)
    decreases need - c
  {
    DoubledIsCapacity(c);
    if need > c {
      GrownReaches(2 * c, need);
    }
  }

  lemma {:induction false} GrownIsLeast(i: nat, j: nat, need: nat)
    requires i <= j && need <= FIRST * Pow2(j)
    ensures Grown(FIRST * Pow2(i), need) <= FIRST * Pow2(j)
    decreases j - i
  {
    PowMonotonic(i, j);
    if need > FIRST * Pow2(i) {
      GrownIsLeast(i + 1, j, need);
    }
  }

  /** `n` more bytes behind `len` and a NUL step over some capacity. */
  ghost predicate Crosses(len: nat, n: nat) {
    exists c: nat :: IsCapacity(c) && len < c <= len + n
  }

  /** A buffer no larger than it must be has to grow exactly where a capacity is stepped over. */
  lemma GrowsIffCrosses(len: nat, n: nat)
    ensures len + n + 1 > Capacity(0, len + 1) <==> Crosses(len, n)
  {
    CapacityIsLeast(0, len + 1);
  }

  /** A buffer no larger than it must be stays so. */
  lemma CapacityTwice(a: nat, b: nat)
    requires 0 < a <= b
    ensures Capacity(Capacity(0, a), b) == Capacity(0, b)
  {
    GrownTwice(FIRST, a, b);
  }

  lemma {:induction false} GrownTwice(c: nat, a: nat, b: nat)
    requires 0 < c && a <= b
    ensures Grown(Grown(c, a), b) == Grown(c, b)
    decreases b - c
  {
    if a > c {
      GrownTwice(2 * c, a, b);
    }
  }

  // ---------- The buffer ----------

  class Buffer {
    var buf: array<char>    // of `cap` characters; empty for the null pointer
    var len: nat
    var cap: nat
    ghost var requested: nat    // bytes asked of realloc so far, where it succeeded

    ghost predicate Sized()
      reads this
    {
      && buf.Length == cap && len <= cap
      && (cap == 0 ==> requested == 0)
      && (cap > 0 ==> IsCapacity(cap) && cap <= HALF && len < cap && requested + FIRST <= 2 * cap)
    }

    ghost predicate Valid()
      reads this, buf
    {
      Sized() && (cap > 0 ==> buf[len] == '\0')
    }

    ghost function Text(): string
      requires Sized()
      reads this, buf
    {
      buf[..len]
    }

    constructor ()
      ensures Valid() && Text() == "" && cap == 0 && fresh(buf)
    {
      buf := new char[0];
      len, cap, requested := 0, 0, 0;
    }

    /** sb_reserve. The request stays within what the doubling loop can reach. */
    method Reserve(extra: nat, memory: bool) returns (ok: bool)
      requires Valid() && len + extra + 1 <= HALF
      modifies this
      ensures Sized() && len == old(len) && Text() == old(Text())
      ensures ok <==> memory || len + extra + 1 <= old(cap)
      ensures cap == if ok then Capacity(old(cap), len + extra + 1) else old(cap)
      ensures ok ==> len + extra + 1 <= cap
      ensures buf == old(buf) || fresh(buf)
      ensures cap == old(cap) ==> buf == old(buf) && Valid()
    {
      hide IsCapacity;
      if len + extra + 1 <= cap {
        return true;
      }
      FirstIsCapacity();
      var ncap := if cap != 0 then cap else FIRST;
      while ncap < len + extra + 1
        invariant IsCapacity(ncap) && ncap <= HALF
        invariant cap == 0 || ncap == cap || ncap >= 2 * cap
        invariant Capacity(cap, len + extra + 1) == Grown(ncap, len + extra + 1)
        modifies {}
        decreases len + extra + 1 - ncap
      {
        BelowHalf(ncap);
        ncap := ncap * 2 % SIZE_T;
      }
      if !memory {
        return false;
      }
      Realloc(ncap);
      ok := true;
    }

    /** A realloc that succeeds: a larger place with the old contents. */
    method Realloc(ncap: nat)
      requires Sized() && cap < ncap <= HALF && IsCapacity(ncap) && (cap == 0 || ncap >= 2 * cap)
      modifies this
      ensures Sized() && len == old(len) && Text() == old(Text()) && cap == ncap && fresh(buf)
    {
      hide IsCapacity;
      DoubledIsCapacity(ncap);
      var nb := new char[ncap];
      forall i | 0 <= i < cap {
        nb[i] := buf[i];
      }
      assert nb[..len] == buf[..len];
      requested := requested + ncap;
      buf := nb;
      cap := ncap;
    }

    /** Copies `s` and a NUL behind the text, where there is room. */
    method Put(s: string)
      requires Sized() && len + |s| + 1 <= cap
      modifies `len, buf
      ensures Valid() && cap == old(cap) && buf == old(buf) && Text() == old(Text()) + s
    {
      ghost var before := buf[..len];
      forall i | 0 <= i < |s| {
        buf[len + i] := s[i];
      }
      len := len + |s|;
      buf[len] := '\0';
      assert buf[..len] == before + s;
    }

    /** sb_append of a C string; nothing changes when the memory is refused. */
    method Append(s: string, memory: bool) returns (ok: bool)
      requires Valid() && len + |s| + 1 <= HALF
      modifies this, buf
      ensures Valid() && (buf == old(buf) || fresh(buf))
      ensures ok <==> memory || old(len) + |s| + 1 <= old(cap)
      ensures Text() == if ok then old(Text()) + s else old(Text())
      ensures cap == if ok then Capacity(old(cap), old(len) + |s| + 1) else old(cap)
      ensures ok ==> cap > 0
    {
      ok := Reserve(|s|, memory);
      if ok {
        Put(s);
      }
    }

    /** sb_appendf: `text` is what the format yields, None where formatting fails; `heap` says whether
        a text too long for the buffer on the stack gets memory of its own. */
    method Appendf(text: Option<string>, memory: bool, heap: bool) returns (ok: bool)
      requires Valid() && (text.Some? ==> len + |text.value| + 1 <= HALF)
      modifies this, buf
      ensures Valid() && (buf == old(buf) || fresh(buf))
      ensures ok <==> text.Some? && (|text.value| < TMP || heap)
                      && (memory || old(len) + |text.value| + 1 <= old(cap))
      ensures Text() == if ok then old(Text()) + text.value else old(Text())
      ensures cap == if ok then Capacity(old(cap), old(len) + |text.value| + 1) else old(cap)
      ensures ok ==> cap > 0
    {
      if text.None? {
        return false;
      }
      var n := |text.value|;
      if n < TMP {
        ok := Reserve(n, memory);
        if ok {
          Put(text.value);
        }
        return;
      }
      if !heap {
        return false;
      }
      ok := Append(text.value, memory);
    }
  }

  /** A capacity below 2^63 can be doubled without passing 2^63. */
  lemma BelowHalf(c: nat)
    requires IsCapacity(c) && c < HALF
    ensures 2 * c <= HALF && IsCapacity(2 * c)
  {
    DoubledIsCapacity(c);
    var j: nat :| c == FIRST * Pow2(j);
    Power63();
    if j >= 53 {
      PowMonotonic(53, j);
    }
    PowMonotonic(j + 1, 53);
  }

  /** All memory ever requested stays below twice the final capacity, after any plain and formatted
      appends. */
  method AppendAll(b: Buffer, parts: seq<string>, formatted: seq<bool>)
    requires b.Valid() && b.cap == 0 && TotalLength(parts) + 1 <= HALF && |formatted| == |parts|
    modifies b, b.buf
    ensures b.Valid() && b.Text() == Concat(parts)
    ensures b.cap > 0 ==> b.requested < 2 * b.cap && IsCapacity(b.cap) && b.cap >= |Concat(parts)| + 1
  {
    hide IsCapacity;
    for i := 0 to |parts|
      invariant b.Valid() && (b.buf == old(b.buf) || fresh(b.buf))
      invariant b.Text() == Concat(parts[..i]) && b.len + TotalLength(parts[i..]) + 1 <= HALF
    {
      assert parts[i..][1..] == parts[i + 1..];
      ConcatStep(parts, i);
      var ok;
      if formatted[i] {
        ok := b.Appendf(Some(parts[i]), true, true);
      } else {
        ok := b.Append(parts[i], true);
      }
    }
    assert parts[..|parts|] == parts;
  }

  function TotalLength(parts: seq<string>): nat {
    if parts == [] then 0 else |parts[0]| + TotalLength(parts[1..])
  }
}
