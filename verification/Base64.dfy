/** The base64 encoder of ws_server.c against section 4 of RFC 4648, with a strict decoder. */
module Base64 {
  import opened Basics
  import opened Bytes

  type index = n: nat | n < 64

  /** Table 1 of the RFC, which is the code's lookup string. */
  function Symbol(i: index): char {
    if i < 26 then ('A' as int + i) as char
    else if i < 52 then ('a' as int + (i - 26)) as char
    else if i < 62 then ('0' as int + (i - 52)) as char
    else if i == 62 then '+'
    else '/'
  }

  /** The value of a character of the alphabet, by its range. */
  function Value(c: char): Option<index> {
    if 'A' <= c <= 'Z' then Some((c as int) - ('A' as int))
    else if 'a' <= c <= 'z' then Some((c as int) - ('a' as int) + 26)
    else if '0' <= c <= '9' then Some((c as int) - ('0' as int) + 52)
    else if c == '+' then Some(62)
    else if c == '/' then Some(63)
    else None
  }

  lemma ValueOfSymbol(i: index)
    ensures Value(Symbol(i)) == Some(i)
  {
  }

  function Text(v: seq<index>): (t: string)
    ensures |t| == |v| && forall k :: 0 <= k < |v| ==> t[k] == Symbol(v[k])
  {
    seq(|v|, k requires 0 <= k < |v| => Symbol(v[k]))
  }

  function SplitTwo(n: nat): (v: seq<index>)
    requires n < 4096
    ensures |v| == 2
  {
    [n / 64, n % 64]
  }

  function SplitThree(n: nat): (v: seq<index>)
    requires n < 262144
    ensures |v| == 3
  {
    [n / 4096, n / 64 % 64, n % 64]
  }

  function SplitFour(n: nat): (v: seq<index>)
    requires n < 16777216
    ensures |v| == 4
  {
    [n / 262144, n / 4096 % 64, n / 64 % 64, n % 64]
  }

  function One(a: nat): nat { a * 16 }
  function Two(a: nat, b: nat): nat { (a * 256 + b) * 4 }
  function Three(a: nat, b: nat, c: nat): nat { a * 65536 + b * 256 + c }

  /** The RFC's encoding: 24-bit groups as four 6-bit characters; a last group of 8 or 16 bits is
      filled with zero bits to 12 or 18 and its text with `=` to four characters. */
  function Encode(s: seq<byte>): string {
    if s == [] then ""
    else if |s| == 1 then Text(SplitTwo(One(s[0]))) + "=="
    else if |s| == 2 then Text(SplitThree(Two(s[0], s[1]))) + "="
    else Text(SplitFour(Three(s[0], s[1], s[2]))) + Encode(s[3..])
  }

  function JoinOne(v0: index, v1: index): seq<byte> { [(v0 as nat * 64 + v1 as nat) / 16] }

  function JoinTwo(v0: index, v1: index, v2: index): seq<byte> {
    var n := v0 as nat * 4096 + v1 as nat * 64 + v2 as nat;
    [n / 1024, n / 4 % 256]
  }

  function JoinThree(v0: index, v1: index, v2: index, v3: index): seq<byte> {
    var n := v0 as nat * 262144 + v1 as nat * 4096 + v2 as nat * 64 + v3 as nat;
    [n / 65536, n / 256 % 256, n % 256]
  }

  /** Decodes text with padding only at its end and zero fill bits; None otherwise. */
  function Decode(t: string): Option<seq<byte>> {
    if t == "" then Some([])
    else if |t| < 4 then None
    else
      match (Value(t[0]), Value(t[1]), Value(t[2]), Value(t[3]))
      case (Some(v0), Some(v1), Some(v2), Some(v3)) =>
        (match Decode(t[4..])
         case None => None
         case Some(rest) => Some(JoinThree(v0, v1, v2, v3) + rest))
      case (Some(v0), Some(v1), Some(v2), None) =>
        if t[3..] == "=" && v2 % 4 == 0 then Some(JoinTwo(v0, v1, v2)) else None
      case (Some(v0), Some(v1), None, None) =>
        if t[2..] == "==" && v1 % 16 == 0 then Some(JoinOne(v0, v1)) else None
      case _ => None
  }

  lemma {:induction false} EncodedLength(s: seq<byte>)
    ensures |Encode(s)| == 4 * ((|s| + 2) / 3)
  {
    hide Symbol, One, Two, Three, SplitTwo, SplitThree, SplitFour;
    if |s| > 2 {
      EncodedLength(s[3..]);
      assert (|s| + 2) / 3 == (|s| - 3 + 2) / 3 + 1;
    }
  }

  lemma SymbolRange(i: index)
    ensures '+' <= Symbol(i) <= 'z'
  {
  }

  /** The text has no white space or control characters: it can stand in a header line. */
  lemma {:induction false} EncodedCharacters(s: seq<byte>)
    ensures forall k :: 0 <= k < |Encode(s)| ==> '+' <= Encode(s)[k] <= 'z'
  {
    hide Symbol, One, Two, Three, SplitTwo, SplitThree, SplitFour;
    forall i: index
      ensures '+' <= Symbol(i) <= 'z'
    {
      SymbolRange(i);
    }
    if |s| > 2 {
      EncodedCharacters(s[3..]);
    }
  }

  lemma PadIsNoSymbol()
    ensures Value('=') == None
  {
  }

  lemma {:induction false} DecodeEncode(s: seq<byte>)
    ensures Decode(Encode(s)) == Some(s)
  {
    hide Symbol, Value, JoinOne, JoinTwo, JoinThree;
    PadIsNoSymbol();
    if s == [] {
    } else if |s| == 1 {
      var v := SplitTwo(One(s[0]));
      ValueOfSymbol(v[0]);
      ValueOfSymbol(v[1]);
      JoinSplitOne(s[0]);
      assert s == [s[0]];
    } else if |s| == 2 {
      var v := SplitThree(Two(s[0], s[1]));
      ValueOfSymbol(v[0]);
      ValueOfSymbol(v[1]);
      ValueOfSymbol(v[2]);
      JoinSplitTwo(s[0], s[1]);
      assert s == [s[0], s[1]];
    } else {
      var v := SplitFour(Three(s[0], s[1], s[2]));
      ValueOfSymbol(v[0]);
      ValueOfSymbol(v[1]);
      ValueOfSymbol(v[2]);
      ValueOfSymbol(v[3]);
      JoinSplitThree(s[0], s[1], s[2]);
      DecodeEncode(s[3..]);
      assert Encode(s)[4..] == Encode(s[3..]);
      assert s == [s[0], s[1], s[2]] + s[3..];
    }
  }

  /** Six-bit digits determine the number they spell, and the other way round. */
  lemma SplitFourDigits(v0: index, v1: index, v2: index, v3: index)
    ensures SplitFour(v0 as nat * 262144 + v1 as nat * 4096 + v2 as nat * 64 + v3 as nat) == [v0, v1, v2, v3]
  {
    var r3: nat := v3;
    var r2: nat := v2 as nat * 64 + r3;
    var r1: nat := v1 as nat * 4096 + r2;
    var n: nat := v0 as nat * 262144 + r1;
    assert n / 262144 == v0;
    assert n / 4096 == v0 as nat * 64 + v1 as nat;
    assert n / 64 == (v0 as nat * 64 + v1 as nat) * 64 + v2 as nat;
  }

  lemma JoinSplitOne(a: byte)
    ensures var v := SplitTwo(One(a));
            v[1] % 16 == 0 && JoinOne(v[0], v[1]) == [a]
  {
  }

  lemma JoinSplitTwo(a: byte, b: byte)
    ensures var v := SplitThree(Two(a, b));
            v[2] % 4 == 0 && JoinTwo(v[0], v[1], v[2]) == [a, b]
  {
    hide Two;
    var n := Two(a, b);
    TwoDigits(a, b);
    SplitThreeSum(n);
  }

  lemma TwoDigits(a: byte, b: byte)
    ensures var n := Two(a, b);
            n < 262144 && n / 1024 == a && n / 4 % 256 == b && n % 64 % 4 == 0
  {
    var n: nat := Two(a, b);
    assert n / 4 == a as nat * 256 + b as nat;
    assert n / 1024 == a by {
      assert n == 1024 * a as nat + 4 * b as nat;
    }
    assert n % 64 == n - n / 64 * 64;
  }

  lemma SplitThreeSum(n: nat)
    ensures n / 4096 * 4096 + n / 64 % 64 * 64 + n % 64 == n
  {
    assert n / 4096 == n / 64 / 64;
  }

  lemma SplitThreeIsFour(n: nat)
    requires n < 262144
    ensures SplitFour(n) == [0] + SplitThree(n)
  {
  }

  lemma JoinSplitThree(a: byte, b: byte, c: byte)
    ensures var v := SplitFour(Three(a, b, c));
            JoinThree(v[0], v[1], v[2], v[3]) == [a, b, c]
  {
    hide Three;
    var a1: nat, a0: nat := a as nat / 4, a as nat % 4;
    var b1: nat, b0: nat := b as nat / 16, b as nat % 16;
    var c1: nat, c0: nat := c as nat / 64, c as nat % 64;
    SextetSum(a1, a0, b1, b0, c1, c0);
    assert a == 4 * a1 + a0 && b == 16 * b1 + b0 && c == 64 * c1 + c0;
    SplitFourDigits(a1, a0 * 16 + b1, b0 * 4 + c1, c0);
    ThreeDigits(a, b, c);
  }

  lemma SextetSum(a1: nat, a0: nat, b1: nat, b0: nat, c1: nat, c0: nat)
    ensures Three(4 * a1 + a0, 16 * b1 + b0, 64 * c1 + c0)
         == a1 * 262144 + (a0 * 16 + b1) * 4096 + (b0 * 4 + c1) * 64 + c0
  {
  }

  lemma ThreeDigits(a: byte, b: byte, c: byte)
    ensures var n := Three(a, b, c);
            n / 65536 == a && n / 256 % 256 == b && n % 256 == c
  {
    assert Three(a, b, c) / 256 == a as nat * 256 + b as nat;
  }

  /** base64_encode: -1 when the text and its NUL do not fit, else the length of the text. */
  method Base64Encode(input: seq<byte>, out: array<char>) returns (r: int)
    modifies out
    ensures out.Length < |Encode(input)| + 1 <==> r == -1
    ensures r == -1 ==> out[..] == old(out[..])
    ensures r != -1 ==> r == |Encode(input)| && out[..r] == Encode(input) && out[r] == '\0'
  {
    hide Symbol, Encode, Three;
    EncodedLength(input);
    var olen := 4 * ((|input| + 2) / 3);
    if out.Length < olen + 1 {
      return -1;
    }
    var i, j := 0, 0;
    while i < |input|
      invariant i <= |input| && j <= olen
      invariant out[..j] + Encode(input[i..]) == Encode(input)
    {
      ghost var done, todo := out[..j], input[i..];
      EncodedLength(todo);
      assert |done| + |Encode(todo)| == olen;
      assert (|todo| + 2) / 3 >= 1;
      var rem := |input| - i;
      var a: nat := input[i];
      i := i + 1;
      var b: nat, c: nat := 0, 0;
      if rem > 1 {
        b := input[i];
        i := i + 1;
      }
      if rem > 2 {
        c := input[i];
        i := i + 1;
      }
      var triple := Three(a, b, c);
      out[j] := Symbol(triple / 262144 % 64);
      out[j + 1] := Symbol(triple / 4096 % 64);
      out[j + 2] := if rem > 1 then Symbol(triple / 64 % 64) else '=';
      out[j + 3] := if rem > 2 then Symbol(triple % 64) else '=';
      j := j + 4;
      EncodeGroup(todo, a, b, c, out[j - 4..j]);
      assert input[i..] == todo[if rem > 2 then 3 else rem..];
      assert out[..j] == done + out[j - 4..j];
    }
    assert Encode(input[i..]) == [] by {
      EncodedLength(input[i..]);
    }
    out[j] := '\0';
    r := j;
  }

  /** The four characters the code writes for the next group are the RFC's. */
  lemma EncodeGroup(todo: seq<byte>, a: nat, b: nat, c: nat, four: string)
    requires |todo| > 0 && todo[0] == a && |four| == 4
    requires b == (if |todo| > 1 then todo[1] else 0) && c == (if |todo| > 2 then todo[2] else 0)
    requires var triple := Three(a, b, c);
             four == [Symbol(triple / 262144 % 64), Symbol(triple / 4096 % 64),
                      if |todo| > 1 then Symbol(triple / 64 % 64) else '=',
                       if |todo| > 2 then Symbol(triple % 64) else '=']
    ensures Encode(todo) == four + Encode(todo[if |todo| > 2 then 3 else |todo|..])
  {
    hide Symbol, Three;
    if |todo| == 1 {
      TripleOne(a);
      assert four == Text(SplitTwo(One(a))) + "==";
    } else if |todo| == 2 {
      TripleTwo(a, b);
      assert four == Text(SplitThree(Two(a, b))) + "=";
    } else {
      ThreeBound(a, b, c);
      TripleThree(Three(a, b, c));
      assert four == Text(SplitFour(Three(a, b, c)));
    }
  }

  lemma ThreeBound(a: byte, b: byte, c: byte)
    ensures Three(a, b, c) < 16777216
  {
  }

  lemma TripleThree(n: nat)
    requires n < 16777216
    ensures n / 262144 % 64 == n / 262144
  {
  }

  lemma TripleOne(a: byte)
    ensures Three(a, 0, 0) / 262144 % 64 == One(a) / 64 && Three(a, 0, 0) / 4096 % 64 == One(a) % 64
  {
    var a1: nat, a0: nat := a as nat / 4, a as nat % 4;
    SplitFourDigits(a1, a0 * 16, 0, 0);
    TripleThree(Three(a, 0, 0));
  }

  lemma TripleTwo(a: byte, b: byte)
    ensures var triple, n := Three(a, b, 0), Two(a, b);
            triple / 262144 % 64 == n / 4096 && triple / 4096 % 64 == n / 64 % 64 && triple / 64 % 64 == n % 64
  {
    var a1: nat, a0: nat, b1: nat, b0: nat := a as nat / 4, a as nat % 4, b as nat / 16, b as nat % 16;
    var v0: index, v1: index, v2: index := a1, a0 * 16 + b1, b0 * 4;
    assert Two(a, b) == v0 as nat * 4096 + v1 as nat * 64 + v2 as nat;
    SplitFourDigits(0, v0, v1, v2);
    SplitFourDigits(v0, v1, v2, 0);
    SplitThreeIsFour(Two(a, b));
    TripleThree(Three(a, b, 0));
  }

  /** The test vectors of section 10, and three bytes that need the last two characters of the alphabet. */
  lemma Section10()
    ensures Encode([]) == "" && Encode([0x66]) == "Zg==" && Encode([0x66, 0x6f]) == "Zm8="
    ensures Encode([0x66, 0x6f, 0x6f]) == "Zm9v" && Encode([0x66, 0x6f, 0x6f, 0x62]) == "Zm9vYg=="
    ensures Encode([0x66, 0x6f, 0x6f, 0x62, 0x61]) == "Zm9vYmE="
    ensures Encode([0x66, 0x6f, 0x6f, 0x62, 0x61, 0x72]) == "Zm9vYmFy"
    ensures Encode([0xfb, 0xff, 0xbf]) == "+/+/"
  {
    hide Encode;
    ShortVectors();
    GroupVectors();
    FirstGroup([]);
    FirstGroup([0x62]);
    FirstGroup([0x62, 0x61]);
    FirstGroup([0x62, 0x61, 0x72]);
    assert [0x66, 0x6f, 0x6f] + [] == [0x66, 0x6f, 0x6f] && "Zm9v" + "" == "Zm9v";
    assert [0x66, 0x6f, 0x6f] + [0x62] == [0x66, 0x6f, 0x6f, 0x62] && "Zm9v" + "Yg==" == "Zm9vYg==";
    assert [0x66, 0x6f, 0x6f] + [0x62, 0x61] == [0x66, 0x6f, 0x6f, 0x62, 0x61] && "Zm9v" + "YmE=" == "Zm9vYmE=";
    assert [0x66, 0x6f, 0x6f] + [0x62, 0x61, 0x72] == [0x66, 0x6f, 0x6f, 0x62, 0x61, 0x72];
    assert "Zm9v" + "YmFy" == "Zm9vYmFy";
  }

  lemma ShortVectors()
    ensures Encode([]) == "" && Encode([0x66]) == "Zg==" && Encode([0x66, 0x6f]) == "Zm8="
    ensures Encode([0x62]) == "Yg==" && Encode([0x62, 0x61]) == "YmE="
  {
  }

  lemma GroupVectors()
    ensures Encode([0x62, 0x61, 0x72]) == "YmFy" && Encode([0xfb, 0xff, 0xbf]) == "+/+/"
  {
    OneGroup([0x62, 0x61, 0x72], [24, 38, 5, 50]);
    OneGroup([0xfb, 0xff, 0xbf], [62, 63, 62, 63]);
  }

  lemma OneGroup(s: seq<byte>, v: seq<index>)
    requires |s| == 3 && |v| == 4 && SplitFour(Three(s[0], s[1], s[2])) == v
    ensures Encode(s) == [Symbol(v[0]), Symbol(v[1]), Symbol(v[2]), Symbol(v[3])]
  {
    hide Symbol, SplitFour, Three;
    assert s[3..] == [] && Encode([]) == "";
  }

  lemma FirstGroup(rest: seq<byte>)
    ensures Encode([0x66, 0x6f, 0x6f] + rest) == "Zm9v" + Encode(rest)
  {
    assert ([0x66, 0x6f, 0x6f] + rest)[3..] == rest;
    assert Text(SplitFour(Three(0x66, 0x6f, 0x6f))) == "Zm9v";
  }
}
