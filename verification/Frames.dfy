/** WebSocket framing: section 5.2 of RFC 6455 on whole frames, and the reader and writer of
    ws_server.c over a socket. */
module Frames {
  import opened Basics
  import opened Bytes
  import opened Sockets

  // ---------- Masking (section 5.3) ----------

  /** Exclusive or of the `k` low-order bits. */
  function XorBits(a: nat, b: nat, k: nat): (x: nat) {
    if k == 0 then 0 else 2 * XorBits(a / 2, b / 2, k - 1) + (a + b) % 2
  }

  lemma {:induction false} XorBound(a: nat, b: nat, k: nat)
    ensures XorBits(a, b, k) < Pow2(k)
  {
    if k > 0 {
      XorBound(a / 2, b / 2, k - 1);
    }
  }

  lemma {:induction false} XorInvolution(a: nat, b: nat, k: nat)
    requires a < Pow2(k)
    ensures XorBits(XorBits(a, b, k), b, k) == a
  {
    if k > 0 {
      XorHalves(a, b, k);
      XorInvolution(a / 2, b / 2, k - 1);
      assert a == 2 * (a / 2) + a % 2;
    }
  }

  lemma XorHalves(a: nat, b: nat, k: nat)
    requires k > 0
    ensures XorBits(a, b, k) / 2 == XorBits(a / 2, b / 2, k - 1)
    ensures (XorBits(a, b, k) + b) % 2 == a % 2
  {
    Halves(XorBits(a / 2, b / 2, k - 1), (a + b) % 2);
    ParityOfSum(a, b);
    ParityOfDouble(XorBits(a / 2, b / 2, k - 1), (a + b) % 2 + b);
  }

  lemma Halves(n: nat, bit: nat)
    requires bit < 2
    ensures (2 * n + bit) / 2 == n
  {
  }

  lemma ParityOfSum(a: nat, b: nat)
    ensures ((a + b) % 2 + b) % 2 == a % 2
  {
    var q := (a + b) / 2;
    assert a + b == 2 * q + (a + b) % 2;
    ParityOfDouble(b - q, a);
  }

  lemma ParityOfDouble(n: int, m: int)
    ensures (2 * n + m) % 2 == m % 2
  {
  }

  function Xor(a: byte, b: byte): byte {
    XorBound(a, b, 8);
    XorBits(a, b, 8)
  }

  /** Bit `k` of a number, bit 0 being the lowest. */
  predicate Bit(n: nat, k: nat) {
    if k == 0 then n % 2 == 1 else Bit(n / 2, k - 1)
  }

  /** Each bit of the exclusive or is set where exactly one of the two bits is. */
  lemma {:induction false} XorBit(a: nat, b: nat, n: nat, k: nat)
    requires k < n
    ensures Bit(XorBits(a, b, n), k) <==> Bit(a, k) != Bit(b, k)
    decreases k
  {
    hide XorBits;
    LowBit(a, b, n);
    if k > 0 {
      XorHalves(a, b, n);
      XorBit(a / 2, b / 2, n - 1, k - 1);
    }
  }

  lemma LowBit(a: nat, b: nat, n: nat)
    requires n > 0
    ensures XorBits(a, b, n) % 2 == (a + b) % 2
    ensures (a + b) % 2 == 1 <==> (a % 2 == 1) != (b % 2 == 1)
  {
    ParityOfDouble(XorBits(a / 2, b / 2, n - 1), (a + b) % 2);
  }

  /** The bits of two nibbles put together. */
  lemma XorNibble(a: nat, b: nat, k: nat)
    requires k >= 4
    ensures XorBits(a, b, k)
         == 16 * XorBits(a / 16, b / 16, k - 4) + (a / 8 + b / 8) % 2 * 8 + (a / 4 + b / 4) % 2 * 4
            + (a / 2 + b / 2) % 2 * 2 + (a + b) % 2
  {
    hide XorBits;
    XorUnfold(a, b, k);
    XorUnfold(a / 2, b / 2, k - 1);
    assert a / 2 / 2 == a / 4 && b / 2 / 2 == b / 4;
    XorUnfold(a / 4, b / 4, k - 2);
    assert a / 4 / 2 == a / 8 && b / 4 / 2 == b / 8;
    XorUnfold(a / 8, b / 8, k - 3);
    assert a / 8 / 2 == a / 16 && b / 8 / 2 == b / 16;
  }

  lemma XorIs(a: byte, b: byte, high: nat, low: nat)
    requires high == (a / 128 + b / 128) % 2 * 8 + (a / 64 + b / 64) % 2 * 4 + (a / 32 + b / 32) % 2 * 2
                     + (a / 16 + b / 16) % 2
    requires low == (a / 8 + b / 8) % 2 * 8 + (a / 4 + b / 4) % 2 * 4 + (a / 2 + b / 2) % 2 * 2 + (a + b) % 2
    ensures Xor(a, b) == 16 * high + low
  {
    hide XorBits;
    XorNibble(a, b, 8);
    NibbleQuotients(a);
    NibbleQuotients(b);
    XorNibble(a / 16, b / 16, 4);
    NoBits(a / 16 / 16, b / 16 / 16);
  }

  lemma NibbleQuotients(a: nat)
    ensures a / 16 / 8 == a / 128 && a / 16 / 4 == a / 64 && a / 16 / 2 == a / 32
  {
  }

  lemma NoBits(a: nat, b: nat)
    ensures XorBits(a, b, 0) == 0
  {
  }

  lemma XorUnfold(a: nat, b: nat, k: nat)
    requires k > 0
    ensures XorBits(a, b, k) == 2 * XorBits(a / 2, b / 2, k - 1) + (a + b) % 2
  {
  }

  /** `plain` is what the key makes of `received`: a bit is set where exactly one of the bits of the received
      byte and of the key byte at its place modulo four is. */
  ghost predicate Unmasks(received: seq<byte>, key: seq<byte>, plain: seq<byte>)
    requires |key| == 4
  {
    && |plain| == |received|
    && forall i, k :: 0 <= i < |plain| && 0 <= k < 8 ==>
         (Bit(plain[i], k) <==> Bit(received[i], k) != Bit(key[i % 4], k))
  }

  lemma MaskedUnmasks(received: seq<byte>, key: seq<byte>)
    requires |key| == 4
    ensures Unmasks(received, key, Masked(received, key))
  {
    hide Bit;
    forall i, k | 0 <= i < |received| && 0 <= k < 8
      ensures Bit(Xor(received[i], key[i % 4]), k) <==> Bit(received[i], k) != Bit(key[i % 4], k)
    {
      XorBit(received[i], key[i % 4], 8, k);
    }
  }

  function Masked(payload: seq<byte>, key: seq<byte>): (s: seq<byte>)
    requires |key| == 4
    ensures |s| == |payload|
  {
    seq(|payload|, i requires 0 <= i < |payload| => Xor(payload[i], key[i % 4]))
  }

  lemma MaskTwice(payload: seq<byte>, key: seq<byte>)
    requires |key| == 4
    ensures Masked(Masked(payload, key), key) == payload
  {
    forall i | 0 <= i < |payload|
      ensures Masked(Masked(payload, key), key)[i] == payload[i]
    {
      XorInvolution(payload[i], key[i % 4], 8);
    }
  }

  // ---------- Frames (section 5.2) ----------

  datatype Frame = Frame(fin: bool, rsv: nat, opcode: nat, key: Option<seq<byte>>, payload: seq<byte>) {
    ghost predicate Valid() {
      rsv < 8 && opcode < 16 && (key.Some? ==> |key.value| == 4)
    }
  }

  /** The three ways to write a payload length. */
  datatype LengthForm = Seven | Sixteen | SixtyFour

  predicate Fits(form: LengthForm, n: nat) {
    match form
    case Seven => n <= 125
    case Sixteen => n < 0x1_0000
    case SixtyFour => n < 0x8000_0000_0000_0000
  }

  function LengthCode(form: LengthForm, n: nat): nat {
    match form
    case Seven => n
    case Sixteen => 126
    case SixtyFour => 127
  }

  function ExtensionSize(code: nat): nat {
    if code == 126 then 2 else if code == 127 then 8 else 0
  }

  function Extension(form: LengthForm, n: nat): seq<byte> {
    BigEndian(n, ExtensionSize(LengthCode(form, n)))
  }

  function FirstByte(f: Frame): byte
    requires f.Valid()
  {
    (if f.fin then 128 else 0) + 16 * f.rsv + f.opcode
  }

  function SecondByte(masked: bool, code: nat): byte
    requires code < 128
  {
    (if masked then 128 else 0) + code
  }

  function KeyBytes(key: Option<seq<byte>>): seq<byte> {
    if key.Some? then key.value else []
  }

  function Body(f: Frame): (b: seq<byte>)
    requires f.Valid()
    ensures |b| == |f.payload|
  {
    if f.key.Some? then Masked(f.payload, f.key.value) else f.payload
  }

  /** The bytes of a frame whose length is written in the given form. */
  function Encode(f: Frame, form: LengthForm): seq<byte>
    requires f.Valid() && Fits(form, |f.payload|)
  {
    [FirstByte(f), SecondByte(f.key.Some?, LengthCode(form, |f.payload|))]
    + Extension(form, |f.payload|) + KeyBytes(f.key) + Body(f)
  }

  datatype Parsed = Parsed(opcode: nat, payload: seq<byte>, size: nat)

  /** The frame at the head of `b`, if `b` holds all of it and its payload is at most `limit` long. */
  function Parse(b: seq<byte>, limit: nat): Option<Parsed> {
    if |b| < 2 then None else
    var masked, code := b[1] / 128 == 1, b[1] % 128;
    var at := 2 + ExtensionSize(code);
    if |b| < at then None else
    var len := if at == 2 then code as nat else FromBigEndian(b[2..at]);
    if len > limit then None else
    var body := if masked then at + 4 else at;
    if |b| < body + len then None else
    var payload := if masked then Masked(b[body..body + len], b[at..body]) else b[body..body + len];
    Some(Parsed(b[0] % 16, payload, body + len))
  }

  /** Section 5.2 byte by byte: the payload lies behind a length of no, two or eight bytes and a key if there is
      one, and is received as it is or unmasked bit by bit. */
  ghost predicate Delivers(b: seq<byte>, opcode: nat, plain: seq<byte>) {
    && |b| >= 2 && opcode == b[0] % 16
    && var code: nat, n: nat := b[1] % 128, |plain|;
       var at := if code == 126 then 4 else if code == 127 then 10 else 2;
       && |b| >= at + n
       && n == (if code == 126 then 256 * b[2] as nat + b[3] as nat
                else if code == 127 then FromBigEndian(b[2..10]) else code)
       && if b[1] < 128 then plain == b[at..at + n]
          else |b| >= at + 4 + n && Unmasks(b[at + 4..at + 4 + n], b[at..at + 4], plain)
  }

  lemma ParsedDelivers(b: seq<byte>, limit: nat)
    requires Parse(b, limit).Some?
    ensures Delivers(b, Parse(b, limit).value.opcode, Parse(b, limit).value.payload)
  {
    hide Masked, Unmasks;
    var code := b[1] % 128;
    var at := 2 + ExtensionSize(code);
    if code == 126 {
      TwoByteLength(b[2..4]);
    }
    if b[1] >= 128 {
      MaskedUnmasks(b[at + 4..at + 4 + |Parse(b, limit).value.payload|], b[at..at + 4]);
    }
  }

  lemma TwoByteLength(s: seq<byte>)
    requires |s| == 2
    ensures FromBigEndian(s) == 256 * s[0] as nat + s[1] as nat
  {
    assert s[..1][..0] == [];
    assert FromBigEndian(s[..1]) == s[0];
  }

  lemma HeaderBytes(f: Frame, form: LengthForm)
    requires f.Valid() && Fits(form, |f.payload|)
    ensures FirstByte(f) as nat % 16 == f.opcode
    ensures var code := LengthCode(form, |f.payload|);
            var b := SecondByte(f.key.Some?, code) as nat;
            (b / 128 == 1 <==> f.key.Some?) && b % 128 == code
  {
  }

  lemma ExtensionRoundTrip(form: LengthForm, n: nat)
    requires Fits(form, n)
    ensures form.Seven? || FromBigEndian(Extension(form, n)) == n
  {
    if !form.Seven? {
      assert Pow256(2) == 0x1_0000 && Pow256(8) == 0x1_0000_0000_0000_0000;
      BigEndianRoundTrip(n, ExtensionSize(LengthCode(form, n)));
    }
  }

  /** The parser's answer in terms of the pieces the reader receives one after the other. */
  lemma ParsePieces(b: seq<byte>, h2: seq<byte>, ext: seq<byte>, key: seq<byte>, body: seq<byte>, rest: seq<byte>,
                    limit: nat)
    requires |h2| == 2 && b == h2 + (ext + (key + body + rest))
    requires |ext| == ExtensionSize(h2[1] % 128) && |key| == if h2[1] / 128 == 1 then 4 else 0
    requires |body| == if ext == [] then h2[1] % 128 else FromBigEndian(ext)
    requires |body| <= limit
    ensures Parse(b, limit)
         == Some(Parsed(h2[0] % 16, if key == [] then body else Masked(body, key), |h2| + |ext| + |key| + |body|))
  {
    hide Masked, FromBigEndian;
    PieceSlices(b, h2, ext, key, body, rest);
    var at := 2 + |ext|;
    assert |b| >= at + |key| + |body|;
    assert b[2..at] == ext && b[at + |key|..at + |key| + |body|] == body;
    if h2[1] / 128 == 1 {
      assert b[at..at + 4] == key;
    } else {
      assert key == [];
    }
  }

  lemma PieceSlices(b: seq<byte>, h2: seq<byte>, ext: seq<byte>, key: seq<byte>, body: seq<byte>, rest: seq<byte>)
    requires |h2| == 2 && b == h2 + (ext + (key + body + rest))
    ensures b[0] == h2[0] && b[1] == h2[1] && |b| == 2 + |ext| + |key| + |body| + |rest|
    ensures var at := 2 + |ext|;
            b[2..at] == ext && b[at..at + |key|] == key && b[at + |key|..at + |key| + |body|] == body
  {
  }

  /** Parsing undoes encoding, in every length form, whatever follows the frame. */
  lemma ParseEncode(f: Frame, form: LengthForm, rest: seq<byte>, limit: nat)
    requires f.Valid() && Fits(form, |f.payload|) && |f.payload| <= limit
    ensures Parse(Encode(f, form) + rest, limit) == Some(Parsed(f.opcode, f.payload, |Encode(f, form)|))
  {
    hide Masked, FirstByte, SecondByte, BigEndian, Parse;
    var head := Encode(f, form)[..2];
    var ext, key, body := Extension(form, |f.payload|), KeyBytes(f.key), Body(f);
    var b := Encode(f, form) + rest;
    HeaderBytes(f, form);
    ExtensionRoundTrip(form, |f.payload|);
    assert b == head + (ext + (key + body + rest));
    ParsePieces(b, head, ext, key, body, rest, limit);
    if f.key.Some? {
      MaskTwice(f.payload, f.key.value);
    }
  }

  /** What parses is a frame: the parser accepts no bytes that section 5.2 does not describe. */
  lemma ParseSound(b: seq<byte>, limit: nat) returns (f: Frame, form: LengthForm)
    requires limit < 0x8000_0000_0000_0000
    requires Parse(b, limit).Some?
    ensures f.Valid() && Fits(form, |f.payload|) && |f.payload| <= limit
    ensures var p := Parse(b, limit).value;
            p.opcode == f.opcode && p.payload == f.payload && p.size <= |b| && b[..p.size] == Encode(f, form)
  {
    hide Masked;
    var p := Parse(b, limit).value;
    var masked, code := b[1] / 128 == 1, b[1] % 128;
    var at := 2 + ExtensionSize(code);
    var body := if masked then at + 4 else at;
    form := if at == 2 then Seven else if at == 4 then Sixteen else SixtyFour;
    var key := if masked then Some(b[at..body]) else None;
    f := Frame(b[0] / 128 == 1, b[0] / 16 % 8, b[0] % 16, key, p.payload);
    HeaderFields(b[0], b[1]);
    LengthFields(b[2..at], code, |p.payload|, form);
    if masked {
      MaskTwice(b[body..p.size], b[at..body]);
    }
    assert Body(f) == b[body..p.size];
    Pieces(b, at, body, p.size);
  }

  lemma Pieces(b: seq<byte>, at: nat, body: nat, size: nat)
    requires 2 <= at <= body <= size <= |b|
    ensures b[..size] == [b[0], b[1]] + b[2..at] + b[at..body] + b[body..size]
  {
  }

  lemma LengthFields(ext: seq<byte>, code: nat, n: nat, form: LengthForm)
    requires code < 128 && |ext| == ExtensionSize(code)
    requires n == if ext == [] then code else FromBigEndian(ext)
    requires form == if |ext| == 0 then Seven else if |ext| == 2 then Sixteen else SixtyFour
    requires n < 0x8000_0000_0000_0000
    ensures Fits(form, n) && LengthCode(form, n) == code && Extension(form, n) == ext
  {
    FromBigEndianBound(ext);
    FromBigEndianRoundTrip(ext);
    assert Pow256(2) == 0x1_0000;
  }

  lemma HeaderFields(b0: byte, b1: byte)
    ensures b0 == (if b0 / 128 == 1 then 128 else 0) + 16 * (b0 / 16 % 8) + b0 % 16
    ensures b1 == (if b1 / 128 == 1 then 128 else 0) + b1 % 128
  {
    var n := b0 as nat;
    assert n / 16 == n / 128 * 8 + n / 16 % 8;
  }

  // ---------- Section 5.7 ----------

  const HELLO: seq<byte> := [0x48, 0x65, 0x6c, 0x6c, 0x6f]
  const EXAMPLE_KEY: seq<byte> := [0x37, 0xfa, 0x21, 0x3d]

  /** The section's masked and unmasked text, its ping and its pong, read whatever follows. */
  lemma ExamplesParse(rest: seq<byte>, limit: nat)
    requires limit >= 5
    ensures Parse([0x81, 0x05, 0x48, 0x65, 0x6c, 0x6c, 0x6f] + rest, limit) == Some(Parsed(1, HELLO, 7))
    ensures Parse([0x81, 0x85, 0x37, 0xfa, 0x21, 0x3d, 0x7f, 0x9f, 0x4d, 0x51, 0x58] + rest, limit)
         == Some(Parsed(1, HELLO, 11))
    ensures Parse([0x89, 0x05, 0x48, 0x65, 0x6c, 0x6c, 0x6f] + rest, limit) == Some(Parsed(9, HELLO, 7))
    ensures Parse([0x8a, 0x85, 0x37, 0xfa, 0x21, 0x3d, 0x7f, 0x9f, 0x4d, 0x51, 0x58] + rest, limit)
         == Some(Parsed(10, HELLO, 11))
  {
    hide Parse;
    ExampleText(1, rest, limit);
    ExampleMasked(1, rest, limit);
    ExampleText(9, rest, limit);
    ExampleMasked(10, rest, limit);
  }

  lemma ExampleText(opcode: nat, rest: seq<byte>, limit: nat)
    requires opcode < 16 && limit >= 5
    ensures Parse([128 + opcode, 0x05, 0x48, 0x65, 0x6c, 0x6c, 0x6f] + rest, limit) == Some(Parsed(opcode, HELLO, 7))
  {
    var b := [128 + opcode, 0x05, 0x48, 0x65, 0x6c, 0x6c, 0x6f] + rest;
    assert b[2..7] == HELLO;
  }

  lemma ExampleMasked(opcode: nat, rest: seq<byte>, limit: nat)
    requires opcode < 16 && limit >= 5
    ensures Parse([128 + opcode, 0x85, 0x37, 0xfa, 0x21, 0x3d, 0x7f, 0x9f, 0x4d, 0x51, 0x58] + rest, limit)
         == Some(Parsed(opcode, HELLO, 11))
  {
    hide Masked;
    ExampleMask();
    MaskTwice(HELLO, EXAMPLE_KEY);
    var b := [128 + opcode, 0x85, 0x37, 0xfa, 0x21, 0x3d, 0x7f, 0x9f, 0x4d, 0x51, 0x58] + rest;
    assert b[2..6] == EXAMPLE_KEY && b[6..11] == Masked(HELLO, EXAMPLE_KEY);
  }

  lemma ExampleMask()
    ensures Masked(HELLO, EXAMPLE_KEY) == [0x7f, 0x9f, 0x4d, 0x51, 0x58]
  {
    hide Xor;
    XorIs(0x48, 0x37, 0x7, 0xf);
    XorIs(0x65, 0xfa, 0x9, 0xf);
    XorIs(0x6c, 0x21, 0x4, 0xd);
    XorIs(0x6c, 0x3d, 0x5, 0x1);
    XorIs(0x6f, 0x37, 0x5, 0x8);
  }

  /** Its unmasked text as the server sends it, and the headers of 256 and of 65536 bytes of binary data. */
  lemma ExamplesEncode(f: Frame)
    requires f.Valid() && f.fin && f.rsv == 0 && f.opcode == 2 && f.key.None?
    ensures EncodeText(HELLO) == [0x81, 0x05, 0x48, 0x65, 0x6c, 0x6c, 0x6f]
    ensures |f.payload| == 256 ==> Encode(f, Sixteen) == [0x82, 0x7e, 0x01, 0x00] + f.payload
    ensures |f.payload| == 65536 ==>
      Encode(f, SixtyFour) == [0x82, 0x7f, 0, 0, 0, 0, 0, 0x01, 0, 0] + f.payload
  {
    assert BigEndian(256, 2) == [1, 0] by {
      TwoBytes(256);
    }
    if |f.payload| == 65536 {
      EightBytes();
    }
  }

  lemma EightBytes()
    ensures BigEndian(65536, 8) == [0, 0, 0, 0, 0, 1, 0, 0]
  {
    BigEndianStep(65536, 7);
    BigEndianStep(256, 6);
    BigEndianStep(1, 5);
    assert forall i :: 0 <= i < 5 ==> BigEndian(0, 5)[i] == 0;
  }

  // ---------- ws_recv_frame ----------

  const MAX_PAYLOAD := 1024 * 1024

  /** Where the pieces run out, or the length is over the limit, the parser has no answer either. */
  lemma ParseFails(b: seq<byte>, h2: seq<byte>, ext: seq<byte>, rest: seq<byte>, limit: nat)
    requires |h2| == 2 && b == h2 + (ext + rest)
    requires |ext| == ExtensionSize(h2[1] % 128)
    ensures var n: nat := if ext == [] then h2[1] % 128 else FromBigEndian(ext);
            n > limit || |rest| < (if h2[1] / 128 == 1 then 4 else 0) + n ==> Parse(b, limit) == None
  {
    hide Masked;
    assert b[0] == h2[0] && b[1] == h2[1];
    assert b[2..2 + |ext|] == ext;
  }

  /** The extended length that follows the second header byte, if its code asks for one. */
  method RecvLength(sock: Socket<byte>, code: nat) returns (ok: bool, len: nat, ghost ext: seq<byte>)
    requires code < 128
    modifies sock`incoming, sock`schedule
    ensures Faultless(old(sock.schedule)) ==>
      Faultless(sock.schedule) && ok == (ExtensionSize(code) <= |old(sock.incoming)|)
    ensures ok ==> |ext| == ExtensionSize(code) && old(sock.incoming) == ext + sock.incoming
    ensures ok ==> len == if ext == [] then code else FromBigEndian(ext)
  {
    ok, len, ext := true, code, [];
    if code == 126 || code == 127 {
      var buf := new byte[if code == 126 then 2 else 8](_ => 0);
      ok := sock.RecvAll(buf, buf.Length);
      if !ok {
        return;
      }
      ext := buf[..];
      len := 0;
      for i := 0 to buf.Length
        invariant buf[..] == ext && len == FromBigEndian(ext[..i])
      {
        len := len * 256 + buf[i];
        assert ext[..i + 1][..i] == ext[..i];
      }
      assert ext[..buf.Length] == ext;
    }
  }

  /** Undoes the mask in place. */
  method Unmask(payload: array<byte>, len: nat, key: seq<byte>)
    requires len <= payload.Length && |key| == 4
    modifies payload
    ensures payload[..len] == Masked(old(payload[..len]), key)
    ensures Unmasks(old(payload[..len]), key, payload[..len])
  {
    hide Xor, Bit;
    MaskedUnmasks(payload[..len], key);
    for i := 0 to len
      invariant forall j :: 0 <= j < i ==> payload[j] == Xor(old(payload[j]), key[j % 4])
      invariant forall j :: i <= j < len ==> payload[j] == old(payload[j])
    {
      payload[i] := Xor(payload[i], key[i % 4]);
    }
  }

  /** The masking key, if the frame has one, and the payload: `len + 1` bytes, the last one NUL. */
  method RecvPayload(sock: Socket<byte>, masked: bool, len: nat)
    returns (ok: bool, payload: array<byte>, ghost key: seq<byte>, ghost body: seq<byte>)
    modifies sock`incoming, sock`schedule
    ensures fresh(payload)
    ensures Faultless(old(sock.schedule)) ==>
      Faultless(sock.schedule) && ok == ((if masked then 4 else 0) + len <= |old(sock.incoming)|)
    ensures ok ==> old(sock.incoming) == key + body + sock.incoming
    ensures ok ==> |key| == (if masked then 4 else 0) && |body| == len
    ensures ok ==> payload.Length == len + 1 && payload[len] == 0
    ensures ok ==> payload[..len] == if key == [] then body else Masked(body, key)
    ensures ok && masked ==> Unmasks(body, key, payload[..len])
  {
    hide Masked;
    payload, key, body := new byte[1](_ => 0), [], [];
    var mask := new byte[4](_ => 0);
    ok := true;
    if masked {
      ok := sock.RecvAll(mask, 4);
      if !ok {
        return;
      }
      key := mask[..];
    }
    ghost var tail := sock.incoming;
    payload := new byte[len + 1](_ => 0);
    ok := sock.RecvAll(payload, len);
    if !ok {
      return;
    }
    body := payload[..len];
    if masked {
      Unmask(payload, len, mask[..]);
    }
    payload[len] := 0;
  }

  /** Reads one frame. */
  method RecvFrame(sock: Socket<byte>) returns (ok: bool, opcode: nat, payload: array<byte>, len: nat)
    modifies sock`incoming, sock`schedule
    ensures fresh(payload)
    ensures ok ==> payload.Length == len + 1 && payload[len] == 0
    ensures ok ==> Consumed(old(sock.incoming), sock.incoming, opcode, payload[..len])
    ensures ok ==> Delivers(old(sock.incoming), opcode, payload[..len])
    ensures Faultless(old(sock.schedule)) ==>
      Faultless(sock.schedule) && ok == Parse(old(sock.incoming), MAX_PAYLOAD).Some?
  {
    hide Masked, FromBigEndian, Parse, Delivers, Unmasks;
    ghost var b := sock.incoming;
    ok, opcode, len := false, 0, 0;
    payload := new byte[1](_ => 0);
    var h2 := new byte[2](_ => 0);
    var got := sock.RecvAll(h2, 2);
    if !got {
      TooShort(b);
      return;
    }
    ghost var head, ext := h2[..], [];
    opcode := h2[0] % 16;
    var masked := h2[1] / 128 == 1;
    got, len, ext := RecvLength(sock, h2[1] % 128);
    if !got {
      TooShort(b);
      return;
    }
    ParseFails(b, head, ext, sock.incoming, MAX_PAYLOAD);
    if len > MAX_PAYLOAD {
      return;
    }
    ghost var key, body;
    got, payload, key, body := RecvPayload(sock, masked, len);
    if !got {
      return;
    }
    ParsePieces(b, head, ext, key, body, sock.incoming, MAX_PAYLOAD);
    ParsedDelivers(b, MAX_PAYLOAD);
    ok := true;
  }

  /** The frame read is the one at the head of the stream, and exactly its bytes are gone. */
  ghost predicate Consumed(before: seq<byte>, after: seq<byte>, opcode: nat, payload: seq<byte>) {
    var p := Parse(before, MAX_PAYLOAD);
    && p.Some? && p.value.opcode == opcode && p.value.payload == payload
    && p.value.size <= |before| && after == before[p.value.size..]
  }

  lemma TooShort(b: seq<byte>)
    ensures |b| < 2 || |b| < 2 + ExtensionSize(b[1] % 128) ==> Parse(b, MAX_PAYLOAD) == None
  {
  }

  // ---------- A stream of frames ----------

  datatype Wire = Wire(frame: Frame, form: LengthForm) {
    ghost predicate Valid() {
      frame.Valid() && Fits(form, |frame.payload|) && |frame.payload| <= 1048576
    }
  }

  ghost predicate AllValid(ws: seq<Wire>) {
    forall i :: 0 <= i < |ws| ==> ws[i].Valid()
  }

  ghost function EncodeStream(ws: seq<Wire>): seq<byte>
    requires AllValid(ws)
  {
    if ws == [] then [] else Encode(ws[0].frame, ws[0].form) + EncodeStream(ws[1..])
  }

  /** However recv cuts the bytes, successive reads return exactly the frames sent and stop right
      behind them. */
  method RecvStream(sock: Socket<byte>, ghost ws: seq<Wire>, n: nat, ghost rest: seq<byte>)
    returns (received: seq<(nat, seq<byte>)>)
    requires n == |ws| && AllValid(ws) && sock.incoming == EncodeStream(ws) + rest
    requires Faultless(sock.schedule)
    modifies sock`incoming, sock`schedule
    ensures sock.incoming == rest && |received| == n
    ensures forall i :: 0 <= i < n ==> received[i] == (ws[i].frame.opcode, ws[i].frame.payload)
  {
    hide Parse, Encode;
    received := [];
    for k := 0 to n
      invariant Faultless(sock.schedule) && sock.incoming == EncodeStream(ws[k..]) + rest && |received| == k
      invariant forall i :: 0 <= i < k ==> received[i] == (ws[i].frame.opcode, ws[i].frame.payload)
    {
      ghost var w, more := ws[k], EncodeStream(ws[k + 1..]) + rest;
      ParseEncode(w.frame, w.form, more, MAX_PAYLOAD);
      assert ws[k..][1..] == ws[k + 1..];
      assert sock.incoming == Encode(w.frame, w.form) + more;
      var ok, opcode, payload, len := RecvFrame(sock);
      received := received + [(opcode, payload[..len])];
    }
  }

  // ---------- ws_send_text and ws_send_control ----------

  function MinimalForm(n: nat): LengthForm {
    if n <= 125 then Seven else if n <= 65535 then Sixteen else SixtyFour
  }

  /** Section 5.2: the minimal number of bytes must be used to encode the length. */
  lemma MinimalFormIsMinimal(form: LengthForm, n: nat)
    requires Fits(form, n)
    ensures Fits(MinimalForm(n), n)
    ensures |Extension(MinimalForm(n), n)| <= |Extension(form, n)|
  {
  }

  function TextFrame(msg: seq<byte>): Frame { Frame(true, 0, 1, None, msg) }

  function EncodeText(msg: seq<byte>): seq<byte>
    requires |msg| < 0x8000_0000_0000_0000
  {
    Encode(TextFrame(msg), MinimalForm(|msg|))
  }

  /** What is sent for a message parses back to it, for any reader that allows its length. */
  lemma TextRoundTrip(msg: seq<byte>, rest: seq<byte>, limit: nat)
    requires |msg| < 0x8000_0000_0000_0000 && |msg| <= limit
    ensures Parse(EncodeText(msg) + rest, limit) == Some(Parsed(1, msg, |EncodeText(msg)|))
  {
    ParseEncode(TextFrame(msg), MinimalForm(|msg|), rest, limit);
  }

  method SendText(sock: Socket<byte>, msg: seq<byte>) returns (ok: bool)
    requires |msg| < 0x8000_0000_0000_0000
    modifies sock`outgoing, sock`schedule
    ensures Faultless(old(sock.schedule)) ==> ok && Faultless(sock.schedule)
    ensures ok ==> sock.outgoing == old(sock.outgoing) + EncodeText(msg)
    ensures old(sock.outgoing) <= sock.outgoing <= old(sock.outgoing) + EncodeText(msg)
  {
    hide Extension;
    var hdr, hlen := TextHeader(|msg|);
    ghost var head := hdr[..hlen];
    assert EncodeText(msg) == head + msg;
    ok := sock.SendAll(hdr[..hlen]);
    if ok && |msg| > 0 {
      ok := sock.SendAll(msg);
    }
  }

  method TextHeader(len: nat) returns (hdr: array<byte>, hlen: nat)
    requires len < 0x8000_0000_0000_0000
    ensures fresh(hdr) && hlen <= hdr.Length
    ensures hdr[..hlen] == [0x81, LengthCode(MinimalForm(len), len)] + Extension(MinimalForm(len), len)
  {
    hdr := new byte[14](_ => 0);
    hdr[0] := 0x81;
    if len <= 125 {
      hdr[1] := len;
      hlen := 2;
    } else if len <= 65535 {
      hdr[1] := 126;
      hdr[2] := len / 256 % 256;
      hdr[3] := len % 256;
      hlen := 4;
      TwoBytes(len);
    } else {
      hdr[1] := 127;
      for i := 0 to 8
        invariant hdr[0] == 0x81 && hdr[1] == 127
        invariant forall j :: 2 <= j < 2 + i ==> hdr[j] == ByteAt(len, 9 - j)
      {
        hdr[2 + i] := len / Pow256(7 - i) % 256;
      }
      hlen := 10;
      assert hdr[2..10] == BigEndian(len, 8);
    }
  }

  lemma TwoBytes(n: nat)
    ensures BigEndian(n, 2) == [n / 256 % 256, n % 256]
  {
    assert Pow256(1) == 256 && Pow256(0) == 1;
    assert ByteAt(n, 1) == n / 256 % 256 && ByteAt(n, 0) == n % 256;
  }
}
