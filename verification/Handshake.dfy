/** The opening handshake of ws_server.c: the request read from the socket, the header lookup, and
    the accept key of section 4.2.2 of RFC 6455. Characters stand for bytes. */
module Handshake {
  import opened Basics
  import opened Bytes
  import opened Sockets
  import opened CStrings
  import Sha1
  import Base64

  const CRLF := "\r\n"
  const BLANK_LINE := "\r\n\r\n"
  const GUID := "258EAFA5-E914-47DA-95CA-C5AB0DC85B11"
  const KEY_HEADER := "Sec-WebSocket-Key"
  const HTTP_MAX := 8192

  function ToLower(c: char): char {
    if 'A' <= c <= 'Z' then (c as int + 32) as char else c
  }

  function Lowered(s: string): string {
    seq(|s|, i requires 0 <= i < |s| => ToLower(s[i]))
  }

  // ---------- Reading the request ----------

  /** The request has arrived when the text received so far shows a blank line. */
  ghost predicate Complete(received: string) {
    IndexOf(CString(received), BLANK_LINE).Some?
  }

  lemma CompleteGrows(s: string, t: string)
    requires s <= t && Complete(s)
    ensures Complete(t) && IndexOf(CString(t), BLANK_LINE) == IndexOf(CString(s), BLANK_LINE)
  {
    CStringPrefix(s, t);
    var i := IndexOf(CString(s), BLANK_LINE).value;
    forall j | 0 <= j <= i
      ensures OccursAt(CString(s), BLANK_LINE, j) <==> OccursAt(CString(t), BLANK_LINE, j)
    {
      OccursInPrefix(CString(s), CString(t), BLANK_LINE, j);
    }
    IndexOfIs(CString(t), BLANK_LINE, i);
  }

  /** All that one request may occupy: the buffer less its NUL. */
  function Window(stream: string): (w: string)
    ensures w <= stream
  {
    stream[..Min(HTTP_MAX - 1, |stream|)]
  }

  lemma NotComplete(stream: string, received: string, unread: string)
    requires stream == received + unread && !Complete(received)
    requires unread == "" || |received| == HTTP_MAX - 1
    requires |received| <= HTTP_MAX - 1
    ensures !Complete(Window(stream))
  {
    assert received == Window(stream);
  }

  /** Succeeds, however the stream is cut, exactly when the blank line is inside the window. */
  method ReadHttpRequest(sock: Socket<char>, buf: array<char>) returns (ok: bool, len: nat)
    requires buf.Length == HTTP_MAX
    modifies sock`incoming, sock`schedule, buf
    ensures Faultless(old(sock.schedule)) ==> Faultless(sock.schedule) && ok == Complete(Window(old(sock.incoming)))
    ensures ok ==> len < buf.Length && buf[len] == '\0' && old(sock.incoming) == buf[..len] + sock.incoming
    ensures ok ==> Complete(buf[..len])
  {
    hide CString, Complete, IndexOf, Window;
    ghost var stream := sock.incoming;
    NothingComplete();
    len := 0;
    while len + 1 < buf.Length
      invariant len < buf.Length
      invariant stream == buf[..len] + sock.incoming
      invariant !Complete(buf[..len])
      invariant Faultless(old(sock.schedule)) ==> Faultless(sock.schedule)
      decreases buf.Length - len, |sock.schedule|
    {
      ghost var before := buf[..len];
      var r := sock.Recv(buf.Length - len - 1);
      match r {
        case Closed =>
          NotComplete(stream, before, sock.incoming);
          return false, 0;
        case Error =>
          return false, 0;
        case Eintr =>
        case Chunk(data) =>
          StoreChunk(buf, len, data);
          AppendAssociative(before, data, sock.incoming);
          len := len + |data|;
          var found := ShowsBlankLine(buf[..len]);
          if found {
            CompleteInWindow(stream, buf[..len], sock.incoming);
            return true, len;
          }
      }
    }
    NotComplete(stream, buf[..len], sock.incoming);
    ok := false;
  }

  lemma CompleteInWindow(stream: string, received: string, unread: string)
    requires stream == received + unread && Complete(received) && |received| < HTTP_MAX
    ensures Complete(Window(stream))
  {
    assert received <= Window(stream);
    CompleteGrows(received, Window(stream));
  }

  lemma NothingComplete()
    ensures !Complete("")
  {
  }

  method StoreChunk(buf: array<char>, len: nat, data: string)
    requires len + |data| < buf.Length
    modifies buf
    ensures buf[..len + |data|] == old(buf[..len]) + data
    ensures buf[len + |data|] == '\0'
  {
    forall i | 0 <= i < |data| {
      buf[len + i] := data[i];
    }
    buf[len + |data|] := '\0';
  }

  /** strstr(buf, "\r\n\r\n") on a buffer that a NUL follows. */
  method ShowsBlankLine(received: string) returns (found: bool)
    ensures found == Complete(received)
  {
    found := IndexOf(CString(received), BLANK_LINE).Some?;
  }

  // ---------- Header lookup ----------

  function TrimLeft(s: string): string {
    if s != "" && (s[0] == ' ' || s[0] == '\t') then TrimLeft(s[1..]) else s
  }

  predicate Matches(line: string, name: string) {
    |line| > |name| + 1 && Lowered(line[..|name|]) == Lowered(name) && line[|name|] == ':'
  }

  /** The value of the first line called `name`, up to the blank line. */
  function HeaderValue(text: string, name: string): Option<string>
    decreases |text|
  {
    match IndexOf(text, CRLF)
    case None => None
    case Some(e) =>
      if e == 0 then None
      else if Matches(text[..e], name) then Some(TrimLeft(text[..e][|name| + 1..]))
      else HeaderValue(text[e + 2..], name)
  }

  // ---------- What a lookup finds ----------

  /** The same character, but for the case of a letter A to Z. */
  predicate SameLetter(c: char, d: char) {
    c == d || ('A' <= c <= 'Z' && d as int == c as int + 32) || ('A' <= d <= 'Z' && c as int == d as int + 32)
  }

  /** A header line with this name, in whatever case, and something behind its colon. */
  ghost predicate IsHeader(line: string, name: string) {
    |line| > |name| + 1 && line[|name|] == ':' && forall i :: 0 <= i < |name| ==> SameLetter(line[i], name[i])
  }

  ghost predicate IsBlank(c: char) { c == ' ' || c == '\t' }

  /** `value` is the text less its leading blanks. */
  ghost predicate IsValue(text: string, value: string) {
    && |value| <= |text| && value == text[|text| - |value|..]
    && (forall i :: 0 <= i < |text| - |value| ==> IsBlank(text[i]))
    && (value != "" ==> !IsBlank(value[0]))
  }

  /** The first header line of that name, and its value. */
  ghost predicate Found(lines: seq<string>, name: string, r: Option<string>) {
    match r
    case None => forall k :: 0 <= k < |lines| ==> !IsHeader(lines[k], name)
    case Some(v) => exists k :: 0 <= k < |lines| && FoundAt(lines, name, k, v)
  }

  ghost predicate FoundAt(lines: seq<string>, name: string, k: nat, value: string)
    requires k < |lines|
  {
    && IsHeader(lines[k], name) && (forall j :: 0 <= j < k ==> !IsHeader(lines[j], name))
    && IsValue(lines[k][|name| + 1..], value)
  }

  /** The lines of a text up to the first empty one; what no line end follows is no line. */
  function LinesOf(text: string): seq<string>
    decreases |text|
  {
    match IndexOf(text, CRLF)
    case None => []
    case Some(e) => if e == 0 then [] else [text[..e]] + LinesOf(text[e + 2..])
  }

  lemma LoweredAlike(c: char, d: char)
    ensures ToLower(c) == ToLower(d) <==> SameLetter(c, d)
  {
  }

  lemma MatchesIff(line: string, name: string)
    ensures Matches(line, name) <==> IsHeader(line, name)
  {
    hide ToLower, SameLetter;
    if |line| > |name| + 1 {
      var head := line[..|name|];
      forall i | 0 <= i < |name|
        ensures Lowered(head)[i] == Lowered(name)[i] <==> SameLetter(line[i], name[i])
      {
        LoweredAlike(line[i], name[i]);
      }
    }
  }

  lemma {:induction false} TrimLeftIsValue(s: string)
    ensures IsValue(s, TrimLeft(s))
  {
    if s != "" && IsBlank(s[0]) {
      TrimLeftIsValue(s[1..]);
      var n := |s| - |TrimLeft(s)|;
      assert s[1..][n - 1..] == s[n..];
      assert forall i :: 0 < i < n ==> s[i] == s[1..][i - 1];
    } else {
      assert s[0..] == s;
    }
  }

  /** A text less its leading blanks is one text. */
  lemma ValueUnique(text: string, v: string, w: string)
    requires IsValue(text, v) && IsValue(text, w)
    ensures v == w
  {
    assert v != "" ==> v[0] == text[|text| - |v|];
    assert w != "" ==> w[0] == text[|text| - |w|];
  }

  lemma {:induction false} FirstMatchFound(lines: seq<string>, name: string)
    ensures Found(lines, name, FirstMatch(lines, name))
  {
    hide Matches, IsHeader, TrimLeft, IsValue;
    if lines != [] {
      MatchesIff(lines[0], name);
      if Matches(lines[0], name) {
        MatchingLine(lines[0], name);
        assert FoundAt(lines, name, 0, FirstMatch(lines, name).value);
      } else {
        FirstMatchFound(lines[1..], name);
        FoundBehind(lines, name, FirstMatch(lines[1..], name));
      }
    }
  }

  lemma MatchingLine(line: string, name: string)
    requires Matches(line, name)
    ensures IsValue(line[|name| + 1..], TrimLeft(line[|name| + 1..]))
  {
    TrimLeftIsValue(line[|name| + 1..]);
  }

  lemma FoundBehind(lines: seq<string>, name: string, r: Option<string>)
    requires lines != [] && !IsHeader(lines[0], name) && Found(lines[1..], name, r)
    ensures Found(lines, name, r)
  {
    hide IsHeader, IsValue;
    var tail := lines[1..];
    assert forall j :: 1 <= j < |lines| ==> lines[j] == tail[j - 1];
    if r.Some? {
      var k :| 0 <= k < |tail| && FoundAt(tail, name, k, r.value);
      assert FoundAt(lines, name, k + 1, r.value);
    }
  }

  /** There is one answer. */
  lemma FoundUnique(lines: seq<string>, name: string, r: Option<string>, q: Option<string>)
    requires Found(lines, name, r) && Found(lines, name, q)
    ensures r == q
  {
    hide SameLetter, IsValue;
    if r.Some? && q.Some? {
      var k :| 0 <= k < |lines| && FoundAt(lines, name, k, r.value);
      var j :| 0 <= j < |lines| && FoundAt(lines, name, j, q.value);
      ValueUnique(lines[k][|name| + 1..], r.value, q.value);
    }
  }

  lemma {:induction false} HeaderValueOfLines(text: string, name: string)
    ensures HeaderValue(text, name) == FirstMatch(LinesOf(text), name)
    decreases |text|
  {
    hide IndexOf, Matches, TrimLeft;
    var e := IndexOf(text, CRLF);
    if e.Some? && e.value > 0 {
      HeaderValueOfLines(text[e.value + 2..], name);
      FirstMatchCons(text[..e.value], LinesOf(text[e.value + 2..]), name);
    }
  }

  method FindHeaderValue(text: string, name: string) returns (r: Option<string>)
    ensures r == HeaderValue(text, name)
    ensures Found(LinesOf(text), name, r)
  {
    hide IndexOf, TrimLeft, Found, LinesOf;
    HeaderValueOfLines(text, name);
    FirstMatchFound(LinesOf(text), name);
    var p := 0;
    while p < |text|
      invariant p <= |text|
      invariant HeaderValue(text, name) == HeaderValue(text[p..], name)
    {
      var lineEnd := IndexOf(text[p..], CRLF);
      if lineEnd.None? || lineEnd.value == 0 {
        break;
      }
      var line := text[p..][..lineEnd.value];
      if Matches(line, name) {
        return Some(TrimLeft(line[|name| + 1..]));
      }
      DropTwice(text, p, lineEnd.value + 2);
      p := p + lineEnd.value + 2;
    }
    r := None;
  }

  lemma DropTwice(s: string, a: nat, b: nat)
    requires a + b <= |s|
    ensures s[a..][b..] == s[a + b..]
  {
  }

  /** Nothing after the blank line, such as bytes of a later message in the same segment, matters. */
  lemma {:induction false} HeaderValueLocal(text: string, i: nat, name: string)
    requires IndexOf(text, BLANK_LINE) == Some(i)
    ensures HeaderValue(text, name) == HeaderValue(text[..i + 4], name)
    decreases |text|
  {
    hide IndexOf, Matches;
    var block := text[..i + 4];
    var e := FirstLineEnd(text, i);
    assert block[..e] == text[..e];
    if e == i {
      AfterLastLine(text[i + 2..], name);
      AfterLastLine(block[i + 2..], name);
    } else {
      var tail, k := text[e + 2..], i - (e + 2);
      BlankLineInTail(text, i, e + 2);
      HeaderValueLocal(tail, k, name);
      assert tail[..k + 4] == block[e + 2..];
    }
  }

  /** The first line of the text is the first line of its header block. */
  lemma FirstLineEnd(text: string, i: nat) returns (e: nat)
    requires IndexOf(text, BLANK_LINE) == Some(i)
    ensures i + 4 <= |text| && (e == i || e + 2 <= i)
    ensures IndexOf(text, CRLF) == Some(e) && IndexOf(text[..i + 4], CRLF) == Some(e)
    ensures text[i + 2] == '\r' && text[i + 3] == '\n'
  {
    hide IndexOf;
    var block := text[..i + 4];
    assert text[i] == '\r' && text[i + 1] == '\n' && text[i + 2] == '\r' && text[i + 3] == '\n';
    assert OccursAt(text, CRLF, i);
    e := IndexOf(text, CRLF).value;
    assert text[e] == '\r' && text[e + 1] == '\n';
    assert e + 1 != i;
    forall j | 0 <= j < e
      ensures !OccursAt(block, CRLF, j)
    {
      OccursInPrefix(block, text, CRLF, j);
    }
    OccursInPrefix(block, text, CRLF, e);
    IndexOfIs(block, CRLF, e);
  }

  lemma AfterLastLine(text: string, name: string)
    requires |text| >= 2 && text[0] == '\r' && text[1] == '\n'
    ensures HeaderValue(text, name) == None
  {
    assert OccursAt(text, CRLF, 0);
    IndexOfIs(text, CRLF, 0);
  }

  lemma BlankLineInTail(text: string, i: nat, k: nat)
    requires IndexOf(text, BLANK_LINE) == Some(i) && k <= i
    ensures IndexOf(text[k..], BLANK_LINE) == Some(i - k)
  {
    forall j | 0 <= j <= i - k
      ensures OccursAt(text[k..], BLANK_LINE, j) <==> OccursAt(text, BLANK_LINE, j + k)
    {
      assert text[k..][j..] == text[j + k..];
    }
    IndexOfIs(text[k..], BLANK_LINE, i - k);
  }

  // ---------- The accept key ----------

  function ToOctets(s: string): seq<Sha1.octet> {
    seq(|s|, i requires 0 <= i < |s| => Sha1.Octet(s[i] as int % 256))
  }

  function ToBytes(s: seq<Sha1.octet>): seq<byte> {
    seq(|s|, i requires 0 <= i < |s| => s[i] as nat)
  }

  /** What section 4.2.2 asks for: base64(SHA-1(text ++ GUID)). */
  ghost function KeyOf(text: string): string {
    Base64.Encode(ToBytes(Sha1.Digest(ToOctets(text))))
  }

  /** The 256-byte buffer of compute_accept_key, less its NUL. */
  function Hashed(key: string): string {
    var cat := key + GUID;
    cat[..Min(255, |cat|)]
  }

  ghost function Accept(key: string): string { KeyOf(Hashed(key)) }

  /** What is hashed is the text itself: for each character the octet of its value. */
  lemma OctetsAre(s: string, i: nat, b: Sha1.octet)
    requires i < |s| && b as nat == s[i] as int % 256
    ensures |ToOctets(s)| == |s| && ToOctets(s)[i] == b
  {
    hide Sha1.Octet;
    OctetIs(b as nat, b);
  }

  lemma OctetIs(n: nat, b: Sha1.octet)
    requires n < 256 && b as nat == n
    ensures Sha1.Octet(n) == b
  {
  }

  /** And what is encoded is the digest, byte by byte. */
  lemma BytesAre(s: seq<Sha1.octet>, i: nat)
    requires i < |s|
    ensures |ToBytes(s)| == |s| && ToBytes(s)[i] as Sha1.octet == s[i]
  {
    ByteIs(s[i]);
  }

  lemma ByteIs(b: Sha1.octet)
    ensures (b as nat) as Sha1.octet == b
  {
  }

  /** Exactly the keys of at most 219 characters are hashed with the whole GUID, others with as much of it as 255
      characters hold. */
  lemma HashedWhole(key: string)
    ensures Hashed(key) <= key + GUID && |Hashed(key)| == Min(|key| + 36, 255)
    ensures Hashed(key) == key + GUID <==> |key| <= 219
  {
    assert |GUID| == 36;
  }

  method ComputeAcceptKey(key: string) returns (accept: string)
    ensures accept == Accept(key)
  {
    var cat := Hashed(key);
    var digest := DigestOf(cat);
    var text := new char[64];
    Base64.EncodedLength(digest);
    var n := Base64.Base64Encode(digest, text);
    accept := text[..n];
  }

  method DigestOf(cat: string) returns (digest: seq<byte>)
    requires |cat| <= 255
    ensures digest == ToBytes(Sha1.Digest(ToOctets(cat))) && |digest| == 20
  {
    hide Sha1.Represents, Sha1.Digest, Sha1.Octet;
    var octets := ToOctets(cat);
    var data := Sha1.ArrayOf(octets);
    var ctx := new Sha1.Context();
    ctx.Update(data, data.Length);
    assert data[..data.Length] == octets;
    assert ctx.message == octets;
    var out := ctx.Final();
    DigestLength(octets);
    digest := ToBytes(out[..]);
  }

  lemma DigestLength(m: seq<Sha1.octet>)
    ensures |Sha1.Digest(m)| == 20
  {
  }

  // ---------- The reply ----------

  const STATUS_LINE := "HTTP/1.1 101 Switching Protocols"
  const UPGRADE_LINE := "Upgrade: websocket"
  const CONNECTION_LINE := "Connection: Upgrade"
  const ACCEPT_HEADER := "Sec-WebSocket-Accept"
  const RESPONSE_MAX := 256

  function Response(accept: string): string {
    STATUS_LINE + CRLF + UPGRADE_LINE + CRLF + CONNECTION_LINE + CRLF + (ACCEPT_HEADER + ": " + accept) + BLANK_LINE
  }

  lemma ResponseLength(accept: string)
    ensures |Response(accept)| == 101 + |accept| && STATUS_LINE <= Response(accept)
  {
    assert |STATUS_LINE| == 32 && |UPGRADE_LINE| == 18 && |CONNECTION_LINE| == 19 && |ACCEPT_HEADER| == 20;
  }

  /** An accept key has 28 characters, so the response always fits its buffer. */
  lemma KeyLength(text: string)
    ensures |KeyOf(text)| == 28 && |Response(KeyOf(text))| < RESPONSE_MAX
  {
    hide Response, Base64.Encode, Sha1.Digest;
    DigestLength(ToOctets(text));
    Base64.EncodedLength(ToBytes(Sha1.Digest(ToOctets(text))));
    ResponseLength(KeyOf(text));
  }

  /** The accept key for a header block, or None when the code refuses it. */
  ghost function Answer(block: string): Option<string> {
    if !("GET " <= block) then None
    else match HeaderValue(block, KEY_HEADER)
         case None => None
         case Some(key) => if key == "" then None else Some(Accept(key))
  }

  /** The header block of a stream that shows one inside the window. */
  ghost function HeaderBlock(stream: string): string
    requires Complete(Window(stream))
  {
    var text := CString(Window(stream));
    text[..IndexOf(text, BLANK_LINE).value + 4]
  }

  /** The answer to a stream: it looks at the header block only, and only inside the window. */
  ghost function Reply(stream: string): Option<string> {
    if Complete(Window(stream)) then Answer(HeaderBlock(stream)) else None
  }

  lemma ReplyFromBuffer(stream: string, received: string, unread: string)
    requires stream == received + unread && Complete(received) && |received| < HTTP_MAX
    ensures Complete(Window(stream))
    ensures "GET " <= received <==> "GET " <= HeaderBlock(stream)
    ensures HeaderValue(CString(received), KEY_HEADER) == HeaderValue(HeaderBlock(stream), KEY_HEADER)
  {
    hide IndexOf, HeaderValue, Complete, KEY_HEADER, BLANK_LINE;
    CompleteInWindow(stream, received, unread);
    BlockInBuffer(received, Window(stream));
    assert received <= Window(stream);
  }

  lemma BlockInBuffer(received: string, window: string)
    requires received <= window && Complete(received)
    ensures Complete(window)
    ensures var block := CString(window)[..IndexOf(CString(window), BLANK_LINE).value + 4];
            block <= received && |block| >= 4
            && HeaderValue(CString(received), KEY_HEADER) == HeaderValue(block, KEY_HEADER)
  {
    hide IndexOf, HeaderValue, KEY_HEADER;
    CompleteGrows(received, window);
    CStringPrefix(received, window);
    var i := IndexOf(CString(received), BLANK_LINE).value;
    HeaderValueLocal(CString(received), i, KEY_HEADER);
    assert CString(received)[..i + 4] == CString(window)[..i + 4];
  }

  /** ws_handshake: the outcome and the bytes sent depend on the stream alone, not on how it is cut. */
  method WsHandshake(sock: Socket<char>) returns (ok: bool)
    modifies sock
    ensures Faultless(old(sock.schedule)) ==> ok == Reply(old(sock.incoming)).Some?
    ensures ok ==> Reply(old(sock.incoming)).Some?
    ensures ok ==> sock.outgoing == old(sock.outgoing) + Response(Reply(old(sock.incoming)).value)
  {
    hide IndexOf, HeaderValue, CString, KeyOf, Hashed, Complete, HeaderBlock, Window, Response;
    var http := new char[HTTP_MAX];
    var len;
    ok, len := ReadHttpRequest(sock, http);
    if !ok {
      return;
    }
    ghost var stream := old(sock.incoming);
    ReplyFromBuffer(stream, http[..len], sock.incoming);
    if !("GET " <= http[..len]) {
      return false;
    }
    var key := FindHeaderValue(CString(http[..len]), KEY_HEADER);
    if key.None? || key.value == "" {
      return false;
    }
    var accept := ComputeAcceptKey(key.value);
    var resp := Response(accept);
    KeyLength(Hashed(key.value));
    if |resp| >= RESPONSE_MAX {
      return false;
    }
    ok := sock.SendAll(resp);
  }

  // ---------- Requests built from lines ----------

  ghost predicate LineOk(line: string) {
    line != "" && '\0' !in line && forall j :: !OccursAt(line, CRLF, j)
  }

  ghost predicate LinesOk(lines: seq<string>) {
    lines != [] && forall k :: 0 <= k < |lines| ==> LineOk(lines[k])
  }

  function Block(lines: seq<string>): string {
    if lines == [] then CRLF else lines[0] + CRLF + Block(lines[1..])
  }

  function FirstMatch(lines: seq<string>, name: string): Option<string> {
    if lines == [] then None
    else if Matches(lines[0], name) then Some(TrimLeft(lines[0][|name| + 1..]))
    else FirstMatch(lines[1..], name)
  }

  lemma LineEnd(line: string, rest: string)
    requires forall j :: !OccursAt(line, CRLF, j)
    ensures IndexOf(line + CRLF + rest, CRLF) == Some(|line|)
  {
    var text := line + CRLF + rest;
    forall j | 0 <= j < |line|
      ensures !OccursAt(text, CRLF, j)
    {
      if OccursAt(text, CRLF, j) {
        assert text[j] == '\r' && text[j + 1] == '\n';
        assert j + 1 < |line|;
        assert CRLF <= line[j..];
        assert OccursAt(line, CRLF, j);
        assert false;
      }
    }
    assert CRLF <= text[|line|..];
    IndexOfIs(text, CRLF, |line|);
  }

  lemma {:induction false} LinesOfBlock(lines: seq<string>, extra: string)
    requires forall k :: 0 <= k < |lines| ==> LineOk(lines[k])
    ensures LinesOf(Block(lines) + extra) == lines
  {
    hide IndexOf;
    if lines == [] {
      var text := Block(lines) + extra;
      assert text[0] == '\r' && text[1] == '\n' && CRLF <= text[0..];
      IndexOfIs(text, CRLF, 0);
    } else {
      var rest := Block(lines[1..]) + extra;
      var text := lines[0] + CRLF + rest;
      assert Block(lines) + extra == text;
      LineEnd(lines[0], rest);
      assert text[..|lines[0]|] == lines[0];
      assert text[|lines[0]| + 2..] == rest;
      LinesOfBlock(lines[1..], extra);
    }
  }

  /** Looking a name up in a block finds the first header line of that name among those it was built from. */
  lemma HeaderValueOfBlock(lines: seq<string>, name: string, extra: string)
    requires forall k :: 0 <= k < |lines| ==> LineOk(lines[k])
    ensures HeaderValue(Block(lines) + extra, name) == FirstMatch(lines, name)
    ensures Found(lines, name, HeaderValue(Block(lines) + extra, name))
  {
    hide Found, LineOk;
    LinesOfBlock(lines, extra);
    HeaderValueOfLines(Block(lines) + extra, name);
    FirstMatchFound(lines, name);
  }

  /** The blank line of a built block is its end. */
  lemma {:induction false} BlankLineOfBlock(lines: seq<string>, extra: string)
    requires LinesOk(lines)
    ensures IndexOf(Block(lines) + extra, BLANK_LINE) == Some(|Block(lines)| - 4)
  {
    hide IndexOf, OccursAt;
    var line, rest := lines[0], Block(lines[1..]) + extra;
    assert Block(lines) + extra == line + CRLF + rest;
    NoBlankLineBefore(line, rest);
    if |lines| == 1 {
      LastBlankLine(line, extra);
    } else {
      BlankLineOfBlock(lines[1..], extra);
      NoBlankLineAtEnd(line, lines[1], rest);
      BlankLineAfterLine(line, rest, |Block(lines[1..])| - 4);
    }
  }

  lemma NoBlankLineBefore(line: string, rest: string)
    requires LineOk(line)
    ensures forall j :: 0 <= j < |line| ==> !OccursAt(line + CRLF + rest, BLANK_LINE, j)
  {
    hide IndexOf;
    var text := line + CRLF + rest;
    LineEnd(line, rest);
    forall j | 0 <= j < |line|
      ensures !OccursAt(text, BLANK_LINE, j)
    {
      assert !OccursAt(text, CRLF, j);
      if j + 4 <= |text| {
        assert text[j..][..2] == [text[j], text[j + 1]];
      }
    }
  }

  lemma TwoLineEnds(extra: string)
    ensures BLANK_LINE <= CRLF + (CRLF + extra)
  {
    assert BLANK_LINE == CRLF + CRLF;
    assert CRLF + CRLF + extra == CRLF + (CRLF + extra);
  }

  lemma LastBlankLine(line: string, extra: string)
    requires forall j :: 0 <= j < |line| ==> !OccursAt(line + CRLF + (CRLF + extra), BLANK_LINE, j)
    ensures IndexOf(line + CRLF + (CRLF + extra), BLANK_LINE) == Some(|line|)
  {
    hide IndexOf, OccursAt, CRLF, BLANK_LINE;
    TwoLineEnds(extra);
    OccursBehind(line, CRLF, CRLF + extra, BLANK_LINE);
    IndexOfIs(line + CRLF + (CRLF + extra), BLANK_LINE, |line|);
  }

  lemma OccursBehind(line: string, a: string, b: string, pat: string)
    requires pat <= a + b
    ensures OccursAt(line + a + b, pat, |line|)
  {
    assert (line + a + b)[|line|..] == a + b;
  }

  lemma BlankLineAfterLine(line: string, rest: string, k: nat)
    requires forall j :: 0 <= j < |line| + 2 ==> !OccursAt(line + CRLF + rest, BLANK_LINE, j)
    requires IndexOf(rest, BLANK_LINE) == Some(k)
    ensures IndexOf(line + CRLF + rest, BLANK_LINE) == Some(|line| + 2 + k)
  {
    hide IndexOf;
    var text, n := line + CRLF + rest, |line| + 2;
    forall j | n <= j <= n + k
      ensures OccursAt(text, BLANK_LINE, j) <==> OccursAt(rest, BLANK_LINE, j - n)
    {
      assert text[j..] == rest[j - n..];
    }
    IndexOfIs(text, BLANK_LINE, n + k);
  }

  /** A line end followed by a line that is not empty is no blank line. */
  lemma NoBlankLineAtEnd(line: string, next: string, rest: string)
    requires LineOk(next) && next <= rest && |rest| >= |next| + 2 && rest[|next|] == '\r'
    ensures !OccursAt(line + CRLF + rest, BLANK_LINE, |line|)
    ensures !OccursAt(line + CRLF + rest, BLANK_LINE, |line| + 1)
  {
    var text, n := line + CRLF + rest, |line|;
    assert text[n + 1] == '\n';
    assert text[n + 2] == rest[0] && text[n + 3] == rest[1];
    assert !OccursAt(next, CRLF, 0);
  }

  lemma {:induction false} BlockHasNoNul(lines: seq<string>)
    requires forall k :: 0 <= k < |lines| ==> LineOk(lines[k])
    ensures '\0' !in Block(lines)
  {
    if lines != [] {
      BlockHasNoNul(lines[1..]);
    }
  }

  /** What a built block is answered. */
  lemma ReplyOfBlock(lines: seq<string>, extra: string)
    requires LinesOk(lines) && |Block(lines)| <= HTTP_MAX - 1
    ensures Reply(Block(lines) + extra) == Answer(Block(lines))
  {
    hide IndexOf, HeaderValue;
    var block, stream := Block(lines), Block(lines) + extra;
    var window := Window(stream);
    assert block <= window;
    BlockHasNoNul(lines);
    CStringPrefix(block, window);
    var tail := CString(window)[|block|..];
    assert CString(window) == block + tail;
    BlankLineOfBlock(lines, tail);
    assert CString(window)[..|block|] == block;
  }

  lemma StartsAlike(lines: seq<string>)
    requires LinesOk(lines)
    ensures "GET " <= Block(lines) <==> "GET " <= lines[0]
  {
    var n := |lines[0]|;
    assert Block(lines)[..n] == lines[0] && Block(lines)[n] == '\r';
  }

  /** Section 4.2.2 for every request built from lines that fits the window, whatever follows it: the reply
      carries base64(SHA-1(key ++ GUID)), where the key is the value of the first header line of that name in
      whatever case, less leading blanks, of 1 to 219 characters. Nothing else is answered with 101. */
  lemma HandshakeCorrect(lines: seq<string>, extra: string, found: Option<string>)
    requires LinesOk(lines) && |Block(lines)| <= 8191 && Found(lines, "Sec-WebSocket-Key", found)
    ensures "GET " <= lines[0] && found.Some? && 1 <= |found.value| <= 219 ==>
      Reply(Block(lines) + extra) == Some(KeyOf(found.value + "258EAFA5-E914-47DA-95CA-C5AB0DC85B11"))
    ensures Reply(Block(lines) + extra).Some? <==> "GET " <= lines[0] && found.Some? && found.value != ""
  {
    hide IndexOf, HeaderValue, Found, Reply, KeyOf, Hashed;
    ReplyOfBlock(lines, extra);
    assert Block(lines) + "" == Block(lines);
    HeaderValueOfBlock(lines, KEY_HEADER, "");
    FoundUnique(lines, KEY_HEADER, found, HeaderValue(Block(lines), KEY_HEADER));
    StartsAlike(lines);
    if found.Some? {
      HashedWhole(found.value);
    }
  }

  /** A request that does not end within the window is not answered. */
  lemma LongRequestRefused(lines: seq<string>, extra: string)
    requires LinesOk(lines) && |Block(lines)| > 8191
    ensures Reply(Block(lines) + extra) == None
  {
    hide IndexOf, OccursAt;
    var stream := Block(lines) + extra;
    var text := CString(Window(stream));
    BlankLineOfBlock(lines, extra);
    forall j: nat
      ensures !OccursAt(text, BLANK_LINE, j)
    {
      BlankLineWithin(text, j);
      OccursInPrefix(text, stream, BLANK_LINE, j);
    }
  }

  lemma BlankLineWithin(text: string, j: nat)
    ensures OccursAt(text, BLANK_LINE, j) ==> j + 4 <= |text|
  {
  }

  // ---------- What the browser makes of it ----------

  lemma NoReturn(line: string)
    requires line != "" && forall k :: 0 <= k < |line| ==> line[k] >= ' '
    ensures LineOk(line)
  {
    forall j: nat
      ensures !OccursAt(line, CRLF, j)
    {
      if j < |line| {
        assert line[j] != CRLF[0];
      }
    }
  }

  lemma ResponseLines(accept: string)
    ensures Response(accept) == Block([STATUS_LINE, UPGRADE_LINE, CONNECTION_LINE, ACCEPT_HEADER + ": " + accept])
  {
    hide STATUS_LINE, UPGRADE_LINE, CONNECTION_LINE, ACCEPT_HEADER, Block;
    var last := ACCEPT_HEADER + ": " + accept;
    assert BLANK_LINE == CRLF + CRLF;
    FourLines(STATUS_LINE, UPGRADE_LINE, CONNECTION_LINE, last);
  }

  /** The response, line by line. */
  lemma ResponseIs(accept: string)
    ensures Response(accept)
         == Block(["HTTP/1.1 101 Switching Protocols", "Upgrade: websocket", "Connection: Upgrade",
                   "Sec-WebSocket-Accept: " + accept])
  {
    hide Block, Response;
    ResponseLines(accept);
    assert ACCEPT_HEADER + ": " == "Sec-WebSocket-Accept: ";
  }

  lemma FourLines(a: string, b: string, c: string, d: string)
    ensures Block([a, b, c, d]) == a + CRLF + b + CRLF + c + CRLF + d + (CRLF + CRLF)
  {
    hide CRLF, Block;
    BlockCons(d, []);
    BlockCons(c, [d]);
    BlockCons(b, [c, d]);
    BlockCons(a, [b, c, d]);
    assert [a, b, c, d] == [a] + [b, c, d] && [b, c, d] == [b] + [c, d] && [c, d] == [c] + [d] && [d] == [d] + [];
    assert d + CRLF + CRLF == d + (CRLF + CRLF);
    var tail := d + (CRLF + CRLF);
    assert c + CRLF + tail == c + CRLF + d + (CRLF + CRLF);
    assert b + CRLF + (c + CRLF + tail) == b + CRLF + c + CRLF + d + (CRLF + CRLF);
  }

  lemma BlockCons(line: string, lines: seq<string>)
    ensures Block([line] + lines) == line + CRLF + Block(lines)
    ensures Block([]) == CRLF
  {
    assert ([line] + lines)[1..] == lines;
  }

  lemma OtherLines()
    ensures !Matches(STATUS_LINE, ACCEPT_HEADER) && !Matches(UPGRADE_LINE, ACCEPT_HEADER)
    ensures !Matches(CONNECTION_LINE, ACCEPT_HEADER)
    ensures LineOk(STATUS_LINE) && LineOk(UPGRADE_LINE) && LineOk(CONNECTION_LINE)
  {
    hide Lowered;
    assert |ACCEPT_HEADER| == 20 && STATUS_LINE[20] != ':';
    NoReturn(STATUS_LINE);
    NoReturn(UPGRADE_LINE);
    NoReturn(CONNECTION_LINE);
  }

  lemma AcceptLine(accept: string)
    requires accept != "" && forall k :: 0 <= k < |accept| ==> '+' <= accept[k] <= 'z'
    ensures var line := ACCEPT_HEADER + ": " + accept;
            LineOk(line) && Matches(line, ACCEPT_HEADER) && TrimLeft(line[|ACCEPT_HEADER| + 1..]) == accept
  {
    hide Lowered;
    var line := ACCEPT_HEADER + ": " + accept;
    assert line[..|ACCEPT_HEADER|] == ACCEPT_HEADER;
    assert line[|ACCEPT_HEADER| + 1..] == " " + accept;
    assert (" " + accept)[1..] == accept;
    NoReturn(line);
  }

  /** A client that reads the response by the server's own header rules finds the accept key in it, and the
      response ends where its header block does. */
  lemma ClientFindsKey(text: string)
    ensures STATUS_LINE <= Response(KeyOf(text))
    ensures HeaderValue(Response(KeyOf(text)), ACCEPT_HEADER) == Some(KeyOf(text))
    ensures IndexOf(Response(KeyOf(text)), BLANK_LINE) == Some(|Response(KeyOf(text))| - 4)
  {
    hide IndexOf, HeaderValue, FirstMatch, Block, Response, KeyOf, Matches, TrimLeft, LineOk, ACCEPT_HEADER,
      STATUS_LINE, UPGRADE_LINE, CONNECTION_LINE;
    var accept := KeyOf(text);
    KeyLength(text);
    ResponseLength(accept);
    KeyCharacters(text);
    var last := ACCEPT_HEADER + ": " + accept;
    var lines := [STATUS_LINE, UPGRADE_LINE, CONNECTION_LINE, last];
    OtherLines();
    AcceptLine(accept);
    ResponseLines(accept);
    assert Response(accept) + "" == Response(accept);
    HeaderValueOfBlock(lines, ACCEPT_HEADER, "");
    BlankLineOfBlock(lines, "");
    FirstMatchCons(last, [], ACCEPT_HEADER);
    FirstMatchCons(CONNECTION_LINE, [last], ACCEPT_HEADER);
    FirstMatchCons(UPGRADE_LINE, [CONNECTION_LINE, last], ACCEPT_HEADER);
    FirstMatchCons(STATUS_LINE, [UPGRADE_LINE, CONNECTION_LINE, last], ACCEPT_HEADER);
    assert lines == [STATUS_LINE] + [UPGRADE_LINE, CONNECTION_LINE, last];
    assert [UPGRADE_LINE, CONNECTION_LINE, last] == [UPGRADE_LINE] + [CONNECTION_LINE, last];
    assert [CONNECTION_LINE, last] == [CONNECTION_LINE] + [last];
    assert [last] == [last] + [];
  }

  lemma FirstMatchCons(line: string, lines: seq<string>, name: string)
    ensures FirstMatch([line] + lines, name)
         == if Matches(line, name) then Some(TrimLeft(line[|name| + 1..])) else FirstMatch(lines, name)
  {
    hide Matches, TrimLeft;
    assert ([line] + lines)[1..] == lines;
  }

  lemma KeyCharacters(text: string)
    ensures forall k :: 0 <= k < |KeyOf(text)| ==> '+' <= KeyOf(text)[k] <= 'z'
  {
    Base64.EncodedCharacters(ToBytes(Sha1.Digest(ToOctets(text))));
  }
}
