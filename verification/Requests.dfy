/** History requests: the text the browser sends and the lookups ws_server.c makes in it. */
module Requests {
  import opened Basics
  import opened CStrings

  // ---------- Decimal numbers ----------

  function Digit(d: nat): char
    requires d < 10
  {
    ('0' as int + d) as char
  }

  function Digits(n: nat): (s: string)
    ensures s != "" && forall k :: 0 <= k < |s| ==> '0' <= s[k] <= '9'
  {
    if n < 10 then [Digit(n)] else Digits(n / 10) + [Digit(n % 10)]
  }

  /** What a string of decimal digits says. */
  function ValueOf(s: string): int {
    if s == "" then 0 else 10 * ValueOf(s[..|s| - 1]) + (s[|s| - 1] as int - '0' as int)
  }

  /** The digits say the number, without a zero in front. */
  lemma {:induction false} DigitsSay(n: nat)
    ensures ValueOf(Digits(n)) == n && (|Digits(n)| > 1 ==> Digits(n)[0] != '0')
  {
    if n < 10 {
      assert [Digit(n)][..0] == "";
    } else {
      DigitsSay(n / 10);
      assert Digits(n)[..|Digits(n)| - 1] == Digits(n / 10);
      if n / 10 < 10 {
        assert Digits(n / 10) == [Digit(n / 10)];
      }
    }
  }

  function Decimal(n: int): string {
    if n < 0 then "-" + Digits(-n) else Digits(n)
  }

  /** A number below zero is a minus and the digits of its opposite. */
  lemma DecimalSays(n: int)
    ensures n >= 0 ==> ValueOf(Decimal(n)) == n
    ensures n < 0 ==> Decimal(n)[0] == '-' && ValueOf(Decimal(n)[1..]) == -n
  {
    DigitsSay(if n < 0 then -n else n);
    if n < 0 {
      assert ("-" + Digits(-n))[1..] == Digits(-n);
    }
  }

  predicate IsDigit(c: char) { '0' <= c <= '9' }

  predicate IsSpace(c: char) { c == ' ' || '\t' <= c <= '\r' }

  // ---------- json_find_int ----------

  const CAP := 1000000

  /** The digits at the head of `s` read after `v`; reading stops once the value passes the cap. */
  function ReadDigits(s: string, v: nat): nat
    decreases |s|
  {
    if s == "" || !IsDigit(s[0]) then v
    else
      var w := v * 10 + (s[0] as int - '0' as int);
      if w > CAP then w else ReadDigits(s[1..], w)
  }

  function SkipSpaces(s: string): string {
    if s != "" && IsSpace(s[0]) then SkipSpaces(s[1..]) else s
  }

  function ReadInt(s: string, default: int): int {
    var t := SkipSpaces(s);
    var negative := t != "" && t[0] == '-';
    var u := if negative then t[1..] else t;
    if u == "" || !IsDigit(u[0]) then default
    else if negative then -(ReadDigits(u, 0) as int) else ReadDigits(u, 0)
  }

  function FindInt(json: string, key: string, default: int): int {
    match IndexOf(json, key)
    case None => default
    case Some(p) =>
      match IndexOf(json[p..], ":")
      case None => default
      case Some(q) => ReadInt(json[p + q + 1..], default)
  }

  method JsonFindInt(json: string, key: string, default: int) returns (r: int)
    ensures r == FindInt(json, key, default)
  {
    hide IndexOf, ReadDigits, SkipSpaces, IsDigit;
    var k := IndexOf(json, key);
    if k.None? {
      return default;
    }
    var colon := IndexOf(json[k.value..], ":");
    if colon.None? {
      return default;
    }
    var p := k.value + colon.value + 1;
    ghost var text := json[p..];
    assert json[k.value..][colon.value + 1..] == text;
    p := SkipSpacesFrom(json, p);
    var sign: int := 1;
    if p < |json| && json[p] == '-' {
      sign := -1;
      assert json[p..][1..] == json[p + 1..];
      p := p + 1;
    }
    if !(p < |json| && IsDigit(json[p])) {
      return default;
    }
    assert json[p..][0] == json[p];
    var v := ReadDigitsFrom(json, p);
    r := v * sign;
  }

  method SkipSpacesFrom(json: string, from: nat) returns (p: nat)
    requires from <= |json|
    ensures p <= |json| && json[p..] == SkipSpaces(json[from..])
  {
    p := from;
    while p < |json| && IsSpace(json[p])
      invariant p <= |json|
      invariant SkipSpaces(json[from..]) == SkipSpaces(json[p..])
    {
      assert json[p..][1..] == json[p + 1..];
      p := p + 1;
    }
  }

  method ReadDigitsFrom(json: string, from: nat) returns (v: nat)
    requires from <= |json|
    ensures v == ReadDigits(json[from..], 0)
  {
    v := 0;
    var p := from;
    while p < |json| && IsDigit(json[p])
      invariant p <= |json|
      invariant ReadDigits(json[p..], v) == ReadDigits(json[from..], 0)
    {
      assert json[p..][1..] == json[p + 1..];
      v := v * 10 + (json[p] as int - '0' as int);
      p := p + 1;
      if v > CAP {
        return;
      }
    }
  }

  lemma {:induction false} ReadDigitsBound(s: string, v: nat)
    requires v <= CAP
    ensures v <= ReadDigits(s, v) <= 10 * CAP + 9
    decreases |s|
  {
    if s != "" && IsDigit(s[0]) {
      var w := v * 10 + (s[0] as int - '0' as int);
      if w <= CAP {
        ReadDigitsBound(s[1..], w);
      }
    }
  }

  /** Whatever text arrives, the number read fits in an int: the cast at the end changes nothing. */
  lemma FindIntFits(json: string, key: string, default: int)
    ensures var r := FindInt(json, key, default); r == default || -(10 * CAP + 9) <= r <= 10 * CAP + 9
  {
    hide IndexOf, SkipSpaces, IsDigit, ReadDigits;
    if IndexOf(json, key).Some? && IndexOf(json[IndexOf(json, key).value..], ":").Some? {
      var p := IndexOf(json, key).value;
      ReadIntFits(json[p + IndexOf(json[p..], ":").value + 1..], default);
    }
  }

  lemma ReadIntFits(s: string, default: int)
    ensures var r := ReadInt(s, default); r == default || -(10 * CAP + 9) <= r <= 10 * CAP + 9
  {
    hide ReadDigits;
    var t := SkipSpaces(s);
    ReadDigitsBound(t, 0);
    if t != "" {
      ReadDigitsBound(t[1..], 0);
    }
  }

  // ---------- Which numbers are read ----------

  /** White space as isspace knows it. */
  ghost predicate IsWhite(c: char) {
    c == ' ' || c == '\t' || c == '\n' || c == '\r' || c as int == 11 || c as int == 12
  }

  ghost predicate AllWhite(s: string) { forall k :: 0 <= k < |s| ==> IsWhite(s[k]) }

  ghost predicate NoDigitFirst(s: string) { s == "" || !('0' <= s[0] <= '9') }

  /** White space in front does not matter. */
  lemma {:induction false} WhiteIsSkipped(white: string, s: string, default: int)
    requires AllWhite(white)
    ensures ReadInt(white + s, default) == ReadInt(s, default)
  {
    if white == "" {
      assert white + s == s;
    } else {
      assert (white + s)[1..] == white[1..] + s;
      assert IsSpace(white[0]);
      WhiteIsSkipped(white[1..], s, default);
    }
  }

  /** A number of at most a million is read exactly, after any white space and whatever follows; with a minus in
      front it is read as the negative number. What is no number after that gives the default. */
  lemma NumberIsRead(white: string, n: nat, rest: string, default: int)
    requires AllWhite(white) && n <= CAP && NoDigitFirst(rest)
    ensures ReadInt(white + (Digits(n) + rest), default) == n
    ensures ReadInt(white + ("-" + (Digits(n) + rest)), default) == -(n as int)
  {
    var text := Digits(n) + rest;
    assert '0' <= text[0] <= '9';
    WhiteIsSkipped(white, text, default);
    WhiteIsSkipped(white, "-" + text, default);
    assert ("-" + text)[1..] == text;
    ReadPrefix(n, rest);
  }

  lemma NoNumberIsRead(white: string, sign: string, rest: string, default: int)
    requires AllWhite(white) && (sign == "" || sign == "-") && NoDigitFirst(rest)
    requires sign == "" ==> rest == "" || (!IsWhite(rest[0]) && rest[0] != '-')
    ensures ReadInt(white + (sign + rest), default) == default
  {
    WhiteIsSkipped(white, sign + rest, default);
    if sign == "" {
      assert sign + rest == rest;
    } else {
      assert (sign + rest)[1..] == rest;
    }
  }

  /** A number beyond a million is read as one beyond a million, though not always as itself. */
  lemma {:induction false} BigNumberIsBig(n: nat, rest: string)
    requires n > CAP
    ensures ReadDigits(Digits(n) + rest, 0) > CAP
    decreases n
  {
    var tail := [Digit(n % 10)] + rest;
    assert Digits(n) + rest == Digits(n / 10) + tail;
    if n / 10 > CAP {
      BigNumberIsBig(n / 10, tail);
    } else {
      ReadPrefix(n / 10, tail);
      assert tail != "" && IsDigit(tail[0]);
    }
  }

  predicate IsHistoryRequest(json: string) {
    var quoted := IndexOf(json, "\"type\"");
    var p := if quoted.Some? then quoted else IndexOf(json, "type");
    p.Some? && IndexOf(json[p.value..], "history").Some?
  }

  /** A text is taken for a history request if and only if "history" stands somewhere behind the name `type` in
      quotation marks or, where there is none, behind the bare word. */
  lemma TakenForHistoryIff(json: string)
    ensures IsHistoryRequest(json) <==>
            || (exists i, j :: OccursAt(json, "\"type\"", i) && i <= j && OccursAt(json, "history", j))
            || ((forall i :: !OccursAt(json, "\"type\"", i))
                && exists i, j :: OccursAt(json, "type", i) && i <= j && OccursAt(json, "history", j))
  {
    hide IndexOf;
    var quoted := IndexOf(json, "\"type\"");
    var p := if quoted.Some? then quoted else IndexOf(json, "type");
    if p.Some? {
      forall j: nat | p.value <= j
        ensures OccursAt(json, "history", j) <==> OccursAt(json[p.value..], "history", j - p.value)
      {
        OccursBehindPrefix(json, "history", p.value, j);
      }
      if IndexOf(json[p.value..], "history").Some? {
        var j := IndexOf(json[p.value..], "history").value + p.value;
        assert OccursAt(json, "history", j);
      }
    }
  }

  lemma OccursBehindPrefix(s: string, pat: string, p: nat, j: nat)
    requires p <= |s| && p <= j
    ensures OccursAt(s, pat, j) <==> OccursAt(s[p..], pat, j - p)
  {
    if j <= |s| {
      assert s[p..][j - p..] == s[j..];
    }
  }

  /** The number behind the first colon behind the first occurrence of the key. */
  lemma KeyedNumberIsRead(json: string, key: string, p: nat, q: nat, white: string, n: nat, rest: string, default: int)
    requires OccursAt(json, key, p) && forall j :: 0 <= j < p ==> !OccursAt(json, key, j)
    requires p <= q < |json| && json[q] == ':' && forall j :: p <= j < q ==> json[j] != ':'
    requires json[q + 1..] == white + (Digits(n) + rest) && AllWhite(white) && n <= CAP && NoDigitFirst(rest)
    ensures FindInt(json, key, default) == n
  {
    hide IndexOf, ReadInt;
    IndexOfIs(json, key, p);
    var tail := json[p..];
    forall j | 0 <= j < q - p
      ensures !OccursAt(tail, ":", j)
    {
      assert tail[j] == json[p + j];
    }
    assert tail[q - p] == ':' && ":" <= tail[q - p..];
    IndexOfIs(tail, ":", q - p);
    NumberIsRead(white, n, rest, default);
  }

  // ---------- The browser's request ----------

  const REQUEST_HEAD := "{\"type\":\"history\","
  const LAST_KEY := "\"last\""

  /** JSON.stringify of the history request for `n` samples. */
  function RequestText(n: nat): string {
    REQUEST_HEAD + LAST_KEY + ":" + Digits(n) + "}"
  }

  /** Reading the digits of `n` arrives at what follows them with the value `n`. */
  lemma {:induction false} ReadPrefix(n: nat, rest: string)
    requires n <= CAP
    ensures ReadDigits(Digits(n) + rest, 0) == ReadDigits(rest, n)
    decreases n
  {
    if n < 10 {
      assert (Digits(n) + rest)[1..] == rest;
    } else {
      var tail := [Digit(n % 10)] + rest;
      assert Digits(n) + rest == Digits(n / 10) + tail;
      ReadPrefix(n / 10, tail);
      assert tail[1..] == rest;
    }
  }

  lemma KeyPosition(n: nat)
    ensures IndexOf(RequestText(n), LAST_KEY) == Some(18)
    ensures RequestText(n)[18..] == LAST_KEY + ":" + Digits(n) + "}"
  {
    var text := RequestText(n);
    var tail := LAST_KEY + ":" + Digits(n) + "}";
    assert |REQUEST_HEAD| == 18;
    assert text == REQUEST_HEAD + tail;
    forall j | 0 <= j < 18
      ensures !OccursAt(text, LAST_KEY, j)
    {
      assert text[j] == REQUEST_HEAD[j];
      if j < 17 {
        assert text[j + 1] == REQUEST_HEAD[j + 1];
      }
      HeadHasNoKey(j);
    }
    assert LAST_KEY <= text[18..];
    IndexOfIs(text, LAST_KEY, 18);
  }

  /** In the head of the request no quotation mark is followed by an l, nor ends it. */
  lemma HeadHasNoKey(j: nat)
    requires j < 18
    ensures REQUEST_HEAD[j] == '"' ==> j < 17 && REQUEST_HEAD[j + 1] != 'l'
  {
  }

  lemma ColonPosition(n: nat)
    ensures IndexOf(RequestText(n)[18..], ":") == Some(6) && RequestText(n)[25..] == Digits(n) + "}"
  {
    hide IndexOf, Digits;
    KeyPosition(n);
    var tail := LAST_KEY + (":" + Digits(n) + "}");
    assert RequestText(n)[18..] == tail;
    forall j | 0 <= j < 6
      ensures !OccursAt(tail, ":", j)
    {
      assert tail[j] == LAST_KEY[j];
    }
    assert tail[6..] == ":" + Digits(n) + "}";
    IndexOfIs(tail, ":", 6);
    assert RequestText(n)[25..] == tail[7..];
  }

  /** What the browser asks for is what the server reads, for every number up to a million; a larger one is read
      as some number beyond a million. */
  lemma RequestRoundTrip(n: nat, default: int)
    ensures n <= 1000000 ==> FindInt(RequestText(n), LAST_KEY, default) == n
    ensures n > 1000000 ==> FindInt(RequestText(n), LAST_KEY, default) > 1000000
    ensures IsHistoryRequest(RequestText(n))
  {
    hide IndexOf, Digits, ReadDigits, RequestText, LAST_KEY;
    KeyPosition(n);
    ColonPosition(n);
    assert RequestText(n)[18 + 6 + 1..] == Digits(n) + "}";
    var text := Digits(n) + "}";
    assert !IsSpace(text[0]) && text[0] != '-' && IsDigit(text[0]);
    if n <= CAP {
      ReadPrefix(n, "}");
      assert ReadDigits("}", n) == n by {
        NoDigitRead(n);
      }
    } else {
      BigNumberIsBig(n, "}");
    }
    LooksLikeHistory(RequestText(n), n);
  }

  lemma NoDigitRead(n: nat)
    ensures ReadDigits("}", n) == n
  {
  }

  lemma LooksLikeHistory(text: string, n: nat)
    requires text == RequestText(n)
    ensures IsHistoryRequest(text)
  {
    hide IndexOf;
    var tail := LAST_KEY + ":" + Digits(n) + "}";
    assert text == REQUEST_HEAD + tail;
    assert REQUEST_HEAD == "{" + "\"type\"" + ":\"" + "history" + "\",";
    assert "\"type\"" <= text[1..];
    assert OccursAt(text, "\"type\"", 1);
    var p := IndexOf(text, "\"type\"").value;
    assert p <= 1;
    assert text[p..][9 - p..] == text[9..];
    assert "history" <= text[9..];
    assert OccursAt(text[p..], "history", 9 - p);
  }

  /** The request the page sends for 2000 rows. */
  lemma RequestFor2000()
    ensures RequestText(2000) == "{\"type\":\"history\",\"last\":2000}"
  {
    assert Digits(2000) == "2000" by {
      assert Digits(2) == "2" && Digits(20) == "20" && Digits(200) == "200";
    }
  }
}
