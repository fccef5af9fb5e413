/** The history query of db_sqlite.c: the newest rows, oldest first, as one JSON text. */
module History {
  import opened Basics
  import StrBuf

  /** A stored row: its receive time and its text as a JSON object. */
  datatype Row = Row(receivedAt: int, json: string)

  function ClampLimit(limit: int): (n: nat)
    ensures 1 <= n <= 5000
    ensures 1 <= limit <= 5000 ==> n == limit
    ensures limit <= 0 ==> n == 300
    ensures limit > 5000 ==> n == 5000
  {
    var positive := if limit <= 0 then 300 else limit;
    if positive > 5000 then 5000 else positive
  }

  // ---------- ORDER BY received_at_ns DESC LIMIT n ----------

  /** `ix` lists row numbers the way SQLite may answer the query: newest first, ties in any order. */
  ghost predicate NewestFirst(times: seq<int>, n: nat, ix: seq<nat>) {
    && |ix| == Min(n, |times|)
    && (forall k :: 0 <= k < |ix| ==> ix[k] < |times|)
    && (forall j, k :: 0 <= j < k < |ix| ==> ix[j] != ix[k] && times[ix[j]] >= times[ix[k]])
    && (forall r, k :: 0 <= r < |times| && r !in ix && 0 <= k < |ix| ==> times[r] <= times[ix[k]])
  }

  ghost predicate StrictlyIncreasing(times: seq<int>) {
    forall j, k :: 0 <= j < k < |times| ==> times[j] < times[k]
  }

  /** Receive times that strictly increase leave SQLite no choice: the last rows, backwards. */
  lemma {:induction false} NewestAreLast(times: seq<int>, n: nat, ix: seq<nat>, k: nat)
    requires StrictlyIncreasing(times) && NewestFirst(times, n, ix) && k < |ix|
    ensures ix[k] == |times| - 1 - k
    decreases k
  {
    var r := |times| - 1 - k;
    if ix[k] > r {
      var j := |times| - 1 - ix[k];
      NewestAreLast(times, n, ix, j);
      assert false;
    } else if ix[k] < r {
      if r in ix {
        var p :| 0 <= p < |ix| && ix[p] == r;
        if p < k {
          NewestAreLast(times, n, ix, p);
        }
      }
      assert false;
    }
  }

  // ---------- The JSON text ----------

  const PREFIX := "{\"type\":\"history\",\"items\":["
  const SUFFIX := "]}"

  function Join(items: seq<string>): string {
    if items == [] then ""
    else if |items| == 1 then items[0]
    else items[0] + "," + Join(items[1..])
  }

  function HistoryText(items: seq<string>): string { PREFIX + Join(items) + SUFFIX }

  /** The items of the answer: the query's rows, oldest first. */
  function Items(rows: seq<Row>, ix: seq<nat>): (items: seq<string>)
    requires forall k :: 0 <= k < |ix| ==> ix[k] < |rows|
    ensures |items| == |ix|
  {
    seq(|ix|, k requires 0 <= k < |ix| => rows[ix[|ix| - 1 - k]].json)
  }

  function Times(rows: seq<Row>): (ts: seq<int>)
    ensures |ts| == |rows|
  {
    seq(|rows|, k requires 0 <= k < |rows| => rows[k].receivedAt)
  }

  /** What the loop appends, one piece at a time: the items, a comma behind each but the last. */
  function Pieces(items: seq<string>): (r: seq<string>)
    ensures |r| == if items == [] then 0 else 2 * |items| - 1
  {
    if |items| <= 1 then items else [items[0], ","] + Pieces(items[1..])
  }

  lemma {:induction false} PiecesAt(items: seq<string>, m: nat)
    requires m < |items|
    ensures Pieces(items)[2 * m] == items[m]
    ensures m + 1 < |items| ==> Pieces(items)[2 * m + 1] == ","
  {
    if m > 0 {
      PiecesAt(items[1..], m - 1);
    }
  }

  lemma {:induction false} ConcatCons(x: string, parts: seq<string>)
    ensures Concat([x] + parts) == x + Concat(parts)
  {
    var all := [x] + parts;
    if parts == [] {
      assert all[..0] == [];
    } else {
      assert all[..|all| - 1] == [x] + parts[..|parts| - 1];
      ConcatCons(x, parts[..|parts| - 1]);
    }
  }

  lemma {:induction false} PiecesJoin(items: seq<string>)
    ensures Concat(Pieces(items)) == Join(items)
  {
    if |items| == 1 {
      assert Pieces(items) == [items[0]] + [];
      ConcatCons(items[0], []);
    } else if |items| > 1 {
      var rest := Pieces(items[1..]);
      PiecesJoin(items[1..]);
      assert Pieces(items) == [items[0]] + ([","] + rest);
      ConcatCons(items[0], [","] + rest);
      ConcatCons(",", rest);
    }
  }

  /** The pieces for which there was room or memory. */
  function Kept(pieces: seq<string>, got: seq<bool>): string
    requires |got| == |pieces|
  {
    if pieces == [] then ""
    else
      var n := |pieces| - 1;
      Kept(pieces[..n], got[..n]) + if got[n] then pieces[n] else ""
  }

  lemma KeptSnoc(pieces: seq<string>, got: seq<bool>, ok: bool)
    requires |got| < |pieces|
    ensures Kept(pieces[..|got| + 1], got + [ok])
         == Kept(pieces[..|got|], got) + if ok then pieces[|got|] else ""
  {
    var k := |got|;
    assert pieces[..k + 1][..k] == pieces[..k] && (got + [ok])[..k] == got;
  }

  lemma KeptBehind(before: string, pieces: seq<string>, got: seq<bool>, ok: bool)
    requires |got| < |pieces|
    ensures before + Kept(pieces[..|got| + 1], got + [ok])
         == if ok then before + Kept(pieces[..|got|], got) + pieces[|got|] else before + Kept(pieces[..|got|], got)
  {
    hide Kept;
    KeptSnoc(pieces, got, ok);
    var sofar, piece := Kept(pieces[..|got|], got), pieces[|got|];
    assert before + (sofar + piece) == before + sofar + piece && sofar + "" == sofar;
  }

  /** Pieces none of which is empty: their text comes out whole exactly if none is missing. */
  lemma {:induction false} KeptWholeIff(pieces: seq<string>, got: seq<bool>)
    requires |got| == |pieces| && forall k :: 0 <= k < |pieces| ==> pieces[k] != ""
    ensures |Kept(pieces, got)| <= |Concat(pieces)|
    ensures |Kept(pieces, got)| == |Concat(pieces)| <==> AllGot(got)
  {
    if pieces != [] {
      var n := |pieces| - 1;
      KeptWholeIff(pieces[..n], got[..n]);
      assert forall k :: 0 <= k < n ==> got[..n][k] == got[k];
    }
  }

  lemma {:induction false} KeptFits(pieces: seq<string>, got: seq<bool>, k: nat)
    requires |got| == k < |pieces|
    ensures |Kept(pieces[..k], got)| + |pieces[k]| <= |Concat(pieces)|
  {
    KeptShorter(pieces[..k], got);
    ConcatStep(pieces, k);
    ConcatGrows(pieces, k + 1);
  }

  lemma {:induction false} KeptShorter(pieces: seq<string>, got: seq<bool>)
    requires |got| == |pieces|
    ensures |Kept(pieces, got)| <= |Concat(pieces)|
  {
    if pieces != [] {
      KeptShorter(pieces[..|pieces| - 1], got[..|pieces| - 1]);
    }
  }

  lemma {:induction false} ConcatGrows(parts: seq<string>, k: nat)
    requires k <= |parts|
    ensures |Concat(parts[..k])| <= |Concat(parts)|
    decreases |parts|
  {
    if k == |parts| {
      assert parts[..k] == parts;
    } else {
      ConcatGrows(parts[..|parts| - 1], k);
      assert parts[..|parts| - 1][..k] == parts[..k];
    }
  }

  // ---------- Which appends fail ----------

  /** What became of the appends so far, and the buffer's length and capacity behind them. */
  datatype Progress = Progress(got: seq<bool>, len: nat, cap: nat)

  function Appended(p: Progress, piece: string, memory: bool): Progress {
    var need := p.len + |piece| + 1;
    if memory || need <= p.cap then Progress(p.got + [true], p.len + |piece|, StrBuf.Capacity(p.cap, need))
    else Progress(p.got + [false], p.len, p.cap)
  }

  /** All pieces appended to a buffer; `memory` is what realloc would grant to each append. */
  function Outcome(len: nat, cap: nat, pieces: seq<string>, memory: nat -> bool): (p: Progress)
    ensures |p.got| == |pieces| && p.len == len + |Kept(pieces, p.got)|
  {
    if pieces == [] then Progress([], len, cap)
    else
      var n := |pieces| - 1;
      Appended(Outcome(len, cap, pieces[..n], memory), pieces[n], memory(n))
  }

  lemma OutcomeSnoc(len: nat, cap: nat, pieces: seq<string>, k: nat, memory: nat -> bool)
    requires k < |pieces|
    ensures Outcome(len, cap, pieces[..k + 1], memory)
         == Appended(Outcome(len, cap, pieces[..k], memory), pieces[k], memory(k))
  {
    assert pieces[..k + 1][..k] == pieces[..k];
  }

  /** Each piece is granted memory, or steps over no capacity where it comes to stand. */
  ghost predicate Granted(len: nat, pieces: seq<string>, memory: nat -> bool) {
    forall k :: 0 <= k < |pieces| ==> memory(k) || !StrBuf.Crosses(len + |Concat(pieces[..k])|, |pieces[k]|)
  }

  /** Nothing is lost on a buffer no larger than it must be, if and only if every piece is granted memory
      or needs none. */
  lemma {:induction false} NothingLostIff(len: nat, pieces: seq<string>, memory: nat -> bool)
    ensures var p := Outcome(len, StrBuf.Capacity(0, len + 1), pieces, memory);
            && (AllGot(p.got) <==> Granted(len, pieces, memory))
            && (AllGot(p.got) ==> p.len == len + |Concat(pieces)| && p.cap == StrBuf.Capacity(0, p.len + 1))
  {
    hide StrBuf.Crosses, StrBuf.Capacity, Granted, Kept;
    GrantedSnoc(len, pieces, memory);
    if pieces != [] {
      var n, cap := |pieces| - 1, StrBuf.Capacity(0, len + 1);
      NothingLostIff(len, pieces[..n], memory);
      var p := Outcome(len, cap, pieces[..n], memory);
      OneMore(p, pieces[n], memory(n));
      if AllGot(p.got) {
        StrBuf.GrowsIffCrosses(p.len, |pieces[n]|);
        StrBuf.CapacityTwice(p.len + 1, p.len + |pieces[n]| + 1);
      }
    }
  }

  predicate AllGot(got: seq<bool>) { forall k :: 0 <= k < |got| ==> got[k] }

  lemma OneMore(p: Progress, piece: string, memory: bool)
    ensures AllGot(Appended(p, piece, memory).got) <==> AllGot(p.got) && (memory || p.len + |piece| + 1 <= p.cap)
  {
    hide StrBuf.Capacity;
    var got := Appended(p, piece, memory).got;
    assert got[|p.got|] == (memory || p.len + |piece| + 1 <= p.cap);
    assert forall k :: 0 <= k < |p.got| ==> got[k] == p.got[k];
  }

  lemma GrantedSnoc(len: nat, pieces: seq<string>, memory: nat -> bool)
    ensures pieces == [] ==> Granted(len, pieces, memory)
    ensures pieces != [] ==>
      var n := |pieces| - 1;
      Granted(len, pieces, memory) <==>
        && Granted(len, pieces[..n], memory)
        && (memory(n) || !StrBuf.Crosses(len + |Concat(pieces[..n])|, |pieces[n]|))
  {
    if pieces == [] {
      return;
    }
    var front := pieces[..|pieces| - 1];
    assert forall k :: 0 <= k < |front| ==> front[..k] == pieces[..k] && front[k] == pieces[k];
  }

  /** The text kept is the whole text if and only if every piece is granted memory or needs none. */
  lemma KeptWholeIffGranted(len: nat, items: seq<string>, memory: nat -> bool)
    requires forall k :: 0 <= k < |items| ==> items[k] != ""
    ensures var pieces := Pieces(items);
            var kept := Kept(pieces, Outcome(len, StrBuf.Capacity(0, len + 1), pieces, memory).got);
            && |kept| <= |Join(items)|
            && (|kept| == |Join(items)| <==> Granted(len, pieces, memory))
            && (kept == Join(items) <==> Granted(len, pieces, memory))
  {
    hide Kept, Pieces, Join, Concat, Outcome, Granted;
    var pieces := Pieces(items);
    var got := Outcome(len, StrBuf.Capacity(0, len + 1), pieces, memory).got;
    PiecesJoin(items);
    PiecesNotEmpty(items);
    KeptWholeIff(pieces, got);
    KeptAll(pieces, got);
    NothingLostIff(len, pieces, memory);
  }

  // ---------- The loop ----------

  /** The loop that walks the rows array backwards; `items` are the rows' texts, oldest first. The result
      of an append is not looked at. */
  method AppendBackwards(sb: StrBuf.Buffer, texts: array<string>, ghost items: seq<string>, n: nat,
                         memory: nat -> bool)
    requires sb.Valid() && n == |items| <= texts.Length
    requires forall k :: 0 <= k < n ==> texts[k] == items[n - 1 - k]
    requires sb.len + |Join(items)| + 1 <= StrBuf.HALF
    modifies sb, sb.buf
    ensures sb.Valid() && (sb.buf == old(sb.buf) || fresh(sb.buf))
    ensures var p := Outcome(old(sb.len), old(sb.cap), Pieces(items), memory);
            sb.Text() == old(sb.Text()) + Kept(Pieces(items), p.got) && sb.len == p.len && sb.cap == p.cap
    ensures old(sb.cap) == StrBuf.Capacity(0, old(sb.len) + 1) && (forall k :: 0 <= k < n ==> items[k] != "") ==>
      (sb.Text() == old(sb.Text()) + Join(items) <==> Granted(old(sb.len), Pieces(items), memory))
  {
    hide Kept, Pieces, Join, Concat, Outcome, Granted, StrBuf.IsCapacity, StrBuf.Capacity;
    ghost var before, pieces := sb.Text(), Pieces(items);
    PiecesJoin(items);
    NothingYet(sb.len, sb.cap, pieces, memory);
    assert before + "" == before;
    var i, k := n - 1, 0;
    while i >= 0
      invariant -1 <= i < n && k == if i == -1 then |pieces| else 2 * (n - 1 - i)
      invariant sb.Valid() && (sb.buf == old(sb.buf) || fresh(sb.buf))
      invariant Holds(sb, before, old(sb.cap), pieces, k, memory)
    {
      PiecesAt(items, n - 1 - i);
      AppendPiece(sb, before, old(sb.cap), pieces, texts[i], k, memory);
      k := k + 1;
      if i != 0 {
        AppendPiece(sb, before, old(sb.cap), pieces, ",", k, memory);
        k := k + 1;
      }
      i := i - 1;
    }
    assert pieces[..k] == pieces;
    if forall k :: 0 <= k < n ==> items[k] != "" {
      KeptWholeIffGranted(old(sb.len), items, memory);
    }
  }

  /** The buffer after the first `k` pieces. */
  ghost predicate Holds(sb: StrBuf.Buffer, before: string, cap: nat, pieces: seq<string>, k: nat, memory: nat -> bool)
    requires sb.Sized() && k <= |pieces|
    reads sb, sb.buf
  {
    var p := Outcome(|before|, cap, pieces[..k], memory);
    sb.Text() == before + Kept(pieces[..k], p.got) && sb.len == p.len && sb.cap == p.cap
  }

  /** One append whose result is dropped. */
  method AppendPiece(sb: StrBuf.Buffer, ghost before: string, ghost cap: nat, ghost pieces: seq<string>,
                     piece: string, k: nat, memory: nat -> bool)
    requires sb.Valid() && k < |pieces| && piece == pieces[k] && Holds(sb, before, cap, pieces, k, memory)
    requires |before| + |Concat(pieces)| + 1 <= StrBuf.HALF
    modifies sb, sb.buf
    ensures sb.Valid() && (sb.buf == old(sb.buf) || fresh(sb.buf))
    ensures Holds(sb, before, cap, pieces, k + 1, memory)
  {
    hide Kept, Concat, Outcome, StrBuf.IsCapacity, StrBuf.Capacity;
    ghost var p := Outcome(|before|, cap, pieces[..k], memory);
    KeptFits(pieces, p.got, k);
    OutcomeSnoc(|before|, cap, pieces, k, memory);
    var ok := sb.Append(piece, memory(k));
    KeptBehind(before, pieces, p.got, ok);
  }

  lemma NothingYet(len: nat, cap: nat, pieces: seq<string>, memory: nat -> bool)
    ensures Outcome(len, cap, pieces[..0], memory) == Progress([], len, cap) && Kept(pieces[..0], []) == ""
  {
  }

  /** What the environment grants one history query: the prepared statement, the memory for the prefix,
      for the rows array, for the texts of how many rows, for each append of the loop, for the suffix. */
  datatype Grants = Grants(prepared: bool, prefix: bool, array_: bool, texts: nat, appends: nat -> bool, suffix: bool)

  datatype Answer = Refused(code: int) | Json(text: string)

  /** The loop behind the prefix, for which the buffer has grown as little as it must. */
  function Looped(items: seq<string>, appends: nat -> bool): (p: Progress)
    ensures |p.got| == |Pieces(items)|
  {
    Outcome(|PREFIX|, StrBuf.Capacity(0, |PREFIX| + 1), Pieces(items), appends)
  }

  /** The text sent for rows with these texts. */
  function Sent(items: seq<string>, appends: nat -> bool): string {
    PREFIX + Kept(Pieces(items), Looped(items, appends).got) + SUFFIX
  }

  /** The rows that got texts, oldest first. */
  function Texts(rows: seq<Row>, ix: seq<nat>, n: nat): (items: seq<string>)
    requires forall k :: 0 <= k < |ix| ==> ix[k] < |rows|
  {
    Items(rows, ix[..Min(n, |ix|)])
  }

  /** db_reader_history_last_json; `ix` is SQLite's answer. A row whose text gets no memory ends the loop:
      the answer is then made of the newer rows only. */
  method HistoryLastJson(rows: seq<Row>, limit: int, ix: seq<nat>, g: Grants) returns (r: Answer)
    requires NewestFirst(Times(rows), ClampLimit(limit), ix)
    requires |PREFIX| + |Join(Items(rows, ix))| + |SUFFIX| + 1 <= StrBuf.HALF
    ensures !g.prepared ==> r == Refused(-2)
    ensures g.prepared && !g.prefix ==> r == Refused(-3)
    ensures g.prepared && g.prefix && !g.array_ ==> r == Refused(-4)
    ensures g.prepared && g.prefix && g.array_ ==>
      var items := Texts(rows, ix, g.texts);
      var p := Looped(items, g.appends);
      r == if g.suffix || p.len + |SUFFIX| + 1 <= p.cap then Json(Sent(items, g.appends)) else Refused(-5)
    ensures r.Json? && (forall k :: 0 <= k < |rows| ==> rows[k].json != "") ==>
      (r == Json(HistoryText(Items(rows, ix))) <==> WholeAnswer(rows, ix, g))
  {
    hide Join, Kept, Pieces, Items, Texts, WholeAnswer, Outcome, NewestFirst, Times, ClampLimit, HistoryText;
    hide StrBuf.IsCapacity, StrBuf.Capacity;
    IndexInRange(rows, limit, ix);
    ghost var items := Texts(rows, ix, g.texts);
    if !g.prepared {
      return Refused(-2);
    }
    var sb := new StrBuf.Buffer();
    var ok := sb.Append(PREFIX, g.prefix);
    if !ok {
      return Refused(-3);
    }
    assert sb.Text() == PREFIX;
    if !g.array_ {
      return Refused(-4);
    }
    AppendRows(sb, rows, limit, ix, g);
    ok := sb.Append(SUFFIX, g.suffix);
    if !ok {
      return Refused(-5);
    }
    r := Json(sb.buf[..sb.len]);
    AnswerWholeIff(rows, ix, g);
  }

  /** The query's rows made into texts, and the texts appended. */
  method AppendRows(sb: StrBuf.Buffer, rows: seq<Row>, limit: int, ix: seq<nat>, g: Grants)
    requires sb.Valid() && |ix| <= ClampLimit(limit) && forall k :: 0 <= k < |ix| ==> ix[k] < |rows|
    requires sb.len + |Join(Items(rows, ix))| + 1 <= StrBuf.HALF
    modifies sb, sb.buf
    ensures sb.Valid() && (sb.buf == old(sb.buf) || fresh(sb.buf))
    ensures var pieces := Pieces(Texts(rows, ix, g.texts));
            var p := Outcome(old(sb.len), old(sb.cap), pieces, g.appends);
            && sb.Text() == old(sb.Text()) + Kept(pieces, p.got) && sb.len == p.len && sb.cap == p.cap
            && |Kept(pieces, p.got)| <= |Join(Items(rows, ix))|
  {
    hide Join, Kept, Pieces, Items, Outcome, Granted, StrBuf.IsCapacity, StrBuf.Capacity;
    var n := Min(g.texts, |ix|);
    var texts := RowTexts(rows, limit, ix, n);
    ghost var items := Texts(rows, ix, g.texts);
    ghost var got := Outcome(sb.len, sb.cap, Pieces(items), g.appends).got;
    FewerIsShorter(rows, ix, n);
    ItemsBackwards(rows, ix[..n]);
    KeptShorter(Pieces(items), got);
    PiecesJoin(items);
    AppendBackwards(sb, texts, items, n, g.appends);
  }

  lemma IndexInRange(rows: seq<Row>, limit: int, ix: seq<nat>)
    requires NewestFirst(Times(rows), ClampLimit(limit), ix)
    ensures |ix| <= ClampLimit(limit) && forall k :: 0 <= k < |ix| ==> ix[k] < |rows|
  {
  }

  lemma ItemsBackwards(rows: seq<Row>, ix: seq<nat>)
    requires forall k :: 0 <= k < |ix| ==> ix[k] < |rows|
    ensures forall k :: 0 <= k < |ix| ==> Items(rows, ix)[|ix| - 1 - k] == rows[ix[k]].json
  {
  }

  lemma {:induction false} KeptAll(pieces: seq<string>, got: seq<bool>)
    requires |got| == |pieces|
    ensures AllGot(got) ==> Kept(pieces, got) == Concat(pieces)
  {
    if pieces != [] {
      KeptAll(pieces[..|pieces| - 1], got[..|pieces| - 1]);
    }
  }

  /** The rows array: one slot per row asked for, filled in the order of the query. */
  method RowTexts(rows: seq<Row>, limit: int, ix: seq<nat>, n: nat) returns (texts: array<string>)
    requires n <= |ix| <= ClampLimit(limit) && forall k :: 0 <= k < |ix| ==> ix[k] < |rows|
    ensures fresh(texts) && n <= texts.Length
    ensures forall k :: 0 <= k < n ==> texts[k] == rows[ix[k]].json
  {
    texts := new string[ClampLimit(limit)](_ => "");
    for k := 0 to n
      invariant forall j :: 0 <= j < k ==> texts[j] == rows[ix[j]].json
    {
      texts[k] := rows[ix[k]].json;
    }
  }

  /** Leaving out the oldest rows leaves out the front of the text. */
  lemma FewerIsShorter(rows: seq<Row>, ix: seq<nat>, n: nat)
    requires n <= |ix| && forall k :: 0 <= k < |ix| ==> ix[k] < |rows|
    ensures |Join(Items(rows, ix[..n]))| <= |Join(Items(rows, ix))|
    ensures n < |ix| && (forall k :: 0 <= k < |ix| ==> rows[ix[k]].json != "") ==>
      |Join(Items(rows, ix[..n]))| < |Join(Items(rows, ix))|
  {
    var all, some := Items(rows, ix), Items(rows, ix[..n]);
    assert some == all[|ix| - n..];
    JoinOfTail(all, |ix| - n);
  }

  lemma {:induction false} JoinOfTail(items: seq<string>, m: nat)
    requires m <= |items|
    ensures |Join(items[m..])| <= |Join(items)|
    ensures m > 0 && items[0] != "" ==> |Join(items[m..])| < |Join(items)|
  {
    if m > 0 {
      JoinOfTail(items[1..], m - 1);
      assert items[1..][m - 1..] == items[m..];
    } else {
      assert items[0..] == items;
    }
  }

  /** All rows answered got texts, and every append got memory or needed none. */
  ghost predicate WholeAnswer(rows: seq<Row>, ix: seq<nat>, g: Grants)
    requires forall k :: 0 <= k < |ix| ==> ix[k] < |rows|
  {
    g.texts >= |ix| && Granted(|PREFIX|, Pieces(Items(rows, ix)), g.appends)
  }

  /** The text sent is the history text of the rows answered exactly then: where memory is short, rows and
      commas are left out of an answer that counts as a success. */
  lemma AnswerWholeIff(rows: seq<Row>, ix: seq<nat>, g: Grants)
    requires forall k :: 0 <= k < |ix| ==> ix[k] < |rows|
    ensures (forall k :: 0 <= k < |rows| ==> rows[k].json != "") ==>
      (Sent(Texts(rows, ix, g.texts), g.appends) == HistoryText(Items(rows, ix)) <==> WholeAnswer(rows, ix, g))
  {
    if forall k :: 0 <= k < |rows| ==> rows[k].json != "" {
      hide Kept, Pieces, Join, Outcome, Granted;
      var n := Min(g.texts, |ix|);
      var items := Texts(rows, ix, g.texts);
      KeptWholeIffGranted(|PREFIX|, items, g.appends);
      FewerIsShorter(rows, ix, n);
      if n == |ix| {
        assert ix[..n] == ix;
      }
    }
  }

  /** A single row that does not fit behind the prefix, and no memory for it: the answer that counts as a
      success is the history of no rows. */
  lemma RowIsLost(json: string, appends: nat -> bool)
    requires |PREFIX| + |json| + 1 > StrBuf.FIRST && !appends(0)
    ensures Sent([json], appends) == HistoryText([])
  {
    var full := StrBuf.Capacity(0, |PREFIX| + 1);
    assert Pieces([json]) == [json];
    assert full == StrBuf.FIRST;
    NothingYet(|PREFIX|, full, [json], appends);
    OutcomeSnoc(|PREFIX|, full, [json], 0, appends);
    assert [json][..1] == [json];
  }

  /** Memory is refused for a comma only: two rows run into each other. */
  lemma CommaIsLost(a: string, b: string, appends: nat -> bool)
    requires |PREFIX| + |a| + 1 == StrBuf.FIRST && !appends(1) && appends(2)
    ensures Sent([a, b], appends) == PREFIX + (a + b) + SUFFIX
  {
    hide StrBuf.Grown, Outcome, Kept;
    var full := StrBuf.Capacity(0, |PREFIX| + 1);
    var pieces := [a, ",", b];
    TwoPieces(a, b);
    PrefixCapacity();
    NothingYet(|PREFIX|, full, pieces, appends);
    OutcomeSnoc(|PREFIX|, full, pieces, 0, appends);
    OutcomeSnoc(|PREFIX|, full, pieces, 1, appends);
    OutcomeSnoc(|PREFIX|, full, pieces, 2, appends);
    assert pieces[..3] == pieces;
    assert Outcome(|PREFIX|, full, pieces[..2], appends).got == [true, false];
    assert Looped([a, b], appends).got == [true, false, true];
    KeptThree(a, ",", b);
  }

  lemma TwoPieces(a: string, b: string)
    ensures Pieces([a, b]) == [a, ",", b]
  {
    assert [a, b][1..] == [b];
  }

  lemma PrefixCapacity()
    ensures StrBuf.Capacity(0, |PREFIX| + 1) == StrBuf.FIRST
  {
  }

  lemma KeptThree(a: string, b: string, c: string)
    ensures Kept([a, b, c], [true, false, true]) == a + c
  {
    assert [a, b, c][..2] == [a, b] && [true, false, true][..2] == [true, false];
    assert [a, b][..1] == [a] && [true, false][..1] == [true];
    assert Kept([a], [true]) == a;
    assert Kept([a, b], [true, false]) == a;
  }

  lemma {:induction false} PiecesNotEmpty(items: seq<string>)
    requires forall k :: 0 <= k < |items| ==> items[k] != ""
    ensures forall k :: 0 <= k < |Pieces(items)| ==> Pieces(items)[k] != ""
  {
    if |items| > 1 {
      PiecesNotEmpty(items[1..]);
    }
  }

  function Included(rows: seq<Row>, ix: seq<nat>, k: nat): Row
    requires k < |ix| && forall j :: 0 <= j < |ix| ==> ix[j] < |rows|
  {
    rows[ix[|ix| - 1 - k]]
  }

  /** The window is right: as many rows as asked for and available, oldest first, and none left out is
      newer than one included. */
  lemma HistoryWindow(rows: seq<Row>, limit: int, ix: seq<nat>)
    requires NewestFirst(Times(rows), ClampLimit(limit), ix)
    ensures var items := Items(rows, ix);
            && |items| == Min(ClampLimit(limit), |rows|)
            && (forall k :: 0 <= k < |items| ==> items[k] == Included(rows, ix, k).json)
            && (forall j, k :: 0 <= j < k < |items| ==>
                  Included(rows, ix, j).receivedAt <= Included(rows, ix, k).receivedAt)
            && (forall r, k :: 0 <= r < |rows| && r !in ix && 0 <= k < |items| ==>
                  rows[r].receivedAt <= Included(rows, ix, k).receivedAt)
  {
    var times := Times(rows);
    forall j, k | 0 <= j < k < |ix|
      ensures Included(rows, ix, j).receivedAt <= Included(rows, ix, k).receivedAt
    {
      assert times[ix[|ix| - 1 - k]] >= times[ix[|ix| - 1 - j]];
    }
    forall r, k | 0 <= r < |rows| && r !in ix && 0 <= k < |ix|
      ensures rows[r].receivedAt <= Included(rows, ix, k).receivedAt
    {
      assert times[r] <= times[ix[|ix| - 1 - k]];
    }
  }

  /** With increasing receive times the answer is the last rows in the order they were stored. */
  lemma ItemsAreSuffix(rows: seq<Row>, limit: int, ix: seq<nat>)
    requires NewestFirst(Times(rows), ClampLimit(limit), ix) && StrictlyIncreasing(Times(rows))
    ensures forall k :: 0 <= k < |ix| ==> Items(rows, ix)[k] == rows[|rows| - |ix| + k].json
  {
    forall k | 0 <= k < |ix|
      ensures Items(rows, ix)[k] == rows[|rows| - |ix| + k].json
    {
      NewestAreLast(Times(rows), ClampLimit(limit), ix, |ix| - 1 - k);
    }
  }
}
