/** The CSV export of the UI log in app.js against a strict reader of RFC 4180, section 2, whose lines
    end in a line feed. */
module Csv {
  import opened Basics

  type Row = seq<string>

  const COLUMNS: Row := ["wall_ms", "event", "source", "seq", "t_ns", "staleness_ms",
                         "gap_from_prev", "ws_state", "run_tag", "last", "count", "note"]

  // ---------- Writing ----------

  predicate NeedsQuotes(s: string) { '"' in s || ',' in s || '\n' in s }

  function Doubled(s: string): string {
    if s == "" then "" else (if s[0] == '"' then "\"\"" else [s[0]]) + Doubled(s[1..])
  }

  /** csvEscape of a cell; null and undefined are the empty cell. */
  function Escape(cell: Option<string>): string {
    match cell
    case None => ""
    case Some(s) => if NeedsQuotes(s) then "\"" + Doubled(s) + "\"" else s
  }

  function Line(cells: seq<Option<string>>): string {
    if cells == [] then ""
    else if |cells| == 1 then Escape(cells[0])
    else Escape(cells[0]) + "," + Line(cells[1..])
  }

  function Lines(rows: seq<seq<Option<string>>>): string {
    if rows == [] then "" else Line(rows[0]) + "\n" + Lines(rows[1..])
  }

  function Header(): seq<Option<string>> {
    seq(|COLUMNS|, i requires 0 <= i < |COLUMNS| => Some(COLUMNS[i]))
  }

  /** The exported text: the header line, then one line per row of the log. */
  function Export(log: seq<seq<Option<string>>>): string {
    Lines([Header()] + log)
  }

  // ---------- Reading ----------

  datatype Mode = AtStart | Plain | Quoted | AfterQuote

  /** Reads `s` with the cell, row and rows read so far. */
  function Read(s: string, mode: Mode, cell: string, row: Row, rows: seq<Row>): Option<seq<Row>>
    decreases |s|
  {
    if s == "" then
      if mode == Quoted then None
      else if mode == AtStart && row == [] then Some(rows)
      else Some(rows + [row + [cell]])
    else if mode == Quoted then
      if s[0] == '"' then Read(s[1..], AfterQuote, cell, row, rows) else Read(s[1..], Quoted, cell + [s[0]], row, rows)
    else if s[0] == ',' then Read(s[1..], AtStart, "", row + [cell], rows)
    else if s[0] == '\n' then Read(s[1..], AtStart, "", [], rows + [row + [cell]])
    else if s[0] == '"' then
      if mode == AtStart then Read(s[1..], Quoted, "", row, rows)
      else if mode == AfterQuote then Read(s[1..], Quoted, cell + "\"", row, rows)
      else None
    else if s[0] == '\r' || mode == AfterQuote then None
    else Read(s[1..], Plain, cell + [s[0]], row, rows)
  }

  function Parse(s: string): Option<seq<Row>> { Read(s, AtStart, "", [], []) }

  // ---------- Cells ----------

  function Text(cell: Option<string>): string { if cell.Some? then cell.value else "" }

  function Texts(cells: seq<Option<string>>): Row {
    seq(|cells|, i requires 0 <= i < |cells| => Text(cells[i]))
  }

  function AllTexts(rows: seq<seq<Option<string>>>): seq<Row> {
    seq(|rows|, i requires 0 <= i < |rows| => Texts(rows[i]))
  }

  /** A cell the export writes readably: a carriage return only inside quotes. */
  predicate Readable(cell: Option<string>) {
    var text := Text(cell);
    '\r' in text ==> '"' in text || ',' in text || '\n' in text
  }

  lemma {:induction false} ReadQuoted(s: string, rest: string, cell: string, row: Row, rows: seq<Row>)
    ensures Read(Doubled(s) + "\"" + rest, Quoted, cell, row, rows) == Read(rest, AfterQuote, cell + s, row, rows)
    decreases |s|
  {
    var text := Doubled(s) + "\"" + rest;
    if s == "" {
      assert text == "\"" + rest;
      assert text[1..] == rest;
      assert cell + s == cell;
    } else {
      var tail := Doubled(s[1..]) + "\"" + rest;
      ReadQuoted(s[1..], rest, cell + [s[0]], row, rows);
      assert cell + [s[0]] + s[1..] == cell + s;
      if s[0] == '"' {
        assert text == "\"\"" + tail;
        assert text[1..] == "\"" + tail;
        assert text[1..][1..] == tail;
      } else {
        assert text == [s[0]] + tail;
        assert text[1..] == tail;
      }
    }
  }

  lemma {:induction false} ReadPlain(s: string, rest: string, mode: Mode, cell: string, row: Row, rows: seq<Row>)
    requires !NeedsQuotes(s) && (mode == AtStart || mode == Plain)
    requires rest != "" && (rest[0] == ',' || rest[0] == '\n')
    ensures Read(s + rest, mode, cell, row, rows)
         == if '\r' in s then None else Read(rest, if s == "" then mode else Plain, cell + s, row, rows)
    decreases |s|
  {
    if s == "" {
      assert s + rest == rest;
      assert cell + s == cell;
    } else {
      var text := s + rest;
      assert text[1..] == s[1..] + rest;
      assert s == [s[0]] + s[1..];
      if s[0] != '\r' {
        ReadPlain(s[1..], rest, Plain, cell + [s[0]], row, rows);
        assert cell + [s[0]] + s[1..] == cell + s;
      }
    }
  }

  /** A written cell reads back as its text, or stops the reader if it is not readable. */
  lemma ReadCell(cell: Option<string>, rest: string, row: Row, rows: seq<Row>)
    requires rest != "" && (rest[0] == ',' || rest[0] == '\n')
    ensures Read(Escape(cell) + rest, AtStart, "", row, rows)
         == if !Readable(cell) then None
            else if rest[0] == ',' then Read(rest[1..], AtStart, "", row + [Text(cell)], rows)
            else Read(rest[1..], AtStart, "", [], rows + [row + [Text(cell)]])
  {
    var s := Text(cell);
    assert "" + s == s;
    if NeedsQuotes(s) {
      ReadQuotedCell(s, rest, row, rows);
    } else {
      ReadPlain(s, rest, AtStart, "", row, rows);
    }
  }

  lemma ReadQuotedCell(s: string, rest: string, row: Row, rows: seq<Row>)
    ensures Read("\"" + Doubled(s) + "\"" + rest, AtStart, "", row, rows) == Read(rest, AfterQuote, s, row, rows)
  {
    hide Doubled;
    var body := Doubled(s) + "\"" + rest;
    var text := "\"" + Doubled(s) + "\"" + rest;
    assert text == "\"" + body;
    assert text[1..] == body;
    ReadQuoted(s, rest, "", row, rows);
    assert "" + s == s;
  }

  // ---------- Lines ----------

  ghost predicate LineReadable(cells: seq<Option<string>>) {
    forall i :: 0 <= i < |cells| ==> Readable(cells[i])
  }

  lemma {:induction false} ReadLine(cells: seq<Option<string>>, rest: string, row: Row, rows: seq<Row>)
    requires cells != []
    ensures Read(Line(cells) + "\n" + rest, AtStart, "", row, rows)
         == if LineReadable(cells) then Read(rest, AtStart, "", [], rows + [row + Texts(cells)]) else None
    decreases |cells|
  {
    hide Read, Escape, Readable;
    var first := cells[0];
    if |cells| == 1 {
      var tail := "\n" + rest;
      assert Line(cells) + "\n" + rest == Escape(first) + tail;
      assert tail[1..] == rest;
      ReadCell(first, tail, row, rows);
      assert Texts(cells) == [Text(first)];
    } else {
      var more := cells[1..];
      var tail := "," + (Line(more) + "\n" + rest);
      assert Line(cells) + "\n" + rest == Escape(first) + tail;
      assert tail[1..] == Line(more) + "\n" + rest;
      ReadCell(first, tail, row, rows);
      ReadLine(more, rest, row + [Text(first)], rows);
      assert row + [Text(first)] + Texts(more) == row + Texts(cells);
      assert LineReadable(cells) <==> Readable(first) && LineReadable(more) by {
        if Readable(first) && LineReadable(more) {
          forall i | 0 <= i < |cells|
            ensures Readable(cells[i])
          {
            assert i > 0 ==> cells[i] == more[i - 1];
          }
        }
      }
    }
  }

  ghost predicate AllReadable(rows: seq<seq<Option<string>>>) {
    forall i :: 0 <= i < |rows| ==> LineReadable(rows[i])
  }

  lemma {:induction false} ReadLines(todo: seq<seq<Option<string>>>, rows: seq<Row>)
    requires forall i :: 0 <= i < |todo| ==> todo[i] != []
    ensures Read(Lines(todo), AtStart, "", [], rows) == if AllReadable(todo) then Some(rows + AllTexts(todo)) else None
    decreases |todo|
  {
    hide Line, LineReadable;
    if todo == [] {
      assert rows + AllTexts(todo) == rows;
    } else {
      var first, more := todo[0], todo[1..];
      ReadLine(first, Lines(more), [], rows);
      assert [] + Texts(first) == Texts(first);
      ReadLines(more, rows + [Texts(first)]);
      assert rows + [Texts(first)] + AllTexts(more) == rows + AllTexts(todo);
      assert AllReadable(todo) <==> LineReadable(first) && AllReadable(more) by {
        if LineReadable(first) && AllReadable(more) {
          forall i | 0 <= i < |todo|
            ensures LineReadable(todo[i])
          {
            assert i > 0 ==> todo[i] == more[i - 1];
          }
        }
      }
    }
  }

  lemma HeaderIsLine()
    ensures Header() != [] && |COLUMNS| > 0
  {
  }

  lemma HeaderReadable()
    ensures LineReadable(Header()) && Texts(Header()) == COLUMNS
  {
    forall i | 0 <= i < |COLUMNS|
      ensures '\r' !in COLUMNS[i]
    {
      ColumnReadable(i);
    }
  }

  lemma ColumnReadable(i: nat)
    requires i < |COLUMNS|
    ensures '\r' !in COLUMNS[i]
  {
  }

  /** The exported text reads back as the header and exactly the original cells if and only if every
      cell with a carriage return also has a quotation mark, comma or line feed; otherwise the reader
      refuses it. */
  lemma ExportRoundTrip(log: seq<seq<Option<string>>>)
    requires forall i :: 0 <= i < |log| ==> |log[i]| == |COLUMNS|
    ensures Parse(Export(log)) == if AllReadable(log) then Some([COLUMNS] + AllTexts(log)) else None
  {
    hide Header, Read, Lines, LineReadable;
    var all := [Header()] + log;
    HeaderIsLine();
    ReadLines(all, []);
    HeaderReadable();
    assert [] + AllTexts(all) == [COLUMNS] + AllTexts(log);
    assert AllReadable(all) <==> AllReadable(log) by {
      if AllReadable(log) {
        forall i | 0 <= i < |all|
          ensures LineReadable(all[i])
        {
          assert i > 0 ==> all[i] == log[i - 1];
        }
      } else {
        var i :| 0 <= i < |log| && !LineReadable(log[i]);
        assert all[i + 1] == log[i];
      }
    }
  }
}
