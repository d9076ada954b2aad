/** Comma-separated text as the analytics export writes it: an unquoted
    header line, then one line per record with every cell in double quotes
    and each inner `"` doubled (section 2, rule 7 of RFC 4180), the lines
    joined by a line feed. A reader of section 2 of RFC 4180 is given too,
    to state that the export can be read back. */
module Csv {
  import opened Wrappers

  /** Every `"` doubled. */
  function Escape(cell: string): (r: string)
    ensures |r| >= |cell|
  {
    if cell == [] then []
    else (if cell[0] == '"' then "\"\"" else [cell[0]]) + Escape(cell[1..])
  }

  function Quote(cell: string): string {
    "\"" + Escape(cell) + "\""
  }

  /** `cells.map(quote).join(",")`. */
  function QuotedLine(cells: seq<string>): string
    requires cells != []
  {
    if |cells| == 1 then Quote(cells[0]) else Quote(cells[0]) + ("," + QuotedLine(cells[1..]))
  }

  /** `cells.join(",")`. */
  function PlainLine(cells: seq<string>): string
    requires cells != []
  {
    if |cells| == 1 then cells[0] else cells[0] + ("," + PlainLine(cells[1..]))
  }

  /** `rows.map(quotedLine).join("\n")`. */
  function Records(rows: seq<seq<string>>): string
    requires rows != []
    requires forall i :: 0 <= i < |rows| ==> rows[i] != []
  {
    if |rows| == 1 then QuotedLine(rows[0]) else QuotedLine(rows[0]) + ("\n" + Records(rows[1..]))
  }

  /** `[header.join(","), ...rows.map(quotedLine)].join("\n")`. */
  function Document(header: seq<string>, rows: seq<seq<string>>): string
    requires header != []
    requires forall i :: 0 <= i < |rows| ==> rows[i] != []
  {
    if rows == [] then PlainLine(header) else PlainLine(header) + ("\n" + Records(rows))
  }

  /** The contents of a quoted field after its opening quote, and the text
      after its closing quote; `""` inside stands for one `"`. */
  function ParseQuoted(s: string): (r: Option<(string, string)>)
    ensures r.Some? ==> |r.value.1| < |s|
    decreases |s|
  {
    if s == [] then None
    else if s[0] == '"' then
      if |s| >= 2 && s[1] == '"' then
        match ParseQuoted(s[2..])
        case None => None
        case Some((v, rest)) => Some(("\"" + v, rest))
      else Some(("", s[1..]))
    else
      match ParseQuoted(s[1..])
      case None => None
      case Some((v, rest)) => Some(([s[0]] + v, rest))
  }

  /** An unquoted field: everything up to the next comma or line feed. */
  function ParseUnquoted(s: string): (r: (string, string))
    ensures r.0 + r.1 == s
    ensures r.1 == [] || r.1[0] == ',' || r.1[0] == '\n'
    decreases |s|
  {
    if s == [] || s[0] == ',' || s[0] == '\n' then ("", s)
    else
      var r := ParseUnquoted(s[1..]);
      assert [s[0]] + s[1..] == s;
      assert ([s[0]] + r.0) + r.1 == [s[0]] + (r.0 + r.1);
      ([s[0]] + r.0, r.1)
  }

  function ParseField(s: string): (r: Option<(string, string)>)
    ensures r.Some? ==> |r.value.1| <= |s|
  {
    if s != [] && s[0] == '"' then ParseQuoted(s[1..]) else Some(ParseUnquoted(s))
  }

  /** One record: its fields, the text after it, and whether a line feed
      ended it (so that another record follows). */
  function ParseRecord(s: string): (r: Option<(seq<string>, string, bool)>)
    ensures r.Some? ==> |r.value.1| < |s| || (!r.value.2 && r.value.1 == [])
    decreases |s|
  {
    match ParseField(s)
    case None => None
    case Some((v, rest)) =>
      if rest == [] then Some(([v], "", false))
      else if rest[0] == '\n' then Some(([v], rest[1..], true))
      else if rest[0] == ',' then
        match ParseRecord(rest[1..])
        case None => None
        case Some((fields, after, more)) => Some(([v] + fields, after, more))
      else None
  }

  function ParseDocument(s: string): Option<seq<seq<string>>>
    decreases |s|
  {
    match ParseRecord(s)
    case None => None
    case Some((fields, rest, more)) =>
      if !more then Some([fields])
      else match ParseDocument(rest)
        case None => None
        case Some(records) => Some([fields] + records)
  }

  /** What may follow a field: nothing, a comma or a line feed. */
  predicate EndsField(rest: string) {
    rest == [] || rest[0] == ',' || rest[0] == '\n'
  }

  lemma Assoc(a: string, b: string, c: string)
    ensures (a + b) + c == a + (b + c)
  {
  }

  lemma DropFirst(c: char, s: string)
    ensures ([c] + s)[1..] == s
  {
  }

  /** An escaped cell and its closing quote read back as the cell. */
  lemma {:induction false} QuotedRoundTrip(cell: string, rest: string)
    requires rest == [] || rest[0] != '"'
    ensures ParseQuoted(Escape(cell) + "\"" + rest) == Some((cell, rest))
    decreases |cell|
  {
    var s := Escape(cell) + "\"" + rest;
    if cell == [] {
      assert s == "\"" + rest;
      DropFirst('"', rest);
    } else {
      var tail := Escape(cell[1..]) + "\"" + rest;
      QuotedRoundTrip(cell[1..], rest);
      if cell[0] == '"' {
        assert s == "\"\"" + tail;
        assert s[2..] == tail;
        assert "\"" + cell[1..] == cell;
      } else {
        assert s == [cell[0]] + tail;
        DropFirst(cell[0], tail);
        assert [cell[0]] + cell[1..] == cell;
      }
    }
  }

  lemma QuoteRoundTrip(cell: string, rest: string)
    requires EndsField(rest)
    ensures ParseField(Quote(cell) + rest) == Some((cell, rest))
  {
    var s := Quote(cell) + rest;
    assert s[1..] == Escape(cell) + "\"" + rest;
    QuotedRoundTrip(cell, rest);
  }

  /** A cell that an unquoted reading returns whole. */
  predicate Plain(cell: string) {
    (cell == [] || cell[0] != '"') && forall i :: 0 <= i < |cell| ==> cell[i] != ',' && cell[i] != '\n'
  }

  lemma {:induction false} UnquotedRoundTrip(cell: string, rest: string)
    requires forall i :: 0 <= i < |cell| ==> cell[i] != ',' && cell[i] != '\n'
    requires EndsField(rest)
    ensures ParseUnquoted(cell + rest) == (cell, rest)
    decreases |cell|
  {
    if cell != [] {
      assert (cell + rest)[1..] == cell[1..] + rest;
      UnquotedRoundTrip(cell[1..], rest);
      assert [cell[0]] + cell[1..] == cell;
    } else {
      assert cell + rest == rest;
    }
  }

  /** A record line followed by nothing or by a line feed reads back as its
      cells. */
  lemma {:induction false} QuotedLineRoundTrip(cells: seq<string>, tail: string)
    requires cells != []
    requires tail == [] || tail[0] == '\n'
    ensures ParseRecord(QuotedLine(cells) + tail) == Some((cells, if tail == [] then [] else tail[1..], tail != []))
    decreases |cells|
  {
    if |cells| == 1 {
      QuoteRoundTrip(cells[0], tail);
      assert [cells[0]] == cells;
    } else {
      var line := QuotedLine(cells[1..]);
      var more := line + tail;
      Assoc(Quote(cells[0]), "," + line, tail);
      Assoc(",", line, tail);
      QuoteRoundTrip(cells[0], "," + more);
      DropFirst(',', more);
      QuotedLineRoundTrip(cells[1..], tail);
      assert [cells[0]] + cells[1..] == cells;
    }
  }

  /** The header line reads back as its cells. */
  lemma {:induction false} PlainLineRoundTrip(cells: seq<string>, tail: string)
    requires cells != []
    requires forall i :: 0 <= i < |cells| ==> Plain(cells[i])
    requires tail == [] || tail[0] == '\n'
    ensures ParseRecord(PlainLine(cells) + tail) == Some((cells, if tail == [] then [] else tail[1..], tail != []))
    decreases |cells|
  {
    var c := cells[0];
    assert Plain(c);
    if |cells| == 1 {
      UnquotedRoundTrip(c, tail);
      assert (c + tail == [] || (c + tail)[0] != '"') by {
        if c == [] { assert c + tail == tail; } else { assert (c + tail)[0] == c[0]; }
      }
      assert [c] == cells;
    } else {
      var line := PlainLine(cells[1..]);
      var more := line + tail;
      Assoc(c, "," + line, tail);
      Assoc(",", line, tail);
      UnquotedRoundTrip(c, "," + more);
      assert (c + ("," + more))[0] != '"' by {
        if c == [] { assert c + ("," + more) == "," + more; } else { assert (c + ("," + more))[0] == c[0]; }
      }
      DropFirst(',', more);
      PlainLineRoundTrip(cells[1..], tail);
      assert [c] + cells[1..] == cells;
    }
  }

  lemma ParseDocumentStep(s: string, fields: seq<string>, rest: string, more: bool)
    requires ParseRecord(s) == Some((fields, rest, more))
    ensures !more ==> ParseDocument(s) == Some([fields])
    ensures more && ParseDocument(rest).Some? ==> ParseDocument(s) == Some([fields] + ParseDocument(rest).value)
  {
  }

  /** A last record line reads back as that record. */
  lemma LastLine(cells: seq<string>)
    requires cells != []
    ensures ParseDocument(QuotedLine(cells)) == Some([cells])
  {
    QuotedLineRoundTrip(cells, []);
    assert QuotedLine(cells) + [] == QuotedLine(cells);
    ParseDocumentStep(QuotedLine(cells), cells, [], false);
  }

  /** A record line, a line feed and further lines that read back, read back. */
  lemma LineThenMore(cells: seq<string>, rest: string, more: seq<seq<string>>)
    requires cells != []
    requires ParseDocument(rest) == Some(more)
    ensures ParseDocument(QuotedLine(cells) + ("\n" + rest)) == Some([cells] + more)
  {
    QuotedLineRoundTrip(cells, "\n" + rest);
    DropFirst('\n', rest);
    ParseDocumentStep(QuotedLine(cells) + ("\n" + rest), cells, rest, true);
  }

  /** The record lines joined by line feeds read back as the records. */
  lemma {:induction false} RecordsRoundTrip(rows: seq<seq<string>>)
    requires rows != []
    requires forall i :: 0 <= i < |rows| ==> rows[i] != []
    ensures ParseDocument(Records(rows)) == Some(rows)
    decreases |rows|
  {
    if |rows| == 1 {
      LastLine(rows[0]);
      assert [rows[0]] == rows;
    } else {
      RecordsRoundTrip(rows[1..]);
      LineThenMore(rows[0], Records(rows[1..]), rows[1..]);
      assert [rows[0]] + rows[1..] == rows;
    }
  }

  /** Reading the export back gives the header and every record, cell for
      cell, whatever the cells contain. */
  lemma DocumentRoundTrip(header: seq<string>, rows: seq<seq<string>>)
    requires header != [] && forall i :: 0 <= i < |header| ==> Plain(header[i])
    requires forall i :: 0 <= i < |rows| ==> rows[i] != []
    ensures ParseDocument(Document(header, rows)) == Some([header] + rows)
  {
    if rows == [] {
      PlainLineRoundTrip(header, []);
      assert PlainLine(header) + [] == PlainLine(header);
      ParseDocumentStep(PlainLine(header), header, [], false);
      assert [header] + rows == [header];
    } else {
      var body := Records(rows);
      RecordsRoundTrip(rows);
      PlainLineRoundTrip(header, "\n" + body);
      DropFirst('\n', body);
      ParseDocumentStep(Document(header, rows), header, body, true);
    }
  }
}
