/**
 The CSV text of the web client's downloads, against a reader that follows the quoting rules
 of section 2 of RFC 4180 and also accepts a bare line feed as record break.
 */
module CsvDownload {
  import opened Common

  type Table = seq<seq<string>>

  const BYTE_ORDER_MARK: string := "\U{FEFF}"

  // ---- writing ----

  predicate NoEmptyRow(rows: Table) {
    forall i :: 0 <= i < |rows| ==> |rows[i]| > 0
  }

  function Doubled(cell: string): string {
    if |cell| == 0 then []
    else (if cell[0] == '"' then "\"\"" else [cell[0]]) + Doubled(cell[1..])
  }

  function Quote(cell: string): string {
    "\"" + Doubled(cell) + "\""
  }

  function Join(parts: seq<string>, separator: string): string {
    if |parts| == 0 then ""
    else if |parts| == 1 then parts[0]
    else parts[0] + separator + Join(parts[1..], separator)
  }

  function Cells(row: seq<string>): seq<string> {
    seq(|row|, i requires 0 <= i < |row| => Quote(row[i]))
  }

  function EncodeRow(row: seq<string>): string {
    Join(Cells(row), ",")
  }

  function Lines(rows: Table): seq<string> {
    seq(|rows|, i requires 0 <= i < |rows| => EncodeRow(rows[i]))
  }

  function Encode(rows: Table): string {
    BYTE_ORDER_MARK + Join(Lines(rows), "\n")
  }

  // ---- reading ----

  datatype Mode = FieldStart | Plain | Quoted | QuoteSeen

  /** A line break at the head of the text: its length, or 0. */
  function Break(text: string): nat {
    if "\n" <= text then 1 else if "\r\n" <= text then 2 else 0
  }

  /** Reads on from the middle of a record: its finished fields and the open cell. */
  function Read(text: string, mode: Mode, cell: string, fields: seq<string>, records: Table): Option<Table>
    decreases |text|
  {
    if |text| == 0 then
      if mode == Quoted then None
      else if mode == FieldStart && fields == [] then Some(records)   // nothing after a line break
      else Some(records + [fields + [cell]])
    else if mode == Quoted then
      if text[0] == '"' then Read(text[1..], QuoteSeen, cell, fields, records)
      else Read(text[1..], Quoted, cell + [text[0]], fields, records)
    else if mode == FieldStart && text[0] == '"' then Read(text[1..], Quoted, cell, fields, records)
    else if mode == QuoteSeen && text[0] == '"' then Read(text[1..], Quoted, cell + "\"", fields, records)
    else if text[0] == ',' then Read(text[1..], FieldStart, "", fields + [cell], records)
    else if Break(text) > 0 then Read(text[Break(text)..], FieldStart, "", [], records + [fields + [cell]])
    else if mode == QuoteSeen || text[0] == '"' || text[0] == '\r' then None
    else Read(text[1..], Plain, cell + [text[0]], fields, records)
  }

  function Decode(text: string): Option<Table> {
    Read(if BYTE_ORDER_MARK <= text then text[1..] else text, FieldStart, "", [], [])
  }

  // ---- reading what was written ----

  /** Inside quotes a doubled quote is read as one, anything else as itself. */
  lemma ReadFirst(c: string, rest: string, cell: string, fields: seq<string>, records: Table)
    requires |c| > 0
    ensures Read(Doubled(c) + rest, Quoted, cell, fields, records) ==
      Read(Doubled(c[1..]) + rest, Quoted, cell + [c[0]], fields, records)
  {
    var text, tail := Doubled(c) + rest, Doubled(c[1..]) + rest;
    if c[0] == '"' {
      assert text[0] == '"' && text[1] == '"' && text[1..][1..] == tail;
      assert Read(text, Quoted, cell, fields, records) == Read(text[1..], QuoteSeen, cell, fields, records);
    } else {
      assert text[0] == c[0] && text[1..] == tail;
    }
  }

  lemma {:induction false} ReadQuoted(c: string, rest: string, cell: string, fields: seq<string>, records: Table)
    ensures Read(Doubled(c) + rest, Quoted, cell, fields, records) == Read(rest, Quoted, cell + c, fields, records)
  {
    if |c| == 0 {
      assert Doubled(c) + rest == rest && cell + c == cell;
    } else {
      ReadFirst(c, rest, cell, fields, records);
      ReadQuoted(c[1..], rest, cell + [c[0]], fields, records);
      assert cell + [c[0]] + c[1..] == cell + c;
    }
  }

  /** A written cell is read back whole. */
  lemma ReadCell(c: string, rest: string, fields: seq<string>, records: Table)
    ensures Read(Quote(c) + rest, FieldStart, "", fields, records) == Read(rest, QuoteSeen, c, fields, records)
  {
    var text := Quote(c) + rest;
    assert text[1..] == Doubled(c) + ("\"" + rest);
    ReadQuoted(c, "\"" + rest, "", fields, records);
    assert "" + c == c && ("\"" + rest)[1..] == rest;
  }

  /** A written row is read back up to its last cell. */
  lemma {:induction false} ReadRow(row: seq<string>, rest: string, fields: seq<string>, records: Table)
    requires |row| > 0
    ensures Read(Join(Cells(row), ",") + rest, FieldStart, "", fields, records) ==
      Read(rest, QuoteSeen, Last(row), fields + Front(row), records)
  {
    if |row| == 1 {
      ReadCell(row[0], rest, fields, records);
      assert fields + Front(row) == fields;
    } else {
      var tail := Join(Cells(row[1..]), ",") + rest;
      assert Cells(row)[1..] == Cells(row[1..]);
      assert Join(Cells(row), ",") + rest == Quote(row[0]) + ("," + tail);
      ReadCell(row[0], "," + tail, fields, records);
      assert ("," + tail)[1..] == tail;
      ReadRow(row[1..], rest, fields + [row[0]], records);
      assert fields + [row[0]] + Front(row[1..]) == fields + Front(row);
    }
  }

  lemma {:induction false} ReadRows(rows: Table, records: Table)
    requires |rows| > 0 && NoEmptyRow(rows)
    ensures Read(Join(Lines(rows), "\n"), FieldStart, "", [], records) == Some(records + rows)
  {
    var row := rows[0];
    if |rows| == 1 {
      assert Join(Lines(rows), "\n") == Join(Cells(row), ",") + "";
      ReadRow(row, "", [], records);
      assert [] + Front(row) + [Last(row)] == row;
      assert records + [row] == records + rows;
    } else {
      var tail := Join(Lines(rows[1..]), "\n");
      assert Lines(rows)[1..] == Lines(rows[1..]);
      assert Join(Lines(rows), "\n") == Join(Cells(row), ",") + ("\n" + tail);
      ReadRow(row, "\n" + tail, [], records);
      assert Break("\n" + tail) == 1 && ("\n" + tail)[1..] == tail;
      assert [] + Front(row) + [Last(row)] == row;
      ReadRows(rows[1..], records + [row]);
      assert records + [row] + rows[1..] == records + rows;
    }
  }

  /** The reader never yields a record without cells. */
  lemma {:induction false} NoEmptyRecords(text: string, mode: Mode, cell: string, fields: seq<string>, records: Table)
    requires NoEmptyRow(records)
    ensures var result := Read(text, mode, cell, fields, records);
      result.Some? ==> NoEmptyRow(result.value)
    decreases |text|
  {
    if |text| > 0 {
      if mode == Quoted {
        if text[0] == '"' {
          NoEmptyRecords(text[1..], QuoteSeen, cell, fields, records);
        } else {
          NoEmptyRecords(text[1..], Quoted, cell + [text[0]], fields, records);
        }
      } else if mode == FieldStart && text[0] == '"' {
        NoEmptyRecords(text[1..], Quoted, cell, fields, records);
      } else if mode == QuoteSeen && text[0] == '"' {
        NoEmptyRecords(text[1..], Quoted, cell + "\"", fields, records);
      } else if text[0] == ',' {
        NoEmptyRecords(text[1..], FieldStart, "", fields + [cell], records);
      } else if Break(text) > 0 {
        NoEmptyRecords(text[Break(text)..], FieldStart, "", [], records + [fields + [cell]]);
      } else if !(mode == QuoteSeen || text[0] == '"' || text[0] == '\r') {
        NoEmptyRecords(text[1..], Plain, cell + [text[0]], fields, records);
      }
    }
  }

  lemma EncodedBody(rows: Table)
    ensures Decode(Encode(rows)) == Read(Join(Lines(rows), "\n"), FieldStart, "", [], [])
  {
    assert Encode(rows)[1..] == Join(Lines(rows), "\n");
  }

  /**
   Whatever its cells contain, a downloaded table is read back exactly if and only if none of
   its rows is empty.
   */
  lemma RoundTrip(rows: Table)
    ensures Decode(Encode(rows)) == Some(rows) <==> NoEmptyRow(rows)
  {
    EncodedBody(rows);
    if |rows| > 0 && NoEmptyRow(rows) {
      ReadRows(rows, []);
      assert [] + rows == rows;
    }
    NoEmptyRecords(Join(Lines(rows), "\n"), FieldStart, "", [], []);
  }

  /** Two tables without empty rows never share their text. */
  lemma Unambiguous(a: Table, b: Table)
    requires NoEmptyRow(a) && NoEmptyRow(b)
    requires Encode(a) == Encode(b)
    ensures a == b
  {
    RoundTrip(a);
    RoundTrip(b);
  }
}
