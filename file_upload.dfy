/** The CSV-to-records step of the upload component
    (`handleFileChange` in src/components/FileUpload.tsx): the text is cut
    into lines, blank lines are dropped, the first line names the columns
    and every later line becomes one record keyed by those names. There is
    no quoting or escaping: every comma separates cells. */
module FileUpload {
  import opened JsValues
  import opened JsStrings

  /** A parsed row as the JavaScript object holds it: column name to the
      trimmed cell text, or None (`undefined`) when the line had too few
      cells for that column. */
  type Record = map<string, Option<string>>

  /** `rows[0].split` on an input without any non-blank line throws. */
  datatype ParseError = NoHeaderRow

  /** `rows.filter(row => row.trim())`: the lines that are not blank, in order. */
  function NonBlank(rows: seq<string>): (r: seq<string>)
    ensures |r| <= |rows|
  {
    if rows == [] then []
    else if Trim(rows[0]) != [] then [rows[0]] + NonBlank(rows[1..])
    else NonBlank(rows[1..])
  }

  /** Filtering a concatenation filters each part: kept lines stay in order. */
  lemma {:induction false} NonBlankAppend(a: seq<string>, b: seq<string>)
    ensures NonBlank(a + b) == NonBlank(a) + NonBlank(b)
  {
    if a != [] {
      assert (a + b)[0] == a[0] && (a + b)[1..] == a[1..] + b;
      NonBlankAppend(a[1..], b);
      if Trim(a[0]) != [] {
        assert NonBlank(a + b) == [a[0]] + NonBlank(a[1..] + b);
        assert NonBlank(a) == [a[0]] + NonBlank(a[1..]);
      } else {
        assert NonBlank(a + b) == NonBlank(a[1..] + b);
      }
    } else {
      assert a + b == b;
    }
  }

  /** `headers = rows[0].split(',').map(h => h.trim())`: one header per
      comma field, none with a comma in it or white space at its ends. */
  function Headers(line: string): (headers: seq<string>)
    ensures |headers| == |Split(line, ',')|
    ensures forall k :: 0 <= k < |headers| ==> ',' !in headers[k] && Trim(headers[k]) == headers[k]
  {
    var cells := Split(line, ',');
    SplitPieces(line, ',');
    TrimmedCells(cells);
    seq(|cells|, k requires 0 <= k < |cells| => Trim(cells[k]))
  }

  /** Trimming a comma-free cell leaves it comma-free and trimmed. */
  lemma TrimmedCells(cells: seq<string>)
    requires forall k :: 0 <= k < |cells| ==> ',' !in cells[k]
    ensures forall k :: 0 <= k < |cells| ==> ',' !in Trim(cells[k]) && Trim(Trim(cells[k])) == Trim(cells[k])
  {
    forall k | 0 <= k < |cells| ensures ',' !in Trim(cells[k]) && Trim(Trim(cells[k])) == Trim(cells[k]) {
      TrimIsInfix(cells[k]);
      TrimIdempotent(cells[k]);
    }
  }

  /** `values[index]?.trim()`: undefined exactly past the end of the row,
      otherwise the trimmed field. */
  function Cell(values: seq<string>, index: nat): (c: Option<string>)
    ensures c.None? <==> index >= |values|
    ensures c.Some? ==> c.value == Trim(values[index]) && Trim(c.value) == c.value
  {
    if index < |values| then
      TrimIdempotent(values[index]);
      Some(Trim(values[index]))
    else None
  }

  /** The object that the `forEach` over the headers builds, one assignment
      `obj[header] = values[index]?.trim()` per header, in header order:
      its keys are exactly the header names. */
  function RecordOf(headers: seq<string>, values: seq<string>): (r: Record)
    ensures r.Keys == set h | h in headers
  {
    if headers == [] then map[]
    else
      var init := headers[..|headers| - 1];
      assert headers == init + [headers[|headers| - 1]];
      RecordOf(init, values)[headers[|headers| - 1] := Cell(values, |headers| - 1)]
  }

  /** The value under a header is the trimmed cell in the header's column;
      when a name repeats, the last column of that name wins, and a missing
      cell gives None. */
  lemma {:induction false} RecordOfValue(headers: seq<string>, values: seq<string>, i: nat)
    requires i < |headers|
    requires forall j :: i < j < |headers| ==> headers[j] != headers[i]
    ensures headers[i] in RecordOf(headers, values)
    ensures RecordOf(headers, values)[headers[i]] == Cell(values, i)
    ensures RecordOf(headers, values)[headers[i]] == None <==> i >= |values|
  {
    if i < |headers| - 1 {
      var init := headers[..|headers| - 1];
      RecordOfValue(init, values, i);
    }
  }

  /** The loop of `handleFileChange` that fills a fresh object for one line. */
  method BuildRecord(headers: seq<string>, row: string) returns (obj: Record)
    ensures obj == RecordOf(headers, Split(row, ','))
  {
    var values := Split(row, ',');
    obj := map[];
    var index := 0;
    while index < |headers|
      invariant 0 <= index <= |headers|
      invariant obj == RecordOf(headers[..index], values)
    {
      assert headers[..index + 1][..index] == headers[..index];
      obj := obj[headers[index] := Cell(values, index)];
      index := index + 1;
    }
    assert headers[..|headers|] == headers;
  }

  /** The non-blank lines of the text. */
  function Rows(text: string): seq<string> {
    NonBlank(Split(text, '\n'))
  }

  /** The parse: a record per non-blank line after the first, in line
      order; it fails exactly when there is no non-blank line. */
  function Parse(text: string): (r: Result<seq<Record>, ParseError>)
    ensures r.Failure? <==> Rows(text) == []
    ensures r.Success? ==> |r.value| == |Rows(text)| - 1
  {
    var rows := Rows(text);
    if rows == [] then Failure(NoHeaderRow)
    else
      var headers := Headers(rows[0]);
      Success(seq(|rows| - 1, k requires 0 <= k < |rows| - 1 => RecordOf(headers, Split(rows[k + 1], ','))))
  }

  predicate AllBlank(rows: seq<string>) {
    forall k :: 0 <= k < |rows| ==> AllWhiteSpace(rows[k])
  }

  /** Splitting on a white-space separator keeps "all white space" intact:
      the text is blank exactly when every piece is. */
  lemma {:induction false} SplitAllWhiteSpace(s: string, sep: char)
    requires IsWhiteSpace(sep)
    ensures AllWhiteSpace(s) <==> AllBlank(Split(s, sep))
  {
    if |s| > 0 {
      SplitAllWhiteSpace(s[1..], sep);
      var rest := Split(s[1..], sep);
      var r := Split(s, sep);
      assert s == [s[0]] + s[1..];
      AllWhiteSpaceCons(s[0], s[1..]);
      if s[0] == sep {
        assert r == [""] + rest;
        if AllBlank(rest) {
          forall k | 0 <= k < |r| ensures AllWhiteSpace(r[k]) {
            if k > 0 { assert r[k] == rest[k - 1]; } else { assert r[k] == ""; }
          }
        }
        if AllBlank(r) {
          forall k | 0 <= k < |rest| ensures AllWhiteSpace(rest[k]) {
            assert rest[k] == r[k + 1];
          }
        }
      } else {
        AllWhiteSpaceCons(s[0], rest[0]);
        assert r[0] == [s[0]] + rest[0];
        if AllWhiteSpace(s) {
          assert AllBlank(rest);
          forall k | 0 <= k < |r| ensures AllWhiteSpace(r[k]) {
            if k > 0 { assert r[k] == rest[k]; } else { assert AllWhiteSpace(rest[0]); }
          }
        }
        if AllBlank(r) {
          assert AllWhiteSpace(r[0]);
          forall k | 0 <= k < |rest| ensures AllWhiteSpace(rest[k]) {
            if k > 0 { assert rest[k] == r[k]; }
          }
        }
      }
    }
  }

  lemma {:induction false} NonBlankEmptyIff(rows: seq<string>)
    ensures NonBlank(rows) == [] <==> AllBlank(rows)
  {
    if rows != [] {
      NonBlankEmptyIff(rows[1..]);
      TrimEmptyIff(rows[0]);
      if AllBlank(rows[1..]) && AllWhiteSpace(rows[0]) {
        forall k | 0 <= k < |rows| ensures AllWhiteSpace(rows[k]) {
          if k > 0 { assert rows[k] == rows[1..][k - 1]; }
        }
      }
      if AllBlank(rows) {
        forall k | 0 <= k < |rows| - 1 ensures AllWhiteSpace(rows[1..][k]) {
          assert rows[1..][k] == rows[k + 1];
        }
      }
    }
  }

  /** The only failure: a text with nothing but white space in it. */
  lemma ParseFailsIffBlank(text: string)
    ensures Parse(text).Failure? <==> AllWhiteSpace(text)
  {
    var lines := Split(text, '\n');
    SplitAllWhiteSpace(text, '\n');
    NonBlankEmptyIff(lines);
    assert Parse(text).Failure? <==> NonBlank(lines) == [];
  }

  /** One record per non-blank line after the header line, in line order;
      each has exactly the trimmed header cells of the first non-blank line
      as keys, and under each header the trimmed cell of its column in the
      record's own line (the last such column when a name repeats; None
      when the line is too short; extra cells are ignored). */
  lemma ParseRecords(text: string)
    requires Parse(text).Success?
    ensures var rows := Rows(text);
            var records := Parse(text).value;
            var headers := Headers(rows[0]);
            && |rows| > 0
            && |records| == |rows| - 1
            && |headers| == |Split(rows[0], ',')|
            && (forall i :: 0 <= i < |headers| ==> headers[i] == Trim(Split(rows[0], ',')[i]))
            && (forall k :: 0 <= k < |records| ==> records[k].Keys == set h | h in headers)
            && (forall k, i :: 0 <= k < |records| && 0 <= i < |headers|
                  && (forall j :: i < j < |headers| ==> headers[j] != headers[i])
                  ==> records[k][headers[i]] == Cell(Split(rows[k + 1], ','), i))
  {
    ParseRecordKeys(text);
    ParseRecordCells(text);
  }

  /** Every record of a successful parse has the headers as its keys. */
  lemma ParseRecordKeys(text: string)
    requires Parse(text).Success?
    ensures var rows := Rows(text);
            var records := Parse(text).value;
            && |rows| > 0
            && |records| == |rows| - 1
            && forall k :: 0 <= k < |records| ==> records[k].Keys == set h | h in Headers(rows[0])
  {
    var rows := Rows(text);
    var records := Parse(text).value;
    forall k | 0 <= k < |records| ensures records[k].Keys == set h | h in Headers(rows[0]) {
      assert records[k] == RecordOf(Headers(rows[0]), Split(rows[k + 1], ','));
    }
  }

  /** Under its last occurrence, a header holds the cell of its column in
      the record's own line. */
  lemma ParseRecordCells(text: string)
    requires Parse(text).Success?
    ensures var rows := Rows(text);
            var records := Parse(text).value;
            var headers := Headers(rows[0]);
            && |rows| > 0
            && |records| == |rows| - 1
            && forall k, i :: 0 <= k < |records| && 0 <= i < |headers|
                 && (forall j :: i < j < |headers| ==> headers[j] != headers[i])
                 ==> headers[i] in records[k] && records[k][headers[i]] == Cell(Split(rows[k + 1], ','), i)
  {
    var rows := Rows(text);
    RecordsCells(Headers(rows[0]), rows, Parse(text).value);
  }

  /** The cells of records each built from the line after the header. */
  lemma RecordsCells(headers: seq<string>, rows: seq<string>, records: seq<Record>)
    requires |rows| > 0 && |records| == |rows| - 1
    requires forall k :: 0 <= k < |records| ==> records[k] == RecordOf(headers, Split(rows[k + 1], ','))
    ensures forall k, i :: 0 <= k < |records| && 0 <= i < |headers|
              && (forall j :: i < j < |headers| ==> headers[j] != headers[i])
              ==> headers[i] in records[k] && records[k][headers[i]] == Cell(Split(rows[k + 1], ','), i)
  {
    forall k, i | 0 <= k < |records| && 0 <= i < |headers|
                  && (forall j :: i < j < |headers| ==> headers[j] != headers[i])
      ensures headers[i] in records[k] && records[k][headers[i]] == Cell(Split(rows[k + 1], ','), i)
    {
      RecordOfValue(headers, Split(rows[k + 1], ','), i);
    }
  }

  /** The lines of a table: header line then one line per row. */
  function Lines(headers: seq<string>, rows: seq<seq<string>>): (r: seq<string>)
    requires |headers| > 0
    requires forall k :: 0 <= k < |rows| ==> |rows[k]| > 0
    ensures |r| == |rows| + 1
  {
    [Join(headers, ',')] + seq(|rows|, k requires 0 <= k < |rows| => Join(rows[k], ','))
  }

  /** The CSV text of a table. */
  function Unparse(headers: seq<string>, rows: seq<seq<string>>): string
    requires |headers| > 0
    requires forall k :: 0 <= k < |rows| ==> |rows[k]| > 0
  {
    Join(Lines(headers, rows), '\n')
  }

  /** A cell that the parser reads back unchanged: no separator in it and
      no white space at its ends. */
  predicate PlainCell(c: string) {
    ',' !in c && '\n' !in c && Trim(c) == c
  }

  lemma LinesOfUnparse(headers: seq<string>, rows: seq<seq<string>>)
    requires |headers| > 0
    requires forall k :: 0 <= k < |rows| ==> |rows[k]| > 0
    requires forall i :: 0 <= i < |headers| ==> PlainCell(headers[i])
    requires forall k, i :: 0 <= k < |rows| && 0 <= i < |rows[k]| ==> PlainCell(rows[k][i])
    ensures Split(Unparse(headers, rows), '\n') == Lines(headers, rows)
  {
    var lines := Lines(headers, rows);
    forall k | 0 <= k < |lines| ensures '\n' !in lines[k] {
      if k == 0 {
        JoinWithout(headers, ',', '\n');
      } else {
        assert lines[k] == Join(rows[k - 1], ',');
        JoinWithout(rows[k - 1], ',', '\n');
      }
    }
    SplitJoin(lines, '\n');
  }

  /** A table whose cells are plain and whose lines are not blank parses
      back to one record per row, each mapping every column to the row's
      cell in that column (the last of that name) and every column past the
      row's end to None. */
  lemma ParseUnparse(headers: seq<string>, rows: seq<seq<string>>)
    requires |headers| > 0
    requires forall k :: 0 <= k < |rows| ==> |rows[k]| > 0
    requires forall i :: 0 <= i < |headers| ==> PlainCell(headers[i])
    requires forall k, i :: 0 <= k < |rows| && 0 <= i < |rows[k]| ==> PlainCell(rows[k][i])
    requires forall k :: 0 <= k < |Lines(headers, rows)| ==> Trim(Lines(headers, rows)[k]) != []
    ensures Parse(Unparse(headers, rows)).Success?
    ensures var records := Parse(Unparse(headers, rows)).value;
            && |records| == |rows|
            && forall k :: 0 <= k < |rows| ==> records[k] == RecordOf(headers, rows[k])
  {
    var text := Unparse(headers, rows);
    var lines := Lines(headers, rows);
    LinesOfUnparse(headers, rows);
    NonBlankKeepsAll(lines);
    assert Rows(text) == lines;
    HeadersOfJoin(headers);
    forall k | 0 <= k < |rows| ensures Parse(text).value[k] == RecordOf(headers, rows[k]) {
      assert lines[k + 1] == Join(rows[k], ',');
      SplitJoin(rows[k], ',');
    }
  }

  /** The header line written from plain names reads back as those names. */
  lemma HeadersOfJoin(headers: seq<string>)
    requires |headers| > 0
    requires forall i :: 0 <= i < |headers| ==> PlainCell(headers[i])
    ensures Headers(Join(headers, ',')) == headers
  {
    SplitJoin(headers, ',');
    forall i | 0 <= i < |headers| ensures Headers(Join(headers, ','))[i] == headers[i] { }
  }

  lemma {:induction false} NonBlankKeepsAll(rows: seq<string>)
    requires forall k :: 0 <= k < |rows| ==> Trim(rows[k]) != []
    ensures NonBlank(rows) == rows
  {
    if rows != [] {
      NonBlankKeepsAll(rows[1..]);
    }
  }

  lemma {:induction false} JoinWithout(parts: seq<string>, sep: char, c: char)
    requires |parts| > 0 && sep != c
    requires forall k :: 0 <= k < |parts| ==> c !in parts[k]
    ensures c !in Join(parts, sep)
  {
    if |parts| > 1 {
      JoinWithout(parts[1..], sep, c);
    }
  }
}
