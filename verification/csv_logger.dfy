/** The CSV file of call records (`firekey/csv_logger.py`): rows are queued
    one per record and written out behind a header, optionally followed by
    the tracker's summary as a comment line. */
module CsvLogger {
  import opened Base
  import opened Strings
  import opened Tracker

  const DefaultHeaders: seq<string> :=
    ["file_name", "model", "prompt_tokens", "completion_tokens", "total_tokens", "cost"]

  /** A CSV row: each field is text, except the cost, kept as the number
      that is printed with six decimals. */
  type Row = seq<Piece>

  /** What the output file holds, in order: rows the `csv` writer encodes
      (its quoting and line endings are not part of the model) and raw text. */
  datatype Chunk = CsvRow(fields: Row) | Raw(text: Rendered)

  /** The row queued for a record: its fields in header order. */
  function RowOf(r: CallRecord): (row: Row)
    ensures |row| == |DefaultHeaders|
  {
    [Chars(r.fileName), Chars(r.model), Chars(IntToString(r.promptTokens)),
     Chars(IntToString(r.completionTokens)), Chars(IntToString(r.totalTokens)), Fixed6(r.cost)]
  }

  /** Each field sits under its header: the file name, the model, the three
      token counts and the cost, in that order. */
  lemma RowOfFollowsHeaders(r: CallRecord)
    ensures var row := RowOf(r);
      && DefaultHeaders[0] == "file_name" && row[0] == Chars(r.fileName)
      && DefaultHeaders[1] == "model" && row[1] == Chars(r.model)
      && DefaultHeaders[2] == "prompt_tokens" && row[2] == Chars(IntToString(r.promptTokens))
      && DefaultHeaders[3] == "completion_tokens" && row[3] == Chars(IntToString(r.completionTokens))
      && DefaultHeaders[4] == "total_tokens" && row[4] == Chars(IntToString(r.totalTokens))
      && DefaultHeaders[5] == "cost" && row[5] == Fixed6(r.cost)
  {
  }

  function RowsOf(records: seq<CallRecord>): (rows: seq<Row>)
    ensures |rows| == |records|
    ensures forall i :: 0 <= i < |records| ==> rows[i] == RowOf(records[i])
  {
    seq(|records|, i requires 0 <= i < |records| => RowOf(records[i]))
  }

  lemma RowsOfAppend(a: seq<CallRecord>, b: seq<CallRecord>)
    ensures RowsOf(a + b) == RowsOf(a) + RowsOf(b)
  {
    var l, r := RowsOf(a + b), RowsOf(a) + RowsOf(b);
    forall i | 0 <= i < |a + b| ensures l[i] == r[i] {
      if i < |a| {
        assert (a + b)[i] == a[i];
      } else {
        assert (a + b)[i] == b[i - |a|];
      }
    }
  }

  function HeaderRow(headers: seq<string>): (row: Row)
    ensures |row| == |headers| && forall i :: 0 <= i < |headers| ==> row[i] == Chars(headers[i])
  {
    seq(|headers|, i requires 0 <= i < |headers| => Chars(headers[i]))
  }

  function RowChunks(rows: seq<Row>): (chunks: seq<Chunk>)
    ensures |chunks| == |rows| && forall i :: 0 <= i < |rows| ==> chunks[i] == CsvRow(rows[i])
  {
    seq(|rows|, i requires 0 <= i < |rows| => CsvRow(rows[i]))
  }

  /** The whole file: the header, every queued row in order, and with a
      footer a blank line, the footer and a line end. */
  function Layout(headers: seq<string>, rows: seq<Row>, footer: Option<Rendered>): (file: seq<Chunk>)
    ensures |file| == 1 + |rows| + (if footer.Some? then 3 else 0)
    ensures file[0] == CsvRow(HeaderRow(headers))
    ensures forall i :: 0 <= i < |rows| ==> file[1 + i] == CsvRow(rows[i])
    ensures footer.Some? ==>
      file[|file| - 3..] == [Raw([Chars("\n")]), Raw(footer.value), Raw([Chars("\n")])]
  {
    var body := [CsvRow(HeaderRow(headers))] + RowChunks(rows);
    match footer
    case None => body
    case Some(f) => body + [Raw([Chars("\n")]), Raw(f), Raw([Chars("\n")])]
  }

  class CSVLogger {
    const csvPath: string
    const headers: seq<string>
    var rows: seq<Row>

    constructor (csvPath: string, headers: Option<seq<string>>)
      ensures this.csvPath == csvPath && this.headers == headers.GetOr(DefaultHeaders) && rows == []
    {
      this.csvPath := csvPath;
      this.headers := headers.GetOr(DefaultHeaders);
      rows := [];
    }

    /** `add_record`: queue one row after the existing ones. */
    method AddRecord(record: CallRecord)
      modifies this
      ensures rows == old(rows) + [RowOf(record)]
    {
      rows := rows + [RowOf(record)];
    }

    /** `extend`: one `add_record` per record, in order. */
    method Extend(records: seq<CallRecord>)
      modifies this
      ensures rows == old(rows) + RowsOf(records)
    {
      for i := 0 to |records|
        invariant rows == old(rows) + RowsOf(records[..i])
      {
        AddRecord(records[i]);
        RowsOfAppend(records[..i], [records[i]]);
        assert records[..i + 1] == records[..i] + [records[i]];
      }
      assert records[..|records|] == records;
    }

    /** `write`: the file is replaced by the layout of the queued rows, with
        the tracker's footer comment when `includeSummary`. The queue itself
        is kept. */
    method Write(tracker: TokenUsageTracker, includeSummary: bool) returns (file: seq<Chunk>)
      ensures file == Layout(headers, rows,
                             if includeSummary then Some(tracker.CsvFooterComment()) else None)
    {
      file := [CsvRow(HeaderRow(headers))];
      for i := 0 to |rows|
        invariant file == [CsvRow(HeaderRow(headers))] + RowChunks(rows[..i])
      {
        assert RowChunks(rows[..i + 1]) == RowChunks(rows[..i]) + [CsvRow(rows[i])];
        file := file + [CsvRow(rows[i])];
      }
      assert rows[..|rows|] == rows;
      if includeSummary {
        file := file + [Raw([Chars("\n")]), Raw(tracker.CsvFooterComment()), Raw([Chars("\n")])];
      }
    }
  }
}
