/** The project metadata CSV (`firekey/metadata.py`): one row per processed
    asset, appended to the file, with a header row written only when the file
    was missing or empty. */
module MetadataCsv {
  import opened Base
  import opened Strings
  import KeywordProcessing

  const FieldNames: seq<string> :=
    ["Filename", "Title", "Description", "Keywords", "Date processed", "Model used"]

  const KeywordSeparator: string := "; "

  /** The `keywords` argument: a string, an iterable (each item as `str`
      renders it), or any other object. */
  datatype Keywords = Text(s: string) | Iterable(items: seq<string>) | NotIterable

  datatype TypeError = TypeError(message: string)

  const KeywordsMessage: string := "keywords must be a string or an iterable of strings"

  /** `_normalise_keywords`: a string as it is, an iterable joined with `"; "`. */
  function NormaliseKeywords(value: Keywords): (r: Result<string, TypeError>)
    ensures r.Err? <==> value.NotIterable?
    ensures r.Err? ==> r.error == TypeError(KeywordsMessage)
    ensures value.Text? ==> r == Ok(value.s)
  {
    match value
    case Text(s) => Ok(s)
    case Iterable(items) => Ok(Join(items, KeywordSeparator))
    case NotIterable => Err(TypeError(KeywordsMessage))
  }

  /** The `"; "`-joined keywords read back through the keyword cleaner's
      normalisation are the original keywords, when each is non-empty, has no
      surrounding whitespace and none of the separators `;`, `,` and `|`. */
  lemma KeywordsReadBack(items: seq<string>)
    requires forall i :: 0 <= i < |items| ==> KeywordProcessing.Storable(items[i])
    ensures NormaliseKeywords(Iterable(items)).Ok?
    ensures KeywordProcessing.Normalised(KeywordProcessing.Text(NormaliseKeywords(Iterable(items)).value)) == items
  {
    assert KeywordSeparator == KeywordProcessing.DefaultDelimiter;
    KeywordProcessing.JoinedReadBack(items);
  }

  /** A metadata row. `processedAt` is the ISO text of an explicit processing
      time; without one the current time is used. */
  datatype MetadataEntry = MetadataEntry(
    filename: string, title: string, description: string, keywords: Keywords,
    modelUsed: string, processedAt: Option<string>)

  /** `MetadataEntry.as_row`, with `now` the ISO text of the clock. */
  function AsRow(e: MetadataEntry, now: string): (r: Result<map<string, string>, TypeError>)
    ensures r.Err? <==> e.keywords.NotIterable?
    ensures r.Ok? ==> r.value.Keys == set f | f in FieldNames
  {
    match NormaliseKeywords(e.keywords)
    case Err(t) => Err(t)
    case Ok(k) =>
      Ok(map["Filename" := e.filename, "Title" := e.title, "Description" := e.description,
             "Keywords" := k, "Date processed" := e.processedAt.GetOr(now), "Model used" := e.modelUsed])
  }

  /** The row's columns hold the entry's fields; the date is the explicit
      processing time when there is one, and the clock only otherwise. */
  lemma AsRowFields(e: MetadataEntry, now: string)
    requires !e.keywords.NotIterable?
    ensures var row := AsRow(e, now).value;
      && row["Filename"] == e.filename && row["Title"] == e.title
      && row["Description"] == e.description && row["Model used"] == e.modelUsed
      && Ok(row["Keywords"]) == NormaliseKeywords(e.keywords)
      && (e.processedAt.Some? ==> row["Date processed"] == e.processedAt.value)
      && (e.processedAt.None? ==> row["Date processed"] == now)
  {
  }

  /** With an explicit processing time the row does not depend on the clock. */
  lemma ExplicitTimeIgnoresClock(e: MetadataEntry, now1: string, now2: string)
    requires e.processedAt.Some?
    ensures AsRow(e, now1) == AsRow(e, now2)
  {
  }

  /** `csv.DictWriter.writerow`: the row's values in header order. */
  function Line(row: map<string, string>): (line: seq<string>)
    requires forall i :: 0 <= i < |FieldNames| ==> FieldNames[i] in row
    ensures |line| == |FieldNames| && forall i :: 0 <= i < |FieldNames| ==> line[i] == row[FieldNames[i]]
  {
    seq(|FieldNames|, i requires 0 <= i < |FieldNames| => row[FieldNames[i]])
  }

  /** What `append_metadata` leaves in a file that is `present` with `lines`: the
      header when the file was missing or empty, then the entry's row. A
      `TypeError` from the keywords surfaces after the header is written. */
  function Appended(present: bool, lines: seq<seq<string>>, e: MetadataEntry, now: string)
    : (seq<seq<string>>, Result<(), TypeError>)
  {
    var header := if !present || lines == [] then [FieldNames] else [];
    match AsRow(e, now)
    case Err(t) => (lines + header, Err(t))
    case Ok(row) => (lines + header + [Line(row)], Ok(()))
  }

  /** Earlier lines are kept as they were; the header is added exactly when
      the file was missing or empty; exactly one data row follows, unless the
      keywords are neither a string nor an iterable. */
  lemma AppendedShape(present: bool, lines: seq<seq<string>>, e: MetadataEntry, now: string)
    requires !present ==> lines == []
    ensures var (out, r) := Appended(present, lines, e, now);
      var headed := if lines == [] then 1 else 0;
      && out[..|lines|] == lines
      && |out| == |lines| + headed + (if r.Ok? then 1 else 0)
      && (lines == [] ==> out[0] == FieldNames)
      && (r.Err? <==> e.keywords.NotIterable?)
      && (r.Ok? ==> out[|out| - 1] == Line(AsRow(e, now).value))
  {
    var (out, r) := Appended(present, lines, e, now);
    assert out[..|lines|] == lines;
  }

  /** Two appends to a missing file: the header, then both rows in order. */
  lemma TwoAppendsFromMissing(e1: MetadataEntry, e2: MetadataEntry, now1: string, now2: string)
    requires !e1.keywords.NotIterable? && !e2.keywords.NotIterable?
    ensures var (first, _) := Appended(false, [], e1, now1);
      Appended(true, first, e2, now2).0 ==
        [FieldNames, Line(AsRow(e1, now1).value), Line(AsRow(e2, now2).value)]
  {
  }

  /** The metadata file on disk: whether it exists, and its lines (a file of
      size zero has none). */
  class MetadataFile {
    var present: bool
    var lines: seq<seq<string>>

    predicate Valid()
      reads this
    {
      !present ==> lines == []
    }

    constructor (present: bool, lines: seq<seq<string>>)
      requires !present ==> lines == []
      ensures Valid() && this.present == present && this.lines == lines
    {
      this.present := present;
      this.lines := lines;
    }

    /** `append_metadata`: decide on the header from the file's state, open
        it for appending (creating it), write the header when needed, then
        the entry's row. */
    method AppendMetadata(filename: string, title: string, description: string, keywords: Keywords,
                          modelUsed: string, processedAt: Option<string>, now: string)
      returns (r: Result<(), TypeError>)
      requires Valid()
      modifies this
      ensures Valid() && present
      ensures (lines, r) ==
        Appended(old(present), old(lines), MetadataEntry(filename, title, description, keywords, modelUsed, processedAt), now)
    {
      var entry := MetadataEntry(filename, title, description, keywords, modelUsed, processedAt);
      ghost var header := if !present || lines == [] then [FieldNames] else [];
      assert old(lines) + header == if header == [] then old(lines) else old(lines) + [FieldNames];
      var needsHeader := true;
      if present {
        needsHeader := |lines| == 0;
      }
      present := true;
      if needsHeader {
        lines := lines + [FieldNames];
      }
      var row := AsRow(entry, now);
      if row.Err? {
        return Err(row.error);
      }
      lines := lines + [Line(row.value)];
      r := Ok(());
    }
  }
}
