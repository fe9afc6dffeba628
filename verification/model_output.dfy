/** The helpers of the top-level `metadata.py` that turn a vision model's
    reply into stock metadata: pulling a JSON object out of text that may
    carry prose or code fences around it, normalising the keywords, and the
    check on the model name that `generate_metadata` makes before it does
    anything else. The JSON parser is a parameter: `parse(t)` is the value
    `json.loads(t)` returns, or `None` where it raises `JSONDecodeError`. */
module ModelOutput {
  import opened Base
  import opened Strings
  import KeywordProcessing

  const AllowedModels: set<string> := {"gpt-4o", "gpt-4o-mini"}

  /** What `generate_metadata` raises. All but `NotAnObject` are `ValueError`s;
      `NotAnObject` is the `AttributeError` of calling `.get` on a parsed
      JSON value that is not an object. */
  datatype Failure = ModelNotAllowed(model: string) | EmptyResponse | NoJson | NotAnObject

  const NoJsonMessage: string := "Unable to parse JSON from model response"
  const EmptyResponseMessage: string := "OpenAI API returned an empty response"

  // ----- str.find and str.rfind ----------------------------------------------

  /** The first index at or after `k` holding `c`, or -1. */
  function FirstFrom(s: string, c: char, k: nat): (i: int)
    requires k <= |s|
    ensures i == -1 || (k <= i < |s| && s[i] == c)
    ensures forall j :: k <= j < |s| && (i == -1 || j < i) ==> s[j] != c
    decreases |s| - k
  {
    if k == |s| then -1 else if s[k] == c then k else FirstFrom(s, c, k + 1)
  }

  /** The last index below `k` holding `c`, or -1. */
  function LastBefore(s: string, c: char, k: nat): (i: int)
    requires k <= |s|
    ensures i == -1 || (0 <= i < k && s[i] == c)
    ensures forall j :: i < j < k ==> s[j] != c
  {
    if k == 0 then -1 else if s[k - 1] == c then k - 1 else LastBefore(s, c, k - 1)
  }

  /** `s.find(c)`. */
  function FindFirst(s: string, c: char): (i: int)
    ensures -1 <= i < |s|
    ensures i == -1 <==> c !in s
    ensures i != -1 ==> s[i] == c && forall j :: 0 <= j < i ==> s[j] != c
  {
    FirstFrom(s, c, 0)
  }

  /** `s.rfind(c)`. */
  function FindLast(s: string, c: char): (i: int)
    ensures -1 <= i < |s|
    ensures i == -1 <==> c !in s
    ensures i != -1 ==> s[i] == c && forall j :: i < j < |s| ==> s[j] != c
  {
    LastBefore(s, c, |s|)
  }

  // ----- _extract_json_object ------------------------------------------------

  /** `_extract_json_object`: the parse of the stripped text when it parses;
      otherwise the parse of the stretch from its first `{` to its last `}`,
      when both exist in that order and the stretch parses; otherwise
      `ValueError`. */
  function ExtractJsonObject<T>(text: string, parse: string -> Option<T>): (r: Result<T, Failure>)
    ensures parse(Strip(text)).Some? ==> r == Ok(parse(Strip(text)).value)
    ensures r.Err? ==> r.error == NoJson
  {
    var t := Strip(text);
    match parse(t)
    case Some(v) => Ok(v)
    case None =>
      var start, end := FindFirst(t, '{'), FindLast(t, '}');
      if start != -1 && end != -1 && start < end then
        match parse(t[start..end + 1])
        case Some(v) => Ok(v)
        case None => Err(NoJson)
      else Err(NoJson)
  }

  /** When the stripped text does not parse and its first `{` comes before its
      last `}`, the answer is whatever that stretch, braces included, parses
      to, and `ValueError` when it does not parse either. */
  lemma ExtractSnippet<T>(text: string, parse: string -> Option<T>, i: nat, j: nat)
    requires var t := Strip(text);
      && parse(t).None? && i < j < |t| && t[i] == '{' && t[j] == '}'
      && (forall k :: 0 <= k < i ==> t[k] != '{')
      && (forall k :: j < k < |t| ==> t[k] != '}')
    ensures var snippet := Strip(text)[i..j + 1];
      ExtractJsonObject(text, parse) ==
        if parse(snippet).Some? then Ok(parse(snippet).value) else Err(NoJson)
  {
    var t := Strip(text);
    assert FindFirst(t, '{') == i;
    assert FindLast(t, '}') == j;
  }

  /** When the stripped text does not parse and has no `{` before a `}`, the
      answer is `ValueError`, whatever else the text holds. */
  lemma ExtractNoSnippet<T>(text: string, parse: string -> Option<T>)
    requires var t := Strip(text);
      && parse(t).None?
      && forall i, j :: 0 <= i < |t| && 0 <= j < |t| && t[i] == '{' && t[j] == '}' ==> j < i
    ensures ExtractJsonObject(text, parse) == Err(NoJson)
  {
    var t := Strip(text);
    var start, end := FindFirst(t, '{'), FindLast(t, '}');
    if start != -1 && end != -1 {
      assert t[start] == '{' && t[end] == '}';
    }
  }

  /** A reply that is an object with prose before it holding no `{` and prose
      after it holding no `}` (a code fence, say) gives that object, when the
      reply as a whole does not parse. */
  lemma ProseAroundObject<T>(text: string, parse: string -> Option<T>, before: string, obj: string, after: string)
    requires Strip(text) == before + obj + after
    requires '{' !in before && '}' !in after
    requires |obj| >= 2 && obj[0] == '{' && obj[|obj| - 1] == '}'
    requires parse(Strip(text)).None? && parse(obj).Some?
    ensures ExtractJsonObject(text, parse) == Ok(parse(obj).value)
  {
    var t := Strip(text);
    var i, j := |before|, |before| + |obj| - 1;
    assert t[i] == obj[0] && t[j] == obj[|obj| - 1];
    forall k | 0 <= k < i ensures t[k] != '{' {
      assert t[k] == before[k];
    }
    forall k | j < k < |t| ensures t[k] != '}' {
      assert t[k] == after[k - j - 1];
    }
    assert t[i..j + 1] == obj;
    ExtractSnippet(text, parse, i, j);
  }

  // ----- _normalise_keywords -------------------------------------------------

  /** A `keywords` value as the reply's JSON gives it: null, a string, a list
      (each item as `str` renders it, and the list as `str` renders it), or any
      other value with its `str` rendering. */
  datatype Value = NoValue | Str(s: string) | List(items: seq<string>, repr: string) | Other(repr: string)

  /** `str(value)`. */
  function StrOf(v: Value): string
  {
    match v
    case NoValue => "None"
    case Str(s) => s
    case List(_, repr) => repr
    case Other(repr) => repr
  }

  /** `_normalise_keywords`: nothing for null; the comma-separated pieces of a
      string and the items of a list, stripped, empty ones dropped; and the
      stripped rendering of any other value, even an empty one. */
  function NormaliseKeywords(v: Value): (r: seq<string>)
    ensures v.NoValue? ==> r == []
    ensures v.Other? ==> r == [Strip(v.repr)]
    ensures !v.Other? ==> forall i :: 0 <= i < |r| ==> r[i] != ""
  {
    match v
    case NoValue => []
    case Str(s) => KeywordProcessing.KeepStripped(KeywordProcessing.Present(Split(s, ',')))
    case List(items, _) => KeywordProcessing.KeepStripped(KeywordProcessing.Present(items))
    case Other(repr) => [Strip(repr)]
  }

  /** Stripping the items keeps out a character none of them holds. */
  lemma {:induction false} KeepStrippedAvoids(items: seq<Option<string>>, c: char)
    requires forall j :: 0 <= j < |items| && items[j].Some? ==> c !in items[j].value
    ensures forall i :: 0 <= i < |KeywordProcessing.KeepStripped(items)| ==> c !in KeywordProcessing.KeepStripped(items)[i]
    decreases |items|
  {
    if items != [] {
      var init, last := items[..|items| - 1], items[|items| - 1];
      assert forall j :: 0 <= j < |init| ==> init[j] == items[j];
      KeepStrippedAvoids(init, c);
      if last.Some? {
        StripChars(last.value);
      }
    }
  }

  /** The keywords of a string are non-empty, carry no surrounding whitespace
      and hold no comma. */
  lemma TextKeywords(s: string)
    ensures var r := NormaliseKeywords(Str(s));
      forall i :: 0 <= i < |r| ==> r[i] != "" && Strip(r[i]) == r[i] && ',' !in r[i]
  {
    var items := KeywordProcessing.Present(Split(s, ','));
    KeywordProcessing.KeepStrippedStripped(items);
    KeepStrippedAvoids(items, ',');
  }

  /** A string without commas is one keyword, its stripped text, unless it is
      blank. */
  lemma NoCommaOneKeyword(s: string)
    requires ',' !in s
    ensures NormaliseKeywords(Str(s)) == if Strip(s) == "" then [] else [Strip(s)]
  {
    var items := KeywordProcessing.Present([s]);
    assert items == [Some(s)];
    assert items[..0] == [];
  }

  /** List items that are not blank become keywords one for one: each is the
      item stripped, in the list's order. */
  lemma ListKeepsOrder(items: seq<string>, repr: string)
    requires forall i :: 0 <= i < |items| ==> Strip(items[i]) != ""
    ensures |NormaliseKeywords(List(items, repr))| == |items|
    ensures forall i :: 0 <= i < |items| ==> NormaliseKeywords(List(items, repr))[i] == Strip(items[i])
  {
    KeywordProcessing.ItemsKeepOrder(KeywordProcessing.Present(items));
  }

  /** The comma pieces of keywords joined with `", "`: the first keyword,
      then each other one behind the space of the separator. */
  lemma CommaJoinedPieces(keywords: seq<string>)
    requires |keywords| >= 1
    requires forall i :: 0 <= i < |keywords| ==> ',' !in keywords[i]
    ensures var pieces := Split(Join(keywords, ", "), ',');
      && |pieces| == |keywords| && pieces[0] == keywords[0]
      && forall i :: 1 <= i < |keywords| ==> pieces[i] == " " + keywords[i]
  {
    assert [','] + " " == ", ";
    assert "" + Join(keywords, ", ") == Join(keywords, ", ");
    SplitJoinPad(keywords, ',', " ", "");
  }

  /** Pieces that are stripped keywords, some behind a space, strip back to
      those keywords. */
  lemma PiecesStripBack(pieces: seq<string>, keywords: seq<string>)
    requires |pieces| == |keywords| >= 1 && pieces[0] == keywords[0]
    requires forall i :: 1 <= i < |keywords| ==> pieces[i] == " " + keywords[i]
    requires forall i :: 0 <= i < |keywords| ==> Strip(keywords[i]) == keywords[i]
    ensures forall i :: 0 <= i < |pieces| ==> Strip(pieces[i]) == keywords[i]
  {
    forall i | 0 <= i < |pieces| ensures Strip(pieces[i]) == keywords[i] {
      if i == 0 {
        assert pieces[i] == keywords[i];
      } else {
        StripLeadingSpace(keywords[i]);
      }
    }
  }

  /** Keywords joined with `", "` are read back as they were, when each is
      non-empty, carries no surrounding whitespace and holds no comma. */
  lemma CommaJoinedReadBack(keywords: seq<string>)
    requires forall i :: 0 <= i < |keywords| ==>
      keywords[i] != "" && Strip(keywords[i]) == keywords[i] && ',' !in keywords[i]
    ensures NormaliseKeywords(Str(Join(keywords, ", "))) == keywords
  {
    if keywords == [] {
      NoCommaOneKeyword("");
    } else {
      var pieces := Split(Join(keywords, ", "), ',');
      CommaJoinedPieces(keywords);
      PiecesStripBack(pieces, keywords);
      StrippedPieces(pieces, keywords);
    }
  }

  /** Pieces that each strip to a non-empty keyword are kept one for one. */
  lemma StrippedPieces(pieces: seq<string>, keywords: seq<string>)
    requires |pieces| == |keywords|
    requires forall i :: 0 <= i < |pieces| ==> Strip(pieces[i]) == keywords[i] != ""
    ensures KeywordProcessing.KeepStripped(KeywordProcessing.Present(pieces)) == keywords
  {
    var items := KeywordProcessing.Present(pieces);
    KeywordProcessing.ItemsKeepOrder(items);
    var r := KeywordProcessing.KeepStripped(items);
    forall i | 0 <= i < |r| ensures r[i] == keywords[i] {
      assert r[i] == Strip(pieces[i]);
    }
  }

  // ----- generate_metadata, from the reply on --------------------------------

  /** What `json.loads` gives for the reply: an object, or some other JSON value. */
  datatype Parsed = Object(fields: map<string, Value>) | NotObject

  datatype Metadata = Metadata(title: string, description: string, keywords: seq<string>)

  /** `payload.get(key, default)`. */
  function Get(fields: map<string, Value>, key: string, default: Value): Value
  {
    if key in fields then fields[key] else default
  }

  /** `generate_metadata` with the image encoding and the API call left out:
      `rawOutput` is the reply text (empty when the API gave none). The model
      name is checked first; then an empty reply is refused; then the JSON
      object is extracted and its title, description and keywords are read,
      a missing title or description reading as empty and missing keywords
      as null. */
  function GenerateMetadata(model: string, rawOutput: string, parse: string -> Option<Parsed>)
    : (r: Result<Metadata, Failure>)
    ensures r == Err(ModelNotAllowed(model)) <==> model !in AllowedModels
    ensures r == Err(EmptyResponse) <==> model in AllowedModels && rawOutput == ""
    ensures r.Ok? <==>
      && model in AllowedModels && rawOutput != ""
      && ExtractJsonObject(rawOutput, parse).Ok? && ExtractJsonObject(rawOutput, parse).value.Object?
  {
    if model !in AllowedModels then Err(ModelNotAllowed(model))
    else if rawOutput == "" then Err(EmptyResponse)
    else
      var payload: Result<Parsed, Failure> := ExtractJsonObject(rawOutput, parse);
      if payload.Err? then Err(payload.error)
      else if payload.value.NotObject? then Err(NotAnObject)
      else
        var fields := payload.value.fields;
        Ok(Metadata(Strip(StrOf(Get(fields, "title", Str("")))),
                    Strip(StrOf(Get(fields, "description", Str("")))),
                    NormaliseKeywords(Get(fields, "keywords", NoValue))))
  }

  /** A model outside the allowed two is refused whatever the reply would have
      been: the check comes before the image is read or the API is called. */
  lemma GuardIgnoresReply(model: string, raw1: string, raw2: string,
                          parse1: string -> Option<Parsed>, parse2: string -> Option<Parsed>)
    requires model !in AllowedModels
    ensures GenerateMetadata(model, raw1, parse1) == GenerateMetadata(model, raw2, parse2)
  {
  }

  /** The metadata read from a reply: title and description carry no
      surrounding whitespace, and the keywords are those of the reply's
      `keywords` entry, none for a reply without one. */
  lemma GeneratedFields(model: string, rawOutput: string, parse: string -> Option<Parsed>)
    requires GenerateMetadata(model, rawOutput, parse).Ok?
    ensures var m := GenerateMetadata(model, rawOutput, parse).value;
      var fields := ExtractJsonObject(rawOutput, parse).value.fields;
      && Strip(m.title) == m.title && Strip(m.description) == m.description
      && m.keywords == NormaliseKeywords(Get(fields, "keywords", NoValue))
      && ("keywords" !in fields ==> m.keywords == [])
      && ("title" !in fields ==> m.title == "")
  {
    var fields := ExtractJsonObject(rawOutput, parse).value.fields;
    StripIdempotent(StrOf(Get(fields, "title", Str(""))));
    StripIdempotent(StrOf(Get(fields, "description", Str(""))));
    StripStripped("");
  }
}
