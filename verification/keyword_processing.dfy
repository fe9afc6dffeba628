/** Keyword post-processing (`firekey/keyword_processing.py`): raw keyword
    values are split and normalised, deduplicated case-insensitively in
    first-occurrence order, capped at a limit and partitioned against a
    controlled vocabulary. */
module KeywordProcessing {
  import opened Base
  import opened Strings

  /** The delimiters a keyword string is split on, in the order applied. */
  const Separators: seq<char> := [';', ',', '|']
  const DefaultLimit: int := 50
  const DefaultDelimiter: string := "; "

  /** A raw keyword value: `None`, a string, a sequence or other iterable
      (each item `None` or the text `str(item)` gives), or any other object
      (the text `str(value)` gives). */
  datatype RawKeywords = NoKeywords | Text(s: string) | Items(items: seq<Option<string>>) | Scalar(text: string)

  datatype KeywordProcessingResult = KeywordProcessingResult(validKeywords: seq<string>, reviewKeywords: seq<string>)

  /** No string in `items` contains a character of `chars`. */
  predicate Avoids(items: seq<string>, chars: set<char>)
  {
    forall i, x :: 0 <= i < |items| && x in items[i] ==> x !in chars
  }

  predicate NoDups(xs: seq<string>)
  {
    forall i, j :: 0 <= i < j < |xs| ==> xs[i] != xs[j]
  }

  // ----- splitting -----------------------------------------------------------

  function StripAll(xs: seq<string>): (r: seq<string>)
    ensures |r| == |xs| && forall i :: 0 <= i < |xs| ==> r[i] == Strip(xs[i])
  {
    seq(|xs|, i requires 0 <= i < |xs| => Strip(xs[i]))
  }

  /** What one item becomes when split on `sep`: its stripped parts when it
      contains `sep`, otherwise itself, untouched. */
  function SplitItem(item: string, sep: char): seq<string>
  {
    if sep in item then StripAll(Split(item, sep)) else [item]
  }

  /** One pass of the splitting loop: every item split on `sep`, in order. */
  function SplitPass(items: seq<string>, sep: char): seq<string>
    decreases |items|
  {
    if items == [] then []
    else SplitPass(items[..|items| - 1], sep) + SplitItem(items[|items| - 1], sep)
  }

  /** The passes for `seps`, in order. */
  function SplitPasses(items: seq<string>, seps: seq<char>): seq<string>
    decreases |seps|
  {
    if seps == [] then items
    else SplitPass(SplitPasses(items, seps[..|seps| - 1]), seps[|seps| - 1])
  }

  /** The non-empty strings of `items`, in order. */
  function NonEmpty(items: seq<string>): (r: seq<string>)
    ensures forall i :: 0 <= i < |r| ==> r[i] != ""
    ensures |r| <= |items|
    decreases |items|
  {
    if items == [] then []
    else
      var init := NonEmpty(items[..|items| - 1]);
      var last := items[|items| - 1];
      if last != "" then init + [last] else init
  }

  /** Exactly the non-empty strings of `items` survive. */
  lemma {:induction false} NonEmptyMembers(items: seq<string>)
    ensures forall x :: x in NonEmpty(items) <==> x in items && x != ""
    decreases |items|
  {
    if items != [] {
      var init, last := items[..|items| - 1], items[|items| - 1];
      NonEmptyMembers(init);
      assert items == init + [last];
      assert forall x :: x in items <==> x in init || x == last;
    }
  }

  /** `_split_string_keywords` as a value. */
  function SplitTokens(keywords: string): seq<string>
  {
    NonEmpty(SplitPasses([keywords], Separators))
  }

  /** `_split_string_keywords`: split on `;`, then `,`, then `|`, stripping
      the parts of every item that is split, and drop empty tokens. */
  method SplitStringKeywords(keywords: string) returns (tokens: seq<string>)
    ensures tokens == SplitTokens(keywords)
  {
    var current := [keywords];
    for k := 0 to |Separators|
      invariant current == SplitPasses([keywords], Separators[..k])
    {
      assert Separators[..k + 1][..k] == Separators[..k];
      current := SplitOn(current, Separators[k]);
    }
    assert Separators[..|Separators|] == Separators;
    tokens := DropEmpty(current);
  }

  /** One pass of `_split_string_keywords` over the current items. */
  method SplitOn(current: seq<string>, sep: char) returns (next: seq<string>)
    ensures next == SplitPass(current, sep)
  {
    next := [];
    for j := 0 to |current|
      invariant next == SplitPass(current[..j], sep)
    {
      var item := current[j];
      if sep in item {
        next := next + StripAll(Split(item, sep));
      } else {
        next := next + [item];
      }
      assert current[..j + 1][..j] == current[..j];
    }
    assert current[..|current|] == current;
  }

  /** The final filter of `_split_string_keywords`: drop empty tokens. */
  method DropEmpty(current: seq<string>) returns (tokens: seq<string>)
    ensures tokens == NonEmpty(current)
  {
    tokens := [];
    for i := 0 to |current|
      invariant tokens == NonEmpty(current[..i])
    {
      if current[i] != "" {
        tokens := tokens + [current[i]];
      }
      assert current[..i + 1][..i] == current[..i];
    }
    assert current[..|current|] == current;
  }

  lemma SplitItemAvoids(item: string, sep: char, chars: set<char>)
    requires forall x :: x in item ==> x !in chars
    ensures Avoids(SplitItem(item, sep), chars + {sep})
  {
    if sep in item {
      var parts := Split(item, sep);
      SplitChars(item, sep);
      forall i, x | 0 <= i < |parts| && x in Strip(parts[i]) ensures x !in chars + {sep} {
        StripChars(parts[i]);
      }
    }
  }

  /** A pass on `sep` leaves no item containing `sep`, and adds no character. */
  lemma {:induction false} SplitPassAvoids(items: seq<string>, sep: char, chars: set<char>)
    requires Avoids(items, chars)
    ensures Avoids(SplitPass(items, sep), chars + {sep})
    decreases |items|
  {
    if items != [] {
      var init := items[..|items| - 1];
      var last := items[|items| - 1];
      assert Avoids(init, chars) by {
        assert forall i :: 0 <= i < |init| ==> init[i] == items[i];
      }
      SplitPassAvoids(init, sep, chars);
      SplitItemAvoids(last, sep, chars);
      AvoidsAppend(SplitPass(init, sep), SplitItem(last, sep), chars + {sep});
    }
  }

  lemma AvoidsAppend(a: seq<string>, b: seq<string>, chars: set<char>)
    requires Avoids(a, chars) && Avoids(b, chars)
    ensures Avoids(a + b, chars)
  {
    forall i, x | 0 <= i < |a + b| && x in (a + b)[i] ensures x !in chars {
      if i >= |a| { assert (a + b)[i] == b[i - |a|]; }
    }
  }

  lemma {:induction false} SplitPassesAvoid(items: seq<string>, seps: seq<char>, chars: set<char>)
    requires Avoids(items, chars)
    ensures Avoids(SplitPasses(items, seps), chars + set c | c in seps)
    decreases |seps|
  {
    if seps != [] {
      var init, last := seps[..|seps| - 1], seps[|seps| - 1];
      SplitPassesAvoid(items, init, chars);
      SplitPassAvoids(SplitPasses(items, init), last, chars + set c | c in init);
      assert seps == init + [last];
      CharsSnoc(init, last);
    }
  }

  lemma CharsSnoc(init: seq<char>, last: char)
    ensures (set c | c in init) + {last} == set c | c in init + [last]
  {
  }

  /** Every token is non-empty and contains none of `;`, `,` and `|`. */
  lemma SplitTokensClean(keywords: string)
    ensures forall t :: t in SplitTokens(keywords) ==> t != "" && ';' !in t && ',' !in t && '|' !in t
  {
    var passes := SplitPasses([keywords], Separators);
    assert Avoids(passes, {';', ',', '|'}) by {
      SplitPassesAvoid([keywords], Separators, {});
      assert {} + (set c | c in Separators) == {';', ',', '|'};
    }
    NonEmptyMembers(passes);
    forall t | t in SplitTokens(keywords) ensures t != "" && ';' !in t && ',' !in t && '|' !in t {
      assert t in NonEmpty(passes);
      var i :| 0 <= i < |passes| && passes[i] == t;
    }
  }

  lemma {:induction false} SplitPassesUntouched(item: string, seps: seq<char>)
    requires forall c :: c in seps ==> c !in item
    ensures SplitPasses([item], seps) == [item]
    decreases |seps|
  {
    if seps != [] {
      var init, last := seps[..|seps| - 1], seps[|seps| - 1];
      assert forall c :: c in init ==> c in seps;
      SplitPassesUntouched(item, init);
      assert last in seps;
      assert [item][..0] == [];
      assert SplitPass([item], last) == SplitPass([], last) + SplitItem(item, last);
    }
  }

  /** A string without delimiters is one token, as it is (not stripped). */
  lemma NoSeparatorOneToken(keywords: string)
    requires keywords != "" && ';' !in keywords && ',' !in keywords && '|' !in keywords
    ensures SplitTokens(keywords) == [keywords]
  {
    assert SplitPasses([keywords], Separators) == [keywords] by {
      assert forall c :: c in Separators ==> c !in keywords;
      SplitPassesUntouched(keywords, Separators);
    }
    assert NonEmpty([keywords]) == [keywords] by {
      assert [keywords][..0] == [];
      assert NonEmpty([keywords]) == NonEmpty([]) + [keywords];
    }
  }

  lemma {:induction false} SplitPassUntouched(items: seq<string>, sep: char)
    requires forall i :: 0 <= i < |items| ==> sep !in items[i]
    ensures SplitPass(items, sep) == items
    decreases |items|
  {
    if items != [] {
      var init := items[..|items| - 1];
      SplitPassUntouched(init, sep);
      assert items == init + [items[|items| - 1]];
    }
  }

  lemma {:induction false} NonEmptyKeeps(items: seq<string>)
    requires forall i :: 0 <= i < |items| ==> items[i] != ""
    ensures NonEmpty(items) == items
    decreases |items|
  {
    if items != [] {
      var init := items[..|items| - 1];
      NonEmptyKeeps(init);
      assert items == init + [items[|items| - 1]];
    }
  }

  // ----- normalising ---------------------------------------------------------

  /** The present items, stripped, with the empty ones dropped, in order. */
  function KeepStripped(items: seq<Option<string>>): (r: seq<string>)
    ensures forall i :: 0 <= i < |r| ==> r[i] != ""
    ensures |r| <= |items|
    decreases |items|
  {
    if items == [] then []
    else
      var init := KeepStripped(items[..|items| - 1]);
      var last := items[|items| - 1];
      if last.Some? && Strip(last.value) != "" then init + [Strip(last.value)] else init
  }

  lemma {:induction false} KeepStrippedStripped(items: seq<Option<string>>)
    ensures forall i :: 0 <= i < |KeepStripped(items)| ==> Strip(KeepStripped(items)[i]) == KeepStripped(items)[i]
    decreases |items|
  {
    if items != [] {
      var init, last := items[..|items| - 1], items[|items| - 1];
      KeepStrippedStripped(init);
      if last.Some? && Strip(last.value) != "" {
        StripStripped(Strip(last.value));
        var r, ri := KeepStripped(items), KeepStripped(init);
        assert r == ri + [Strip(last.value)];
        forall i | 0 <= i < |r| ensures Strip(r[i]) == r[i] {
          if i < |ri| { assert r[i] == ri[i]; }
        }
      }
    }
  }

  function Present(xs: seq<string>): (r: seq<Option<string>>)
    ensures |r| == |xs| && forall i :: 0 <= i < |xs| ==> r[i] == Some(xs[i])
  {
    seq(|xs|, i requires 0 <= i < |xs| => Some(xs[i]))
  }

  /** `_normalise_keywords` as a value. */
  function Normalised(raw: RawKeywords): (r: seq<string>)
    ensures forall i :: 0 <= i < |r| ==> r[i] != ""
    ensures raw.NoKeywords? ==> r == []
  {
    match raw
    case NoKeywords => []
    case Text(s) => KeepStripped(Present(SplitTokens(s)))
    case Items(items) => KeepStripped(items)
    case Scalar(t) => if Strip(t) != "" then [Strip(t)] else []
  }

  /** Every normalised keyword is non-empty and has no surrounding
      whitespace. */
  lemma NormalisedStripped(raw: RawKeywords)
    ensures forall i :: 0 <= i < |Normalised(raw)| ==>
      Normalised(raw)[i] != "" && Strip(Normalised(raw)[i]) == Normalised(raw)[i]
  {
    match raw
    case NoKeywords =>
    case Text(s) => KeepStrippedStripped(Present(SplitTokens(s)));
    case Items(items) => KeepStrippedStripped(items);
    case Scalar(t) => ScalarStripped(t);
  }

  lemma ScalarStripped(t: string)
    ensures forall i :: 0 <= i < |Normalised(Scalar(t))| ==>
      Normalised(Scalar(t))[i] != "" && Strip(Normalised(Scalar(t))[i]) == Normalised(Scalar(t))[i]
  {
    StripStripped(Strip(t));
  }

  /** The keywords of a sequence are its present items, stripped, empties
      dropped, order kept: one keyword per item that has text. */
  lemma {:induction false} ItemsKeepOrder(items: seq<Option<string>>)
    requires forall i :: 0 <= i < |items| ==> items[i].Some? && Strip(items[i].value) != ""
    ensures |KeepStripped(items)| == |items|
    ensures forall i :: 0 <= i < |items| ==> KeepStripped(items)[i] == Strip(items[i].value)
    decreases |items|
  {
    if items != [] {
      var init, last := items[..|items| - 1], items[|items| - 1];
      assert forall i :: 0 <= i < |init| ==> init[i] == items[i];
      ItemsKeepOrder(init);
      var r, ri := KeepStripped(items), KeepStripped(init);
      assert r == ri + [Strip(last.value)] by {
        assert last.Some? && Strip(last.value) != "";
      }
      forall i | 0 <= i < |items| ensures r[i] == Strip(items[i].value) {
        if i < |init| {
          assert r[i] == ri[i] == Strip(init[i].value);
          assert init[i] == items[i];
        } else {
          assert r[i] == Strip(last.value);
        }
      }
    }
  }

  lemma SplitPassSingle(item: string, sep: char)
    ensures SplitPass([item], sep) == SplitItem(item, sep)
  {
    assert [item][..0] == [];
  }

  /** A keyword that survives being stored joined with the default
      delimiter: non-empty, no surrounding whitespace, no separator. */
  predicate Storable(k: string)
  {
    k != "" && Strip(k) == k && ';' !in k && ',' !in k && '|' !in k
  }

  /** Split on `;`, two or more keywords joined with the default delimiter
      give the first keyword, then each other one behind a space. */
  lemma JoinedPieces(items: seq<string>)
    requires |items| >= 2
    requires forall i :: 0 <= i < |items| ==> ';' !in items[i]
    ensures var joined := Join(items, DefaultDelimiter);
      && ';' in joined
      && var pieces := Split(joined, ';');
      && |pieces| == |items| && pieces[0] == items[0]
      && forall i :: 1 <= i < |items| ==> pieces[i] == " " + items[i]
  {
    var joined := Join(items, DefaultDelimiter);
    assert joined == items[0] + "; " + Join(items[1..], DefaultDelimiter);
    assert joined[|items[0]|] == ';';
    assert [';'] + " " == DefaultDelimiter;
    SplitJoinPad(items, ';', " ", "");
    assert "" + joined == joined;
  }

  /** The `;` pass over two or more keywords joined with the default
      delimiter gives the keywords back. */
  lemma FirstPassSplitsJoin(items: seq<string>)
    requires |items| >= 2
    requires forall i :: 0 <= i < |items| ==> Strip(items[i]) == items[i] && ';' !in items[i]
    ensures SplitPass([Join(items, DefaultDelimiter)], ';') == items
  {
    var joined := Join(items, DefaultDelimiter);
    JoinedPieces(items);
    SplitPassSingle(joined, ';');
    var pieces := Split(joined, ';');
    var first := StripAll(pieces);
    forall i | 0 <= i < |items| ensures first[i] == items[i] {
      if i > 0 {
        StripLeadingSpace(items[i]);
      }
    }
  }

  /** The empty string has no tokens. */
  lemma NoTokens()
    ensures SplitTokens("") == []
  {
    SplitPassesUntouched("", Separators);
    assert NonEmpty([""]) == [] by { assert [""][..0] == []; }
  }

  /** Keywords joined with the default delimiter split back into exactly
      those keywords. */
  lemma JoinedTokens(items: seq<string>)
    requires forall i :: 0 <= i < |items| ==> Storable(items[i])
    ensures SplitTokens(Join(items, DefaultDelimiter)) == items
  {
    var joined := Join(items, DefaultDelimiter);
    if |items| == 0 {
      assert joined == "";
      NoTokens();
    } else if |items| == 1 {
      assert joined == items[0] && items == [items[0]];
      NoSeparatorOneToken(items[0]);
    } else {
      assert SplitPasses([joined], Separators) == items by { JoinedPasses(items); }
      NonEmptyKeeps(items);
    }
  }

  /** The three passes, written out. */
  lemma SplitPassesSeparators(items: seq<string>)
    ensures SplitPasses(items, Separators) == SplitPass(SplitPass(SplitPass(items, ';'), ','), '|')
  {
    assert Separators[..2] == [';', ','] && Separators[..2][..1] == [';'];
    assert [';'][..0] == [];
  }

  /** The three passes over two or more keywords joined with the default
      delimiter give the keywords back. */
  lemma JoinedPasses(items: seq<string>)
    requires |items| >= 2
    requires forall i :: 0 <= i < |items| ==> Storable(items[i])
    ensures SplitPasses([Join(items, DefaultDelimiter)], Separators) == items
  {
    SplitPassesSeparators([Join(items, DefaultDelimiter)]);
    FirstPassSplitsJoin(items);
    SplitPassUntouched(items, ',');
    SplitPassUntouched(items, '|');
  }

  /** Keywords stored as one string joined with the default delimiter read
      back as exactly those keywords, provided each is non-empty, has no
      surrounding whitespace and contains none of the separators. */
  lemma JoinedReadBack(items: seq<string>)
    requires forall i :: 0 <= i < |items| ==> Storable(items[i])
    ensures Normalised(Text(Join(items, DefaultDelimiter))) == items
  {
    JoinedTokens(items);
    KeepStrippedKeeps(items);
  }

  /** Stripping non-empty stripped text changes nothing. */
  lemma KeepStrippedKeeps(items: seq<string>)
    requires forall i :: 0 <= i < |items| ==> items[i] != "" && Strip(items[i]) == items[i]
    ensures KeepStripped(Present(items)) == items
  {
    ItemsKeepOrder(Present(items));
  }

  /** `_normalise_keywords` */
  method NormaliseKeywords(raw: RawKeywords) returns (r: seq<string>)
    ensures r == Normalised(raw)
  {
    match raw {
      case NoKeywords => r := [];
      case Scalar(t) =>
        var stripped := Strip(t);
        r := if stripped != "" then [stripped] else [];
      case Text(s) =>
        var tokens := SplitStringKeywords(s);
        r := StripItems(Present(tokens));
      case Items(xs) =>
        r := StripItems(xs);
    }
  }

  /** The item loop of `_normalise_keywords`: skip missing items, strip the
      others and keep those left with text. */
  method StripItems(items: seq<Option<string>>) returns (r: seq<string>)
    ensures r == KeepStripped(items)
  {
    r := [];
    for i := 0 to |items|
      invariant r == KeepStripped(items[..i])
    {
      if items[i].Some? {
        var stripped := Strip(items[i].value);
        if stripped != "" {
          r := r + [stripped];
        }
      }
      assert items[..i + 1][..i] == items[..i];
    }
    assert items[..|items|] == items;
  }

  // ----- cleaning -------------------------------------------------------------

  /** The lower-cased keywords, without empty ones and without repeats,
      each at its first occurrence. */
  function Distinct(xs: seq<string>): (r: seq<string>)
    ensures forall i :: 0 <= i < |r| ==> r[i] != "" && IsLower(r[i])
    ensures NoDups(r)
    decreases |xs|
  {
    if xs == [] then []
    else
      var d := Distinct(xs[..|xs| - 1]);
      var w := Lower(xs[|xs| - 1]);
      if w == "" || w in d then d else d + [w]
  }

  lemma DistinctStep(xs: seq<string>, x: string)
    ensures var d, w := Distinct(xs), Lower(x);
      Distinct(xs + [x]) == if w == "" || w in d then d else d + [w]
  {
    assert (xs + [x])[..|xs|] == xs;
  }

  /** The deduplicated keywords are exactly the non-empty lower-cased ones. */
  lemma {:induction false} DistinctCovers(xs: seq<string>)
    ensures forall w :: w in Distinct(xs) ==> exists i :: 0 <= i < |xs| && Lower(xs[i]) == w
    ensures forall i :: 0 <= i < |xs| && Lower(xs[i]) != "" ==> Lower(xs[i]) in Distinct(xs)
    decreases |xs|
  {
    if xs != [] {
      var init := xs[..|xs| - 1];
      DistinctCovers(init);
      assert xs == init + [xs[|xs| - 1]];
      DistinctStep(init, xs[|xs| - 1]);
      assert forall i :: 0 <= i < |init| ==> xs[i] == init[i];
    }
  }

  /** The keywords processed before one of them would reach the limit; a
      limit below one still keeps a first keyword, because the check follows
      the append. */
  function Capped(ks: seq<string>, limit: int): (r: seq<string>)
  {
    var d := Distinct(ks);
    if |d| <= Max(limit, 1) then d else d[..Max(limit, 1)]
  }

  /** The keywords of `xs` that are (`inside`) or are not in `vocab`, in order. */
  function Filter(xs: seq<string>, vocab: set<string>, inside: bool): (r: seq<string>)
    ensures forall w :: w in r ==> w in xs && (w in vocab <==> inside)
    ensures forall w :: w in xs && (w in vocab <==> inside) ==> w in r
    decreases |xs|
  {
    if xs == [] then []
    else
      var init := Filter(xs[..|xs| - 1], vocab, inside);
      var last := xs[|xs| - 1];
      assert forall w :: w in xs <==> w in xs[..|xs| - 1] || w == last;
      if (last in vocab) == inside then init + [last] else init
  }

  /** `clean_keywords` as a value, on the normalised keywords. */
  function Clean(ks: seq<string>, vocab: set<string>, limit: int): KeywordProcessingResult
  {
    var capped := Capped(ks, limit);
    KeywordProcessingResult(Filter(capped, vocab, true), Filter(capped, vocab, false))
  }

  /** Deduplicating a prefix gives a prefix of the deduplicated whole: the
      first-occurrence order. */
  lemma {:induction false} DistinctPrefix(xs: seq<string>, n: nat)
    requires n <= |xs|
    ensures |Distinct(xs[..n])| <= |Distinct(xs)|
    ensures Distinct(xs[..n]) == Distinct(xs)[..|Distinct(xs[..n])|]
    decreases |xs| - n
  {
    if n < |xs| {
      var init := xs[..|xs| - 1];
      assert xs[..n] == init[..n];
      DistinctPrefix(init, n);
      assert xs[..|xs|] == xs;
    } else {
      assert xs[..n] == xs;
    }
  }

  lemma {:induction false} FilterNoDups(xs: seq<string>, vocab: set<string>, inside: bool)
    requires NoDups(xs)
    ensures NoDups(Filter(xs, vocab, inside))
    decreases |xs|
  {
    if xs != [] {
      var init := xs[..|xs| - 1];
      FilterNoDups(init, vocab, inside);
      assert xs[|xs| - 1] !in init;
    }
  }

  lemma {:induction false} FilterPartition(xs: seq<string>, vocab: set<string>)
    ensures multiset(Filter(xs, vocab, true)) + multiset(Filter(xs, vocab, false)) == multiset(xs)
    decreases |xs|
  {
    if xs != [] {
      var init := xs[..|xs| - 1];
      FilterPartition(init, vocab);
      assert xs == init + [xs[|xs| - 1]];
    }
  }

  /** What `clean_keywords` promises: lower-case, non-empty keywords, no
      keyword twice across both lists, every valid keyword in the vocabulary
      and no review keyword, both lists together exactly the capped
      keywords, and as many as the limit allows (at least one is kept). */
  lemma CleanProperties(ks: seq<string>, vocab: set<string>, limit: int)
    ensures var r := Clean(ks, vocab, limit);
      && (forall w :: w in r.validKeywords + r.reviewKeywords ==> w != "" && IsLower(w))
      && NoDups(r.validKeywords) && NoDups(r.reviewKeywords)
      && (forall w :: w in r.validKeywords ==> w in vocab && w !in r.reviewKeywords)
      && (forall w :: w in r.reviewKeywords ==> w !in vocab)
      && multiset(r.validKeywords) + multiset(r.reviewKeywords) == multiset(Capped(ks, limit))
      && |r.validKeywords| + |r.reviewKeywords| <= Max(limit, 1)
      && |r.validKeywords| + |r.reviewKeywords| == if |Distinct(ks)| <= Max(limit, 1) then |Distinct(ks)| else Max(limit, 1)
  {
    var capped := Capped(ks, limit);
    var r := Clean(ks, vocab, limit);
    assert forall w :: w in capped ==> w in Distinct(ks);
    FilterNoDups(capped, vocab, true);
    FilterNoDups(capped, vocab, false);
    FilterPartition(capped, vocab);
    assert |multiset(capped)| == |capped|;
    forall w | w in r.validKeywords + r.reviewKeywords ensures w != "" && IsLower(w) {
      assert w in capped;
    }
  }

  /** Every keyword that survives normalisation and is not empty once
      lower-cased is kept, when the limit is not reached. */
  lemma CleanKeepsAllUnderLimit(ks: seq<string>, vocab: set<string>, limit: int, k: string)
    requires k in ks && Lower(k) != "" && |Distinct(ks)| <= limit
    ensures Lower(k) in Clean(ks, vocab, limit).validKeywords + Clean(ks, vocab, limit).reviewKeywords
  {
    var capped := Capped(ks, limit);
    var i :| 0 <= i < |ks| && ks[i] == k;
    DistinctCovers(ks);
    assert Lower(k) in capped;
  }

  lemma FilterStep(xs: seq<string>, x: string, vocab: set<string>, inside: bool)
    ensures Filter(xs + [x], vocab, inside) ==
      if (x in vocab) == inside then Filter(xs, vocab, inside) + [x] else Filter(xs, vocab, inside)
  {
    assert (xs + [x])[..|xs|] == xs;
  }

  /** Once the deduplicated prefix reaches the limit, it is the capped list. */
  lemma CappedReached(ks: seq<string>, n: nat, limit: int)
    requires n <= |ks| && |Distinct(ks[..n])| == Max(limit, 1)
    ensures Capped(ks, limit) == Distinct(ks[..n])
  {
    DistinctPrefix(ks, n);
  }

  /** `clean_keywords` with the vocabulary already loaded. */
  method CleanKeywords(keywords: RawKeywords, vocab: set<string>, limit: int) returns (result: KeywordProcessingResult)
    ensures result == Clean(Normalised(keywords), vocab, limit)
  {
    var ks := NormaliseKeywords(keywords);
    result := CleanNormalised(ks, vocab, limit);
  }

  /** The two loops of `clean_keywords`, on the normalised keywords: collect
      distinct lower-cased keywords until the limit is reached, then sort
      them into valid and review keywords. */
  method CleanNormalised(ks: seq<string>, vocab: set<string>, limit: int) returns (result: KeywordProcessingResult)
    ensures result == Clean(ks, vocab, limit)
  {
    var cleaned := CollectDistinct(ks, limit);
    var valid, review := SortByVocabulary(cleaned, vocab);
    result := KeywordProcessingResult(valid, review);
  }

  /** The first loop of `clean_keywords`: lower-case each keyword, skip empty
      ones and repeats (tracked in a set), stop once the limit is reached. */
  method CollectDistinct(ks: seq<string>, limit: int) returns (cleaned: seq<string>)
    ensures cleaned == Capped(ks, limit)
  {
    cleaned := [];
    var seen: set<string> := {};
    var i := 0;
    while i < |ks|
      invariant 0 <= i <= |ks|
      invariant cleaned == Distinct(ks[..i])
      invariant forall w :: w in seen <==> w in cleaned
      invariant |cleaned| < Max(limit, 1)
    {
      assert ks[..i + 1] == ks[..i] + [ks[i]];
      DistinctStep(ks[..i], ks[i]);
      var lowered := Lower(ks[i]);
      if lowered != "" && lowered !in seen {
        seen := seen + {lowered};
        cleaned := cleaned + [lowered];
        if |cleaned| >= limit {
          CappedReached(ks, i + 1, limit);
          return;
        }
      }
      i := i + 1;
    }
    assert ks[..i] == ks;
  }

  /** The second loop of `clean_keywords`: each collected keyword goes to
      the valid list when the vocabulary has it, else to the review list. */
  method SortByVocabulary(cleaned: seq<string>, vocab: set<string>) returns (valid: seq<string>, review: seq<string>)
    ensures valid == Filter(cleaned, vocab, true) && review == Filter(cleaned, vocab, false)
  {
    valid, review := [], [];
    for j := 0 to |cleaned|
      invariant valid == Filter(cleaned[..j], vocab, true)
      invariant review == Filter(cleaned[..j], vocab, false)
    {
      assert cleaned[..j + 1] == cleaned[..j] + [cleaned[j]];
      FilterStep(cleaned[..j], cleaned[j], vocab, true);
      FilterStep(cleaned[..j], cleaned[j], vocab, false);
      if cleaned[j] in vocab {
        valid := valid + [cleaned[j]];
      } else {
        review := review + [cleaned[j]];
      }
    }
    assert cleaned[..|cleaned|] == cleaned;
  }

  // ----- vocabulary -------------------------------------------------------------

  function VocabularyWord(line: string): string
  {
    Lower(Strip(line))
  }

  predicate IsWordLine(line: string)
  {
    var w := VocabularyWord(line);
    w != "" && w[0] != '#'
  }

  /** The vocabulary a file with these lines defines. */
  function Vocabulary(lines: seq<string>): (vocab: set<string>)
    ensures forall w :: w in vocab ==> w != "" && w[0] != '#' && IsLower(w)
    ensures forall i :: 0 <= i < |lines| && IsWordLine(lines[i]) ==> VocabularyWord(lines[i]) in vocab
    ensures forall w :: w in vocab ==> exists i :: 0 <= i < |lines| && IsWordLine(lines[i]) && VocabularyWord(lines[i]) == w
  {
    set l | l in lines && IsWordLine(l) :: VocabularyWord(l)
  }

  datatype FileNotFound = FileNotFound(path: string)

  /** The line loop of `_load_vocabulary`: strip, lower-case, skip empty
      lines and comments. A missing file fails. */
  method LoadVocabulary(path: string, file: Option<seq<string>>) returns (r: Result<set<string>, FileNotFound>)
    ensures file.None? ==> r == Err(FileNotFound(path))
    ensures file.Some? ==> r == Ok(Vocabulary(file.value))
  {
    if file.None? {
      return Err(FileNotFound(path));
    }
    var lines := file.value;
    var vocabulary: set<string> := {};
    for i := 0 to |lines|
      invariant vocabulary == Vocabulary(lines[..i])
    {
      var keyword := VocabularyWord(lines[i]);
      assert forall l :: l in lines[..i + 1] <==> l in lines[..i] || l == lines[i];
      if keyword == "" || keyword[0] == '#' {
        continue;
      }
      vocabulary := vocabulary + {keyword};
    }
    assert lines[..|lines|] == lines;
    r := Ok(vocabulary);
  }

  // ----- presentation -----------------------------------------------------------

  /** `as_strings`: each list joined with the delimiter. */
  function AsStrings(r: KeywordProcessingResult, delimiter: string): (string, string)
  {
    (Join(r.validKeywords, delimiter), Join(r.reviewKeywords, delimiter))
  }

  /** With the default delimiter, both joined strings read back through the
      normalisation as the lists they were made from, when every keyword is
      non-empty, stripped and free of the separators. */
  lemma AsStringsReadBack(r: KeywordProcessingResult)
    requires forall i :: 0 <= i < |r.validKeywords| ==> Storable(r.validKeywords[i])
    requires forall i :: 0 <= i < |r.reviewKeywords| ==> Storable(r.reviewKeywords[i])
    ensures Normalised(Text(AsStrings(r, DefaultDelimiter).0)) == r.validKeywords
    ensures Normalised(Text(AsStrings(r, DefaultDelimiter).1)) == r.reviewKeywords
  {
    JoinedReadBack(r.validKeywords);
    JoinedReadBack(r.reviewKeywords);
  }

  /** A cell of a metadata row. */
  datatype Cell = Value(raw: RawKeywords) | Joined(s: string) | Listed(items: seq<string>)

  datatype Row = Mapping(fields: map<string, Cell>) | NotMapping

  /** The container `append_keyword_columns` receives (a data frame is not
      part of this model). */
  datatype Data = Rows(rows: seq<Row>) | OtherContainer

  datatype TypeError = TypeError(message: string)

  const RowsMessage: string := "append_keyword_columns expects a sequence of mapping rows when pandas is unavailable."
  const ContainerMessage: string := "Unsupported data container. Provide a pandas.DataFrame or a sequence of mapping rows."

  /** What a row's keywords field holds, read back as a raw keyword value. */
  function KeywordsOf(fields: map<string, Cell>, key: string): RawKeywords
  {
    if key !in fields then NoKeywords
    else match fields[key]
      case Value(raw) => raw
      case Joined(s) => Text(s)
      case Listed(items) => Items(Present(items))
  }

  /** The two cells stored for a result: joined strings or the lists. */
  function Store(result: KeywordProcessingResult, delimiter: string, asStrings: bool): (Cell, Cell)
  {
    if asStrings then (Joined(AsStrings(result, delimiter).0), Joined(AsStrings(result, delimiter).1))
    else (Listed(result.validKeywords), Listed(result.reviewKeywords))
  }

  /** A row with the two columns added. */
  function Annotated(fields: map<string, Cell>, keywordsField: string, validField: string, reviewField: string,
                     vocab: set<string>, delimiter: string, asStrings: bool): map<string, Cell>
  {
    var cells := Store(Clean(Normalised(KeywordsOf(fields, keywordsField)), vocab, DefaultLimit), delimiter, asStrings);
    fields[validField := cells.0][reviewField := cells.1]
  }

  /** The annotated row keeps every other column, and holds the cleaned
      keywords of its keywords field under the two new column names (the
      review column wins when both names are the same). */
  lemma AnnotatedColumns(fields: map<string, Cell>, keywordsField: string, validField: string, reviewField: string,
                         vocab: set<string>, delimiter: string, asStrings: bool)
    ensures var out := Annotated(fields, keywordsField, validField, reviewField, vocab, delimiter, asStrings);
      && out.Keys == fields.Keys + {validField, reviewField}
      && (forall k :: k in fields && k != validField && k != reviewField ==> out[k] == fields[k])
      && var cells := Store(Clean(Normalised(KeywordsOf(fields, keywordsField)), vocab, DefaultLimit), delimiter, asStrings);
         out[reviewField] == cells.1 && (validField != reviewField ==> out[validField] == cells.0)
  {
  }

  /** The loop body of `append_keyword_columns` for one mapping row: clean
      a copy's keywords and store the two columns in it. */
  method AnnotateRow(fields: map<string, Cell>, keywordsField: string, validField: string, reviewField: string,
                     vocab: set<string>, delimiter: string, asStrings: bool) returns (copy: map<string, Cell>)
    ensures copy == Annotated(fields, keywordsField, validField, reviewField, vocab, delimiter, asStrings)
  {
    copy := fields;
    var result := CleanKeywords(KeywordsOf(copy, keywordsField), vocab, DefaultLimit);
    var cells := Store(result, delimiter, asStrings);
    copy := copy[validField := cells.0];
    copy := copy[reviewField := cells.1];
  }

  predicate AllMappings(rows: seq<Row>)
  {
    forall i :: 0 <= i < |rows| ==> rows[i].Mapping?
  }

  /** `append_keyword_columns` on rows: a copy of every row with the two
      columns added (the input rows are values and stay as they are), or a
      `TypeError` when the container is not a sequence or one of its rows is
      not a mapping. */
  method AppendKeywordColumns(data: Data, keywordsField: string, validField: string, reviewField: string,
                              vocab: set<string>, delimiter: string, asStrings: bool)
    returns (r: Result<seq<map<string, Cell>>, TypeError>)
    ensures data.OtherContainer? ==> r == Err(TypeError(ContainerMessage))
    ensures data.Rows? && !AllMappings(data.rows) ==> r == Err(TypeError(RowsMessage))
    ensures data.Rows? && AllMappings(data.rows) ==> r.Ok? && |r.value| == |data.rows|
    ensures data.Rows? && AllMappings(data.rows) ==> forall k :: 0 <= k < |data.rows| ==>
      r.value[k] == Annotated(data.rows[k].fields, keywordsField, validField, reviewField, vocab, delimiter, asStrings)
  {
    if data.OtherContainer? {
      return Err(TypeError(ContainerMessage));
    }
    var rows := data.rows;
    var processed: seq<map<string, Cell>> := [];
    for i := 0 to |rows|
      invariant forall k :: 0 <= k < i ==> rows[k].Mapping?
      invariant |processed| == i
      invariant forall k :: 0 <= k < i ==>
        processed[k] == Annotated(rows[k].fields, keywordsField, validField, reviewField, vocab, delimiter, asStrings)
    {
      if rows[i].NotMapping? {
        return Err(TypeError(RowsMessage));
      }
      var copy := AnnotateRow(rows[i].fields, keywordsField, validField, reviewField, vocab, delimiter, asStrings);
      processed := processed + [copy];
    }
    r := Ok(processed);
  }
}
