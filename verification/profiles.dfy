/** Context profiles stored as one JSON file each in a profiles directory
    (`firekey/profiles.py`): file names derived from the profile name,
    saving, deleting and loading. */
module Profiles {
  import opened Base
  import opened Strings

  datatype Profile = Profile(name: string, context: string, path: Option<string>)

  /** `to_dict`: the JSON object written for a profile. */
  function ToDict(p: Profile): Json
  {
    JObj(map["name" := JStr(p.name), "context" := JStr(p.context)])
  }

  // ----- slugs -----------------------------------------------------------------

  predicate IsSlugChar(c: char)
  {
    'a' <= c <= 'z' || '0' <= c <= '9'
  }

  /** Two dashes in a row at `i`. */
  predicate DoubleDash(s: string, i: int)
  {
    0 <= i < |s| - 1 && s[i] == '-' && s[i + 1] == '-'
  }

  /** The shape of every slug: letters, digits and single dashes, with no
      dash at either end. */
  predicate IsSlug(s: string)
  {
    && (forall i :: 0 <= i < |s| ==> IsSlugChar(s[i]) || s[i] == '-')
    && (s == [] || (s[0] != '-' && s[|s| - 1] != '-'))
    && (forall i :: 0 <= i < |s| - 1 ==> !DoubleDash(s, i))
  }

  /** The letters and digits of `s`, in order. */
  function Alnum(s: string): string
  {
    if s == [] then []
    else if IsSlugChar(s[0]) then [s[0]] + Alnum(s[1..])
    else Alnum(s[1..])
  }

  /** `re.sub("[^a-z0-9]+", "-", s)`: every maximal run of other characters
      becomes a single dash; `inRun` says that the character just before `s`
      belonged to such a run. */
  function Collapse(s: string, inRun: bool): (r: string)
    decreases |s|
  {
    if s == [] then []
    else if IsSlugChar(s[0]) then [s[0]] + Collapse(s[1..], false)
    else if inRun then Collapse(s[1..], true)
    else ['-'] + Collapse(s[1..], true)
  }

  /** The end of the run of dashes that starts at `k`. */
  function DashesFrom(s: string, k: nat): (n: nat)
    requires k <= |s|
    ensures k <= n <= |s| && forall i :: k <= i < n ==> s[i] == '-'
    ensures n == |s| || s[n] != '-'
    decreases |s| - k
  {
    if k < |s| && s[k] == '-' then DashesFrom(s, k + 1) else k
  }

  /** The start of the run of dashes that ends just before `k`. */
  function DashesBefore(s: string, k: nat): (n: nat)
    requires k <= |s|
    ensures n <= k && forall i :: n <= i < k ==> s[i] == '-'
    ensures n == 0 || s[n - 1] != '-'
    decreases k
  {
    if 0 < k && s[k - 1] == '-' then DashesBefore(s, k - 1) else k
  }

  /** `s.lstrip("-")` */
  function DropLeadingDashes(s: string): (r: string)
    ensures |r| <= |s| && forall i :: 0 <= i < |r| ==> r[i] == s[|s| - |r| + i]
    ensures r == [] || r[0] != '-'
    ensures forall i :: 0 <= i < |s| - |r| ==> s[i] == '-'
  {
    var n := DashesFrom(s, 0);
    seq(|s| - n, i requires 0 <= i < |s| - n => s[n + i])
  }

  /** `s.rstrip("-")` */
  function DropTrailingDashes(s: string): (r: string)
    ensures |r| <= |s| && forall i :: 0 <= i < |r| ==> r[i] == s[i]
    ensures r == [] || r[|r| - 1] != '-'
    ensures forall i :: |r| <= i < |s| ==> s[i] == '-'
  {
    var n := DashesBefore(s, |s|);
    seq(n, i requires 0 <= i < n => s[i])
  }

  /** `_slugify`: lower-case, collapse runs of other characters to a dash,
      strip dashes from both ends. */
  function Slugify(name: string): string
  {
    DropTrailingDashes(DropLeadingDashes(Collapse(Lower(name), false)))
  }

  /** A collapsed string holds letters, digits and single dashes, and starts
      with a dash only when it did not follow a run. */
  lemma {:induction false} CollapseShape(s: string, inRun: bool)
    ensures forall i :: 0 <= i < |Collapse(s, inRun)| ==> IsSlugChar(Collapse(s, inRun)[i]) || Collapse(s, inRun)[i] == '-'
    ensures inRun && Collapse(s, inRun) != [] ==> Collapse(s, inRun)[0] != '-'
    ensures forall i :: 0 <= i < |Collapse(s, inRun)| - 1 ==> !DoubleDash(Collapse(s, inRun), i)
    decreases |s|
  {
    if s != [] {
      var r := Collapse(s, inRun);
      if IsSlugChar(s[0]) {
        var rest := Collapse(s[1..], false);
        CollapseShape(s[1..], false);
        assert r == [s[0]] + rest;
        assert forall i :: 1 <= i < |r| ==> r[i] == rest[i - 1];
        forall i ensures !DoubleDash(r, i) {
          if 1 <= i { assert DoubleDash(r, i) == DoubleDash(rest, i - 1); }
        }
      } else if inRun {
        CollapseShape(s[1..], true);
      } else {
        var rest := Collapse(s[1..], true);
        CollapseShape(s[1..], true);
        assert r == ['-'] + rest;
        assert forall i :: 1 <= i < |r| ==> r[i] == rest[i - 1];
        forall i ensures !DoubleDash(r, i) {
          if 1 <= i { assert DoubleDash(r, i) == DoubleDash(rest, i - 1); }
        }
      }
    }
  }

  /** Every slug is made of letters, digits and single dashes, and neither
      starts nor ends with a dash. */
  lemma SlugifyIsSlug(name: string)
    ensures IsSlug(Slugify(name))
  {
    CollapseShape(Lower(name), false);
    DashStripShape(Collapse(Lower(name), false));
  }

  /** Stripping the end dashes of a string of letters, digits and single
      dashes leaves a slug. */
  lemma DashStripShape(c: string)
    requires forall i :: 0 <= i < |c| ==> IsSlugChar(c[i]) || c[i] == '-'
    requires forall i :: 0 <= i < |c| - 1 ==> !DoubleDash(c, i)
    ensures IsSlug(DropTrailingDashes(DropLeadingDashes(c)))
  {
    var l := DropLeadingDashes(c);
    var r := DropTrailingDashes(l);
    WindowShape(c, l, |c| - |l|);
    WindowShape(l, r, 0);
  }

  /** A contiguous piece of a string of letters, digits and single dashes
      is one too. */
  lemma WindowShape(c: string, w: string, off: nat)
    requires off + |w| <= |c| && forall i :: 0 <= i < |w| ==> w[i] == c[off + i]
    requires forall i :: 0 <= i < |c| ==> IsSlugChar(c[i]) || c[i] == '-'
    requires forall i :: 0 <= i < |c| - 1 ==> !DoubleDash(c, i)
    ensures forall i :: 0 <= i < |w| ==> IsSlugChar(w[i]) || w[i] == '-'
    ensures forall i :: 0 <= i < |w| - 1 ==> !DoubleDash(w, i)
  {
    forall i | 0 <= i < |w| - 1 ensures !DoubleDash(w, i) {
      assert DoubleDash(w, i) == DoubleDash(c, off + i);
    }
  }

  lemma {:induction false} AlnumAppend(a: string, b: string)
    ensures Alnum(a + b) == Alnum(a) + Alnum(b)
    decreases |a|
  {
    if a != [] {
      AlnumAppend(a[1..], b);
      var ab := a + b;
      assert ab != [] && ab[0] == a[0] && ab[1..] == a[1..] + b;
      if IsSlugChar(a[0]) {
        assert Alnum(ab) == [a[0]] + (Alnum(a[1..]) + Alnum(b));
        assert Alnum(a) == [a[0]] + Alnum(a[1..]);
      } else {
        assert Alnum(ab) == Alnum(a[1..]) + Alnum(b);
      }
    } else {
      assert a + b == b;
    }
  }

  /** A string of dashes has no letters or digits. */
  lemma {:induction false} AlnumOfDashes(s: string)
    requires forall i :: 0 <= i < |s| ==> s[i] == '-'
    ensures Alnum(s) == []
    decreases |s|
  {
    if s != [] {
      AlnumOfDashes(s[1..]);
    }
  }

  lemma {:induction false} CollapseKeepsAlnum(s: string, inRun: bool)
    ensures Alnum(Collapse(s, inRun)) == Alnum(s)
    decreases |s|
  {
    if s != [] {
      CollapseKeepsAlnum(s[1..], IsSlugChar(s[0]) == false);
      if IsSlugChar(s[0]) {
        assert ([s[0]] + Collapse(s[1..], false))[1..] == Collapse(s[1..], false);
      } else if !inRun {
        assert (['-'] + Collapse(s[1..], true))[1..] == Collapse(s[1..], true);
      }
    }
  }

  /** The slug keeps exactly the letters and digits of the lower-cased name,
      in order: only the other characters are replaced or dropped. */
  lemma SlugifyKeepsAlnum(name: string)
    ensures Alnum(Slugify(name)) == Alnum(Lower(name))
  {
    CollapseKeepsAlnum(Lower(name), false);
    DashStripKeepsAlnum(Collapse(Lower(name), false));
  }

  lemma DashStripKeepsAlnum(c: string)
    ensures Alnum(DropTrailingDashes(DropLeadingDashes(c))) == Alnum(c)
  {
    DropLeadingKeepsAlnum(c);
    DropTrailingKeepsAlnum(DropLeadingDashes(c));
  }

  lemma DropLeadingKeepsAlnum(s: string)
    ensures Alnum(DropLeadingDashes(s)) == Alnum(s)
  {
    var r := DropLeadingDashes(s);
    var dashes := s[..|s| - |r|];
    assert s == dashes + r;
    AlnumOfDashes(dashes);
    AlnumAppend(dashes, r);
  }

  lemma DropTrailingKeepsAlnum(s: string)
    ensures Alnum(DropTrailingDashes(s)) == Alnum(s)
  {
    var r := DropTrailingDashes(s);
    var dashes := s[|r|..];
    assert s == r + dashes;
    AlnumOfDashes(dashes);
    AlnumAppend(r, dashes);
    assert r + [] == r;
  }

  /** The slug is empty exactly when the name has no ASCII letter or digit,
      and then the file name falls back to `profile`. */
  lemma SlugEmptyIff(name: string)
    ensures Slugify(name) == [] <==> Alnum(Lower(name)) == []
  {
    SlugifyKeepsAlnum(name);
    SlugifyIsSlug(name);
    var s := Slugify(name);
    if s != [] {
      assert IsSlugChar(s[0]);
      assert s == [s[0]] + s[1..];
      AlnumAppend([s[0]], s[1..]);
    }
  }

  // ----- file names -------------------------------------------------------------

  function BaseFor(name: string): (base: string)
    ensures base != []
  {
    var slug := Slugify(name);
    if slug != "" then slug else "profile"
  }

  /** The stem tried on the `counter`-th turn: `base`, then `base-2`,
      `base-3`, ... */
  function Candidate(base: string, counter: nat): string
  {
    if counter <= 1 then base else base + "-" + NatToString(counter)
  }

  function ProfilePath(dir: string, stem: string): string
  {
    dir + "/" + stem + ".json"
  }

  lemma ProfilePathInjective(dir: string, a: string, b: string)
    requires ProfilePath(dir, a) == ProfilePath(dir, b)
    ensures a == b
  {
    var pa, pb := ProfilePath(dir, a), ProfilePath(dir, b);
    assert |a| == |b|;
    assert a == pa[|dir| + 1..|dir| + 1 + |a|];
    assert b == pb[|dir| + 1..|dir| + 1 + |b|];
  }

  /** Different turns try different stems. */
  lemma CandidateInjective(base: string, a: nat, b: nat)
    requires 1 <= a && 1 <= b && Candidate(base, a) == Candidate(base, b)
    ensures a == b
  {
    var ca, cb := Candidate(base, a), Candidate(base, b);
    if a > 1 && b > 1 {
      assert NatToString(a) == ca[|base| + 1..];
      assert NatToString(b) == cb[|base| + 1..];
      NatToStringInjective(a, b);
    }
  }

  /** The paths of later turns differ from the path of turn `n`. */
  lemma LaterCandidatesDiffer(dir: string, base: string, n: nat)
    requires n >= 1
    ensures forall k :: k > n ==> ProfilePath(dir, Candidate(base, k)) != ProfilePath(dir, Candidate(base, n))
  {
    forall k | k > n ensures ProfilePath(dir, Candidate(base, k)) != ProfilePath(dir, Candidate(base, n)) {
      if ProfilePath(dir, Candidate(base, k)) == ProfilePath(dir, Candidate(base, n)) {
        ProfilePathInjective(dir, Candidate(base, k), Candidate(base, n));
        CandidateInjective(base, k, n);
      }
    }
  }

  /** No turn tries the stem `base-1`. */
  lemma NoMinusOne(base: string, k: nat)
    requires k >= 1
    ensures Candidate(base, k) != base + "-1"
  {
    if k > 1 && Candidate(base, k) == base + "-1" {
      assert (base + "-1")[|base| + 1..] == NatToString(k);
      assert NatToString(1) == "1";
      NatToStringInjective(k, 1);
      assert false;
    }
  }

  /** An entry matching `*.json`, read back from disk: one whose text
      cannot be read (an `OSError`, such as `IsADirectoryError` for a
      directory, or the `UnicodeDecodeError` of bytes that are not UTF-8),
      JSON that did not parse, or the parsed document. */
  datatype FileContent = Unreadable | Malformed | Parsed(data: Json)

  /** What aborts `load_profiles`, neither being caught: a file whose text
      cannot be read, or a parsed document that is not an object, on which
      `data.get(...)` raises `AttributeError`. */
  datatype LoadFailure = ReadFailed(path: string) | NotAnObject(path: string)

  /** What `load_profiles` makes of one listed file: an error when it cannot
      be read or is not an object, nothing when it is malformed or its
      `name`/`context` are not strings, otherwise the profile with its name
      stripped. */
  function ProfileAt(path: string, content: FileContent): (r: Result<Option<Profile>, LoadFailure>)
    ensures r.Err? <==> content.Unreadable? || (content.Parsed? && !content.data.JObj?)
    ensures r.Err? ==> r.error == if content.Unreadable? then ReadFailed(path) else NotAnObject(path)
    ensures r.Ok? && r.value.Some? ==> r.value.value.path == Some(path)
  {
    match content
    case Unreadable => Err(ReadFailed(path))
    case Malformed => Ok(None)
    case Parsed(data) =>
      if !data.JObj? then Err(NotAnObject(path))
      else
        var fields := data.fields;
        var name := if "name" in fields then fields["name"] else JNull;
        var context := if "context" in fields then fields["context"] else JStr("");
        if name.JStr? && context.JStr? then Ok(Some(Profile(Strip(name.s), context.s, Some(path))))
        else Ok(None)
  }

  /** The profiles of a listing, in listing order; the first file that
      cannot be read or is not an object aborts the load. */
  function Loaded(files: map<string, FileContent>, listing: seq<string>): Result<seq<Profile>, LoadFailure>
    requires forall i :: 0 <= i < |listing| ==> listing[i] in files
    decreases |listing|
  {
    if listing == [] then Ok([])
    else
      var last := listing[|listing| - 1];
      match Loaded(files, listing[..|listing| - 1])
      case Err(e) => Err(e)
      case Ok(ps) =>
        match ProfileAt(last, files[last])
        case Err(e) => Err(e)
        case Ok(None) => Ok(ps)
        case Ok(Some(p)) => Ok(ps + [p])
  }

  /** A load that fails on a prefix of the listing fails with the same error. */
  lemma {:induction false} LoadedErrorSticks(files: map<string, FileContent>, listing: seq<string>, n: nat)
    requires forall i :: 0 <= i < |listing| ==> listing[i] in files
    requires n <= |listing| && Loaded(files, listing[..n]).Err?
    ensures Loaded(files, listing) == Loaded(files, listing[..n])
    decreases |listing|
  {
    if n < |listing| {
      var init := listing[..|listing| - 1];
      assert init[..n] == listing[..n];
      LoadedErrorSticks(files, init, n);
    } else {
      assert listing[..n] == listing;
    }
  }

  /** A listed file that cannot be read or is not an object makes the whole
      load fail, with its own error or that of an earlier file. */
  lemma LoadedFailsOnBadFile(files: map<string, FileContent>, listing: seq<string>, k: nat)
    requires forall i :: 0 <= i < |listing| ==> listing[i] in files
    requires k < |listing| && ProfileAt(listing[k], files[listing[k]]).Err?
    ensures Loaded(files, listing).Err?
    ensures Loaded(files, listing[..k]).Ok? ==>
      Loaded(files, listing) == Err(ProfileAt(listing[k], files[listing[k]]).error)
  {
    var upTo := listing[..k + 1];
    assert upTo[..k] == listing[..k] && upTo[k] == listing[k];
    if Loaded(files, listing[..k]).Err? {
      LoadedErrorSticks(files, listing, k);
    } else {
      assert Loaded(files, upTo) == Err(ProfileAt(listing[k], files[listing[k]]).error);
      LoadedErrorSticks(files, listing, k + 1);
    }
  }

  /** Every loaded profile comes from a listed file and has a stripped name. */
  lemma {:induction false} LoadedFromListing(files: map<string, FileContent>, listing: seq<string>)
    requires forall i :: 0 <= i < |listing| ==> listing[i] in files
    ensures Loaded(files, listing).Ok? ==>
      forall j :: 0 <= j < |Loaded(files, listing).value| ==>
        var p := Loaded(files, listing).value[j];
        && p.path.Some? && p.path.value in listing
        && ProfileAt(p.path.value, files[p.path.value]) == Ok(Some(p))
        && Strip(p.name) == p.name
    decreases |listing|
  {
    if listing != [] {
      var init, last := listing[..|listing| - 1], listing[|listing| - 1];
      LoadedFromListing(files, init);
      var r := Loaded(files, listing);
      if r.Ok? {
        var ps := Loaded(files, init).value;
        forall j | 0 <= j < |r.value|
          ensures var p := r.value[j];
            && p.path.Some? && p.path.value in listing
            && ProfileAt(p.path.value, files[p.path.value]) == Ok(Some(p))
            && Strip(p.name) == p.name
        {
          var p := r.value[j];
          if j < |ps| {
            assert p == ps[j];
            assert p.path.value in init;
          } else {
            var name := files[last].data.fields["name"].s;
            assert p.name == Strip(name);
            StripStripped(Strip(name));
          }
        }
      }
    }
  }

  /** Every listed file that holds a profile shows up in a successful load. */
  lemma {:induction false} LoadedKeepsProfiles(files: map<string, FileContent>, listing: seq<string>, k: nat)
    requires forall i :: 0 <= i < |listing| ==> listing[i] in files
    requires k < |listing| && ProfileAt(listing[k], files[listing[k]]).Ok?
    requires ProfileAt(listing[k], files[listing[k]]).value.Some?
    ensures Loaded(files, listing).Ok? ==>
      ProfileAt(listing[k], files[listing[k]]).value.value in Loaded(files, listing).value
    decreases |listing|
  {
    var init := listing[..|listing| - 1];
    if k < |init| {
      assert init[k] == listing[k];
      LoadedKeepsProfiles(files, init, k);
    }
  }

  /** Python's `<` on two paths of one directory: code-point order on the
      text, a proper prefix coming first. */
  predicate PathBefore(a: string, b: string)
    decreases |a|
  {
    if a == [] then b != []
    else b != [] && (a[0] < b[0] || (a[0] == b[0] && PathBefore(a[1..], b[1..])))
  }

  /** No path comes before a path that comes before it. */
  lemma {:induction false} PathBeforeAsymmetric(a: string, b: string)
    ensures !(PathBefore(a, b) && PathBefore(b, a))
    decreases |a|
  {
    if a != [] && b != [] && a[0] == b[0] {
      PathBeforeAsymmetric(a[1..], b[1..]);
    }
  }

  /** `listing` is `sorted(profiles_dir.glob("*.json"))` for the directory
      whose `.json` files are `files`: each file once, in increasing order. */
  predicate IsListing(files: map<string, FileContent>, listing: seq<string>)
  {
    && (forall i :: 0 <= i < |listing| ==> listing[i] in files)
    && (forall path :: path in files ==> path in listing)
    && (forall i, j :: 0 <= i < j < |listing| ==> PathBefore(listing[i], listing[j]))
  }

  /** A listing without its first path lists the rest of the directory. */
  lemma ListingTail(files: map<string, FileContent>, a: seq<string>)
    requires IsListing(files, a) && a != []
    ensures IsListing(files - {a[0]}, a[1..])
  {
    var rest := files - {a[0]};
    forall path | path in rest ensures path in a[1..] {
      var i :| 0 <= i < |a| && a[i] == path;
      assert a[1..][i - 1] == path;
    }
    forall i | 0 <= i < |a[1..]| ensures a[1..][i] in rest {
      assert PathBefore(a[0], a[i + 1]);
      PathBeforeAsymmetric(a[0], a[i + 1]);
    }
  }

  /** Two listings of one directory start with the same path. */
  lemma ListingHeads(files: map<string, FileContent>, a: seq<string>, b: seq<string>)
    requires IsListing(files, a) && IsListing(files, b) && a != [] && b != []
    ensures a[0] == b[0]
  {
    if a[0] != b[0] {
      var i :| 0 <= i < |a| && a[i] == b[0];
      var j :| 0 <= j < |b| && b[j] == a[0];
      assert PathBefore(a[0], b[0]) by {
        assert i > 0;
      }
      assert PathBefore(b[0], a[0]) by {
        assert j > 0;
      }
      PathBeforeAsymmetric(a[0], b[0]);
    }
  }

  /** A directory with an empty listing has no other listing. */
  lemma ListingEmpty(files: map<string, FileContent>, a: seq<string>, b: seq<string>)
    requires IsListing(files, a) && IsListing(files, b) && (a == [] || b == [])
    ensures a == [] && b == []
  {
    assert files.Keys == {};
    assert forall x :: x !in a;
    assert multiset(a) == multiset{};
    assert forall x :: x !in b;
    assert multiset(b) == multiset{};
  }

  /** The sorted listing of a directory is determined by its files, so the
      load depends on the files alone. */
  lemma {:induction false} ListingUnique(files: map<string, FileContent>, a: seq<string>, b: seq<string>)
    requires IsListing(files, a) && IsListing(files, b)
    ensures a == b
    decreases |a|
  {
    if a == [] || b == [] {
      ListingEmpty(files, a, b);
    } else {
      ListingHeads(files, a, b);
      ListingTail(files, a);
      ListingTail(files, b);
      ListingUnique(files - {a[0]}, a[1..], b[1..]);
      assert a == [a[0]] + a[1..] && b == [b[0]] + b[1..];
    }
  }

  /** Profiles with a path each, in increasing path order. */
  predicate InPathOrder(ps: seq<Profile>)
  {
    && (forall i :: 0 <= i < |ps| ==> ps[i].path.Some?)
    && (forall i, j :: 0 <= i < j < |ps| ==> PathBefore(ps[i].path.value, ps[j].path.value))
  }

  /** Every profile has a path, and it is one of `listing`. */
  predicate PathsListed(ps: seq<Profile>, listing: seq<string>)
  {
    forall j :: 0 <= j < |ps| ==> ps[j].path.Some? && ps[j].path.value in listing
  }

  /** A profile whose path comes after all the others' keeps the order. */
  lemma InPathOrderSnoc(ps: seq<Profile>, p: Profile)
    requires InPathOrder(ps) && p.path.Some?
    requires forall i :: 0 <= i < |ps| ==> PathBefore(ps[i].path.value, p.path.value)
    ensures InPathOrder(ps + [p])
  {
    var qs := ps + [p];
    forall i, j | 0 <= i < j < |qs| ensures PathBefore(qs[i].path.value, qs[j].path.value) {
      assert qs[i] == ps[i];
    }
  }

  /** The profiles of a load come in the listing's order, so in path order
      when the listing is sorted. */
  lemma {:induction false} LoadedInPathOrder(files: map<string, FileContent>, listing: seq<string>)
    requires forall i :: 0 <= i < |listing| ==> listing[i] in files
    requires forall i, j :: 0 <= i < j < |listing| ==> PathBefore(listing[i], listing[j])
    ensures Loaded(files, listing).Ok? ==>
      InPathOrder(Loaded(files, listing).value) && PathsListed(Loaded(files, listing).value, listing)
    decreases |listing|
  {
    if listing != [] {
      var init, last := listing[..|listing| - 1], listing[|listing| - 1];
      LoadedInPathOrder(files, init);
      if Loaded(files, init).Ok? {
        var ps := Loaded(files, init).value;
        forall i | 0 <= i < |ps| ensures ps[i].path.value in listing && PathBefore(ps[i].path.value, last) {
          var k :| 0 <= k < |init| && init[k] == ps[i].path.value;
          assert listing[k] == init[k];
        }
        var q := ProfileAt(last, files[last]);
        if q.Ok? && q.value.Some? {
          var p := q.value.value;
          assert Loaded(files, listing) == Ok(ps + [p]);
          InPathOrderSnoc(ps, p);
          assert PathsListed(ps + [p], listing) by {
            forall j | 0 <= j < |ps| + 1
              ensures (ps + [p])[j].path.Some? && (ps + [p])[j].path.value in listing
            {
              if j < |ps| {
                assert (ps + [p])[j] == ps[j];
              }
            }
          }
        }
      }
    }
  }

  /** A load over the directory's sorted listing holds every profile file
      of the directory, only those, and in path order. */
  lemma LoadedHasEveryProfile(files: map<string, FileContent>, listing: seq<string>)
    requires IsListing(files, listing)
    ensures Loaded(files, listing).Ok? ==>
      var ps := Loaded(files, listing).value;
      && (forall path :: path in files && ProfileAt(path, files[path]).Ok? && ProfileAt(path, files[path]).value.Some? ==>
            ProfileAt(path, files[path]).value.value in ps)
      && (forall p :: p in ps ==> p.path.Some? && p.path.value in files && ProfileAt(p.path.value, files[p.path.value]) == Ok(Some(p)))
      && InPathOrder(ps)
  {
    if Loaded(files, listing).Ok? {
      var ps := Loaded(files, listing).value;
      assert InPathOrder(ps) by {
        LoadedInPathOrder(files, listing);
      }
      forall path | path in files && ProfileAt(path, files[path]).Ok? && ProfileAt(path, files[path]).value.Some?
        ensures ProfileAt(path, files[path]).value.value in ps
      {
        var k :| 0 <= k < |listing| && listing[k] == path;
        LoadedKeepsProfiles(files, listing, k);
      }
      forall p | p in ps
        ensures p.path.Some? && p.path.value in files && ProfileAt(p.path.value, files[p.path.value]) == Ok(Some(p))
      {
        var j :| 0 <= j < |ps| && ps[j] == p;
        LoadedFromListing(files, listing);
      }
    }
  }

  /** The file `save_profile` writes reads back as the saved profile, with
      its name stripped. */
  lemma LoadSaved(p: Profile, path: string)
    ensures ProfileAt(path, Parsed(ToDict(p))) == Ok(Some(Profile(Strip(p.name), p.context, Some(path))))
  {
  }

  // ----- the manager ------------------------------------------------------------

  class ProfileManager {
    const profilesDir: string
    /** The entries of the profiles directory that match `*.json`, by path. */
    var files: map<string, FileContent>

    constructor (profilesDir: string, files: map<string, FileContent>)
      ensures this.profilesDir == profilesDir && this.files == files
    {
      this.profilesDir := profilesDir;
      this.files := files;
    }

    predicate Acceptable(path: string, existingPath: Option<string>)
      reads this
    {
      existingPath == Some(path) || path !in files
    }

    /** `_path_for_name`: the first of `base`, `base-2`, `base-3`, ... whose
        path is the profile's existing path or is free; `counter` says which
        turn it was. */
    method PathForName(name: string, existingPath: Option<string>) returns (path: string, ghost counter: nat)
      ensures counter >= 1 && path == ProfilePath(profilesDir, Candidate(BaseFor(name), counter))
      ensures Acceptable(path, existingPath)
      ensures forall k :: 1 <= k < counter ==>
        !Acceptable(ProfilePath(profilesDir, Candidate(BaseFor(name), k)), existingPath)
      ensures path != ProfilePath(profilesDir, BaseFor(name) + "-1")
    {
      path, counter := FirstFreePath(BaseFor(name), existingPath);
    }

    /** The probing loop of `_path_for_name` from a given base stem. */
    method FirstFreePath(base: string, existingPath: Option<string>) returns (path: string, ghost counter: nat)
      ensures counter >= 1 && path == ProfilePath(profilesDir, Candidate(base, counter))
      ensures Acceptable(path, existingPath)
      ensures forall k :: 1 <= k < counter ==>
        !Acceptable(ProfilePath(profilesDir, Candidate(base, k)), existingPath)
      ensures path != ProfilePath(profilesDir, base + "-1")
    {
      var candidate := base;
      var n := 1;
      ghost var tried: set<string> := {};
      while true
        invariant n >= 1 && candidate == Candidate(base, n)
        invariant forall k :: 1 <= k < n ==> !Acceptable(ProfilePath(profilesDir, Candidate(base, k)), existingPath)
        invariant tried <= files.Keys
        invariant forall k :: k >= n ==> ProfilePath(profilesDir, Candidate(base, k)) !in tried
        decreases files.Keys - tried
      {
        path := ProfilePath(profilesDir, candidate);
        if (existingPath.Some? && path == existingPath.value) || path !in files {
          assert path != ProfilePath(profilesDir, base + "-1") by {
            NoMinusOneAt(base, n);
          }
          counter := n;
          return;
        }
        assert forall k :: k >= n + 1 ==> ProfilePath(profilesDir, Candidate(base, k)) !in tried + {path} by {
          LaterCandidatesDiffer(profilesDir, base, n);
        }
        tried := tried + {path};
        n := n + 1;
        candidate := base + "-" + NatToString(n);
      }
    }

    lemma NoMinusOneAt(base: string, counter: nat)
      requires counter >= 1
      ensures ProfilePath(profilesDir, Candidate(base, counter)) != ProfilePath(profilesDir, base + "-1")
    {
      NoMinusOne(base, counter);
      if ProfilePath(profilesDir, Candidate(base, counter)) == ProfilePath(profilesDir, base + "-1") {
        ProfilePathInjective(profilesDir, Candidate(base, counter), base + "-1");
      }
    }

    /** `save_profile`: write the profile to its target path, remove the
        original file when it is elsewhere and still there, and return the
        profile at its new path. */
    method SaveProfile(profile: Profile, originalPath: Option<string>) returns (saved: Profile)
      modifies this
      ensures saved.name == profile.name && saved.context == profile.context && saved.path.Some?
      ensures var existing := if originalPath.Some? then originalPath else profile.path;
        var target := saved.path.value;
        && old(Acceptable(target, existing))
        && exists n :: 1 <= n && target == ProfilePath(profilesDir, Candidate(BaseFor(profile.name), n))
             && forall k :: 1 <= k < n ==>
                  !old(Acceptable(ProfilePath(profilesDir, Candidate(BaseFor(profile.name), k)), existing))
      ensures var target := saved.path.value;
        files == old(files)[target := Parsed(ToDict(profile))]
                 - (if originalPath.Some? && originalPath.value != target && originalPath.value in old(files)
                    then {originalPath.value} else {})
    {
      var existing := if originalPath.Some? then originalPath else profile.path;
      var target, counter := PathForName(profile.name, existing);
      ghost var before := files;
      assert forall k :: 1 <= k < counter ==>
        !Acceptable(ProfilePath(profilesDir, Candidate(BaseFor(profile.name), k)), existing);
      files := files[target := Parsed(ToDict(profile))];
      if originalPath.Some? && originalPath.value != target && originalPath.value in files {
        files := files - {originalPath.value};
      }
      saved := Profile(profile.name, profile.context, Some(target));
    }

    /** `delete_profile`: remove the profile's file when it has one on disk. */
    method DeleteProfile(profile: Profile)
      modifies this
      ensures profile.path.Some? ==> files == old(files) - {profile.path.value}
      ensures profile.path.None? ==> files == old(files)
    {
      if profile.path.Some? && profile.path.value in files {
        files := files - {profile.path.value};
      }
    }

    /** `load_profiles`, walking `listing`, the sorted listing of the
        directory's `.json` files (unique by `ListingUnique`). */
    method LoadProfiles(listing: seq<string>) returns (r: Result<seq<Profile>, LoadFailure>)
      requires IsListing(files, listing)
      ensures r == Loaded(files, listing)
    {
      var profiles: seq<Profile> := [];
      for i := 0 to |listing|
        invariant Loaded(files, listing[..i]) == Ok(profiles)
      {
        var path := listing[i];
        assert listing[..i + 1][..i] == listing[..i];
        var content := files[path];
        if content.Unreadable? {
          LoadedErrorSticks(files, listing, i + 1);
          return Err(ReadFailed(path));
        }
        if content.Malformed? {
          continue;
        }
        var data := content.data;
        if !data.JObj? {
          LoadedErrorSticks(files, listing, i + 1);
          return Err(NotAnObject(path));
        }
        var name := if "name" in data.fields then data.fields["name"] else JNull;
        var context := if "context" in data.fields then data.fields["context"] else JStr("");
        if !name.JStr? || !context.JStr? {
          continue;
        }
        profiles := profiles + [Profile(Strip(name.s), context.s, Some(path))];
      }
      assert listing[..|listing|] == listing;
      r := Ok(profiles);
    }
  }
}
