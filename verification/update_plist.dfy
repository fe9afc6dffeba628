/** `scripts/update_plist.py`: make sure an application bundle's
    `Info.plist` carries the FireKEY identity keys, rewriting the file only
    when some key was missing or held another value. `plistlib`'s reading
    and writing are not part of the model: the file is the dictionary it
    holds. */
module UpdatePlist {

  /** A value a plist dictionary can hold. Dates, data, arrays and nested
      dictionaries are `Opaque`: none of them equals a string or a bool. */
  datatype PlistValue = PStr(s: string) | PBool(b: bool) | PInt(i: int) | PReal(r: real) | Opaque(tag: nat)

  predicate IsNumber(v: PlistValue)
  {
    v.PBool? || v.PInt? || v.PReal?
  }

  /** The number Python sees in a bool, an int or a float. */
  function NumberOf(v: PlistValue): real
    requires IsNumber(v)
  {
    match v
    case PBool(b) => if b then 1.0 else 0.0
    case PInt(i) => i as real
    case PReal(r) => r
  }

  /** Python's `==` between a stored value and a required one (a string or a
      bool): strings compare by text; bools, ints and floats compare as
      numbers, so `True == 1 == 1.0`; values of other kinds differ. */
  predicate PyEquals(a: PlistValue, b: PlistValue)
  {
    if a.PStr? && b.PStr? then a.s == b.s
    else if IsNumber(a) && IsNumber(b) then NumberOf(a) == NumberOf(b)
    else false
  }

  /** The required keys, in the order the script visits them. */
  const RequiredKeys: seq<string> := [
    "CFBundleName", "CFBundleDisplayName", "CFBundleExecutable", "CFBundleIdentifier",
    "CFBundleVersion", "CFBundleIconFile", "LSApplicationCategoryType", "NSHighResolutionCapable"]

  const Required: map<string, PlistValue> := map[
    "CFBundleName" := PStr("FireKEY"),
    "CFBundleDisplayName" := PStr("FireKEY"),
    "CFBundleExecutable" := PStr("FireKEY"),
    "CFBundleIdentifier" := PStr("com.firekey.app"),
    "CFBundleVersion" := PStr("1.0"),
    "CFBundleIconFile" := PStr("firekey.icns"),
    "LSApplicationCategoryType" := PStr("public.app-category.productivity"),
    "NSHighResolutionCapable" := PBool(true)]

  /** The visiting order lists each required key exactly once. */
  lemma RequiredKeysListed()
    ensures forall k :: k in Required <==> k in RequiredKeys
    ensures forall i, j :: 0 <= i < j < |RequiredKeys| ==> RequiredKeys[i] != RequiredKeys[j]
  {
  }

  /** `plist_data.get(key) == value` for a required key. */
  predicate Matches(d: map<string, PlistValue>, k: string)
  {
    k in Required && k in d && PyEquals(d[k], Required[k])
  }

  /** Some required key is missing or holds another value. */
  predicate NeedsUpdate(d: map<string, PlistValue>)
  {
    exists k :: k in Required && !Matches(d, k)
  }

  /** The dictionary after the merge: every required key that did not match
      now holds its required value; every other entry is as it was. */
  function Merged(d: map<string, PlistValue>): map<string, PlistValue>
  {
    map k | k in d.Keys + Required.Keys :: if k in Required && !Matches(d, k) then Required[k] else d[k]
  }

  /** After the merge every required key is present with a value equal to the
      required one; a string-valued key holds exactly the required text, and a
      key that did not match holds exactly the required value. */
  lemma MergedHasRequired(d: map<string, PlistValue>)
    ensures forall k :: k in Required ==> k in Merged(d) && PyEquals(Merged(d)[k], Required[k])
    ensures forall k :: k in Required && Required[k].PStr? ==> Merged(d)[k] == Required[k]
    ensures forall k :: k in Required && !Matches(d, k) ==> Merged(d)[k] == Required[k]
  {
  }

  /** Keys outside the required set are neither added, removed nor changed. */
  lemma MergedKeepsOthers(d: map<string, PlistValue>)
    ensures Merged(d).Keys == d.Keys + Required.Keys
    ensures forall k :: k in d && k !in Required ==> Merged(d)[k] == d[k]
  {
  }

  /** The merge changes the dictionary exactly when an update is needed. */
  lemma MergeChangesIff(d: map<string, PlistValue>)
    ensures Merged(d) != d <==> NeedsUpdate(d)
  {
    if NeedsUpdate(d) {
      var k :| k in Required && !Matches(d, k);
      if k in d {
        assert Merged(d)[k] == Required[k];
        assert d[k] != Required[k] by {
          assert PyEquals(Required[k], Required[k]);
        }
      } else {
        assert k in Merged(d);
      }
    } else {
      assert Merged(d).Keys == d.Keys;
      forall k | k in d ensures Merged(d)[k] == d[k] {
        if k in Required {
          assert Matches(d, k);
        }
      }
    }
  }

  /** A second merge, of the script's own output, finds nothing to do. */
  lemma MergeIdempotent(d: map<string, PlistValue>)
    ensures !NeedsUpdate(Merged(d))
    ensures Merged(Merged(d)) == Merged(d)
  {
    MergedHasRequired(d);
    MergeChangesIff(Merged(d));
  }

  /** The required keys among the first `n` visited. */
  function VisitedKeys(n: nat): set<string>
    requires n <= |RequiredKeys|
  {
    set j | 0 <= j < n :: RequiredKeys[j]
  }

  /** The dictionary once the first `n` required keys have been visited. */
  function MergedUpTo(d: map<string, PlistValue>, n: nat): map<string, PlistValue>
    requires n <= |RequiredKeys|
  {
    map k | k in d.Keys + VisitedKeys(n) ::
      if k in VisitedKeys(n) && k in Required && !Matches(d, k) then Required[k] else d[k]
  }

  /** Some of the first `n` required keys was missing or held another value. */
  predicate NeedsUpdateUpTo(d: map<string, PlistValue>, n: nat)
    requires n <= |RequiredKeys|
  {
    exists j :: 0 <= j < n && !Matches(d, RequiredKeys[j])
  }

  /** The key visited at step `i` is required and was not visited before. */
  lemma KeyUnvisited(i: nat)
    requires i < |RequiredKeys|
    ensures RequiredKeys[i] in Required && RequiredKeys[i] !in VisitedKeys(i)
    ensures VisitedKeys(i + 1) == VisitedKeys(i) + {RequiredKeys[i]}
  {
    assert RequiredKeys[i] in Required && forall j :: 0 <= j < i ==> RequiredKeys[j] != RequiredKeys[i] by {
      RequiredKeysListed();
    }
    VisitedStep(i);
  }

  lemma VisitedStep(i: nat)
    requires i < |RequiredKeys|
    ensures VisitedKeys(i + 1) == VisitedKeys(i) + {RequiredKeys[i]}
  {
  }

  /** Visiting one more key stores it exactly when it did not match; the
      check sees the key's original value, as no earlier step touched it. */
  lemma MergedUpToStep(d: map<string, PlistValue>, i: nat)
    requires i < |RequiredKeys|
    ensures var key, before := RequiredKeys[i], MergedUpTo(d, i);
      && key in Required
      && (Matches(before, key) <==> Matches(d, key))
      && MergedUpTo(d, i + 1) == (if Matches(d, key) then before else before[key := Required[key]])
      && (NeedsUpdateUpTo(d, i + 1) <==> NeedsUpdateUpTo(d, i) || !Matches(d, key))
  {
    KeyUnvisited(i);
    StoredStep(d, i);
    var key := RequiredKeys[i];
    if !Matches(d, key) {
      assert !Matches(d, RequiredKeys[i]);
    }
  }

  /** The dictionary after step `i`, given that its key was not visited before. */
  lemma StoredStep(d: map<string, PlistValue>, i: nat)
    requires i < |RequiredKeys|
    requires RequiredKeys[i] in Required && RequiredKeys[i] !in VisitedKeys(i)
    requires VisitedKeys(i + 1) == VisitedKeys(i) + {RequiredKeys[i]}
    ensures var key, before := RequiredKeys[i], MergedUpTo(d, i);
      && (key in before <==> key in d)
      && (key in d ==> before[key] == d[key])
      && MergedUpTo(d, i + 1) == (if Matches(d, key) then before else before[key := Required[key]])
  {
    var key, before := RequiredKeys[i], MergedUpTo(d, i);
    var after := if Matches(d, key) then before else before[key := Required[key]];
    var next := MergedUpTo(d, i + 1);
    assert next.Keys == after.Keys;
    forall k | k in after ensures next[k] == after[k] {
      if k != key {
        assert k in VisitedKeys(i + 1) <==> k in VisitedKeys(i);
        assert after[k] == before[k];
      } else if Matches(d, key) {
        assert next[k] == d[k];
      } else {
        assert next[k] == Required[key];
      }
    }
  }

  /** Once every required key has been visited, the loop has built the merge. */
  lemma MergedUpToAll(d: map<string, PlistValue>)
    ensures MergedUpTo(d, |RequiredKeys|) == Merged(d)
    ensures NeedsUpdateUpTo(d, |RequiredKeys|) == NeedsUpdate(d)
  {
    RequiredKeysListed();
    assert VisitedKeys(|RequiredKeys|) == Required.Keys;
    if NeedsUpdate(d) {
      var k :| k in Required && !Matches(d, k);
      var j :| 0 <= j < |RequiredKeys| && RequiredKeys[j] == k;
    }
  }

  /** The merge loop: visit the required keys in order, store each one whose
      current value differs, and note whether any was stored. */
  method MergeRequired(data: map<string, PlistValue>) returns (merged: map<string, PlistValue>, updated: bool)
    ensures merged == Merged(data)
    ensures updated == NeedsUpdate(data)
  {
    merged := data;
    updated := false;
    assert VisitedKeys(0) == {};
    for i := 0 to |RequiredKeys|
      invariant merged == MergedUpTo(data, i)
      invariant updated == NeedsUpdateUpTo(data, i)
    {
      var key := RequiredKeys[i];
      MergedUpToStep(data, i);
      if !Matches(merged, key) {
        merged := merged[key := Required[key]];
        updated := true;
      }
    }
    MergedUpToAll(data);
  }

  /** The `Info.plist` the script is pointed at: whether it is a regular file,
      the dictionary it holds, and how many times it has been written. */
  class PlistFile {
    var isFile: bool
    var data: map<string, PlistValue>
    var writes: nat

    constructor (isFile: bool, data: map<string, PlistValue>)
      ensures this.isFile == isFile && this.data == data && writes == 0
    {
      this.isFile := isFile;
      this.data := data;
      writes := 0;
    }
  }

  /** `main`, with `argv` the whole command line (the script's name first) and
      `file` the file its one argument names: exit status 2 for a wrong
      number of arguments, 1 when the path is not a regular file, otherwise
      0 after merging, the file being written only when the merge changed
      something. */
  method Run(argv: seq<string>, file: PlistFile) returns (code: int)
    modifies file
    ensures |argv| != 2 ==> code == 2 && unchanged(file)
    ensures |argv| == 2 && !old(file.isFile) ==> code == 1 && unchanged(file)
    ensures |argv| == 2 && old(file.isFile) ==>
      && code == 0 && file.isFile
      && file.data == Merged(old(file.data))
      && file.writes == old(file.writes) + (if NeedsUpdate(old(file.data)) then 1 else 0)
  {
    if |argv| != 2 {
      return 2;
    }
    if !file.isFile {
      return 1;
    }
    var merged, updated := MergeRequired(file.data);
    if updated {
      file.data := merged;
      file.writes := file.writes + 1;
    } else {
      MergeChangesIff(file.data);
    }
    return 0;
  }
}
