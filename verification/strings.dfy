/** The string operations of Python's `str` that the FireKey sources rely on,
    restricted to ASCII: `strip()`, `lower()`, `split(c)`, `sep.join(xs)` and
    `str(n)` of an integer. */
module Strings {

  /** `c.isspace()` for the ASCII range: space, `\t \n \v \f \r` and the four
      separator controls 0x1C-0x1F. */
  predicate IsSpace(c: char)
  {
    c == ' ' || ('\t' <= c <= '\r') || (28 <= c as int <= 31)
  }

  /** Where the text of `s` starts once the whitespace from index `k` on is
      skipped. */
  function SkipSpaces(s: string, k: nat): (n: nat)
    requires k <= |s|
    ensures k <= n <= |s|
    ensures forall i :: k <= i < n ==> IsSpace(s[i])
    ensures n == |s| || !IsSpace(s[n])
    decreases |s| - k
  {
    if k < |s| && IsSpace(s[k]) then SkipSpaces(s, k + 1) else k
  }

  /** Where the text of `s[..k]` ends once its trailing whitespace, down to
      index `lo`, is dropped. */
  function SkipSpacesBack(s: string, lo: nat, k: nat): (n: nat)
    requires lo <= k <= |s|
    ensures lo <= n <= k
    ensures forall i :: n <= i < k ==> IsSpace(s[i])
    ensures n == lo || !IsSpace(s[n - 1])
    decreases k
  {
    if lo < k && IsSpace(s[k - 1]) then SkipSpacesBack(s, lo, k - 1) else k
  }

  function StripStart(s: string): nat
  {
    SkipSpaces(s, 0)
  }

  function StripEnd(s: string): (e: nat)
    ensures StripStart(s) <= e <= |s|
  {
    SkipSpacesBack(s, StripStart(s), |s|)
  }

  /** `s.strip()`: the text between the leading and the trailing whitespace. */
  function Strip(s: string): (r: string)
    ensures |r| == StripEnd(s) - StripStart(s)
    ensures forall i :: 0 <= i < |r| ==> r[i] == s[StripStart(s) + i]
  {
    var b, e := StripStart(s), StripEnd(s);
    seq(e - b, i requires 0 <= i < e - b => s[b + i])
  }

  /** What strip drops on either side is whitespace, and what it keeps
      neither starts nor ends with whitespace. */
  lemma StripShape(s: string)
    ensures forall i :: 0 <= i < StripStart(s) ==> IsSpace(s[i])
    ensures forall i :: StripEnd(s) <= i < |s| ==> IsSpace(s[i])
    ensures var r := Strip(s); r == [] || (!IsSpace(r[0]) && !IsSpace(r[|r| - 1]))
  {
    var r := Strip(s);
    if r != [] {
      assert r[0] == s[StripStart(s)];
      assert r[|r| - 1] == s[StripEnd(s) - 1];
    }
  }

  /** Stripping twice is stripping once. */
  lemma StripIdempotent(s: string)
    ensures Strip(Strip(s)) == Strip(s)
  {
    StripShape(s);
    StripStripped(Strip(s));
  }

  /** A string strips to nothing exactly when it is all whitespace. */
  lemma StripBlank(s: string)
    ensures Strip(s) == "" <==> forall i :: 0 <= i < |s| ==> IsSpace(s[i])
  {
    StripShape(s);
    if Strip(s) == "" {
      assert StripStart(s) == StripEnd(s);
      forall i | 0 <= i < |s| ensures IsSpace(s[i]) {
        if i >= StripStart(s) {
          assert i >= StripEnd(s);
        }
      }
    } else {
      assert !IsSpace(s[StripStart(s)]);
    }
  }

  lemma StripChars(s: string)
    ensures forall c :: c in Strip(s) ==> c in s
  {
    var r := Strip(s);
    forall c | c in r ensures c in s {
      var k :| 0 <= k < |r| && r[k] == c;
      assert s[StripStart(s) + k] == c;
    }
  }

  /** A string with no whitespace at either end is its own strip. */
  lemma StripStripped(s: string)
    requires s == [] || (!IsSpace(s[0]) && !IsSpace(s[|s| - 1]))
    ensures Strip(s) == s
  {
    assert StripStart(s) == 0;
    assert StripEnd(s) == |s|;
  }

  lemma {:induction false} SkipSpacesShift(p: string, y: string, k: nat)
    requires k <= |y|
    ensures SkipSpaces(p + y, |p| + k) == |p| + SkipSpaces(y, k)
    decreases |y| - k
  {
    if k < |y| {
      assert (p + y)[|p| + k] == y[k];
      if IsSpace(y[k]) {
        SkipSpacesShift(p, y, k + 1);
      }
    }
  }

  lemma {:induction false} SkipSpacesBackShift(p: string, y: string, lo: nat, k: nat)
    requires lo <= k <= |y|
    ensures SkipSpacesBack(p + y, |p| + lo, |p| + k) == |p| + SkipSpacesBack(y, lo, k)
    decreases k
  {
    if lo < k {
      assert (p + y)[|p| + k - 1] == y[k - 1];
      if IsSpace(y[k - 1]) {
        SkipSpacesBackShift(p, y, lo, k - 1);
      }
    }
  }

  /** Strip only looks at the characters between its two ends: a string
      that holds `y` after `d` extra characters, and whose ends are `y`'s
      ends moved by `d`, strips to the same text. */
  lemma StripShifted(s: string, y: string, d: nat)
    requires |s| == d + |y|
    requires forall i :: 0 <= i < |y| ==> s[d + i] == y[i]
    requires StripStart(s) == d + StripStart(y) && StripEnd(s) == d + StripEnd(y)
    ensures Strip(s) == Strip(y)
  {
    var l, r := Strip(s), Strip(y);
    var b := StripStart(y);
    forall i | 0 <= i < |l| ensures l[i] == r[i] {
      assert l[i] == s[d + (b + i)];
    }
  }

  /** A leading space does not survive `strip()`. */
  lemma StripLeadingSpace(y: string)
    ensures Strip(" " + y) == Strip(y)
  {
    var s := " " + y;
    assert forall i :: 0 <= i < |y| ==> s[1 + i] == y[i];
    assert StripStart(s) == 1 + StripStart(y) by {
      assert s[0] == ' ';
      SkipSpacesShift(" ", y, 0);
    }
    assert StripEnd(s) == 1 + StripEnd(y) by {
      SkipSpacesBackShift(" ", y, StripStart(y), |y|);
    }
    StripShifted(s, y, 1);
  }

  function LowerChar(c: char): (r: char)
    ensures !('A' <= r <= 'Z')
  {
    if 'A' <= c <= 'Z' then (c as int - 'A' as int + 'a' as int) as char else c
  }

  predicate IsLower(s: string)
  {
    forall i :: 0 <= i < |s| ==> !('A' <= s[i] <= 'Z')
  }

  /** `s.lower()` on ASCII text. */
  function Lower(s: string): (r: string)
    ensures |r| == |s| && IsLower(r)
  {
    seq(|s|, i requires 0 <= i < |s| => LowerChar(s[i]))
  }

  lemma LowerOfLower(s: string)
    requires IsLower(s)
    ensures Lower(s) == s
  {
  }

  /** `s.split(c)` for a one-character separator: the pieces between the
      occurrences of `c`, including empty ones; there is always one more piece
      than there are separators. */
  function Split(s: string, c: char): (r: seq<string>)
    ensures |r| >= 1
    ensures forall k :: 0 <= k < |r| ==> c !in r[k]
    ensures c !in s ==> r == [s]
  {
    if s == [] then [""]
    else
      var rest := Split(s[1..], c);
      if s[0] == c then [""] + rest
      else
        var r := [[s[0]] + rest[0]] + rest[1..];
        assert forall k :: 1 <= k < |r| ==> r[k] == rest[k];
        assert c !in s ==> s == [s[0]] + s[1..];
        r
  }

  /** The pieces of a split hold only characters of the string. */
  lemma {:induction false} SplitChars(s: string, c: char)
    ensures forall k, x :: 0 <= k < |Split(s, c)| && x in Split(s, c)[k] ==> x in s
  {
    if s != [] {
      var rest := Split(s[1..], c);
      SplitChars(s[1..], c);
      assert forall x :: x in s[1..] ==> x in s;
      if s[0] != c {
        var r := Split(s, c);
        forall k, x | 0 <= k < |r| && x in r[k] ensures x in s {
          if k > 0 { assert r[k] == rest[k]; }
          else { assert r[0] == [s[0]] + rest[0]; }
        }
      }
    }
  }

  function Join(xs: seq<string>, sep: string): string
  {
    if |xs| == 0 then ""
    else if |xs| == 1 then xs[0]
    else xs[0] + sep + Join(xs[1..], sep)
  }

  /** Joining the pieces of a split with the separator gives back the string. */
  lemma {:induction false} JoinSplit(s: string, c: char)
    ensures Join(Split(s, c), [c]) == s
  {
    if s != [] {
      var rest := Split(s[1..], c);
      JoinSplit(s[1..], c);
      assert s == [s[0]] + s[1..];
      if s[0] == c {
        assert Join(Split(s, c), [c]) == [c] + Join(rest, [c]) by {
          assert Split(s, c) == [""] + rest;
          assert ([""] + rest)[1..] == rest;
        }
      } else {
        assert Join(Split(s, c), [c]) == [s[0]] + Join(rest, [c]) by {
          var r := Split(s, c);
          assert r == [[s[0]] + rest[0]] + rest[1..];
          if |rest| > 1 {
            var tail := Join(rest[1..], [c]);
            assert r[1..] == rest[1..];
            assert Join(r, [c]) == ([s[0]] + rest[0]) + [c] + tail;
            assert Join(rest, [c]) == rest[0] + [c] + tail;
          }
        }
      }
    }
  }

  /** A piece without the separator, then the separator: the split starts
      with that piece. */
  lemma {:induction false} SplitAfterPiece(a: string, c: char, rest: string)
    requires c !in a
    ensures Split(a + [c] + rest, c) == [a] + Split(rest, c)
    decreases |a|
  {
    var s := a + [c] + rest;
    if a == [] {
      assert s == [c] + rest && s[1..] == rest;
    } else {
      assert s[0] == a[0] && s[1..] == a[1..] + [c] + rest;
      SplitAfterPiece(a[1..], c, rest);
      assert [a[0]] + a[1..] == a;
    }
  }

  /** Splitting `lead` followed by a join whose separator is `c` and then
      `pad` gives `lead` with the first item, then each other item behind
      its `pad`. */
  lemma {:induction false} SplitJoinPad(ys: seq<string>, c: char, pad: string, lead: string)
    requires |ys| >= 1 && c !in pad && c !in lead
    requires forall i :: 0 <= i < |ys| ==> c !in ys[i]
    ensures var r := Split(lead + Join(ys, [c] + pad), c);
      |r| == |ys| && r[0] == lead + ys[0] && forall i :: 1 <= i < |ys| ==> r[i] == pad + ys[i]
    decreases |ys|
  {
    var sep := [c] + pad;
    if |ys| == 1 {
      assert c !in lead + ys[0];
    } else {
      var tail := ys[1..];
      assert lead + Join(ys, sep) == (lead + ys[0]) + [c] + (pad + Join(tail, sep));
      assert c !in lead + ys[0];
      SplitAfterPiece(lead + ys[0], c, pad + Join(tail, sep));
      SplitJoinPad(tail, c, pad, pad);
      var r := Split(lead + Join(ys, sep), c);
      assert r == [lead + ys[0]] + Split(pad + Join(tail, sep), c);
      forall i | 1 <= i < |ys| ensures r[i] == pad + ys[i] {
        assert ys[i] == tail[i - 1];
      }
    }
  }


  function DigitChar(d: nat): (r: char)
    requires d < 10
  {
    ('0' as int + d) as char
  }

  /** `str(n)` for a natural number: its decimal digits, most significant first. */
  function NatToString(n: nat): (r: string)
    ensures |r| >= 1
    ensures forall i :: 0 <= i < |r| ==> '0' <= r[i] <= '9'
    ensures n < 10 <==> |r| == 1
  {
    if n < 10 then [DigitChar(n)] else NatToString(n / 10) + [DigitChar(n % 10)]
  }

  /** Distinct numbers print differently. */
  lemma {:induction false} NatToStringInjective(a: nat, b: nat)
    requires NatToString(a) == NatToString(b)
    ensures a == b
  {
    if a >= 10 && b >= 10 {
      var sa, sb := NatToString(a), NatToString(b);
      assert sa[..|sa| - 1] == NatToString(a / 10);
      assert sb[..|sb| - 1] == NatToString(b / 10);
      NatToStringInjective(a / 10, b / 10);
      assert DigitChar(a % 10) == sa[|sa| - 1] == sb[|sb| - 1] == DigitChar(b % 10);
    }
  }

  /** `str(i)` for an integer. */
  function IntToString(i: int): (r: string)
    ensures |r| >= 1
    ensures i >= 0 ==> r == NatToString(i)
    ensures i < 0 ==> r[0] == '-'
  {
    if i < 0 then "-" + NatToString(-i) else NatToString(i)
  }
}
