/**
 * The parts of Go's `strings` package that the modelled code relies on,
 * written as functions over `seq<char>`.  Case mapping covers ASCII only.
 */
module Text {
  import opened Wrappers

  predicate IsAsciiUpper(c: char) { 'A' <= c <= 'Z' }

  /** `unicode.ToLower` restricted to ASCII letters. */
  function LowerChar(c: char): (d: char)
    ensures !IsAsciiUpper(d)
    ensures IsAsciiUpper(c) ==> d as int == c as int + 32
    ensures !IsAsciiUpper(c) ==> d == c
  {
    if IsAsciiUpper(c) then (c as int + 32) as char else c
  }

  /** `strings.ToLower` (ASCII letters only). */
  function Lower(s: string): (r: string)
    ensures |r| == |s|
    ensures forall i :: 0 <= i < |s| ==> r[i] == LowerChar(s[i])
  {
    if s == [] then [] else [LowerChar(s[0])] + Lower(s[1..])
  }

  lemma LowerConcat(a: string, b: string)
    ensures Lower(a + b) == Lower(a) + Lower(b)
  {
  }

  /** `unicode.IsSpace`: the Latin-1 spaces and Unicode's White_Space class. */
  predicate IsSpace(c: char)
  {
    c == '\t' || c == '\n' || c == '\U{000B}' || c == '\U{000C}' || c == '\r' || c == ' '
    || c == '\U{0085}' || c == '\U{00A0}' || c == '\U{1680}'
    || ('\U{2000}' <= c <= '\U{200A}')
    || c == '\U{2028}' || c == '\U{2029}' || c == '\U{202F}' || c == '\U{205F}' || c == '\U{3000}'
  }

  /** `strings.HasPrefix`. */
  predicate HasPrefix(s: string, p: string) { |p| <= |s| && s[..|p|] == p }

  /** `strings.HasSuffix`. */
  predicate HasSuffix(s: string, p: string) { |p| <= |s| && s[|s| - |p|..] == p }

  /** `strings.Contains`. */
  predicate Contains(s: string, sub: string)
    decreases |s|
  {
    HasPrefix(s, sub) || (s != [] && Contains(s[1..], sub))
  }

  lemma PrefixIsContained(s: string, p: string)
    requires HasPrefix(s, p)
    ensures Contains(s, p)
  {
  }

  lemma {:induction false} ContainedInLonger(a: string, s: string, b: string, sub: string)
    requires Contains(s, sub)
    ensures Contains(a + s + b, sub)
    decreases |a|, |s|
  {
    if a == [] {
      if HasPrefix(s, sub) {
        assert (s + b)[..|sub|] == s[..|sub|];
      } else {
        ContainedInLonger([], s[1..], b, sub);
        assert ([] + s + b)[1..] == [] + s[1..] + b;
      }
    } else {
      ContainedInLonger(a[1..], s, b, sub);
      assert (a + s + b)[1..] == a[1..] + s + b;
    }
  }

  /** An occurrence at any position makes `s` contain `sub`. */
  lemma {:induction false} OccurrenceContained(s: string, sub: string, k: nat)
    requires k <= |s| && HasPrefix(s[k..], sub)
    ensures Contains(s, sub)
    decreases k
  {
    if k == 0 {
      assert s[0..] == s;
    } else {
      assert s[1..][k - 1..] == s[k..];
      OccurrenceContained(s[1..], sub, k - 1);
    }
  }

  /** Not containing `sub` means no position starts it. */
  lemma {:induction false} NotContainedAt(s: string, sub: string, k: nat)
    requires k <= |s| && !Contains(s, sub)
    ensures !HasPrefix(s[k..], sub)
    decreases k
  {
    if k == 0 {
      assert s[0..] == s;
    } else {
      assert s[1..][k - 1..] == s[k..];
      NotContainedAt(s[1..], sub, k - 1);
    }
  }

  /** No position starting `sub` means `s` does not contain it. */
  lemma {:induction false} NoOccurrenceNotContained(s: string, sub: string)
    requires forall k :: 0 <= k <= |s| ==> !HasPrefix(s[k..], sub)
    ensures !Contains(s, sub)
    decreases |s|
  {
    assert s[0..] == s;
    if s != [] {
      forall k | 0 <= k <= |s[1..]| ensures !HasPrefix(s[1..][k..], sub) {
        assert s[1..][k..] == s[k + 1..];
      }
      NoOccurrenceNotContained(s[1..], sub);
    }
  }

  /** `strings.Index`: the first position of `sub` in `s`, or -1. */
  function Index(s: string, sub: string): (r: int)
    ensures -1 <= r <= |s|
    ensures r >= 0 ==> r + |sub| <= |s| && s[r..r + |sub|] == sub
    ensures r >= 0 ==> forall k :: 0 <= k < r ==> !HasPrefix(s[k..], sub)
    ensures r == -1 ==> forall k :: 0 <= k <= |s| ==> !HasPrefix(s[k..], sub)
    decreases |s|
  {
    if HasPrefix(s, sub) then 0
    else if s == [] then -1
    else
      var k := Index(s[1..], sub);
      assert forall j :: 0 < j <= |s| ==> s[j..] == s[1..][j - 1..];
      if k == -1 then -1 else k + 1
  }

  /** The first position that starts `sub` is what `Index` finds. */
  lemma IndexAt(s: string, sub: string, k: nat)
    requires k <= |s| && HasPrefix(s[k..], sub)
    requires forall j :: 0 <= j < k ==> !HasPrefix(s[j..], sub)
    ensures Index(s, sub) == k
  {
    var r := Index(s, sub);
    assert r != -1;
    assert s[r..][..|sub|] == s[r..r + |sub|];
    assert HasPrefix(s[r..], sub);
  }

  /**
   * `strings.ReplaceAll` for a non-empty pattern: occurrences are replaced
   * from left to right and never overlap.
   */
  function ReplaceAll(s: string, pat: string, rep: string): (r: string)
    requires |pat| > 0
    ensures forall ch :: ch in r ==> ch in s || ch in rep
    decreases |s|
  {
    if |s| < |pat| then s
    else if s[..|pat|] == pat then rep + ReplaceAll(s[|pat|..], pat, rep)
    else [s[0]] + ReplaceAll(s[1..], pat, rep)
  }

  /** A pattern none of whose proper prefixes is also a suffix of it. */
  predicate Unbordered(w: string)
  {
    forall k :: 0 < k < |w| ==> w[..k] != w[|w| - k..]
  }

  /** A word whose last character occurs nowhere else has no border. */
  lemma UniqueLastUnbordered(w: string)
    requires |w| > 0 && forall i :: 0 <= i < |w| - 1 ==> w[i] != w[|w| - 1]
    ensures Unbordered(w)
  {
    forall k | 0 < k < |w| ensures w[..k] != w[|w| - k..] {
      assert w[..k][k - 1] == w[k - 1];
      assert w[|w| - k..][k - 1] == w[|w| - 1];
    }
  }

  /** A part of a text that does not contain `sub` does not contain it either. */
  lemma ContainedPart(a: string, s: string, b: string, sub: string)
    requires !Contains(a + s + b, sub)
    ensures !Contains(s, sub)
  {
    var t := a + s + b;
    forall k | 0 <= k <= |s| ensures !HasPrefix(s[k..], sub) {
      NotContainedAt(t, sub, |a| + k);
      assert |sub| <= |s[k..]| ==> s[k..][..|sub|] == t[|a| + k..][..|sub|];
    }
    NoOccurrenceNotContained(s, sub);
  }

  /** Replacing a one-character pattern works piece by piece. */
  lemma {:induction false} ReplaceCharConcat(x: string, y: string, ch: char, rep: string)
    ensures ReplaceAll(x + y, [ch], rep) == ReplaceAll(x, [ch], rep) + ReplaceAll(y, [ch], rep)
    decreases |x|
  {
    if x == [] {
      assert [] + y == y;
    } else {
      ReplaceCharConcat(x[1..], y, ch, rep);
      assert (x + y)[1..] == x[1..] + y;
      assert (x + y)[..1] == x[..1] == [x[0]];
      ReplaceStep(x + y, [ch], rep);
      ReplaceStep(x, [ch], rep);
    }
  }

  lemma {:induction false} ReplaceAbsent(s: string, pat: string, rep: string)
    requires |pat| > 0 && !Contains(s, pat)
    ensures ReplaceAll(s, pat, rep) == s
    decreases |s|
  {
    if |s| >= |pat| {
      assert !HasPrefix(s, pat);
      ReplaceAbsent(s[1..], pat, rep);
    }
  }

  lemma ReplaceShort(s: string, pat: string, rep: string)
    requires 0 < |pat| && |s| < |pat|
    ensures ReplaceAll(s, pat, rep) == s
  {
  }

  /** An unbordered pattern cannot start inside an earlier copy of itself. */
  lemma NoMatchStraddling(x: string, pat: string, y: string)
    requires 0 < |x| < |pat| && Unbordered(pat)
    ensures (x + pat + y)[..|pat|] != pat
  {
    var s := x + pat + y;
    var k := |pat| - |x|;
    assert s[..|pat|][|x|..] == pat[..k];
    assert pat[..k] != pat[|pat| - k..];
  }

  lemma ReplaceStep(s: string, pat: string, rep: string)
    requires 0 < |pat| <= |s|
    ensures s[..|pat|] == pat ==> ReplaceAll(s, pat, rep) == rep + ReplaceAll(s[|pat|..], pat, rep)
    ensures s[..|pat|] != pat ==> ReplaceAll(s, pat, rep) == [s[0]] + ReplaceAll(s[1..], pat, rep)
  {
  }

  /** An occurrence of an unbordered pattern splits the replacement in two. */
  lemma {:induction false} ReplaceAround(x: string, pat: string, y: string, rep: string)
    requires |pat| > 0 && Unbordered(pat)
    ensures ReplaceAll(x + pat + y, pat, rep) == ReplaceAll(x, pat, rep) + rep + ReplaceAll(y, pat, rep)
    decreases |x|
  {
    if x == [] {
      ReplaceAtFront(pat, y, rep);
    } else if |x| < |pat| {
      ReplaceAround(x[1..], pat, y, rep);
      ReplaceAroundShort(x, pat, y, rep);
    } else {
      if x[..|pat|] == pat {
        ReplaceAround(x[|pat|..], pat, y, rep);
        ReplaceAroundMatch(x, pat, y, rep);
      } else {
        ReplaceAround(x[1..], pat, y, rep);
        ReplaceAroundMiss(x, pat, y, rep);
      }
    }
  }

  lemma ReplaceAtFront(pat: string, y: string, rep: string)
    requires |pat| > 0
    ensures ReplaceAll(pat + y, pat, rep) == rep + ReplaceAll(y, pat, rep)
  {
    var s := pat + y;
    assert s[..|pat|] == pat && s[|pat|..] == y;
    ReplaceStep(s, pat, rep);
  }

  lemma ReplaceAroundShort(x: string, pat: string, y: string, rep: string)
    requires 0 < |x| < |pat| && Unbordered(pat)
    requires ReplaceAll(x[1..] + pat + y, pat, rep) == ReplaceAll(x[1..], pat, rep) + rep + ReplaceAll(y, pat, rep)
    ensures ReplaceAll(x + pat + y, pat, rep) == ReplaceAll(x, pat, rep) + rep + ReplaceAll(y, pat, rep)
  {
    var s := x + pat + y;
    assert ReplaceAll(s, pat, rep) == [x[0]] + ReplaceAll(x[1..] + pat + y, pat, rep) by {
      NoMatchStraddling(x, pat, y);
      DropOne(x, pat, y);
      ReplaceStep(s, pat, rep);
    }
    assert ReplaceAll(x, pat, rep) == [x[0]] + ReplaceAll(x[1..], pat, rep) by {
      ReplaceShort(x, pat, rep);
      ReplaceShort(x[1..], pat, rep);
      assert [x[0]] + x[1..] == x;
    }
    ConsRegroup([x[0]], ReplaceAll(x[1..], pat, rep), rep, ReplaceAll(y, pat, rep));
  }

  lemma ReplaceAroundMatch(x: string, pat: string, y: string, rep: string)
    requires 0 < |pat| <= |x| && x[..|pat|] == pat
    requires ReplaceAll(x[|pat|..] + pat + y, pat, rep) == ReplaceAll(x[|pat|..], pat, rep) + rep + ReplaceAll(y, pat, rep)
    ensures ReplaceAll(x + pat + y, pat, rep) == ReplaceAll(x, pat, rep) + rep + ReplaceAll(y, pat, rep)
  {
    var s := x + pat + y;
    var x' := x[|pat|..];
    assert ReplaceAll(s, pat, rep) == rep + ReplaceAll(x' + pat + y, pat, rep) by {
      TakeFront(x, pat, y, |pat|);
      DropFrontOf(x, pat, y, |pat|);
      ReplaceStep(s, pat, rep);
    }
    assert ReplaceAll(x, pat, rep) == rep + ReplaceAll(x', pat, rep) by {
      ReplaceStep(x, pat, rep);
    }
    ConsRegroup(rep, ReplaceAll(x', pat, rep), rep, ReplaceAll(y, pat, rep));
  }

  lemma ReplaceAroundMiss(x: string, pat: string, y: string, rep: string)
    requires 0 < |pat| <= |x| && x[..|pat|] != pat
    requires ReplaceAll(x[1..] + pat + y, pat, rep) == ReplaceAll(x[1..], pat, rep) + rep + ReplaceAll(y, pat, rep)
    ensures ReplaceAll(x + pat + y, pat, rep) == ReplaceAll(x, pat, rep) + rep + ReplaceAll(y, pat, rep)
  {
    var s := x + pat + y;
    assert ReplaceAll(s, pat, rep) == [x[0]] + ReplaceAll(x[1..] + pat + y, pat, rep) by {
      TakeFront(x, pat, y, |pat|);
      DropOne(x, pat, y);
      ReplaceStep(s, pat, rep);
    }
    assert ReplaceAll(x, pat, rep) == [x[0]] + ReplaceAll(x[1..], pat, rep) by {
      ReplaceStep(x, pat, rep);
    }
    ConsRegroup([x[0]], ReplaceAll(x[1..], pat, rep), rep, ReplaceAll(y, pat, rep));
  }

  /** Appending a character that the pattern does not contain commutes with replacement. */
  lemma {:induction false} ReplaceAppend(x: string, c: char, pat: string, rep: string)
    requires |pat| > 0 && c !in pat
    ensures ReplaceAll(x + [c], pat, rep) == ReplaceAll(x, pat, rep) + [c]
    decreases |x|
  {
    var s := x + [c];
    if |s| < |pat| {
    } else if |x| < |pat| {
      assert s[..|pat|][|pat| - 1] == c;
      assert s[..|pat|] != pat;
      if x == [] {
        assert s == [c];
      } else {
        assert s[1..] == x[1..] + [c];
        ReplaceAppend(x[1..], c, pat, rep);
        ReplaceShort(x, pat, rep);
        ReplaceShort(x[1..], pat, rep);
        assert [x[0]] + x[1..] == x;
      }
    } else {
      assert s[..|pat|] == x[..|pat|];
      ReplaceStep(s, pat, rep);
      ReplaceStep(x, pat, rep);
      if s[..|pat|] == pat {
        assert s[|pat|..] == x[|pat|..] + [c];
        ReplaceAppend(x[|pat|..], c, pat, rep);
      } else {
        assert s[1..] == x[1..] + [c];
        ReplaceAppend(x[1..], c, pat, rep);
      }
    }
  }

  /** `strings.Split` with the one-character separator `c`: never empty. */
  function SplitOn(s: string, c: char): (r: seq<string>)
    ensures |r| >= 1
    ensures forall k :: 0 <= k < |r| ==> c !in r[k]
    decreases |s|
  {
    if s == [] then [""]
    else
      var rest := SplitOn(s[1..], c);
      if s[0] == c then [""] + rest else [[s[0]] + rest[0]] + rest[1..]
  }

  /** `strings.Join`. */
  function Join(ls: seq<string>, sep: string): (r: string)
    ensures forall ch :: ch in r ==> ch in sep || exists k :: 0 <= k < |ls| && ch in ls[k]
    decreases |ls|
  {
    if |ls| == 0 then ""
    else if |ls| == 1 then ls[0]
    else
      var tail := Join(ls[1..], sep);
      assert forall ch :: ch in tail ==> ch in sep || exists k :: 0 <= k < |ls| && ch in ls[k] by {
        forall ch | ch in tail && ch !in sep
          ensures exists k :: 0 <= k < |ls| && ch in ls[k]
        {
          var k :| 0 <= k < |ls[1..]| && ch in ls[1..][k];
          assert ch in ls[k + 1];
        }
      }
      ls[0] + sep + tail
  }

  lemma {:induction false} SplitNoSeparator(s: string, c: char)
    requires c !in s
    ensures SplitOn(s, c) == [s]
    decreases |s|
  {
    if s != [] {
      assert c !in s[1..];
      SplitNoSeparator(s[1..], c);
      assert [s[0]] + s[1..] == s;
    }
  }

  /** Splitting at a separator splits the pieces. */
  lemma {:induction false} SplitConcat(x: string, c: char, y: string)
    ensures SplitOn(x + [c] + y, c) == SplitOn(x, c) + SplitOn(y, c)
    decreases |x|
  {
    if x == [] {
      assert ([] + [c] + y)[1..] == y;
    } else {
      assert (x + [c] + y)[1..] == x[1..] + [c] + y;
      SplitConcat(x[1..], c, y);
    }
  }

  /** Joining the pieces of a split gives the text back. */
  lemma {:induction false} SplitJoin(s: string, c: char)
    ensures Join(SplitOn(s, c), [c]) == s
    decreases |s|
  {
    if s != [] {
      SplitJoin(s[1..], c);
      var rest := SplitOn(s[1..], c);
      if s[0] != c {
        var r := SplitOn(s, c);
        assert r == [[s[0]] + rest[0]] + rest[1..];
        if |rest| == 1 {
        } else {
          assert r[1..] == rest[1..];
          assert Join(rest, [c]) == rest[0] + [c] + Join(rest[1..], [c]);
        }
      }
    }
  }

  lemma {:induction false} JoinConcat(a: seq<string>, b: seq<string>, sep: string)
    requires |a| > 0 && |b| > 0
    ensures Join(a + b, sep) == Join(a, sep) + sep + Join(b, sep)
    decreases |a|
  {
    if |a| == 1 {
      assert (a + b)[1..] == b;
    } else {
      assert (a + b)[1..] == a[1..] + b;
      JoinConcat(a[1..], b, sep);
    }
  }

  /** The length of the run of non-space characters that starts `s`. */
  function TokenLen(s: string): (n: nat)
    ensures n <= |s|
    ensures forall i :: 0 <= i < n ==> !IsSpace(s[i])
    ensures n < |s| ==> IsSpace(s[n])
  {
    if s == [] || IsSpace(s[0]) then 0 else 1 + TokenLen(s[1..])
  }

  /** `strings.Fields`: the maximal runs of non-space characters, in order. */
  function Fields(s: string): (r: seq<string>)
    ensures forall k :: 0 <= k < |r| ==> |r[k]| > 0
    ensures forall k, i :: 0 <= k < |r| && 0 <= i < |r[k]| ==> !IsSpace(r[k][i])
    ensures forall k, ch :: 0 <= k < |r| && ch in r[k] ==> ch in s
    decreases |s|
  {
    if s == [] then []
    else if IsSpace(s[0]) then
      var r := Fields(s[1..]);
      assert forall ch :: ch in s[1..] ==> ch in s;
      r
    else
      var n := TokenLen(s);
      var r := Fields(s[n..]);
      assert forall ch :: ch in s[n..] ==> ch in s;
      assert forall ch :: ch in s[..n] ==> ch in s;
      [s[..n]] + r
  }

  lemma {:induction false} TokenLenStops(x: string, c: char, y: string)
    requires IsSpace(c)
    ensures TokenLen(x + [c] + y) == TokenLen(x)
    decreases |x|
  {
    if x != [] {
      assert (x + [c] + y)[1..] == x[1..] + [c] + y;
      TokenLenStops(x[1..], c, y);
    }
  }

  /** A white-space character separates the fields on either side of it. */
  lemma {:induction false} FieldsSplitAtSpace(x: string, c: char, y: string)
    requires IsSpace(c)
    ensures Fields(x + [c] + y) == Fields(x) + Fields(y)
    decreases |x|
  {
    var s := x + [c] + y;
    if x == [] {
      assert s[1..] == y;
    } else if IsSpace(x[0]) {
      assert s[1..] == x[1..] + [c] + y;
      FieldsSplitAtSpace(x[1..], c, y);
    } else {
      TokenLenStops(x, c, y);
      var n := TokenLen(x);
      assert s[..n] == x[..n];
      assert s[n..] == x[n..] + [c] + y;
      FieldsSplitAtSpace(x[n..], c, y);
    }
  }

  /** There are no fields exactly when the text is all white space (or empty). */
  lemma {:induction false} FieldsNoneIffBlank(s: string)
    ensures Fields(s) == [] <==> forall i :: 0 <= i < |s| ==> IsSpace(s[i])
    decreases |s|
  {
    if s != [] && IsSpace(s[0]) {
      FieldsNoneIffBlank(s[1..]);
      assert forall i :: 1 <= i < |s| ==> s[i] == s[1..][i - 1];
    }
  }

  /** A run without white space is a single field: fields are maximal runs. */
  lemma {:induction false} FieldsToken(s: string)
    requires s != [] && forall i :: 0 <= i < |s| ==> !IsSpace(s[i])
    ensures Fields(s) == [s]
  {
    assert TokenLen(s) == |s| by {
      TokenWhole(s);
    }
    assert s[..|s|] == s;
    assert s[|s|..] == [];
  }

  lemma {:induction false} TokenWhole(s: string)
    requires forall i :: 0 <= i < |s| ==> !IsSpace(s[i])
    ensures TokenLen(s) == |s|
    decreases |s|
  {
    if s != [] {
      TokenWhole(s[1..]);
    }
  }
}
