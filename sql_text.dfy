/**
 * The schema-text normalisation of internal/database/initialization.go:
 * `removeSQLComments` and `normalizeSQL`, and what they guarantee about the
 * text they produce.
 */
module SqlText {
  import opened Wrappers
  import opened Text

  /** The bookkeeping table SQLite adds for AUTOINCREMENT, as `normalizeSQL` erases it. */
  const SequenceTable: string := "create table sqlite_sequence(name,seq)"

  /** One line with everything from its first `--` on dropped. */
  function Uncommented(line: string): (r: string)
    ensures HasPrefix(line, r)
    ensures !Contains(r, "--")
    ensures !Contains(line, "--") ==> r == line
  {
    var idx := Index(line, "--");
    if idx != -1 then
      var r := line[..idx];
      assert forall k :: 0 <= k <= idx ==> !HasPrefix(r[k..], "--") by {
        forall k | 0 <= k <= idx ensures !HasPrefix(r[k..], "--") {
          if k < idx {
            assert !HasPrefix(line[k..], "--");
            assert |r[k..]| >= 2 ==> r[k..][..2] == line[k..][..2];
          }
        }
      }
      NoOccurrenceNotContained(r, "--");
      assert HasPrefix(line[idx..], "--");
      OccurrenceContained(line, "--", idx);
      r
    else
      NoOccurrenceNotContained(line, "--");
      line
  }

  function UncommentLines(ls: seq<string>): (r: seq<string>)
    ensures |r| == |ls|
    ensures forall i :: 0 <= i < |ls| ==> r[i] == Uncommented(ls[i])
  {
    seq(|ls|, i requires 0 <= i < |ls| => Uncommented(ls[i]))
  }

  /** What `removeSQLComments` returns: the uncommented lines joined by single spaces. */
  function StripComments(s: string): string
  {
    Join(UncommentLines(SplitOn(s, '\n')), " ")
  }

  /** `removeSQLComments`: overwrites each line in place, then joins them. */
  method RemoveSqlComments(sqlStr: string) returns (r: string)
    ensures r == Join(UncommentLines(SplitOn(sqlStr, '\n')), " ")
    ensures '\n' !in r
  {
    var parts := SplitOn(sqlStr, '\n');
    var lines := new string[|parts|](i requires 0 <= i < |parts| => parts[i]);
    for i := 0 to lines.Length
      invariant forall k :: 0 <= k < i ==> lines[k] == Uncommented(parts[k])
      invariant forall k :: i <= k < lines.Length ==> lines[k] == parts[k]
    {
      var idx := Index(lines[i], "--");
      if idx != -1 {
        lines[i] := lines[i][..idx];
      }
    }
    assert lines[..] == UncommentLines(parts);
    r := Join(lines[..], " ");
    NoNewlineAfterStrip(sqlStr);
  }

  lemma NoNewlineAfterStrip(s: string)
    ensures '\n' !in StripComments(s)
  {
    var ls := UncommentLines(SplitOn(s, '\n'));
    forall k | 0 <= k < |ls| ensures '\n' !in ls[k] {
      assert HasPrefix(SplitOn(s, '\n')[k], ls[k]);
    }
  }

  /**
   * One text that `normalizeSQL` may leave: only single spaces as white
   * space, none at either end and never two in a row.
   */
  predicate Collapsed(r: string)
  {
    && (forall i :: 0 <= i < |r| && IsSpace(r[i]) ==> r[i] == ' ')
    && (r != [] ==> r[0] != ' ' && r[|r| - 1] != ' ')
    && (forall i :: 0 <= i < |r| - 1 ==> !(r[i] == ' ' && r[i + 1] == ' '))
  }

  predicate Token(w: string)
  {
    |w| > 0 && forall i :: 0 <= i < |w| ==> !IsSpace(w[i])
  }

  lemma CollapsedJoinStep(a: string, b: string)
    requires Token(a) && Collapsed(b) && b != [] && !IsSpace(b[0])
    ensures Collapsed(a + " " + b)
  {
    var r := a + " " + b;
    forall i | 0 <= i < |r| ensures IsSpace(r[i]) ==> r[i] == ' ' {
      if i < |a| {
        assert r[i] == a[i];
      } else if i > |a| {
        assert r[i] == b[i - |a| - 1];
      }
    }
    forall i | 0 <= i < |r| - 1 ensures !(r[i] == ' ' && r[i + 1] == ' ') {
      if i < |a| {
        assert r[i] == a[i];
      } else if i == |a| {
        assert r[i + 1] == b[0];
      } else {
        var j := i - |a| - 1;
        assert r[i] == b[j];
      }
    }
    assert r[|r| - 1] == b[|b| - 1];
  }

  lemma {:induction false} JoinTokensCollapsed(ws: seq<string>)
    requires forall k :: 0 <= k < |ws| ==> Token(ws[k])
    ensures Collapsed(Join(ws, " "))
    ensures |ws| > 0 ==> Join(ws, " ") != [] && !IsSpace(Join(ws, " ")[0])
    decreases |ws|
  {
    if |ws| > 1 {
      JoinTokensCollapsed(ws[1..]);
      assert Token(ws[1..][0]);
      CollapsedJoinStep(ws[0], Join(ws[1..], " "));
    }
  }

  lemma {:induction false} ReplaceCharGone(s: string, ch: char, rep: string)
    requires ch !in rep
    ensures ch !in ReplaceAll(s, [ch], rep)
    decreases |s|
  {
    if |s| >= 1 {
      ReplaceCharGone(s[1..], ch, rep);
    }
  }

  /**
   * The last steps of `normalizeSQL`: drop every `;`, turn newlines into
   * spaces and collapse runs of white space into single spaces.
   */
  function Collapse(t: string): (r: string)
    ensures Collapsed(r)
    ensures ';' !in r && '\n' !in r
    ensures forall ch :: ch in r ==> ch in t || ch == ' '
  {
    var noSemicolons := ReplaceAll(t, ";", "");
    var oneLine := ReplaceAll(noSemicolons, "\n", " ");
    var fields := Fields(oneLine);
    ReplaceCharGone(t, ';', "");
    ReplaceCharGone(noSemicolons, '\n', " ");
    assert forall k :: 0 <= k < |fields| ==> Token(fields[k]);
    JoinTokensCollapsed(fields);
    Join(fields, " ")
  }

  /**
   * The part of `normalizeSQL` after comment stripping and lower-casing:
   * erase the sqlite_sequence definition, then collapse.
   */
  function Canonicalize(lowered: string): (r: string)
    ensures Collapsed(r)
    ensures ';' !in r && '\n' !in r
    ensures forall ch :: ch in r ==> ch in lowered || ch == ' '
  {
    Collapse(ReplaceAll(lowered, SequenceTable, ""))
  }

  /** `normalizeSQL`: comments stripped, lower-cased, then canonicalised. */
  function NormalizeSql(sqlStr: string): (r: string)
    ensures Collapsed(r)
    ensures ';' !in r && '\n' !in r
    ensures forall ch :: ch in r ==> !IsAsciiUpper(ch)
  {
    Canonicalize(Lower(StripComments(sqlStr)))
  }

  // ---------------------------------------------------------------------
  // Insensitivity to comments

  /** Two texts whose lines agree up to their comments normalise alike. */
  lemma CommentsDoNotMatter(a: string, b: string)
    requires |SplitOn(a, '\n')| == |SplitOn(b, '\n')|
    requires forall i :: 0 <= i < |SplitOn(a, '\n')| ==>
      Uncommented(SplitOn(a, '\n')[i]) == Uncommented(SplitOn(b, '\n')[i])
    ensures NormalizeSql(a) == NormalizeSql(b)
  {
    assert UncommentLines(SplitOn(a, '\n')) == UncommentLines(SplitOn(b, '\n'));
  }

  /** The lines of a text with one whole line `mid` in its middle. */
  lemma LinesAround(p: string, mid: string, q: string)
    requires '\n' !in mid
    ensures SplitOn(p + "\n" + mid + "\n" + q, '\n') == SplitOn(p, '\n') + [mid] + SplitOn(q, '\n')
  {
    var m := mid + ['\n'] + q;
    assert SplitOn(m, '\n') == [mid] + SplitOn(q, '\n') by {
      SplitNoSeparator(mid, '\n');
      SplitConcat(mid, '\n', q);
    }
    assert SplitOn(p + ['\n'] + m, '\n') == SplitOn(p, '\n') + SplitOn(m, '\n') by {
      SplitConcat(p, '\n', m);
    }
    assert p + "\n" + mid + "\n" + q == p + ['\n'] + m by {
      Regroup(p, "\n", mid, "\n", q);
    }
    AppendAssoc(SplitOn(p, '\n'), [mid], SplitOn(q, '\n'));
  }

  lemma UncommentConcat(a: seq<string>, b: seq<string>)
    ensures UncommentLines(a + b) == UncommentLines(a) + UncommentLines(b)
  {
  }

  /** Stripping comments from a text with one whole line in its middle. */
  lemma StripAround(p: string, mid: string, q: string)
    requires '\n' !in mid
    ensures StripComments(p + "\n" + mid + "\n" + q) == StripComments(p) + " " + Uncommented(mid) + " " + StripComments(q)
  {
    LinesAround(p, mid, q);
    var a, b := SplitOn(p, '\n'), SplitOn(q, '\n');
    UncommentConcat(a + [mid], b);
    UncommentConcat(a, [mid]);
    assert UncommentLines([mid]) == [Uncommented(mid)];
    var ua, ub := UncommentLines(a), UncommentLines(b);
    JoinConcat(ua + [Uncommented(mid)], ub, " ");
    JoinConcat(ua, [Uncommented(mid)], " ");
  }

  /** The whole of a line before a `--` it does not otherwise contain is kept. */
  lemma CommentedLine(line: string, comment: string)
    requires !Contains(line, "--") && (line == [] || line[|line| - 1] != '-')
    ensures Uncommented(line + "--" + comment) == line
  {
    var s := line + "--" + comment;
    forall k | 0 <= k < |line| ensures !HasPrefix(s[k..], "--") {
      NoDashesBefore(line, comment, k);
    }
    assert HasPrefix(s[|line|..], "--") by {
      assert s[|line|..][..2] == "--";
    }
    IndexAt(s, "--", |line|);
    assert s[..|line|] == line;
  }

  lemma NoDashesBefore(line: string, comment: string, k: nat)
    requires !Contains(line, "--") && (line == [] || line[|line| - 1] != '-')
    requires k < |line|
    ensures !HasPrefix((line + "--" + comment)[k..], "--")
  {
    var s := line + "--" + comment;
    if k == |line| - 1 {
      assert s[k..][0] == line[k];
    } else {
      NotContainedAt(line, "--", k);
      assert s[k..][..2] == line[k..][..2];
    }
  }

  /** A trailing `-- comment` on a line is ignored. */
  lemma TrailingComment(p: string, line: string, comment: string, q: string)
    requires '\n' !in line && '\n' !in comment
    requires !Contains(line, "--") && (line == [] || line[|line| - 1] != '-')
    ensures NormalizeSql(p + "\n" + (line + "--" + comment) + "\n" + q) == NormalizeSql(p + "\n" + line + "\n" + q)
  {
    var commented := line + "--" + comment;
    assert '\n' !in commented;
    CommentedLine(line, comment);
    StripAround(p, commented, q);
    StripAround(p, line, q);
  }

  // ---------------------------------------------------------------------
  // Insensitivity to letter case

  function LowerAll(ls: seq<string>): (r: seq<string>)
    ensures |r| == |ls|
    ensures forall i :: 0 <= i < |ls| ==> r[i] == Lower(ls[i])
  {
    seq(|ls|, i requires 0 <= i < |ls| => Lower(ls[i]))
  }

  lemma {:induction false} LowerSplit(s: string)
    ensures SplitOn(Lower(s), '\n') == LowerAll(SplitOn(s, '\n'))
    decreases |s|
  {
    if s != [] {
      LowerSplit(s[1..]);
      assert Lower(s)[1..] == Lower(s[1..]);
      var rest := SplitOn(s[1..], '\n');
      if s[0] != '\n' {
        LowerConcat([s[0]], rest[0]);
        assert LowerAll(rest)[1..] == LowerAll(rest[1..]);
      }
    }
  }

  lemma {:induction false} LowerIndex(s: string)
    ensures Index(Lower(s), "--") == Index(s, "--")
    decreases |s|
  {
    assert HasPrefix(Lower(s), "--") <==> HasPrefix(s, "--") by {
      if |s| >= 2 {
        assert Lower(s)[..2] == [LowerChar(s[0]), LowerChar(s[1])];
        assert s[..2] == [s[0], s[1]];
      }
    }
    if s != [] {
      LowerIndex(s[1..]);
      assert Lower(s)[1..] == Lower(s[1..]);
    }
  }

  lemma LowerUncommented(line: string)
    ensures Uncommented(Lower(line)) == Lower(Uncommented(line))
  {
    LowerIndex(line);
  }

  lemma LowerUncommentLines(ls: seq<string>)
    ensures UncommentLines(LowerAll(ls)) == LowerAll(UncommentLines(ls))
  {
    forall i | 0 <= i < |ls| ensures Uncommented(Lower(ls[i])) == Lower(Uncommented(ls[i])) {
      LowerUncommented(ls[i]);
    }
  }

  lemma {:induction false} LowerJoin(ls: seq<string>)
    ensures Join(LowerAll(ls), " ") == Lower(Join(ls, " "))
    decreases |ls|
  {
    if |ls| > 1 {
      LowerJoin(ls[1..]);
      assert LowerAll(ls)[1..] == LowerAll(ls[1..]);
      LowerConcat(ls[0] + " ", Join(ls[1..], " "));
      LowerConcat(ls[0], " ");
    }
  }

  lemma LowerStripComments(s: string)
    ensures StripComments(Lower(s)) == Lower(StripComments(s))
  {
    LowerSplit(s);
    LowerUncommentLines(SplitOn(s, '\n'));
    LowerJoin(UncommentLines(SplitOn(s, '\n')));
  }

  /** Letter case never matters for the comparison. */
  lemma CaseDoesNotMatter(a: string, b: string)
    requires Lower(a) == Lower(b)
    ensures NormalizeSql(a) == NormalizeSql(b)
  {
    LowerStripComments(a);
    LowerStripComments(b);
    assert Lower(StripComments(a)) == Lower(StripComments(b));
  }

  // ---------------------------------------------------------------------
  // The sqlite_sequence definition

  lemma StripSplit(p: string, q: string)
    ensures StripComments(p + "\n" + q) == StripComments(p) + " " + StripComments(q)
  {
    SplitConcat(p, '\n', q);
    UncommentConcat(SplitOn(p, '\n'), SplitOn(q, '\n'));
    JoinConcat(UncommentLines(SplitOn(p, '\n')), UncommentLines(SplitOn(q, '\n')), " ");
  }

  /** A character that lower-casing leaves alone and `w` lacks is not in what lower-cases to `w`. */
  lemma AbsentBeforeLower(t: string, w: string, c: char)
    requires Lower(t) == w && c !in w && !IsAsciiUpper(c)
    ensures c !in t
  {
    forall i | 0 <= i < |t| ensures t[i] != c {
      assert Lower(t)[i] in w;
    }
  }

  /** A line that lower-cases to a text without newlines or dashes has neither. */
  lemma PlainLine(t: string, w: string)
    requires Lower(t) == w && '-' !in w && '\n' !in w
    ensures '\n' !in t
    ensures Uncommented(t) == t
  {
    AbsentBeforeLower(t, w, '-');
    AbsentBeforeLower(t, w, '\n');
    NoDashNoComment(t);
  }

  lemma NoDashNoComment(t: string)
    requires '-' !in t
    ensures !Contains(t, "--")
  {
    forall k | 0 <= k <= |t| ensures !HasPrefix(t[k..], "--") {
      if k < |t| {
        assert t[k..][0] == t[k];
      }
    }
    NoOccurrenceNotContained(t, "--");
  }

  lemma SequenceTablePlain()
    ensures '-' !in SequenceTable && '\n' !in SequenceTable
  {
  }

  lemma SequenceTableUnbordered()
    ensures Unbordered(SequenceTable)
  {
    UniqueLastUnbordered(SequenceTable);
  }

  /** A double space collapses like a single one. */
  lemma CollapseGap(x: string, y: string)
    ensures Collapse(x + " " + " " + y) == Collapse(x + " " + y)
  {
    OneLineGap(x, y);
    FieldsGap(OneLine(x), OneLine(y));
    CollapseIsJoin(x + " " + " " + y);
    CollapseIsJoin(x + " " + y);
  }

  lemma OneLineGap(x: string, y: string)
    ensures OneLine(x + " " + " " + y) == OneLine(x) + " " + " " + OneLine(y)
    ensures OneLine(x + " " + y) == OneLine(x) + " " + OneLine(y)
  {
    GapThrough(x, y, ';', "");
    GapThrough(ReplaceAll(x, ";", ""), ReplaceAll(y, ";", ""), '\n', " ");
  }

  lemma FieldsGap(x: string, y: string)
    ensures Fields(x + " " + " " + y) == Fields(x + " " + y)
  {
    assert Fields(x + " " + " " + y) == Fields(x) + Fields(y) by {
      assert x + " " + " " + y == x + [' '] + (" " + y);
      FieldsSplitAtSpace(x, ' ', " " + y);
      assert [] + [' '] + y == " " + y;
      FieldsSplitAtSpace([], ' ', y);
    }
    FieldsSplitAtSpace(x, ' ', y);
  }

  /** The text `Collapse` splits into fields. */
  function OneLine(t: string): string
  {
    ReplaceAll(ReplaceAll(t, ";", ""), "\n", " ")
  }

  lemma CollapseIsJoin(t: string)
    ensures Collapse(t) == Join(Fields(OneLine(t)), " ")
  {
  }

  /** Replacing a character other than a space goes around one or two spaces. */
  lemma GapThrough(x: string, y: string, ch: char, rep: string)
    requires ch != ' '
    ensures ReplaceAll(x + " " + " " + y, [ch], rep) == ReplaceAll(x, [ch], rep) + " " + " " + ReplaceAll(y, [ch], rep)
    ensures ReplaceAll(x + " " + y, [ch], rep) == ReplaceAll(x, [ch], rep) + " " + ReplaceAll(y, [ch], rep)
  {
    assert ReplaceAll(" ", [ch], rep) == " ";
    ReplaceCharConcat(x + " " + " ", y, ch, rep);
    ReplaceCharConcat(x + " ", " ", ch, rep);
    ReplaceCharConcat(x, " ", ch, rep);
    ReplaceCharConcat(x + " ", y, ch, rep);
  }

  lemma LowerGap(x: string, y: string)
    ensures Lower(x + " " + y) == Lower(x) + " " + Lower(y)
  {
    LowerConcat(x + " ", y);
    LowerConcat(x, " ");
    assert Lower(" ") == " ";
  }

  lemma LowerAround(x: string, t: string, y: string)
    ensures Lower(x + " " + t + " " + y) == Lower(x) + " " + Lower(t) + " " + Lower(y)
  {
    LowerGap(x + " " + t, y);
    LowerConcat(x + " ", t);
    LowerConcat(x, " ");
    assert Lower(" ") == " ";
  }

  lemma StripPlainLine(a: string, t: string, b: string, w: string)
    requires Lower(t) == w && '-' !in w && '\n' !in w
    ensures StripComments(a + "\n" + t + "\n" + b) == StripComments(a) + " " + t + " " + StripComments(b)
  {
    PlainLine(t, w);
    StripAround(a, t, b);
  }

  lemma LowerAroundAs(x: string, t: string, y: string, w: string)
    requires Lower(t) == w
    ensures Lower(x + " " + t + " " + y) == (Lower(x) + " ") + w + (" " + Lower(y))
  {
    LowerAround(x, t, y);
  }

  lemma LoweredAround(a: string, t: string, b: string, w: string)
    requires Lower(t) == w && '-' !in w && '\n' !in w
    ensures Lower(StripComments(a + "\n" + t + "\n" + b))
      == (Lower(StripComments(a)) + " ") + w + (" " + Lower(StripComments(b)))
    ensures Lower(StripComments(a + "\n" + b)) == Lower(StripComments(a)) + " " + Lower(StripComments(b))
  {
    StripPlainLine(a, t, b, w);
    LowerAroundAs(StripComments(a), t, StripComments(b), w);
    StripSplit(a, b);
    LowerGap(StripComments(a), StripComments(b));
  }

  lemma EraseBetween(x: string, y: string, w: string)
    requires |w| > 0 && Unbordered(w) && !Contains(x + " " + y, w)
    ensures ReplaceAll((x + " ") + w + (" " + y), w, "") == x + " " + " " + y
    ensures ReplaceAll(x + " " + y, w, "") == x + " " + y
  {
    assert x + " " + y == [] + (x + " ") + y == x + (" " + y) + [];
    ContainedPart([], x + " ", y, w);
    ContainedPart(x, " " + y, [], w);
    ReplaceAround(x + " ", w, " " + y, "");
    ReplaceAbsent(x + " ", w, "");
    ReplaceAbsent(" " + y, w, "");
    ReplaceAbsent(x + " " + y, w, "");
    assert (x + " ") + "" + (" " + y) == x + " " + " " + y;
  }

  /**
   * The sqlite_sequence definition SQLite adds for AUTOINCREMENT tables
   * (stored as `CREATE TABLE sqlite_sequence(name,seq)`, in any letter case)
   * is ignored wherever it stands on its own line, as long as the rest of
   * the text does not itself spell that definition.
   */
  lemma SequenceTableIgnored(a: string, t: string, b: string)
    requires Lower(t) == SequenceTable
    requires !Contains(Lower(StripComments(a + "\n" + b)), SequenceTable)
    ensures NormalizeSql(a + "\n" + t + "\n" + b) == NormalizeSql(a + "\n" + b)
  {
    var la, lb := Lower(StripComments(a)), Lower(StripComments(b));
    var with := Lower(StripComments(a + "\n" + t + "\n" + b));
    var without := Lower(StripComments(a + "\n" + b));
    assert with == (la + " ") + SequenceTable + (" " + lb) && without == la + " " + lb by {
      SequenceTablePlain();
      LoweredAround(a, t, b, SequenceTable);
    }
    assert ReplaceAll(with, SequenceTable, "") == la + " " + " " + lb
        && ReplaceAll(without, SequenceTable, "") == without by {
      SequenceTableUnbordered();
      EraseBetween(la, lb, SequenceTable);
    }
    assert Collapse(la + " " + " " + lb) == Collapse(without) by {
      CollapseGap(la, lb);
    }
  }
}
