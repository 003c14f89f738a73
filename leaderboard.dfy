// Leaderboards: the descending exchange sort, the cut to `count` entries,
// the ranks, and `Leaderboard.String` (internal/ruleset/leaderboard.go and
// the shared tail of `Leaderboard` / `AllTimeLeaderboard`).

module Boards {
  import opened Decimal
  import opened Text
  import opened Discord

  datatype UserScore = UserScore(user: User, score: int)

  /** `LeaderboardEntry`. */
  datatype Entry = Entry(user: User, score: int, rank: int)

  /** Every earlier score is at least every later one. */
  predicate NonIncreasing(s: seq<UserScore>)
  {
    forall p, q :: 0 <= p < q < |s| ==> s[p].score >= s[q].score
  }

  /**
   * The nested swap loop of `Leaderboard`: for each position, every later
   * entry with a strictly higher score is swapped into it.
   */
  method SortByScore(a: array<UserScore>)
    modifies a
    ensures NonIncreasing(a[..])
    ensures multiset(a[..]) == multiset(old(a[..]))
  {
    var i := 0;
    while i < a.Length - 1
      invariant 0 <= i <= a.Length
      invariant forall p, q :: 0 <= p < i && p < q < a.Length ==> a[p].score >= a[q].score
      invariant multiset(a[..]) == multiset(old(a[..]))
    {
      var j := i + 1;
      while j < a.Length
        invariant i < j <= a.Length
        invariant forall p, q :: 0 <= p < i && p < q < a.Length ==> a[p].score >= a[q].score
        invariant forall q :: i < q < j ==> a[i].score >= a[q].score
        invariant multiset(a[..]) == multiset(old(a[..]))
      {
        if a[j].score > a[i].score {
          a[i], a[j] := a[j], a[i];
        }
        j := j + 1;
      }
      i := i + 1;
    }
  }

  /** `userScores[:count]` when `0 < count < len`, the whole list otherwise. */
  function Truncate(s: seq<UserScore>, count: int): (t: seq<UserScore>)
    ensures |t| == if 0 < count < |s| then count else |s|
    ensures t == s[..|t|]
  {
    if 0 < count < |s| then s[..count] else s
  }

  /** The user and score an entry carries. */
  function Scored(b: seq<Entry>): seq<UserScore>
  {
    seq(|b|, i requires 0 <= i < |b| => UserScore(b[i].user, b[i].score))
  }

  /**
   * What a leaderboard of `count` entries over `cands` is: ranks 1, 2, ...,
   * scores non-increasing, entries drawn from the candidates (all of them
   * unless cut), and no candidate left out scores above any entry kept.
   */
  predicate IsLeaderboardOf(board: seq<Entry>, cands: seq<UserScore>, count: int)
  {
    && |board| == (if 0 < count < |cands| then count else |cands|)
    && (forall i :: 0 <= i < |board| ==> board[i].rank == i + 1)
    && NonIncreasing(Scored(board))
    && multiset(Scored(board)) <= multiset(cands)
    && (forall c, i :: c in multiset(cands) - multiset(Scored(board)) && 0 <= i < |board| ==> c.score <= board[i].score)
  }

  /** The leaderboard loop: entry `i` gets rank `i + 1`. */
  method Rank(s: seq<UserScore>) returns (board: seq<Entry>)
    ensures Scored(board) == s
    ensures forall i :: 0 <= i < |board| ==> board[i].rank == i + 1
  {
    var entries := new Entry[|s|](i => Entry(User(0, ""), 0, 0));
    for i := 0 to |s|
      invariant forall k :: 0 <= k < i ==> entries[k] == Entry(s[k].user, s[k].score, k + 1)
    {
      entries[i] := Entry(s[i].user, s[i].score, i + 1);
    }
    board := entries[..];
    assert Scored(board) == s;
  }

  /** Sort, cut and rank the candidates, as both leaderboards do. */
  method BuildLeaderboard(cands: seq<UserScore>, count: int) returns (board: seq<Entry>)
    ensures IsLeaderboardOf(board, cands, count)
  {
    var a := new UserScore[|cands|](i requires 0 <= i < |cands| => cands[i]);
    assert a[..] == cands;
    SortByScore(a);
    var sorted := a[..];
    var kept := Truncate(sorted, count);
    board := Rank(kept);
    assert multiset(sorted) == multiset(cands);
    CutKeepsBest(sorted, |kept|);
    assert forall i :: 0 <= i < |board| ==> board[i].score == Scored(board)[i].score == sorted[i].score;
  }

  /** The tail cut off a sorted list scores no higher than anything kept. */
  lemma CutKeepsBest(sorted: seq<UserScore>, n: nat)
    requires NonIncreasing(sorted) && n <= |sorted|
    ensures multiset(sorted[..n]) <= multiset(sorted)
    ensures forall c, i :: c in multiset(sorted) - multiset(sorted[..n]) && 0 <= i < n ==> c.score <= sorted[i].score
  {
    assert sorted == sorted[..n] + sorted[n..];
    assert multiset(sorted) - multiset(sorted[..n]) == multiset(sorted[n..]);
    forall c, i | c in multiset(sorted) - multiset(sorted[..n]) && 0 <= i < n
      ensures c.score <= sorted[i].score
    {
      assert c in sorted[n..];
      var k :| 0 <= k < |sorted[n..]| && sorted[n..][k] == c;
      assert sorted[n + k] == c;
    }
  }

  /** Without a cut, a leaderboard holds every candidate exactly once. */
  lemma UncutIsPermutation(board: seq<Entry>, cands: seq<UserScore>, count: int)
    requires IsLeaderboardOf(board, cands, count)
    requires count <= 0 || count >= |cands|
    ensures multiset(Scored(board)) == multiset(cands)
  {
    var d := multiset(cands) - multiset(Scored(board));
    assert multiset(cands) == multiset(Scored(board)) + d;
    assert |d| == 0;
  }

  const Header := "**Leaderboard**"
  const EmptyBoard := "No entries in leaderboard"

  /** One entry's line, without its newline: `<rank>. <nick> - <score> pts`. */
  function LineText(e: Entry): string
  {
    Itoa(e.rank) + ". " + e.user.nick + " - " + Itoa(e.score) + " pts"
  }

  /** The entries' lines, in board order. */
  function LineTexts(b: seq<Entry>): (ls: seq<string>)
    ensures |ls| == |b|
    ensures forall i :: 0 <= i < |b| ==> ls[i] == LineText(b[i])
  {
    seq(|b|, i requires 0 <= i < |b| => LineText(b[i]))
  }

  /** Each line followed by a newline, in order. */
  function Terminated(ls: seq<string>): string
  {
    if ls == [] then "" else Terminated(ls[..|ls| - 1]) + ls[|ls| - 1] + "\n"
  }

  /** `Leaderboard.String`. */
  function Rendered(b: seq<Entry>): string
  {
    if |b| == 0 then EmptyBoard else Header + "\n" + Terminated(LineTexts(b))
  }

  /** `Leaderboard.String` as the builder loop writes it. */
  method Render(b: seq<Entry>) returns (text: string)
    ensures text == Rendered(b)
  {
    if |b| == 0 {
      return EmptyBoard;
    }
    ghost var ls := LineTexts(b);
    var body := "";
    for i := 0 to |b|
      invariant body == Terminated(ls[..i])
    {
      TerminatedStep(ls, i);
      var line := LineText(b[i]);
      body := body + line + "\n";
    }
    assert ls[..|b|] == ls;
    text := Header + "\n" + body;
  }

  lemma TerminatedStep(ls: seq<string>, i: nat)
    requires i < |ls|
    ensures Terminated(ls[..i + 1]) == Terminated(ls[..i]) + ls[i] + "\n"
  {
    assert ls[..i + 1][..i] == ls[..i];
  }

  /** Terminating two runs of lines one after the other keeps their order. */
  lemma {:induction false} TerminatedConcat(a: seq<string>, c: seq<string>)
    ensures Terminated(a + c) == Terminated(a) + Terminated(c)
    decreases |c|
  {
    if c == [] {
      assert a + c == a;
    } else {
      var p := c[..|c| - 1];
      assert (a + c)[..|a + c| - 1] == a + p;
      assert (a + c)[|a + c| - 1] == c[|c| - 1];
      TerminatedConcat(a, p);
    }
  }

  /**
   * Split at newlines, a non-empty board is the header, one line per entry
   * in order, and nothing after the last newline: `len + 1` lines, each
   * ended by a newline (nicks hold no newline).
   */
  lemma RenderedLines(b: seq<Entry>)
    requires |b| > 0
    requires forall i :: 0 <= i < |b| ==> '\n' !in b[i].user.nick
    ensures SplitOn(Rendered(b), '\n') == [Header] + LineTexts(b) + [""]
    ensures |SplitOn(Rendered(b), '\n')| == |b| + 2
  {
    var ls := LineTexts(b);
    forall i | 0 <= i < |ls| ensures '\n' !in ls[i] {
      LineTextPlain(b[i]);
    }
    SplitNoSeparator(Header, '\n');
    HeadedLines(Header, ls);
  }

  /** Splitting a header and terminated lines at newlines gives them back. */
  lemma {:induction false} HeadedLines(h: string, ls: seq<string>)
    requires '\n' !in h
    requires forall i :: 0 <= i < |ls| ==> '\n' !in ls[i]
    ensures SplitOn(h + "\n" + Terminated(ls), '\n') == [h] + ls + [""]
    decreases |ls|
  {
    SplitNoSeparator(h, '\n');
    if ls == [] {
      assert h + "\n" + Terminated(ls) == h + ['\n'] + "";
      SplitConcat(h, '\n', "");
    } else {
      var l, rest := ls[0], ls[1..];
      assert ls == [l] + rest;
      TerminatedConcat([l], rest);
      assert Terminated([l]) == l + "\n" by {
        assert [l][..0] == [];
      }
      HeadedLines(l, rest);
      assert h + "\n" + Terminated(ls) == h + ['\n'] + (l + "\n" + Terminated(rest));
      SplitConcat(h, '\n', l + "\n" + Terminated(rest));
    }
  }

  lemma LineTextPlain(e: Entry)
    requires '\n' !in e.user.nick
    ensures '\n' !in LineText(e)
  {
    DigitsPlain(e.rank);
    DigitsPlain(e.score);
  }

  lemma DigitsPlain(n: int)
    ensures '\n' !in Itoa(n)
  {
    var d := if n < 0 then NatDigits(-n) else NatDigits(n);
    assert forall k :: 0 <= k < |d| ==> IsDigit(d[k]);
  }
}
