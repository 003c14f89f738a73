/**
 * The helpers of internal/client/swince.go: the scanners behind
 * `extractUserMentions` and `parseNominations` (the regular expressions
 * `<@!?(\d+)>` and `<@!?(\d+)>\s+nominates\s+<@!?(\d+)>`, searched
 * leftmost-first for successive non-overlapping matches), `parseDiscordID`,
 * `isVideoFile` and `findSwinceChannel`.
 */
module Swince {
  import opened Wrappers
  import opened Text
  import opened Decimal

  // ---------------------------------------------------------------------
  // Mentions

  /** The length of the run of ASCII digits (`\d`) that starts `s`. */
  function DigitCount(s: string): (n: nat)
    ensures n <= |s|
    ensures forall i :: 0 <= i < n ==> IsDigit(s[i])
    ensures n < |s| ==> !IsDigit(s[n])
    decreases |s|
  {
    if s != [] && IsDigit(s[0]) then 1 + DigitCount(s[1..]) else 0
  }

  lemma {:induction false} DigitCountOf(d: string, rest: string)
    requires AllDigits(d)
    requires rest == [] || !IsDigit(rest[0])
    ensures DigitCount(d + rest) == |d|
    decreases |d|
  {
    if d == [] {
      assert d + rest == rest;
    } else {
      assert (d + rest)[1..] == d[1..] + rest;
      DigitCountOf(d[1..], rest);
    }
  }

  /** A match found at the start of some text: the captured digits and the length consumed. */
  datatype Mention = Mention(digits: string, len: nat)

  /** The mention syntax of Discord, `<@digits>` or `<@!digits>`. */
  function MentionText(d: string, bang: bool): string
  {
    (if bang then "<@!" else "<@") + d + ">"
  }

  /** `<@!?(\d+)>` anchored at the start of `s`. */
  function MentionAt(s: string): (r: Option<Mention>)
    ensures r.Some? ==> r.value.digits != [] && AllDigits(r.value.digits) && r.value.len <= |s|
  {
    if |s| < 2 || s[0] != '<' || s[1] != '@' then None
    else
      var j := if |s| > 2 && s[2] == '!' then 3 else 2;
      var n := DigitCount(s[j..]);
      if n > 0 && j + n < |s| && s[j + n] == '>' then Some(Mention(s[j..j + n], j + n + 1))
      else None
  }

  /** What a match is: the text it consumes is a mention of its digits. */
  lemma MentionAtMatches(s: string)
    ensures MentionAt(s).Some? ==>
      var m := MentionAt(s).value;
      s[..m.len] == MentionText(m.digits, false) || s[..m.len] == MentionText(m.digits, true)
  {
    if MentionAt(s).Some? {
      var j := if |s| > 2 && s[2] == '!' then 3 else 2;
      var n := DigitCount(s[j..]);
      assert s[j..j + n] == s[j..][..n];
      assert s[..j + n + 1] == s[..j] + s[j..j + n] + ">";
    }
  }

  /** `FindAllStringSubmatch` for the mention pattern: the captured digits, left to right. */
  function Mentions(s: string): (ds: seq<string>)
    ensures forall k :: 0 <= k < |ds| ==> ds[k] != [] && AllDigits(ds[k])
    decreases |s|
  {
    if s == [] then []
    else match MentionAt(s)
      case Some(m) =>
        var rest := Mentions(s[m.len..]);
        PrependDigits(m.digits, rest);
        [m.digits] + rest
      case None => Mentions(s[1..])
  }

  /** A non-empty run of digits in front of such runs. */
  lemma PrependDigits(d: string, rest: seq<string>)
    requires d != [] && AllDigits(d)
    requires forall k :: 0 <= k < |rest| ==> rest[k] != [] && AllDigits(rest[k])
    ensures forall k :: 0 <= k < |[d] + rest| ==> ([d] + rest)[k] != [] && AllDigits(([d] + rest)[k])
  {
    forall k | 0 < k < |[d] + rest| ensures ([d] + rest)[k] == rest[k - 1] {
    }
  }

  lemma MentionAtRendered(d: string, bang: bool, rest: string)
    requires d != [] && AllDigits(d)
    ensures MentionAt(MentionText(d, bang) + rest) == Some(Mention(d, |MentionText(d, bang)|))
  {
    var s := MentionText(d, bang) + rest;
    var pre := if bang then "<@!" else "<@";
    var j := |pre|;
    var after := d + (">" + rest);
    assert s[j..] == after by {
      DropFront(pre, d, ">", rest);
    }
    assert after[..|d|] == d && after[|d|] == '>';
    assert DigitCount(s[j..]) == |d| by {
      DigitCountOf(d, ">" + rest);
    }
    assert s[j..j + |d|] == d by {
      assert s[j..j + |d|] == after[..|d|];
    }
    assert s[0] == '<' && s[1] == '@' && s[j + |d|] == '>';
    assert |s| > 2 && s[2] == '!' <==> bang;
  }

  /** A rendered mention is read back as its digits, whatever follows it. */
  lemma MentionsCons(d: string, bang: bool, rest: string)
    requires d != [] && AllDigits(d)
    ensures Mentions(MentionText(d, bang) + rest) == [d] + Mentions(rest)
  {
    var s := MentionText(d, bang) + rest;
    MentionAtRendered(d, bang, rest);
    assert s[|MentionText(d, bang)|..] == rest;
  }

  /** Text without a `<` holds no mention and hides none that follows it. */
  lemma {:induction false} MentionsSkip(x: string, rest: string)
    requires '<' !in x
    ensures Mentions(x + rest) == Mentions(rest)
    decreases |x|
  {
    if x != [] {
      assert (x + rest)[0] == x[0];
      assert (x + rest)[1..] == x[1..] + rest;
      MentionsSkip(x[1..], rest);
    } else {
      assert x + rest == rest;
    }
  }

  /**
   * `parseDiscordID`: `fmt.Sscanf` with `%d` into an `int64` that starts at
   * 0, so any scanning failure yields 0.
   */
  function ParseDiscordId(idStr: string): (id: int)
    ensures MinInt64 <= id <= MaxInt64
  {
    match ScanInt64(idStr)
    case Some(v) => v
    case None => 0
  }

  /** A captured run of digits reads as its value, or 0 when that overflows `int64`. */
  lemma ParseDigits(d: string)
    requires d != [] && AllDigits(d)
    ensures ParseDiscordId(d) == if Value(d) <= MaxInt64 then Value(d) else 0
  {
    assert d[0] == d[0];
    assert SkipScanSpace(d) == Some(d);
    NumberRunOfDigits(d, []);
    assert d + [] == d;
    assert d[..|d|] == d;
  }

  /** Each captured id as `parseDiscordID` reads it. */
  function ParsedIds(ds: seq<string>): (ids: seq<int>)
    ensures |ids| == |ds| && forall k :: 0 <= k < |ds| ==> ids[k] == ParseDiscordId(ds[k])
  {
    seq(|ds|, k requires 0 <= k < |ds| => ParseDiscordId(ds[k]))
  }

  /** The ids that `extractUserMentions` keeps: those that are not 0, in order. */
  function NonZero(ids: seq<int>): (kept: seq<int>)
    ensures |kept| <= |ids|
    ensures forall k :: 0 <= k < |kept| ==> kept[k] != 0 && kept[k] in ids
    ensures forall x :: x in ids && x != 0 ==> x in kept
  {
    if ids == [] then []
    else
      var x := ids[|ids| - 1];
      var kept := NonZero(ids[..|ids| - 1]);
      assert forall y :: y in ids ==> y in ids[..|ids| - 1] || y == x;
      kept + (if x != 0 then [x] else [])
  }

  /** One step of the loop of `extractUserMentions`. */
  lemma KeepNonZeroStep(xs: seq<int>, i: nat, kept: seq<int>)
    requires i < |xs| && kept == NonZero(xs[..i])
    ensures NonZero(xs[..i + 1]) == if xs[i] != 0 then kept + [xs[i]] else kept
  {
    assert xs[..i + 1][..i] == xs[..i];
  }

  lemma {:induction false} NonZeroConcat(a: seq<int>, b: seq<int>)
    ensures NonZero(a + b) == NonZero(a) + NonZero(b)
    decreases |b|
  {
    if b == [] {
      assert a + b == a;
    } else {
      var c := a + b;
      assert c[..|c| - 1] == a + b[..|b| - 1];
      assert c[|c| - 1] == b[|b| - 1];
      NonZeroConcat(a, b[..|b| - 1]);
    }
  }

  /** What `extractUserMentions` returns for `content`. */
  function UserMentions(content: string): seq<int>
  {
    NonZero(ParsedIds(Mentions(content)))
  }

  /** Every captured id reads as a positive `int64`, or is dropped. */
  lemma MentionIdsPositive(content: string)
    ensures forall k :: 0 <= k < |UserMentions(content)| ==> 0 < UserMentions(content)[k] <= MaxInt64
  {
    var ds := Mentions(content);
    var ps := ParsedIds(ds);
    forall k | 0 <= k < |ps|
      ensures ps[k] >= 0
    {
      ParseDigits(ds[k]);
    }
  }

  /** `extractUserMentions`. */
  method ExtractUserMentions(content: string) returns (ids: seq<int>)
    ensures ids == UserMentions(content)
    ensures forall k :: 0 <= k < |ids| ==> 0 < ids[k] <= MaxInt64
  {
    var matches := Mentions(content);
    ghost var parsed := ParsedIds(matches);
    ids := [];
    for i := 0 to |matches|
      invariant ids == NonZero(parsed[..i])
    {
      var id := ParseDiscordId(matches[i]);
      assert id == parsed[i];
      KeepNonZeroStep(parsed, i, ids);
      if id != 0 {
        ids := ids + [id];
      }
    }
    assert parsed[..|matches|] == parsed;
    MentionIdsPositive(content);
  }

  /** `fmt.Sprintf("<@%d>", id)`, the way the bot writes a mention. */
  function Ping(id: int): string
  {
    MentionText(Itoa(id), false)
  }

  /** The mentions of several users, separated by a space as in the final post. */
  function PingAll(ids: seq<int>): string
  {
    Join(Pings(ids), " ")
  }

  /** Each user's mention, in order. */
  function Pings(ids: seq<int>): (ps: seq<string>)
    ensures |ps| == |ids| && forall k :: 0 <= k < |ids| ==> ps[k] == Ping(ids[k])
  {
    seq(|ids|, k requires 0 <= k < |ids| => Ping(ids[k]))
  }

  lemma PingAllCons(ids: seq<int>)
    requires |ids| > 0
    ensures PingAll(ids) == Ping(ids[0]) + (if |ids| == 1 then "" else " " + PingAll(ids[1..]))
  {
    if |ids| > 1 {
      assert Pings(ids)[1..] == Pings(ids[1..]);
      assert Join(Pings(ids), " ") == Pings(ids)[0] + " " + Join(Pings(ids)[1..], " ");
      AppendAssoc(Ping(ids[0]), " ", PingAll(ids[1..]));
    }
  }

  lemma UserMentionsCons(d: string, rest: string)
    requires d != [] && AllDigits(d)
    ensures UserMentions(MentionText(d, false) + rest) == NonZero([ParseDiscordId(d)]) + UserMentions(rest)
  {
    var ms := Mentions(rest);
    assert Mentions(MentionText(d, false) + rest) == [d] + ms by {
      MentionsCons(d, false, rest);
    }
    ParsedIdsCons(d, ms);
    NonZeroConcat([ParseDiscordId(d)], ParsedIds(ms));
  }

  lemma ParsedIdsCons(d: string, ms: seq<string>)
    ensures ParsedIds([d] + ms) == [ParseDiscordId(d)] + ParsedIds(ms)
  {
    var whole, tail := ParsedIds([d] + ms), ParsedIds(ms);
    forall k | 0 <= k < |whole| ensures whole[k] == ([ParseDiscordId(d)] + tail)[k] {
      if k > 0 {
        assert ([d] + ms)[k] == ms[k - 1];
      }
    }
  }

  lemma PingReadsBack(id: int)
    requires 0 < id <= MaxInt64
    ensures NonZero([ParseDiscordId(Itoa(id))]) == [id]
  {
    ParseDigits(Itoa(id));
    NatDigitsValue(id);
    assert NonZero([id]) == NonZero([][..0]) + [id];
  }

  lemma PingAllSingle(id: int)
    requires 0 < id <= MaxInt64
    ensures UserMentions(PingAll([id])) == [id]
  {
    PingAllCons([id]);
    UserMentionsCons(Itoa(id), "");
    PingReadsBack(id);
    assert UserMentions("") == [];
  }

  lemma PingAllStep(ids: seq<int>)
    requires |ids| > 1 && 0 < ids[0] <= MaxInt64
    requires UserMentions(PingAll(ids[1..])) == ids[1..]
    ensures UserMentions(PingAll(ids)) == ids
  {
    var tail := PingAll(ids[1..]);
    assert PingAll(ids) == Ping(ids[0]) + (" " + tail) by {
      PingAllCons(ids);
    }
    assert UserMentions(Ping(ids[0]) + (" " + tail)) == [ids[0]] + ids[1..] by {
      PingThen(ids[0], " " + tail);
      SpaceHidesNoMention(tail);
    }
    assert [ids[0]] + ids[1..] == ids;
  }

  /** A mention the bot writes is read back first, whatever follows it. */
  lemma PingThen(id: int, rest: string)
    requires 0 < id <= MaxInt64
    ensures UserMentions(Ping(id) + rest) == [id] + UserMentions(rest)
  {
    UserMentionsCons(Itoa(id), rest);
    PingReadsBack(id);
  }

  lemma SpaceHidesNoMention(t: string)
    ensures UserMentions(" " + t) == UserMentions(t)
  {
    MentionsSkip(" ", t);
  }

  /**
   * Reading the mentions back out of `PingAll` gives the users back, in
   * order, for every user id in the positive `int64` range.
   */
  lemma {:induction false} PingAllRoundTrip(ids: seq<int>)
    requires forall k :: 0 <= k < |ids| ==> 0 < ids[k] <= MaxInt64
    ensures UserMentions(PingAll(ids)) == ids
    decreases |ids|
  {
    if |ids| == 1 {
      PingAllSingle(ids[0]);
    } else if |ids| > 1 {
      PingAllRoundTrip(ids[1..]);
      PingAllStep(ids);
    }
  }

  // ---------------------------------------------------------------------
  // Nominations

  /** `\s` of Go's regular expressions: `[\t\n\f\r ]`. */
  predicate IsRegexSpace(c: char)
  {
    c == '\t' || c == '\n' || c == '\U{000C}' || c == '\r' || c == ' '
  }

  /** The length of the run of `\s` that starts `s`. */
  function RegexSpaceRun(s: string): (n: nat)
    ensures n <= |s|
    ensures forall i :: 0 <= i < n ==> IsRegexSpace(s[i])
    ensures n < |s| ==> !IsRegexSpace(s[n])
    decreases |s|
  {
    if s != [] && IsRegexSpace(s[0]) then 1 + RegexSpaceRun(s[1..]) else 0
  }

  const Nominates: string := "nominates"

  /** One match of the nomination pattern: the two captured ids and the length consumed. */
  datatype Pair = Pair(nominator: string, nominee: string, len: nat)

  /** The length of a match of `\s+nominates\s+` at the start of `t`, or 0 when there is none. */
  function Connective(t: string): (c: nat)
    ensures c <= |t|
  {
    var n1 := RegexSpaceRun(t);
    if n1 == 0 || !HasPrefix(t[n1..], Nominates) then 0
    else
      var n2 := RegexSpaceRun(t[n1 + |Nominates|..]);
      if n2 == 0 then 0 else n1 + |Nominates| + n2
  }

  /** The rest of the nomination pattern once its first mention `a` is read; `t` is what follows it. */
  function PairAfter(a: Mention, t: string): (r: Option<Pair>)
    ensures r.Some? ==> r.value.nominator == a.digits && a.len < r.value.len <= a.len + |t|
    ensures r.Some? ==> r.value.nominee != [] && AllDigits(r.value.nominee)
  {
    var c := Connective(t);
    if c == 0 then None
    else match MentionAt(t[c..])
      case None => None
      case Some(b) => Some(Pair(a.digits, b.digits, a.len + c + b.len))
  }

  /** `<@!?(\d+)>\s+nominates\s+<@!?(\d+)>` anchored at the start of `s`. */
  function NominationAt(s: string): (r: Option<Pair>)
    ensures r.Some? ==> 0 < r.value.len <= |s|
    ensures r.Some? ==> r.value.nominator != [] && AllDigits(r.value.nominator)
    ensures r.Some? ==> r.value.nominee != [] && AllDigits(r.value.nominee)
  {
    match MentionAt(s)
    case None => None
    case Some(a) => PairAfter(a, s[a.len..])
  }

  /** `FindAllStringSubmatch` for the nomination pattern, left to right. */
  function Nominations(s: string): (ps: seq<Pair>)
    ensures forall k :: 0 <= k < |ps| ==> ps[k].nominator != [] && AllDigits(ps[k].nominator)
    ensures forall k :: 0 <= k < |ps| ==> ps[k].nominee != [] && AllDigits(ps[k].nominee)
    decreases |s|
  {
    if s == [] then []
    else match NominationAt(s)
      case Some(p) =>
        var rest := Nominations(s[p.len..]);
        PrependPair(p, rest);
        [p] + rest
      case None => Nominations(s[1..])
  }

  /** A well-formed match in front of well-formed matches. */
  lemma PrependPair(p: Pair, rest: seq<Pair>)
    requires p.nominator != [] && AllDigits(p.nominator) && p.nominee != [] && AllDigits(p.nominee)
    requires forall k :: 0 <= k < |rest| ==> rest[k].nominator != [] && AllDigits(rest[k].nominator)
    requires forall k :: 0 <= k < |rest| ==> rest[k].nominee != [] && AllDigits(rest[k].nominee)
    ensures forall k :: 0 <= k < |[p] + rest| ==> ([p] + rest)[k].nominator != [] && AllDigits(([p] + rest)[k].nominator)
    ensures forall k :: 0 <= k < |[p] + rest| ==> ([p] + rest)[k].nominee != [] && AllDigits(([p] + rest)[k].nominee)
  {
    forall k | 0 < k < |[p] + rest| ensures ([p] + rest)[k] == rest[k - 1] {
    }
  }

  /** Each match's two ids as `parseDiscordID` reads them. */
  function ParsedPairs(ps: seq<Pair>): (ns: seq<(int, int)>)
    ensures |ns| == |ps|
  {
    seq(|ps|, k requires 0 <= k < |ps| => (ParseDiscordId(ps[k].nominator), ParseDiscordId(ps[k].nominee)))
  }

  /** The map `parseNominations` builds: pairs with a 0 are dropped, later pairs overwrite earlier ones. */
  function NominationMap(ns: seq<(int, int)>): map<int, int>
  {
    if ns == [] then map[]
    else
      var n := ns[|ns| - 1];
      var m := NominationMap(ns[..|ns| - 1]);
      if n.0 != 0 && n.1 != 0 then m[n.0 := n.1] else m
  }

  /** What `parseNominations` returns for `content`. */
  function NominationsIn(content: string): map<int, int>
  {
    NominationMap(ParsedPairs(Nominations(content)))
  }

  /** Whether the i-th pair is kept and names nominator `k`. */
  predicate NamesAt(ns: seq<(int, int)>, i: int, k: int)
    requires 0 <= i < |ns|
  {
    ns[i].0 == k && k != 0 && ns[i].1 != 0
  }

  /**
   * A nominator is in the map exactly when some kept pair names it, and it
   * is mapped to the nominee of the last such pair.
   */
  lemma {:induction false} NominationMapLast(ns: seq<(int, int)>, k: int)
    ensures k in NominationMap(ns) <==> exists i :: 0 <= i < |ns| && NamesAt(ns, i, k)
    ensures forall i :: 0 <= i < |ns| && NamesAt(ns, i, k) && (forall j :: i < j < |ns| ==> !NamesAt(ns, j, k)) ==>
              k in NominationMap(ns) && NominationMap(ns)[k] == ns[i].1
    decreases |ns|
  {
    if ns != [] {
      var n := |ns| - 1;
      var init := ns[..n];
      NominationMapLast(init, k);
      assert forall i :: 0 <= i < n ==> (NamesAt(init, i, k) <==> NamesAt(ns, i, k));
      if !NamesAt(ns, n, k) {
        assert (exists i :: 0 <= i < |ns| && NamesAt(ns, i, k)) ==> exists i :: 0 <= i < n && NamesAt(init, i, k);
      } else {
        assert NamesAt(ns, n, k);
      }
    }
  }

  lemma NominationMapStep(ps: seq<Pair>, i: nat)
    requires i < |ps|
    ensures var a := ParseDiscordId(ps[i].nominator);
            var b := ParseDiscordId(ps[i].nominee);
            var m := NominationMap(ParsedPairs(ps)[..i]);
            NominationMap(ParsedPairs(ps)[..i + 1]) == if a != 0 && b != 0 then m[a := b] else m
  {
    var ns := ParsedPairs(ps);
    assert ns[i] == (ParseDiscordId(ps[i].nominator), ParseDiscordId(ps[i].nominee));
    NominationMapSnoc(ns, i);
  }

  lemma NominationMapSnoc(ns: seq<(int, int)>, i: nat)
    requires i < |ns|
    ensures var m := NominationMap(ns[..i]);
            NominationMap(ns[..i + 1]) == if ns[i].0 != 0 && ns[i].1 != 0 then m[ns[i].0 := ns[i].1] else m
  {
    assert ns[..i + 1][..i] == ns[..i];
  }

  /** `parseNominations`. */
  method ParseNominations(content: string) returns (nominations: map<int, int>)
    ensures nominations == NominationsIn(content)
  {
    var matches := Nominations(content);
    ghost var parsed := ParsedPairs(matches);
    nominations := map[];
    for i := 0 to |matches|
      invariant nominations == NominationMap(parsed[..i])
    {
      var nominator := ParseDiscordId(matches[i].nominator);
      var nominee := ParseDiscordId(matches[i].nominee);
      NominationMapStep(matches, i);
      if nominator != 0 && nominee != 0 {
        nominations := nominations[nominator := nominee];
      }
    }
    assert parsed[..|matches|] == parsed;
  }

  /** The words between the two mentions of a nomination, as the bot asks for them. */
  const Connector: string := " " + Nominates + " "

  /** The connective the bot asks for is matched in full, whatever mention follows it. */
  lemma ConnectorMatches(rest: string)
    requires rest == [] || !IsRegexSpace(rest[0])
    ensures Connective(Connector + rest) == |Connector|
  {
    var t := Connector + rest;
    assert t[1..] == Nominates + (" " + rest);
    assert RegexSpaceRun(t[1..]) == 0;
    assert RegexSpaceRun(t) == 1;
    assert HasPrefix(t[1..], Nominates);
    var u := t[1 + |Nominates|..];
    assert u == " " + rest;
    assert u[1..] == rest;
    assert RegexSpaceRun(u) == 1;
  }

  lemma PairAfterOf(a: Mention, t: string, c: nat, b: Mention)
    requires Connective(t) == c && 0 < c <= |t|
    requires MentionAt(t[c..]) == Some(b)
    ensures PairAfter(a, t) == Some(Pair(a.digits, b.digits, a.len + c + b.len))
  {
  }

  lemma NominationAtFirst(s: string, a: Mention)
    requires MentionAt(s) == Some(a)
    ensures NominationAt(s) == PairAfter(a, s[a.len..])
  {
  }

  /**
   * A mention `a`, a connective of length `c` and a mention `b`, one after
   * the other, are read as one nomination that consumes all three.
   */
  lemma NominationFromParts(s: string, a: Mention, c: nat, b: Mention)
    requires MentionAt(s) == Some(a)
    requires Connective(s[a.len..]) == c && 0 < c <= |s[a.len..]|
    requires MentionAt(s[a.len..][c..]) == Some(b)
    ensures NominationAt(s) == Some(Pair(a.digits, b.digits, a.len + c + b.len))
  {
    assert NominationAt(s) == PairAfter(a, s[a.len..]) by {
      NominationAtFirst(s, a);
    }
    assert PairAfter(a, s[a.len..]) == Some(Pair(a.digits, b.digits, a.len + c + b.len)) by {
      PairAfterOf(a, s[a.len..], c, b);
    }
  }

  // ---------------------------------------------------------------------
  // Video files

  const VideoExtensions: seq<string> := [".mp4", ".mov", ".avi", ".mkv", ".webm", ".m4v"]

  /** What `isVideoFile` decides. */
  predicate IsVideoName(filename: string)
  {
    exists i :: 0 <= i < |VideoExtensions| && HasSuffix(Lower(filename), VideoExtensions[i])
  }

  /** `isVideoFile`. */
  method IsVideoFile(filename: string) returns (r: bool)
    ensures r == IsVideoName(filename)
  {
    var lowered := Lower(filename);
    for i := 0 to |VideoExtensions|
      invariant forall j :: 0 <= j < i ==> !HasSuffix(lowered, VideoExtensions[j])
    {
      if HasSuffix(lowered, VideoExtensions[i]) {
        return true;
      }
    }
    return false;
  }

  /** Every name ending in one of the extensions, in any letter case, is a video. */
  lemma VideoWithExtension(stem: string, ext: string)
    requires Lower(ext) in VideoExtensions
    ensures IsVideoName(stem + ext)
  {
    LowerConcat(stem, ext);
    var i :| 0 <= i < |VideoExtensions| && VideoExtensions[i] == Lower(ext);
    assert Lower(stem + ext)[|Lower(stem + ext)| - |ext|..] == Lower(ext);
  }

  /** Every extension starts with a dot, so a name without one is never a video. */
  lemma NoDotNoVideo(filename: string)
    requires '.' !in filename
    ensures !IsVideoName(filename)
  {
    var l := Lower(filename);
    forall i | 0 <= i < |VideoExtensions|
      ensures !HasSuffix(l, VideoExtensions[i])
    {
      var e := VideoExtensions[i];
      assert e[0] == '.';
      if |e| <= |l| {
        var k := |l| - |e|;
        assert filename[k] != '.';
        assert l[k..][0] == l[k] != '.';
      }
    }
  }

  // ---------------------------------------------------------------------
  // The swince channel

  /** `discordgo.ChannelTypeGuildText`. */
  const GuildText: int := 0

  datatype Channel = Channel(id: string, kind: int, name: string, topic: string)

  /** The test of `findSwinceChannel`. */
  predicate IsSwinceChannel(c: Channel)
  {
    c.kind == GuildText && (Contains(Lower(c.name), "swince") || Contains(Lower(c.topic), "swince"))
  }

  /** The index of the first channel that passes the test, if any. */
  function FirstSwinceChannel(cs: seq<Channel>): (r: Option<nat>)
    ensures r.Some? ==> r.value < |cs| && IsSwinceChannel(cs[r.value])
    ensures r.Some? ==> forall j :: 0 <= j < r.value ==> !IsSwinceChannel(cs[j])
    ensures r.None? ==> forall j :: 0 <= j < |cs| ==> !IsSwinceChannel(cs[j])
  {
    if cs == [] then None
    else if IsSwinceChannel(cs[0]) then Some(0)
    else match FirstSwinceChannel(cs[1..])
      case None => None
      case Some(i) => Some(i + 1)
  }

  /** What `findSwinceChannel` returns for a `GuildChannels` answer. */
  function SwinceChannelOf(lookup: Result<seq<Channel>>): string
  {
    if lookup.Err? then ""
    else match FirstSwinceChannel(lookup.value)
      case None => ""
      case Some(i) => lookup.value[i].id
  }

  /**
   * `findSwinceChannel`, given what `GuildChannels` answers: the id of the
   * first matching channel, or "" when the lookup fails or none matches.
   */
  method FindSwinceChannel(lookup: Result<seq<Channel>>) returns (id: string)
    ensures id == SwinceChannelOf(lookup)
  {
    if lookup.Err? {
      return "";
    }
    var channels := lookup.value;
    for i := 0 to |channels|
      invariant forall j :: 0 <= j < i ==> !IsSwinceChannel(channels[j])
    {
      if IsSwinceChannel(channels[i]) {
        FirstIsUnique(channels, i);
        return channels[i].id;
      }
    }
    return "";
  }

  lemma FirstIsUnique(cs: seq<Channel>, i: nat)
    requires i < |cs| && IsSwinceChannel(cs[i])
    requires forall j :: 0 <= j < i ==> !IsSwinceChannel(cs[j])
    ensures FirstSwinceChannel(cs) == Some(i)
  {
    var r := FirstSwinceChannel(cs);
    assert r.Some?;
    assert !(r.value < i) && !(i < r.value);
  }

  /** A successful lookup answers with the first channel that passes the test. */
  lemma SwinceChannelFound(cs: seq<Channel>, i: nat)
    requires i < |cs| && IsSwinceChannel(cs[i])
    requires forall j :: 0 <= j < i ==> !IsSwinceChannel(cs[j])
    ensures SwinceChannelOf(Ok(cs)) == cs[i].id
  {
    FirstIsUnique(cs, i);
  }
}
