// The first ruleset, internal/ruleset/v0.go: one point per swince, two per
// nomination of yours that was answered, two per nomination you answered,
// all counted over one season's time range.

module SeasonRules {
  import opened Wrappers
  import opened Decimal
  import opened Discord
  import opened Boards

  /** `seasonNotSet`: the index a ruleset holds until `setSeason`. */
  const SeasonNotSet := -1

  const NoSeason := "season not set for ruleset"

  /**
   * The queries the rulesets issue, as functions of their arguments (times
   * are instants on one integer clock). A count query stands for the
   * number of rows the query returns for a participant between two times.
   */
  datatype Db = Db(
    seasonStart: int -> Result<int>,
    nextSeasonStart: int -> Result<int>,
    swinces: (string, int, int) -> Result<nat>,
    nominations: (string, int, int) -> Result<nat>,
    fulfillments: (string, int, int) -> Result<nat>,
    usersInSeason: (int, int) -> Result<seq<string>>,
    seasonId: int -> Result<int>)

  datatype Range = Range(start: int, end: int)

  /**
   * `getSeasonTimeRange`: the season's start, up to the next season's start,
   * or up to `now` (the clock) when there is no next season.
   */
  function SeasonRange(season: int, db: Db, now: int): (r: Result<Range>)
    ensures r.Err? <==> season == SeasonNotSet || db.seasonStart(season).Err?
    ensures season == SeasonNotSet ==> r == Err("season index not set")
    ensures season != SeasonNotSet && db.seasonStart(season).Err? ==>
      r == Err("getting season start: " + db.seasonStart(season).error)
    ensures r.Ok? ==> r.value.start == db.seasonStart(season).value
    ensures r.Ok? && db.nextSeasonStart(r.value.start).Ok? ==> r.value.end == db.nextSeasonStart(r.value.start).value
    ensures r.Ok? && db.nextSeasonStart(r.value.start).Err? ==> r.value.end == now
  {
    if season == SeasonNotSet then Err("season index not set")
    else match db.seasonStart(season)
      case Err(e) => Err("getting season start: " + e)
      case Ok(start) =>
        match db.nextSeasonStart(start)
        case Err(_) => Ok(Range(start, now))
        case Ok(next) => Ok(Range(start, next))
  }

  /** How many swinces, answered nominations and answers a user has. */
  datatype Tally = Tally(swinces: nat, nominations: nat, fulfillments: nat)

  /** The weights of the ruleset. */
  function Points(t: Tally): nat
  {
    t.swinces + 2 * t.nominations + 2 * t.fulfillments
  }

  /** The participant id the queries take: the user id in decimal. */
  function Participant(u: User): string
  {
    Itoa(u.id)
  }

  /** The three counts `Score` and `ScoreStr` look up, or the first error. */
  function Counts(season: int, db: Db, now: int, u: User): (r: Result<Tally>)
    ensures season == SeasonNotSet ==> r == Err(NoSeason)
    ensures season != SeasonNotSet && SeasonRange(season, db, now).Err? ==>
      r == Err("getting season time range: " + SeasonRange(season, db, now).error)
    ensures r.Ok? <==>
      && season != SeasonNotSet
      && SeasonRange(season, db, now).Ok?
      && var g := SeasonRange(season, db, now).value;
      && db.swinces(Participant(u), g.start, g.end).Ok?
      && db.nominations(Participant(u), g.start, g.end).Ok?
      && db.fulfillments(Participant(u), g.start, g.end).Ok?
    ensures r.Ok? ==>
      var g := SeasonRange(season, db, now).value;
      && r.value.swinces == db.swinces(Participant(u), g.start, g.end).value
      && r.value.nominations == db.nominations(Participant(u), g.start, g.end).value
      && r.value.fulfillments == db.fulfillments(Participant(u), g.start, g.end).value
  {
    if season == SeasonNotSet then Err(NoSeason)
    else match SeasonRange(season, db, now)
      case Err(e) => Err("getting season time range: " + e)
      case Ok(g) =>
        var who := Participant(u);
        match db.swinces(who, g.start, g.end)
        case Err(e) => Err("getting user swinces: " + e)
        case Ok(s) =>
          match db.nominations(who, g.start, g.end)
          case Err(e) => Err("getting user nominations: " + e)
          case Ok(n) =>
            match db.fulfillments(who, g.start, g.end)
            case Err(e) => Err("getting user fulfillments: " + e)
            case Ok(f) => Ok(Tally(s, n, f))
  }

  /** `v0.Score`. */
  function Score(season: int, db: Db, now: int, u: User): (r: Result<int>)
    ensures r.Ok? <==> Counts(season, db, now, u).Ok?
    ensures r.Err? ==> r.error == Counts(season, db, now, u).error
    ensures r.Ok? ==> r.value >= 0
    ensures r.Ok? ==>
      var t := Counts(season, db, now, u).value;
      r.value == t.swinces + 2 * t.nominations + 2 * t.fulfillments
  {
    match Counts(season, db, now, u)
    case Err(e) => Err(e)
    case Ok(t) => Ok(Points(t))
  }

  /**
   * The `ScoreStr` line for a tally: the total, then each count with the
   * points it is worth; the three point values add up to the total.
   */
  function Breakdown(t: Tally): string
  {
    var swinceScore, nominationScore, fulfillmentScore := t.swinces, 2 * t.nominations, 2 * t.fulfillments;
    "Total: " + (Itoa(swinceScore + nominationScore + fulfillmentScore) + Details(t))
  }

  /** Everything of the `ScoreStr` line after the total's digits. */
  function Details(t: Tally): string
  {
    "pts, Swinces: " + Itoa(t.swinces) + " (" + Itoa(t.swinces)
    + "pts), Nominations: " + Itoa(t.nominations) + " (" + Itoa(2 * t.nominations)
    + "pts), Responses: " + Itoa(t.fulfillments) + " (" + Itoa(2 * t.fulfillments) + "pts)"
  }

  /** `v0.ScoreStr`. */
  function ScoreStr(season: int, db: Db, now: int, u: User): Result<string>
  {
    match Counts(season, db, now, u)
    case Err(e) => Err(e)
    case Ok(t) => Ok(Breakdown(t))
  }

  /**
   * `ScoreStr` fails exactly when `Score` does, with the same error, and
   * otherwise opens with the score's total, which reads back as that score.
   */
  lemma ScoreStrAgrees(season: int, db: Db, now: int, u: User)
    ensures ScoreStr(season, db, now, u).Ok? <==> Score(season, db, now, u).Ok?
    ensures ScoreStr(season, db, now, u).Err? ==> ScoreStr(season, db, now, u).error == Score(season, db, now, u).error
    ensures ScoreStr(season, db, now, u).Ok? && Score(season, db, now, u).value <= MaxInt64 ==>
      var text := ScoreStr(season, db, now, u).value;
      |text| >= 7 && text[..7] == "Total: " && ScanInt64(text[7..]) == Some(Score(season, db, now, u).value)
  {
    if Counts(season, db, now, u).Ok? {
      var t := Counts(season, db, now, u).value;
      var total := Points(t);
      var rest := Details(t);
      var text := Breakdown(t);
      assert text == "Total: " + (NatDigits(total) + rest);
      assert text[7..] == NatDigits(total) + rest;
      assert rest[0] == 'p';
      ScanNatDigits(total, rest);
    }
  }

  /** The participant ids `Leaderboard` scores, or the first error. */
  function SeasonUsers(season: int, db: Db, now: int): (r: Result<seq<string>>)
    ensures season == SeasonNotSet ==> r == Err(NoSeason)
    ensures season != SeasonNotSet && SeasonRange(season, db, now).Err? ==>
      r == Err("getting season time range: " + SeasonRange(season, db, now).error)
    ensures r.Ok? <==>
      && season != SeasonNotSet
      && SeasonRange(season, db, now).Ok?
      && db.usersInSeason(SeasonRange(season, db, now).value.start, SeasonRange(season, db, now).value.end).Ok?
    ensures r.Ok? ==>
      r.value == db.usersInSeason(SeasonRange(season, db, now).value.start, SeasonRange(season, db, now).value.end).value
  {
    if season == SeasonNotSet then Err(NoSeason)
    else match SeasonRange(season, db, now)
      case Err(e) => Err("getting season time range: " + e)
      case Ok(g) =>
        match db.usersInSeason(g.start, g.end)
        case Err(e) => Err("getting users in season: " + e)
        case Ok(ids) => Ok(ids)
  }

  /** What one participant id contributes to the season's candidates. */
  function CandidateOf(season: int, db: Db, now: int, idText: string): seq<UserScore>
  {
    match ScanUint64(idText)
    case None => []
    case Some(id) =>
      match Score(season, db, now, User(id, ""))
      case Err(_) => []
      case Ok(s) => [UserScore(User(id, ""), s)]
  }

  /** The scored users, in id order: ids that scan and whose score succeeds. */
  function Candidates(season: int, db: Db, now: int, ids: seq<string>): seq<UserScore>
  {
    if ids == [] then []
    else Candidates(season, db, now, ids[..|ids| - 1]) + CandidateOf(season, db, now, ids[|ids| - 1])
  }

  /**
   * A candidate is a user with an empty nick whose id is scanned from one
   * of the ids and whose score succeeded with that value; every id that
   * scans to a user whose score succeeds gives a candidate.
   */
  lemma CandidatesExactly(season: int, db: Db, now: int, ids: seq<string>)
    ensures |Candidates(season, db, now, ids)| <= |ids|
    ensures forall c :: c in Candidates(season, db, now, ids) ==>
      && c.user.nick == ""
      && Score(season, db, now, c.user) == Ok(c.score)
      && exists k :: 0 <= k < |ids| && ScanUint64(ids[k]) == Some(c.user.id)
    ensures forall k :: 0 <= k < |ids| && ScanUint64(ids[k]).Some? && Score(season, db, now, User(ScanUint64(ids[k]).value, "")).Ok? ==>
      UserScore(User(ScanUint64(ids[k]).value, ""), Score(season, db, now, User(ScanUint64(ids[k]).value, "")).value)
        in Candidates(season, db, now, ids)
  {
    CandidatesSound(season, db, now, ids);
    CandidatesComplete(season, db, now, ids);
  }

  /** What one id contributes: at most one candidate, exactly when it scans and scores. */
  lemma CandidateOfExactly(season: int, db: Db, now: int, x: string)
    ensures |CandidateOf(season, db, now, x)| <= 1
    ensures forall c :: c in CandidateOf(season, db, now, x) ==>
      c.user.nick == "" && Score(season, db, now, c.user) == Ok(c.score) && ScanUint64(x) == Some(c.user.id)
    ensures ScanUint64(x).Some? && Score(season, db, now, User(ScanUint64(x).value, "")).Ok? ==>
      UserScore(User(ScanUint64(x).value, ""), Score(season, db, now, User(ScanUint64(x).value, "")).value)
        in CandidateOf(season, db, now, x)
  {
  }

  lemma {:induction false} CandidatesSound(season: int, db: Db, now: int, ids: seq<string>)
    ensures |Candidates(season, db, now, ids)| <= |ids|
    ensures forall c :: c in Candidates(season, db, now, ids) ==>
      && c.user.nick == ""
      && Score(season, db, now, c.user) == Ok(c.score)
      && exists k :: 0 <= k < |ids| && ScanUint64(ids[k]) == Some(c.user.id)
  {
    if ids != [] {
      var p := ids[..|ids| - 1];
      var last := ids[|ids| - 1];
      CandidatesSound(season, db, now, p);
      CandidateOfExactly(season, db, now, last);
      var cs := Candidates(season, db, now, ids);
      assert cs == Candidates(season, db, now, p) + CandidateOf(season, db, now, last);
      forall c | c in cs
        ensures exists k :: 0 <= k < |ids| && ScanUint64(ids[k]) == Some(c.user.id)
      {
        if c in Candidates(season, db, now, p) {
          var k :| 0 <= k < |p| && ScanUint64(p[k]) == Some(c.user.id);
          assert ids[k] == p[k];
        } else {
          assert ScanUint64(ids[|ids| - 1]) == Some(c.user.id);
        }
      }
    }
  }

  lemma CandidatesComplete(season: int, db: Db, now: int, ids: seq<string>)
    ensures forall k :: 0 <= k < |ids| && ScanUint64(ids[k]).Some? && Score(season, db, now, User(ScanUint64(ids[k]).value, "")).Ok? ==>
      UserScore(User(ScanUint64(ids[k]).value, ""), Score(season, db, now, User(ScanUint64(ids[k]).value, "")).value)
        in Candidates(season, db, now, ids)
  {
    forall k | 0 <= k < |ids|
      ensures forall c :: c in CandidateOf(season, db, now, ids[k]) ==> c in Candidates(season, db, now, ids)
    {
      CandidatesCover(season, db, now, ids, k);
    }
    forall k | 0 <= k < |ids|
      ensures ScanUint64(ids[k]).Some? && Score(season, db, now, User(ScanUint64(ids[k]).value, "")).Ok? ==>
        UserScore(User(ScanUint64(ids[k]).value, ""), Score(season, db, now, User(ScanUint64(ids[k]).value, "")).value)
          in CandidateOf(season, db, now, ids[k])
    {
      CandidateOfExactly(season, db, now, ids[k]);
    }
  }

  /** Whatever an id contributes is among the candidates. */
  lemma {:induction false} CandidatesCover(season: int, db: Db, now: int, ids: seq<string>, k: nat)
    requires k < |ids|
    ensures forall c :: c in CandidateOf(season, db, now, ids[k]) ==> c in Candidates(season, db, now, ids)
    decreases |ids|
  {
    var p := ids[..|ids| - 1];
    assert Candidates(season, db, now, ids) == Candidates(season, db, now, p) + CandidateOf(season, db, now, ids[|ids| - 1]);
    if k < |p| {
      CandidatesCover(season, db, now, p, k);
      assert ids[k] == p[k];
    }
  }

  /** One ruleset instance: `v0` with its season index. */
  class V0 {
    var seasonIndex: int

    /** `NewV0`: the season is not set yet. */
    constructor ()
      ensures seasonIndex == SeasonNotSet
    {
      seasonIndex := SeasonNotSet;
    }

    /** `setSeason`. */
    method SetSeason(index: int)
      modifies this
      ensures seasonIndex == index
    {
      seasonIndex := index;
    }

    /**
     * `v0.Leaderboard`: the season's candidates sorted by score, cut to
     * `count` and ranked; or the first error on the way to the user list.
     */
    method Leaderboard(db: Db, now: int, count: int) returns (r: Result<seq<Entry>>)
      ensures r.Err? <==> SeasonUsers(seasonIndex, db, now).Err?
      ensures r.Err? ==> r.error == SeasonUsers(seasonIndex, db, now).error
      ensures r.Ok? ==> IsLeaderboardOf(r.value, Candidates(seasonIndex, db, now, SeasonUsers(seasonIndex, db, now).value), count)
    {
      var users := SeasonUsers(seasonIndex, db, now);
      if users.Err? {
        return Err(users.error);
      }
      var ids := users.value;
      var scores := [];
      for i := 0 to |ids|
        invariant scores == Candidates(seasonIndex, db, now, ids[..i])
      {
        assert ids[..i + 1][..i] == ids[..i];
        var parsed := ScanUint64(ids[i]);
        if parsed.None? {
          continue;
        }
        var user := User(parsed.value, "");
        var score := Score(seasonIndex, db, now, user);
        if score.Err? {
          continue;
        }
        scores := scores + [UserScore(user, score.value)];
      }
      assert ids[..|ids|] == ids;
      var board := BuildLeaderboard(scores, count);
      return Ok(board);
    }
  }
}
