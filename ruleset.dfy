// The table of rulesets, one per season (internal/ruleset/ruleset.go), and
// the scores and leaderboard summed over all seasons
// (internal/ruleset/all_time.go).

module Rulesets {
  import opened Wrappers
  import opened Discord
  import opened Boards
  import opened SeasonRules

  const NotInitialized := "rulesets not initialized"

  /**
   * What a ruleset lookup yields: a ruleset, an error, or the index panic
   * that `rulesets[seasonID]` raises for a negative season id.
   */
  datatype Choice = Chosen(ruleset: V0) | Failed(error: string) | IndexPanic(id: int)

  /** The score a season adds to the all-time total: nothing when it fails. */
  function ScoreOrZero(season: int, db: Db, now: int, u: User): (z: nat)
    ensures Score(season, db, now, u).Ok? ==> z == Score(season, db, now, u).value
    ensures Score(season, db, now, u).Err? ==> z == 0
  {
    match Score(season, db, now, u)
    case Err(_) => 0
    case Ok(s) => s
  }

  /** The sum of `Score` over the seasons whose `Score` succeeds. */
  function AllTimeTotal(seasons: seq<int>, db: Db, now: int, u: User): (total: int)
    ensures total >= 0
  {
    if seasons == [] then 0
    else AllTimeTotal(seasons[..|seasons| - 1], db, now, u) + ScoreOrZero(seasons[|seasons| - 1], db, now, u)
  }

  /** Every season a user scores in counts towards the all-time total. */
  lemma {:induction false} SeasonWithinAllTime(seasons: seq<int>, db: Db, now: int, u: User, k: nat)
    requires k < |seasons| && Score(seasons[k], db, now, u).Ok?
    ensures Score(seasons[k], db, now, u).value <= AllTimeTotal(seasons, db, now, u)
  {
    if k < |seasons| - 1 {
      var p := seasons[..|seasons| - 1];
      assert p[k] == seasons[k];
      SeasonWithinAllTime(p, db, now, u, k);
    }
  }

  /** A season that fails adds nothing: the total splits over seasons. */
  lemma {:induction false} AllTimeConcat(a: seq<int>, b: seq<int>, db: Db, now: int, u: User)
    ensures AllTimeTotal(a + b, db, now, u) == AllTimeTotal(a, db, now, u) + AllTimeTotal(b, db, now, u)
    decreases |b|
  {
    if b == [] {
      assert a + b == a;
    } else {
      var p := b[..|b| - 1];
      assert (a + b)[..|a + b| - 1] == a + p;
      assert (a + b)[|a + b| - 1] == b[|b| - 1];
      AllTimeConcat(a, p, db, now, u);
    }
  }

  /** A user with an empty nick paired with their all-time score. */
  predicate AllTimeScored(c: UserScore, seasons: seq<int>, db: Db, now: int)
  {
    c.user.nick == "" && c.score == AllTimeTotal(seasons, db, now, c.user)
  }

  /** The user ids among some scored users. */
  function IdsOf(cs: seq<UserScore>): set<int>
  {
    set c | c in cs :: c.user.id
  }

  lemma IdsOfSnoc(cs: seq<UserScore>, c: UserScore)
    ensures IdsOf(cs + [c]) == IdsOf(cs) + {c.user.id}
  {
    assert forall x :: x in cs + [c] <==> x in cs || x == c;
  }

  /** The user ids on a leaderboard. */
  function EntryIds(b: seq<Entry>): set<int>
  {
    set e | e in b :: e.user.id
  }

  /** The users of one season's uncut leaderboard, none when it fails. */
  function SeasonIds(season: int, db: Db, now: int): set<int>
  {
    match SeasonUsers(season, db, now)
    case Err(_) => {}
    case Ok(ids) => IdsOf(Candidates(season, db, now, ids))
  }

  /** The union of the users of the seasons' leaderboards. */
  function AllTimeUsers(seasons: seq<int>, db: Db, now: int): set<int>
  {
    if seasons == [] then {}
    else AllTimeUsers(seasons[..|seasons| - 1], db, now) + SeasonIds(seasons[|seasons| - 1], db, now)
  }

  /** The all-time users are exactly those some season's leaderboard has. */
  lemma AllTimeUsersExactly(seasons: seq<int>, db: Db, now: int)
    ensures forall id :: id in AllTimeUsers(seasons, db, now) <==>
      exists k :: 0 <= k < |seasons| && id in SeasonIds(seasons[k], db, now)
  {
    AllTimeUsersSound(seasons, db, now);
    forall k | 0 <= k < |seasons| ensures SeasonIds(seasons[k], db, now) <= AllTimeUsers(seasons, db, now) {
      AllTimeUsersCover(seasons, db, now, k);
    }
  }

  lemma {:induction false} AllTimeUsersSound(seasons: seq<int>, db: Db, now: int)
    ensures forall id :: id in AllTimeUsers(seasons, db, now) ==>
      exists k :: 0 <= k < |seasons| && id in SeasonIds(seasons[k], db, now)
  {
    if seasons != [] {
      var p := seasons[..|seasons| - 1];
      AllTimeUsersSound(p, db, now);
      assert AllTimeUsers(seasons, db, now) == AllTimeUsers(p, db, now) + SeasonIds(seasons[|seasons| - 1], db, now);
      forall id | id in AllTimeUsers(seasons, db, now)
        ensures exists k :: 0 <= k < |seasons| && id in SeasonIds(seasons[k], db, now)
      {
        if id in AllTimeUsers(p, db, now) {
          var k :| 0 <= k < |p| && id in SeasonIds(p[k], db, now);
          assert seasons[k] == p[k];
        }
      }
    }
  }

  /** Every season's users are among the all-time users. */
  lemma {:induction false} AllTimeUsersCover(seasons: seq<int>, db: Db, now: int, k: nat)
    requires k < |seasons|
    ensures SeasonIds(seasons[k], db, now) <= AllTimeUsers(seasons, db, now)
    decreases |seasons|
  {
    var p := seasons[..|seasons| - 1];
    var earlier, last := AllTimeUsers(p, db, now), SeasonIds(seasons[|seasons| - 1], db, now);
    assert AllTimeUsers(seasons, db, now) == earlier + last;
    if k < |p| {
      assert SeasonIds(seasons[k], db, now) <= earlier by {
        AllTimeUsersCover(p, db, now, k);
        assert seasons[k] == p[k];
      }
    } else {
      assert seasons[k] == seasons[|seasons| - 1];
    }
  }

  /** A leaderboard holding the same users and scores as some list has its ids. */
  lemma SameIds(board: seq<Entry>, cs: seq<UserScore>)
    requires multiset(Scored(board)) == multiset(cs)
    ensures EntryIds(board) == IdsOf(cs)
  {
    forall id | id in EntryIds(board) ensures id in IdsOf(cs) {
      var e :| e in board && e.user.id == id;
      var k :| 0 <= k < |board| && board[k] == e;
      assert Scored(board)[k] in multiset(cs);
    }
    forall id | id in IdsOf(cs) ensures id in EntryIds(board) {
      var c :| c in cs && c.user.id == id;
      assert c in multiset(Scored(board));
      var k :| 0 <= k < |board| && Scored(board)[k] == c;
      assert board[k] in board;
    }
  }

  /** The ids that the entries of a board, read in order, add to a set. */
  lemma EntryIdsStep(b: seq<Entry>, j: nat)
    requires j < |b|
    ensures EntryIds(b[..j + 1]) == EntryIds(b[..j]) + {b[j].user.id}
  {
    assert b[..j + 1] == b[..j] + [b[j]];
  }

  /** The global `rulesets` slice. */
  class Registry {
    var rulesets: seq<V0>

    /** Before `InitializeRulesets` the slice is empty. */
    constructor ()
      ensures rulesets == []
    {
      rulesets := [];
    }

    /** The season index of each ruleset, in order. */
    function Seasons(): (s: seq<int>)
      reads this, rulesets
      ensures |s| == |rulesets|
      ensures forall i :: 0 <= i < |rulesets| ==> s[i] == rulesets[i].seasonIndex
    {
      seq(|rulesets|, i reads this, rulesets requires 0 <= i < |rulesets| => rulesets[i].seasonIndex)
    }

    /** `InitializeRulesets`: one `v0`, and ruleset `i` plays season `i`. */
    method InitializeRulesets()
      modifies this
      ensures |rulesets| == 1 && fresh(rulesets[0])
      ensures forall i :: 0 <= i < |rulesets| ==> rulesets[i].seasonIndex == i
    {
      var first := new V0();
      rulesets := [first];
      for i := 0 to |rulesets|
        invariant rulesets == [first]
        invariant forall k :: 0 <= k < i ==> rulesets[k].seasonIndex == k
      {
        rulesets[i].SetSeason(i);
      }
    }

    /** `Get`: the first ruleset whatever the time `t`, once there is one. */
    function Get(t: int): (c: Choice)
      reads this
      ensures c.Failed? <==> rulesets == []
      ensures c.Failed? ==> c.error == NotInitialized
      ensures !c.Failed? ==> c == Chosen(rulesets[0])
    {
      if rulesets == [] then Failed(NotInitialized) else Chosen(rulesets[0])
    }

    /**
     * `GetWithDB`: the ruleset of the season the database places `t` in,
     * the first when that lookup fails and the last when the season is
     * past the table's end.
     */
    function GetWithDB(t: int, db: Db): (c: Choice)
      reads this
      ensures c.Failed? <==> rulesets == []
      ensures c.Failed? ==> c.error == NotInitialized
      ensures c.IndexPanic? <==> rulesets != [] && db.seasonId(t).Ok? && db.seasonId(t).value < 0
      ensures c.Chosen? ==> c.ruleset in rulesets
      ensures rulesets != [] && db.seasonId(t).Err? ==> c == Chosen(rulesets[0])
      ensures rulesets != [] && db.seasonId(t).Ok? && db.seasonId(t).value >= |rulesets| ==> c == Chosen(rulesets[|rulesets| - 1])
      ensures rulesets != [] && db.seasonId(t).Ok? && 0 <= db.seasonId(t).value < |rulesets| ==> c == Chosen(rulesets[db.seasonId(t).value])
    {
      if rulesets == [] then Failed(NotInitialized)
      else match db.seasonId(t)
        case Err(_) => Chosen(rulesets[0])
        case Ok(id) =>
          if id >= |rulesets| then Chosen(rulesets[|rulesets| - 1])
          else if id < 0 then IndexPanic(id)
          else Chosen(rulesets[id])
    }

    /**
     * `AllTimeScore`: the user's scores summed over the seasons whose
     * score succeeds; an error only when there are no rulesets.
     */
    method AllTimeScore(db: Db, now: int, userID: int) returns (r: Result<int>)
      ensures r.Err? <==> rulesets == []
      ensures r.Err? ==> r.error == NotInitialized
      ensures r.Ok? ==> r.value == AllTimeTotal(Seasons(), db, now, User(userID, ""))
    {
      if rulesets == [] {
        return Err(NotInitialized);
      }
      var total := SumScores(Seasons(), db, now, User(userID, ""));
      return Ok(total);
    }

    /**
     * The first loop of `AllTimeLeaderboard`: the users of every season's
     * uncut leaderboard, seasons whose leaderboard fails skipped.
     */
    method CollectUsers(db: Db, now: int) returns (userIDs: set<int>)
      ensures userIDs == AllTimeUsers(Seasons(), db, now)
    {
      ghost var seasons := Seasons();
      userIDs := {};
      for i := 0 to |rulesets|
        invariant userIDs == AllTimeUsers(seasons[..i], db, now)
      {
        assert seasons[..i + 1][..i] == seasons[..i];
        var board := rulesets[i].Leaderboard(db, now, 0);
        if board.Err? {
          continue;
        }
        userIDs := AddEntryIds(userIDs, board.value);
        ghost var season := seasons[i];
        UncutIsPermutation(board.value, Candidates(season, db, now, SeasonUsers(season, db, now).value), 0);
        SameIds(board.value, Candidates(season, db, now, SeasonUsers(season, db, now).value));
      }
      assert seasons[..|rulesets|] == seasons;
    }

    /**
     * `AllTimeLeaderboard`: every user of some season's uncut leaderboard,
     * once, with the all-time score, sorted, cut to `count` and ranked.
     * `cands` is the scored list in the (arbitrary) order the users were
     * visited.
     */
    method AllTimeLeaderboard(db: Db, now: int, count: int) returns (r: Result<seq<Entry>>, ghost cands: seq<UserScore>)
      ensures r.Err? <==> rulesets == []
      ensures r.Err? ==> r.error == NotInitialized
      ensures r.Ok? ==> IsLeaderboardOf(r.value, cands, count)
      ensures r.Ok? ==> IdsOf(cands) == AllTimeUsers(Seasons(), db, now)
      ensures r.Ok? ==> DistinctIds(cands)
      ensures r.Ok? ==> forall k :: 0 <= k < |cands| ==> AllTimeScored(cands[k], Seasons(), db, now)
    {
      cands := [];
      if rulesets == [] {
        return Err(NotInitialized), cands;
      }
      var userIDs := CollectUsers(db, now);
      var scores := ScoreUsers(userIDs, Seasons(), db, now);
      cands := scores;
      var board := BuildLeaderboard(scores, count);
      return Ok(board), cands;
    }
  }

  /** The inner loop of `AllTimeLeaderboard`: each entry's user id is marked. */
  method AddEntryIds(ids: set<int>, board: seq<Entry>) returns (ids': set<int>)
    ensures ids' == ids + EntryIds(board)
  {
    ids' := ids;
    for j := 0 to |board|
      invariant ids' == ids + EntryIds(board[..j])
    {
      EntryIdsStep(board, j);
      ids' := ids' + {board[j].user.id};
    }
    assert board[..|board|] == board;
  }

  /** The summing loop of `AllTimeScore`: a failing season adds nothing. */
  method SumScores(seasons: seq<int>, db: Db, now: int, user: User) returns (total: int)
    ensures total == AllTimeTotal(seasons, db, now, user)
  {
    total := 0;
    for i := 0 to |seasons|
      invariant total == AllTimeTotal(seasons[..i], db, now, user)
    {
      assert seasons[..i + 1][..i] == seasons[..i];
      var score := Score(seasons[i], db, now, user);
      if score.Err? {
        continue;
      }
      total := total + score.value;
    }
    assert seasons[..|seasons|] == seasons;
  }

  /**
   * The scoring loop of `AllTimeLeaderboard`: each id, visited in an
   * arbitrary order, once, with its all-time score.
   */
  method ScoreUsers(userIDs: set<int>, seasons: seq<int>, db: Db, now: int) returns (scores: seq<UserScore>)
    ensures IdsOf(scores) == userIDs
    ensures DistinctIds(scores)
    ensures forall k :: 0 <= k < |scores| ==> AllTimeScored(scores[k], seasons, db, now)
  {
    scores := [];
    var todo: set<int> := userIDs;
    while todo != {}
      invariant ScoredSoFar(scores, todo, userIDs, seasons, db, now)
      decreases |todo|
    {
      HasElement(todo);
      var userID: int :| userID in todo;
      var total := SumScores(seasons, db, now, User(userID, ""));
      ScoredStep(scores, todo, userIDs, seasons, db, now, userID, total);
      scores := scores + [UserScore(User(userID, ""), total)];
      todo := todo - {userID};
    }
  }

  /**
   * Midway through `ScoreUsers`: the ids scored and the ids left make up
   * the whole set, no id is scored twice, and each has its all-time score.
   */
  predicate ScoredSoFar(scores: seq<UserScore>, todo: set<int>, userIDs: set<int>, seasons: seq<int>, db: Db, now: int)
  {
    && IdsOf(scores) + todo == userIDs
    && (forall k :: 0 <= k < |scores| ==> scores[k].user.id !in todo)
    && DistinctIds(scores)
    && (forall k :: 0 <= k < |scores| ==> AllTimeScored(scores[k], seasons, db, now))
  }

  lemma ScoredStep(scores: seq<UserScore>, todo: set<int>, userIDs: set<int>, seasons: seq<int>, db: Db, now: int,
                   userID: int, total: int)
    requires ScoredSoFar(scores, todo, userIDs, seasons, db, now)
    requires userID in todo && total == AllTimeTotal(seasons, db, now, User(userID, ""))
    ensures ScoredSoFar(scores + [UserScore(User(userID, ""), total)], todo - {userID}, userIDs, seasons, db, now)
  {
    var scored := UserScore(User(userID, ""), total);
    DistinctSnoc(scores, scored);
    IdsOfSnoc(scores, scored);
    assert (scores + [scored])[|scores|] == scored;
  }

  /** No user id occurs twice. */
  predicate DistinctIds(cs: seq<UserScore>)
  {
    forall p, q :: 0 <= p < q < |cs| ==> cs[p].user.id != cs[q].user.id
  }

  lemma DistinctSnoc(cs: seq<UserScore>, c: UserScore)
    requires DistinctIds(cs)
    requires forall k :: 0 <= k < |cs| ==> cs[k].user.id != c.user.id
    ensures DistinctIds(cs + [c])
  {
  }

  /** After `InitializeRulesets`, `Get` picks season 0 at any time. */
  lemma InitializedGet(reg: Registry, t: int)
    requires |reg.rulesets| == 1 && reg.rulesets[0].seasonIndex == 0
    ensures reg.Get(t).Chosen? && reg.Get(t).ruleset.seasonIndex == 0
  {
  }

  /**
   * After `InitializeRulesets`, `GetWithDB` picks season 0 for every time
   * the database places in season 0 or later, or cannot place.
   */
  lemma InitializedGetWithDB(reg: Registry, t: int, db: Db)
    requires |reg.rulesets| == 1 && reg.rulesets[0].seasonIndex == 0
    requires db.seasonId(t).Err? || db.seasonId(t).value >= 0
    ensures reg.GetWithDB(t, db).Chosen? && reg.GetWithDB(t, db).ruleset.seasonIndex == 0
  {
  }
}
