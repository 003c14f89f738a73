// Guild members as the bot sees them: internal/discord/users.go.

module Discord {
  import opened Wrappers
  import opened Decimal

  /** The bot's own user record: a numeric id and the nick shown in this guild. */
  datatype User = User(id: int, nick: string)

  /** What Discord reports about an account. */
  datatype Account = Account(id: string, username: string, bot: bool)

  /** What Discord reports about a guild member. */
  datatype Member = Member(user: Account, nick: string)

  /** The guild nick, or the account's user name when the nick is empty. */
  function DisplayName(m: Member): string
  {
    if m.nick != "" then m.nick else m.user.username
  }

  /**
   * `GetNick`, given what `GuildMember` answers: its error wrapped, or the
   * member's display name.
   */
  function GetNick(lookup: Result<Member>): (r: Result<string>)
    ensures r.Err? <==> lookup.Err?
    ensures r.Err? ==> r.error == "getting guild member: " + lookup.error
    ensures r.Ok? ==> r.value == (if lookup.value.nick != "" then lookup.value.nick else lookup.value.user.username)
  {
    match lookup
    case Err(e) => Err("getting guild member: " + e)
    case Ok(m) => Ok(DisplayName(m))
  }

  /** The members `GetMembers` keeps, in order: humans whose id parses. */
  function Kept(members: seq<Member>): seq<User>
  {
    if members == [] then []
    else
      var prefix := Kept(members[..|members| - 1]);
      var m := members[|members| - 1];
      if m.user.bot then prefix
      else match ParseUint64(m.user.id)
        case None => prefix
        case Some(id) => prefix + [User(id, DisplayName(m))]
  }

  /** `GetMembers`, given what `GuildMembers` answers. */
  method GetMembers(lookup: Result<seq<Member>>) returns (r: Result<seq<User>>)
    ensures r.Err? <==> lookup.Err?
    ensures r.Err? ==> r.error == "getting guild members: " + lookup.error
    ensures r.Ok? ==> r.value == Kept(lookup.value)
  {
    if lookup.Err? {
      return Err("getting guild members: " + lookup.error);
    }
    var members := lookup.value;
    var users := [];
    for i := 0 to |members|
      invariant users == Kept(members[..i])
    {
      assert members[..i + 1][..i] == members[..i];
      var member := members[i];
      if member.user.bot {
        continue;
      }
      var id := ParseUint64(member.user.id);
      if id.None? {
        continue;
      }
      var nick := member.nick;
      if nick == "" {
        nick := member.user.username;
      }
      users := users + [User(id.value, nick)];
    }
    assert members[..|members|] == members;
    return Ok(users);
  }

  /** Filtering commutes with concatenation, so the member order is kept. */
  lemma {:induction false} KeptConcat(a: seq<Member>, b: seq<Member>)
    ensures Kept(a + b) == Kept(a) + Kept(b)
    decreases |b|
  {
    if b == [] {
      assert a + b == a;
    } else {
      var p := b[..|b| - 1];
      assert (a + b)[..|a + b| - 1] == a + p;
      assert (a + b)[|a + b| - 1] == b[|b| - 1];
      KeptConcat(a, p);
    }
  }

  /**
   * A kept user comes from a human member with that id and display name,
   * and every human member whose id parses is kept.
   */
  lemma {:induction false} KeptExactly(members: seq<Member>)
    ensures |Kept(members)| <= |members|
    ensures forall u :: u in Kept(members) ==>
      exists m :: m in members && !m.user.bot && ParseUint64(m.user.id) == Some(u.id) && u.nick == DisplayName(m)
    ensures forall m :: m in members && !m.user.bot && ParseUint64(m.user.id).Some? ==>
      User(ParseUint64(m.user.id).value, DisplayName(m)) in Kept(members)
  {
    if members != [] {
      var p := members[..|members| - 1];
      var m := members[|members| - 1];
      KeptExactly(p);
      assert members == p + [m];
      forall u | u in Kept(members)
        ensures exists m' :: m' in members && !m'.user.bot && ParseUint64(m'.user.id) == Some(u.id) && u.nick == DisplayName(m')
      {
        if u in Kept(p) {
          var m' :| m' in p && !m'.user.bot && ParseUint64(m'.user.id) == Some(u.id) && u.nick == DisplayName(m');
          assert m' in members;
        } else {
          assert u == User(ParseUint64(m.user.id).value, DisplayName(m));
          assert m in members;
        }
      }
    }
  }

  /** Bots never reach the user list. */
  lemma {:induction false} NoBots(members: seq<Member>)
    requires forall m :: m in members ==> m.user.bot
    ensures Kept(members) == []
  {
    if members != [] {
      var p := members[..|members| - 1];
      assert members[|members| - 1] in members;
      assert forall m :: m in p ==> m in members;
      NoBots(p);
    }
  }
}
