// The multi-step `/swince` conversation of internal/client/swince.go: one
// session per (user, channel), advanced by each message of its author.

module Sessions {
  import opened Wrappers
  import opened Swince

  /** A file attached to a Discord message. */
  datatype Attachment = Attachment(filename: string, url: string)

  /** One line of the step-1 report, for a tagged user whose lookup succeeded. */
  datatype Note =
    | NoNominations(user: int)
    | AutoSelected(user: int)
    | Choose(user: int, options: nat)

  /** The swinceur row written for one tagged user when the swince is saved. */
  datatype Swinceur = Swinceur(user: int, nominates: int, created: bool, fulfils: Option<string>)

  /** What the bot answers to a message (the wording is not modelled). */
  datatype Reply =
    | Ignored
    | MentionRequired
    | TaggedUsersProcessed(notes: seq<Note>)
    | SelectionUpdated
    | VideoRequired
    | VideoFileRequired
    | VideoUploaded
    | NominationsRecorded(missing: int)
    | ProcessFailed
    | SaveFailed
    | Completed(channel: string, records: seq<Swinceur>)

  /**
   * What the handler learns from outside: the unfulfilled nominations per
   * user (swince ids), whether the video download, the swince insert and
   * each swinceur insert succeed, and the guild's channel list.
   */
  datatype World = World(
    unfulfilled: int -> Result<seq<string>>,
    downloadOk: bool,
    createOk: bool,
    swinceurOk: int -> bool,
    channels: Result<seq<Channel>>)

  /** The mutable part of a session. */
  datatype SessionState = SessionState(
    step: int,
    tagged: seq<int>,
    selected: map<int, string>,
    video: string,
    nominations: map<int, int>)

  const Initial := SessionState(1, [], map[], "", map[])

  /** The states a session can be in, counting from `Initial`. */
  predicate Reachable(st: SessionState)
  {
    && 1 <= st.step <= 4
    && (st.step == 1 ==> st == Initial)
    && (st.step >= 2 ==> st.tagged != [] && forall u :: u in st.selected ==> u in st.tagged)
    && (st.step <= 2 ==> st.video == "")
    && (st.step <= 3 ==> st.nominations == map[])
  }

  /** The key under which `swinceHandler` files a session. */
  function SessionKey(userID: string, channelID: string): string
  {
    userID + "_" + channelID
  }

  /** Discord ids hold no underscore, so distinct pairs get distinct keys. */
  lemma SessionKeyInjective(u1: string, c1: string, u2: string, c2: string)
    requires '_' !in u1 && '_' !in u2
    ensures SessionKey(u1, c1) == SessionKey(u2, c2) <==> u1 == u2 && c1 == c2
  {
    var k1, k2 := SessionKey(u1, c1), SessionKey(u2, c2);
    if k1 == k2 {
      KeySplitsAtUnderscore(u1, c1);
      KeySplitsAtUnderscore(u2, c2);
      assert u1 == k1[..|u1|] == k2[..|u2|] == u2;
      assert c1 == k1[|u1| + 1..] == k2[|u2| + 1..] == c2;
    }
  }

  /** The position of the first `ch` in `s`, or `|s|`. */
  function IndexOf(s: string, ch: char): (i: nat)
    ensures i <= |s|
  {
    if s == [] || s[0] == ch then 0 else 1 + IndexOf(s[1..], ch)
  }

  lemma {:induction false} KeySplitsAtUnderscore(u: string, c: string)
    requires '_' !in u
    ensures IndexOf(SessionKey(u, c), '_') == |u|
  {
    if u != [] {
      assert SessionKey(u, c)[1..] == SessionKey(u[1..], c);
      KeySplitsAtUnderscore(u[1..], c);
    }
  }

  /** Without that, two different users can share a key. */
  lemma SessionKeyCollision()
    ensures SessionKey("a_b", "c") == SessionKey("a", "b_c")
  {
  }

  predicate Single(r: Result<seq<string>>)
  {
    r.Ok? && |r.value| == 1
  }

  function NoteFor(u: int, noms: seq<string>): Note
  {
    if |noms| == 0 then NoNominations(u)
    else if |noms| == 1 then AutoSelected(u)
    else Choose(u, |noms|)
  }

  /** The step-1 report: one note per user, users whose lookup fails skipped. */
  function Notes(users: seq<int>, lookup: int -> Result<seq<string>>): seq<Note>
  {
    if users == [] then []
    else
      var prefix := Notes(users[..|users| - 1], lookup);
      var u := users[|users| - 1];
      match lookup(u)
      case Err(_) => prefix
      case Ok(noms) => prefix + [NoteFor(u, noms)]
  }

  /** Every note is about a tagged user; no user is lost unless its lookup fails. */
  lemma {:induction false} NotesCover(users: seq<int>, lookup: int -> Result<seq<string>>)
    ensures |Notes(users, lookup)| <= |users|
    ensures (forall i :: 0 <= i < |users| ==> lookup(users[i]).Ok?) ==> |Notes(users, lookup)| == |users|
    ensures forall n :: n in Notes(users, lookup) ==>
      n.user in users && lookup(n.user).Ok? && n == NoteFor(n.user, lookup(n.user).value)
  {
    if users != [] {
      var prefix := users[..|users| - 1];
      NotesCover(prefix, lookup);
      assert users == prefix + [users[|users| - 1]];
    }
  }

  /**
   * The nominations step 1 picks: a user with exactly one unfulfilled
   * nomination gets it; everyone else keeps what `sel` had.
   */
  function AutoSelect(sel: map<int, string>, users: seq<int>, lookup: int -> Result<seq<string>>): map<int, string>
  {
    if users == [] then sel
    else
      var m := AutoSelect(sel, users[..|users| - 1], lookup);
      var u := users[|users| - 1];
      if Single(lookup(u)) then m[u := lookup(u).value[0]] else m
  }

  lemma {:induction false} AutoSelectPicks(sel: map<int, string>, users: seq<int>, lookup: int -> Result<seq<string>>)
    ensures forall k :: k in AutoSelect(sel, users, lookup) <==> k in sel || (k in users && Single(lookup(k)))
    ensures forall k :: k in AutoSelect(sel, users, lookup) ==>
      AutoSelect(sel, users, lookup)[k] == if k in users && Single(lookup(k)) then lookup(k).value[0] else sel[k]
  {
    if users != [] {
      var prefix := users[..|users| - 1];
      AutoSelectPicks(sel, prefix, lookup);
      assert users == prefix + [users[|users| - 1]];
    }
  }

  lemma AutoSelectSnoc(sel: map<int, string>, users: seq<int>, u: int, lookup: int -> Result<seq<string>>)
    ensures var m := AutoSelect(sel, users, lookup);
      AutoSelect(sel, users + [u], lookup) == if Single(lookup(u)) then m[u := lookup(u).value[0]] else m
  {
    assert (users + [u])[..|users|] == users;
  }

  function Record(st: SessionState, w: World, u: int): Swinceur
  {
    var made := w.swinceurOk(u);
    Swinceur(u, if u in st.nominations then st.nominations[u] else 0, made,
             if made && u in st.selected then Some(st.selected[u]) else None)
  }

  /** The rows `completeSwinceProcess` writes, one per tagged user in order. */
  function Records(st: SessionState, w: World): seq<Swinceur>
  {
    seq(|st.tagged|, i requires 0 <= i < |st.tagged| => Record(st, w, st.tagged[i]))
  }

  /** `completeSwinceProcess`: where the final post goes, or why it stops. */
  function Completion(st: SessionState, channel: string, w: World): Reply
  {
    if !w.downloadOk then ProcessFailed
    else if !w.createOk then SaveFailed
    else
      var found := SwinceChannelOf(w.channels);
      Completed(if found == "" then channel else found, Records(st, w))
  }

  datatype Outcome = Outcome(next: SessionState, reply: Reply)

  /** Step 1: the mentioned users are the participants. */
  function TagStep(st: SessionState, ids: seq<int>, w: World): (r: Outcome)
    ensures Reachable(st) && st.step == 1 ==> Reachable(r.next)
  {
    if ids == [] then Outcome(st, MentionRequired)
    else
      var sel := AutoSelect(st.selected, ids, w.unfulfilled);
      AutoSelectPicks(st.selected, ids, w.unfulfilled);
      Outcome(st.(tagged := ids, selected := sel, step := if |sel| == |ids| then 3 else 2),
              TaggedUsersProcessed(Notes(ids, w.unfulfilled)))
  }

  /** Step 3: the first attachment must be a video. */
  function VideoStep(st: SessionState, attachments: seq<Attachment>): Outcome
  {
    if attachments == [] then Outcome(st, VideoRequired)
    else if !IsVideoName(attachments[0].filename) then Outcome(st, VideoFileRequired)
    else Outcome(st.(video := attachments[0].url, step := 4), VideoUploaded)
  }

  /** Step 4: nominations pile up until there are as many as participants. */
  function NominateStep(st: SessionState, channel: string, parsed: map<int, int>, w: World): Outcome
  {
    var merged := st.nominations + parsed;
    var st' := st.(nominations := merged);
    if |merged| >= |st.tagged| then Outcome(st', Completion(st', channel, w))
    else Outcome(st', NominationsRecorded(|st.tagged| - |merged|))
  }

  /** `handleSwinceMessage` on a session in state `st` opened in `channel`. */
  function Step(st: SessionState, channel: string, content: string, attachments: seq<Attachment>, w: World): (r: Outcome)
    ensures Reachable(st) ==> Reachable(r.next) && st.step <= r.next.step
  {
    if st.step == 1 then TagStep(st, UserMentions(content), w)
    else if st.step == 2 then Outcome(st.(step := 3), SelectionUpdated)
    else if st.step == 3 then VideoStep(st, attachments)
    else if st.step == 4 then NominateStep(st, channel, NominationsIn(content), w)
    else Outcome(st, Ignored)
  }

  /** The session is over (and deleted) exactly when its swince is saved. */
  predicate Finished(o: Outcome)
  {
    o.reply.Completed?
  }

  /** Copies every parsed nomination over what the session had. */
  method Merge(into: map<int, int>, parsed: map<int, int>) returns (merged: map<int, int>)
    ensures merged == into + parsed
  {
    merged := into;
    var todo: set<int> := parsed.Keys;
    while todo != {}
      invariant todo <= parsed.Keys
      invariant forall k :: k in merged <==> k in into || (k in parsed && k !in todo)
      invariant forall k :: k in merged ==> merged[k] == if k in parsed && k !in todo then parsed[k] else into[k]
      decreases |todo|
    {
      HasElement(todo);
      var who: int :| who in todo;
      merged := merged[who := parsed[who]];
      todo := todo - {who};
    }
    assert forall k :: k in merged <==> k in into + parsed;
    assert forall k :: k in merged ==> merged[k] == (into + parsed)[k];
  }

  /**
   * `completeSwinceProcess` on the session's state, short of deleting the
   * session: download, save, one swinceur row per tagged user, then the post.
   */
  method CompleteSwince(st: SessionState, channel: string, w: World) returns (reply: Reply)
    ensures reply == Completion(st, channel, w)
  {
    if !w.downloadOk {
      return ProcessFailed;
    }
    if !w.createOk {
      return SaveFailed;
    }
    var records := [];
    for i := 0 to |st.tagged|
      invariant |records| == i
      invariant forall j :: 0 <= j < i ==> records[j] == Record(st, w, st.tagged[j])
    {
      var u := st.tagged[i];
      var nominee := if u in st.nominations then st.nominations[u] else 0;
      var made := w.swinceurOk(u);
      var fulfils := if made && u in st.selected then Some(st.selected[u]) else None;
      records := records + [Swinceur(u, nominee, made, fulfils)];
    }
    var target := FindSwinceChannel(w.channels);
    if target == "" {
      target := channel;
    }
    return Completed(target, records);
  }

  class Session {
    const userID: string
    const channelID: string
    const guildID: string
    var step: int
    var taggedUsers: seq<int>
    var selectedNominations: map<int, string>
    var videoURL: string
    var nominations: map<int, int>

    function Current(): SessionState
      reads this
    {
      SessionState(step, taggedUsers, selectedNominations, videoURL, nominations)
    }

    constructor (userID: string, channelID: string, guildID: string)
      ensures this.userID == userID && this.channelID == channelID && this.guildID == guildID
      ensures Current() == Initial
    {
      this.userID := userID;
      this.channelID := channelID;
      this.guildID := guildID;
      step := 1;
      taggedUsers := [];
      selectedNominations := map[];
      videoURL := "";
      nominations := map[];
    }

    /** The part of `handleSwinceMessage` that runs once the session is found. */
    method Handle(content: string, attachments: seq<Attachment>, w: World) returns (reply: Reply)
      modifies this
      ensures Outcome(Current(), reply) == Step(old(Current()), channelID, content, attachments, w)
    {
      if step == 1 {
        var ids := ExtractUserMentions(content);
        reply := TagUsers(ids, w);
      } else if step == 2 {
        step := 3;
        reply := SelectionUpdated;
      } else if step == 3 {
        reply := TakeVideo(attachments);
      } else if step == 4 {
        var parsed := ParseNominations(content);
        reply := TakeNominations(parsed, w);
      } else {
        reply := Ignored;
      }
    }

    method TagUsers(ids: seq<int>, w: World) returns (reply: Reply)
      modifies this
      ensures Outcome(Current(), reply) == TagStep(old(Current()), ids, w)
    {
      if ids == [] {
        return MentionRequired;
      }
      var selected := selectedNominations;
      var notes := [];
      for i := 0 to |ids|
        invariant unchanged(this)
        invariant selected == AutoSelect(selectedNominations, ids[..i], w.unfulfilled)
        invariant notes == Notes(ids[..i], w.unfulfilled)
      {
        var u := ids[i];
        assert ids[..i + 1] == ids[..i] + [u];
        AutoSelectSnoc(selectedNominations, ids[..i], u, w.unfulfilled);
        var noms := w.unfulfilled(u);
        if noms.Err? {
          continue;
        }
        if |noms.value| == 1 {
          selected := selected[u := noms.value[0]];
        }
        notes := notes + [NoteFor(u, noms.value)];
      }
      assert ids[..|ids|] == ids;
      taggedUsers := ids;
      selectedNominations := selected;
      step := if |selected| == |ids| then 3 else 2;
      reply := TaggedUsersProcessed(notes);
    }

    method TakeVideo(attachments: seq<Attachment>) returns (reply: Reply)
      modifies this
      ensures Outcome(Current(), reply) == VideoStep(old(Current()), attachments)
    {
      if |attachments| == 0 {
        return VideoRequired;
      }
      var attachment := attachments[0];
      var video := IsVideoFile(attachment.filename);
      if !video {
        return VideoFileRequired;
      }
      videoURL := attachment.url;
      step := 4;
      return VideoUploaded;
    }

    method TakeNominations(parsed: map<int, int>, w: World) returns (reply: Reply)
      modifies this
      ensures Outcome(Current(), reply) == NominateStep(old(Current()), channelID, parsed, w)
    {
      ghost var o := NominateStep(Current(), channelID, parsed, w);
      var merged := Merge(nominations, parsed);
      var st := Current().(nominations := merged);
      assert st == o.next;
      if |merged| >= |taggedUsers| {
        reply := CompleteSwince(st, channelID, w);
      } else {
        reply := NominationsRecorded(|taggedUsers| - |merged|);
      }
      assert reply == o.reply;
      nominations := merged;
      assert Current() == st;
    }
  }

  /** The package-level `swinceSessions` map and the handlers that use it. */
  class SessionStore {
    var sessions: map<string, Session>

    ghost predicate Valid()
      reads this, sessions.Values
    {
      forall k :: k in sessions ==>
        SessionKey(sessions[k].userID, sessions[k].channelID) == k && Reachable(sessions[k].Current())
    }

    constructor ()
      ensures Valid() && sessions == map[]
    {
      sessions := map[];
    }

    /** `swinceHandler`: a fresh session replaces any under the same key. */
    method Begin(userID: string, channelID: string, guildID: string) returns (key: string)
      requires Valid()
      modifies this
      ensures Valid()
      ensures key == SessionKey(userID, channelID) && key in sessions
      ensures fresh(sessions[key])
      ensures sessions[key].userID == userID && sessions[key].channelID == channelID && sessions[key].guildID == guildID
      ensures sessions[key].Current() == Initial
      ensures sessions == old(sessions)[key := sessions[key]]
    {
      key := SessionKey(userID, channelID);
      var s := new Session(userID, channelID, guildID);
      sessions := sessions[key := s];
    }

    /**
     * `handleSwinceMessage`: an unknown key is ignored; otherwise the session
     * takes one step, and is deleted when the swince has been saved.
     */
    method HandleMessage(key: string, content: string, attachments: seq<Attachment>, w: World) returns (reply: Reply)
      requires Valid()
      modifies this, if key in sessions then {sessions[key]} else {}
      ensures Valid()
      ensures key !in old(sessions) ==> reply == Ignored && sessions == old(sessions)
      ensures key in old(sessions) ==>
        var s := old(sessions[key]);
        var o := Step(old(s.Current()), s.channelID, content, attachments, w);
        && s.Current() == o.next && reply == o.reply
        && sessions == if Finished(o) then old(sessions) - {key} else old(sessions)
    {
      if key !in sessions {
        return Ignored;
      }
      var s := sessions[key];
      reply := s.Handle(content, attachments, w);
      if reply.Completed? {
        sessions := sessions - {key};
      }
      forall k | k in sessions && k != key
        ensures sessions[k] != s
      {
        assert SessionKey(s.userID, s.channelID) == key;
      }
    }
  }

  /**
   * Step 4 counts nominations, not nominators among the tagged users: two
   * nominations by people nobody tagged complete a swince of two.
   */
  lemma ExtraNominatorsComplete(w: World)
    requires w.downloadOk && w.createOk
    ensures Finished(Step(SessionState(4, [1, 2], map[], "v", map[3 := 4, 5 := 6]), "c", "", [], w))
  {
    assert Mentions("") == [];
    assert |map[3 := 4, 5 := 6] + NominationsIn("")| == 2 by {
      assert NominationsIn("") == map[];
      assert (map[3 := 4, 5 := 6]).Keys == {3, 5};
    }
  }

  /** A tagged user without a nomination gets a swinceur row nominating 0. */
  lemma NoNominationNominatesZero(st: SessionState, channel: string, w: World, i: nat)
    requires w.downloadOk && w.createOk && i < |st.tagged| && st.tagged[i] !in st.nominations
    ensures Completion(st, channel, w).records[i] == Swinceur(st.tagged[i], 0, w.swinceurOk(st.tagged[i]),
      if w.swinceurOk(st.tagged[i]) && st.tagged[i] in st.selected then Some(st.selected[st.tagged[i]]) else None)
  {
  }

  /** Step 3 moves on exactly when the first attachment is a video. */
  lemma VideoGate(st: SessionState, channel: string, attachments: seq<Attachment>, w: World)
    requires st.step == 3
    ensures var o := Step(st, channel, "", attachments, w);
      (o.next.step == 4 <==> attachments != [] && IsVideoName(attachments[0].filename))
      && (o.next.step == 4 ==> o.next.video == attachments[0].url)
      && (o.next.step == 3 ==> o.next == st)
  {
  }
}
