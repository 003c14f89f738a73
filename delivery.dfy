// How messages reach a `/swince` session.  `swinceHandler` registers its
// message listener with `AddHandlerOnce`, so the listener is spent on the
// first message posted anywhere; the rest of the model instead hands every
// message of the session's author, in its channel, to `handleSwinceMessage`.

module Delivery {
  import opened Swince
  import opened Sessions

  /** A message posted while a session is open. */
  datatype Message = Message(author: string, channel: string, content: string, attachments: seq<Attachment>)

  /** The conversation so far: the session's state, and whether its swince was saved. */
  datatype Run = Run(state: SessionState, saved: bool)

  predicate FromSession(m: Message, author: string, channel: string)
  {
    m.author == author && m.channel == channel
  }

  /**
   * As written: the one-shot listener receives the first message of any
   * author in any channel and is then removed; the session takes a step
   * only when that message is its author's, in its channel.
   */
  function OneShot(author: string, channel: string, st: SessionState, msgs: seq<Message>, w: World): Run
  {
    if msgs == [] || !FromSession(msgs[0], author, channel) then Run(st, false)
    else
      var o := Step(st, channel, msgs[0].content, msgs[0].attachments, w);
      Run(o.next, Finished(o))
  }

  /**
   * As intended: every message of the author in the session's channel
   * takes a step, until the swince is saved and the session deleted.
   */
  function Delivered(author: string, channel: string, st: SessionState, msgs: seq<Message>, w: World): Run
    decreases |msgs|
  {
    if msgs == [] then Run(st, false)
    else if !FromSession(msgs[0], author, channel) then Delivered(author, channel, st, msgs[1..], w)
    else
      var o := Step(st, channel, msgs[0].content, msgs[0].attachments, w);
      if Finished(o) then Run(o.next, true) else Delivered(author, channel, o.next, msgs[1..], w)
  }

  /**
   * With the one-shot listener a fresh session never gets past the tagging
   * step, whatever is posted: it stays as it was, or takes the one tagging
   * step on the first message, and its swince is never saved.
   */
  lemma OneShotNeverSaves(author: string, channel: string, msgs: seq<Message>, w: World)
    ensures var r := OneShot(author, channel, Initial, msgs, w);
      && !r.saved && r.state.step <= 3
      && (msgs == [] || !FromSession(msgs[0], author, channel) ==> r.state == Initial)
      && (msgs != [] && FromSession(msgs[0], author, channel) ==>
            r.state == TagStep(Initial, UserMentions(msgs[0].content), w).next)
  {
  }

  /**
   * With every message delivered, a tagging message followed by three
   * messages carrying a video and enough nominations saves the swince,
   * with the tagged users and the video kept, whatever is posted after.
   */
  lemma DeliveredSaves(author: string, channel: string, tag: string, video: Attachment, noms: string,
                       rest: seq<Message>, w: World)
    requires UserMentions(tag) != [] && IsVideoName(video.filename)
    requires |NominationsIn(noms)| >= |UserMentions(tag)|
    requires w.downloadOk && w.createOk
    ensures var m := Message(author, channel, noms, [video]);
      var r := Delivered(author, channel, Initial, [Message(author, channel, tag, [])] + ([m] + ([m] + ([m] + rest))), w);
      && r.saved && r.state.step == 4
      && r.state.tagged == UserMentions(tag) && r.state.video == video.url
  {
    var m := Message(author, channel, noms, [video]);
    var t := Message(author, channel, tag, []);
    var tail := [m] + ([m] + ([m] + rest));
    var s1 := TagStep(Initial, UserMentions(tag), w).next;
    var r := Delivered(author, channel, s1, tail, w);
    assert r.saved && r.state.step == 4 && r.state.tagged == UserMentions(tag) && r.state.video == video.url by {
      TagPhase(author, channel, tag, tail, w);
      AfterTagging(author, channel, s1, video, noms, rest, w);
    }
    assert Delivered(author, channel, Initial, [t] + tail, w) == r by {
      TagPhase(author, channel, tag, tail, w);
    }
  }

  /** Once the users are tagged, the same video-and-nominations message three times saves the swince. */
  lemma AfterTagging(author: string, channel: string, st: SessionState, video: Attachment, noms: string,
                     rest: seq<Message>, w: World)
    requires st.step in {2, 3} && st.nominations == map[]
    requires IsVideoName(video.filename) && |NominationsIn(noms)| >= |st.tagged|
    requires w.downloadOk && w.createOk
    ensures var m := Message(author, channel, noms, [video]);
      var r := Delivered(author, channel, st, [m] + ([m] + ([m] + rest)), w);
      && r.saved && r.state.step == 4 && r.state.tagged == st.tagged && r.state.video == video.url
  {
    var m := Message(author, channel, noms, [video]);
    if st.step == 2 {
      SelectPhase(author, channel, st, m, [m] + ([m] + rest), w);
      var s2 := st.(step := 3);
      VideoPhase(author, channel, s2, video, noms, [m] + rest, w);
      NominatePhase(author, channel, s2.(video := video.url, step := 4), video, noms, rest, w);
    } else {
      VideoPhase(author, channel, st, video, noms, [m] + ([m] + rest), w);
      NominatePhase(author, channel, st.(video := video.url, step := 4), video, noms, [m] + rest, w);
    }
  }

  /** Step 1 on a message with mentions: the users are tagged, nothing is saved yet. */
  lemma TagPhase(author: string, channel: string, tag: string, rest: seq<Message>, w: World)
    requires UserMentions(tag) != []
    ensures var next := TagStep(Initial, UserMentions(tag), w).next;
      && next.step in {2, 3} && next.tagged == UserMentions(tag) && next.nominations == map[]
      && Delivered(author, channel, Initial, [Message(author, channel, tag, [])] + rest, w)
         == Delivered(author, channel, next, rest, w)
  {
    var t := Message(author, channel, tag, []);
    assert ([t] + rest)[0] == t && ([t] + rest)[1..] == rest;
  }

  /** Step 2 moves on to step 3 on any message. */
  lemma SelectPhase(author: string, channel: string, st: SessionState, m: Message, rest: seq<Message>, w: World)
    requires st.step == 2 && FromSession(m, author, channel)
    ensures Delivered(author, channel, st, [m] + rest, w) == Delivered(author, channel, st.(step := 3), rest, w)
  {
    assert ([m] + rest)[0] == m && ([m] + rest)[1..] == rest;
  }

  /** Step 3 on a video attachment keeps its link and moves on to step 4. */
  lemma VideoPhase(author: string, channel: string, st: SessionState, video: Attachment, noms: string,
                   rest: seq<Message>, w: World)
    requires st.step == 3 && IsVideoName(video.filename)
    ensures Delivered(author, channel, st, [Message(author, channel, noms, [video])] + rest, w)
      == Delivered(author, channel, st.(video := video.url, step := 4), rest, w)
  {
    var m := Message(author, channel, noms, [video]);
    assert ([m] + rest)[0] == m && ([m] + rest)[1..] == rest;
  }

  /** Step 4 with enough nominations saves the swince. */
  lemma NominatePhase(author: string, channel: string, st: SessionState, video: Attachment, noms: string,
                      rest: seq<Message>, w: World)
    requires st.step == 4 && st.nominations == map[]
    requires |NominationsIn(noms)| >= |st.tagged|
    requires w.downloadOk && w.createOk
    ensures var r := Delivered(author, channel, st, [Message(author, channel, noms, [video])] + rest, w);
      r.saved && r.state.step == 4 && r.state.tagged == st.tagged && r.state.video == st.video
  {
    var m := Message(author, channel, noms, [video]);
    EnoughSaves(st, channel, noms, [video], w);
    FinalMessage(author, channel, st, m, rest, w);
  }

  lemma EnoughSaves(st: SessionState, channel: string, content: string, attachments: seq<Attachment>, w: World)
    requires st.step == 4 && st.nominations == map[] && |NominationsIn(content)| >= |st.tagged|
    requires w.downloadOk && w.createOk
    ensures var o := Step(st, channel, content, attachments, w);
      && Finished(o) && o.next.step == 4 && o.next.tagged == st.tagged && o.next.video == st.video
  {
    assert Step(st, channel, content, attachments, w) == NominateStep(st, channel, NominationsIn(content), w);
    EnoughNominations(st, channel, NominationsIn(content), w);
  }

  lemma EnoughNominations(st: SessionState, channel: string, parsed: map<int, int>, w: World)
    requires st.nominations == map[] && |parsed| >= |st.tagged|
    requires w.downloadOk && w.createOk
    ensures var o := NominateStep(st, channel, parsed, w);
      && Finished(o) && o.next == st.(nominations := parsed)
  {
    assert st.nominations + parsed == parsed;
  }

  /** A message of the session that saves the swince ends the conversation. */
  lemma FinalMessage(author: string, channel: string, st: SessionState, m: Message, rest: seq<Message>, w: World)
    requires FromSession(m, author, channel)
    requires Finished(Step(st, channel, m.content, m.attachments, w))
    ensures Delivered(author, channel, st, [m] + rest, w) == Run(Step(st, channel, m.content, m.attachments, w).next, true)
  {
    assert ([m] + rest)[0] == m;
  }
}
