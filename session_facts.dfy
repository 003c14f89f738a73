// Counting facts about the step-1 shortcut of the `/swince` conversation.

module SessionFacts {
  import opened Wrappers
  import opened Sessions

  /**
   * Step 1 goes straight to the video upload exactly when every tagged user
   * is tagged once and has exactly one unfulfilled nomination: a user
   * mentioned twice always leaves one selection missing.
   */
  lemma {:induction false} ShortcutExactly(ids: seq<int>, w: World)
    requires ids != []
    ensures TagStep(Initial, ids, w).next.step == 3
      <==> Distinct(ids) && forall i :: 0 <= i < |ids| ==> Single(w.unfulfilled(ids[i]))
  {
    var sel := AutoSelect(map[], ids, w.unfulfilled);
    DistinctCount(ids);
    PickedAmongMembers(ids, w);
    SubsetCount(sel.Keys, Members(ids));
    if forall i :: 0 <= i < |ids| ==> Single(w.unfulfilled(ids[i])) {
      AllPicked(ids, w);
    } else {
      var i :| 0 <= i < |ids| && !Single(w.unfulfilled(ids[i]));
      NotPicked(ids, w, ids[i]);
      assert ids[i] in Members(ids);
    }
  }

  lemma PickedAmongMembers(ids: seq<int>, w: World)
    ensures AutoSelect(map[], ids, w.unfulfilled).Keys <= Members(ids)
  {
    AutoSelectPicks(map[], ids, w.unfulfilled);
  }

  lemma AllPicked(ids: seq<int>, w: World)
    requires forall i :: 0 <= i < |ids| ==> Single(w.unfulfilled(ids[i]))
    ensures AutoSelect(map[], ids, w.unfulfilled).Keys == Members(ids)
  {
    AutoSelectPicks(map[], ids, w.unfulfilled);
  }

  lemma NotPicked(ids: seq<int>, w: World, x: int)
    requires x in ids && !Single(w.unfulfilled(x))
    ensures x !in AutoSelect(map[], ids, w.unfulfilled)
  {
    AutoSelectPicks(map[], ids, w.unfulfilled);
  }

  predicate Distinct(s: seq<int>)
  {
    forall i, j :: 0 <= i < j < |s| ==> s[i] != s[j]
  }

  /** The users a sequence names. */
  function Members(s: seq<int>): set<int>
  {
    set x | x in s
  }

  lemma {:induction false} DistinctCount(s: seq<int>)
    ensures |Members(s)| <= |s|
    ensures |Members(s)| == |s| <==> Distinct(s)
  {
    if s != [] {
      var rest := s[1..];
      DistinctCount(rest);
      assert Members(s) == {s[0]} + Members(rest);
      if s[0] in rest {
        assert Members(s) == Members(rest);
        var j :| 0 <= j < |rest| && rest[j] == s[0];
        assert s[0] == s[j + 1];
      } else {
        if Distinct(rest) {
          forall i, j | 0 <= i < j < |s|
            ensures s[i] != s[j]
          {
            if i > 0 {
              assert s[i] == rest[i - 1] && s[j] == rest[j - 1];
            } else {
              assert s[j] == rest[j - 1];
            }
          }
        }
        if Distinct(s) {
          forall i, j | 0 <= i < j < |rest|
            ensures rest[i] != rest[j]
          {
            assert rest[i] == s[i + 1] && rest[j] == s[j + 1];
          }
        }
      }
    }
  }

  lemma SubsetCount(a: set<int>, b: set<int>)
    requires a <= b
    ensures |a| <= |b|
    ensures |a| == |b| ==> a == b
  {
    assert b == a + (b - a);
  }
}
