/**
 * What `Setup` in internal/database/initialization.go guarantees, stated
 * over its specification `Database.SetupSpec`.
 */
module SetupLemmas {
  import opened Wrappers
  import opened Text
  import opened Database

  /** The trace of pragmas that all succeed on handle `g`. */
  function Execs(g: nat, ps: seq<PragmaConstraint>): (t: seq<Action>)
    ensures |t| == |ps|
    ensures forall i :: 0 <= i < |ps| ==> t[i] == Exec(g, PragmaStatement(ps[i]), true)
  {
    seq(|ps|, i requires 0 <= i < |ps| => Exec(g, PragmaStatement(ps[i]), true))
  }

  predicate AllPragmasPass(env: Env, g: nat, ps: seq<PragmaConstraint>)
  {
    forall i :: 0 <= i < |ps| ==> env.exec(g, PragmaStatement(ps[i]))
  }

  /** The list `Setup` applies. */
  function Applied(before: seq<PragmaConstraint>, cacheSize: int): seq<PragmaConstraint>
  {
    before + [CachePragma(cacheSize)]
  }

  // ---------------------------------------------------------------------
  // The early return

  /** A missing file whose creation fails: the error at once, no backup, no pragma. */
  lemma MissingFileCreateFails(env: Env, path: string, files: Files, before: seq<PragmaConstraint>, cacheSize: int)
    requires path !in files && NewDb(env.create(1)).failure.Some?
    ensures SetupSpec(env, path, files, before, cacheSize)
      == Outcome(Failed(NewDb(env.create(1)).failure.value), files, [Created(1, false)])
  {
  }

  // ---------------------------------------------------------------------
  // Pragma order

  lemma PragmaPasses(env: Env, path: string, st: Boot, c: PragmaConstraint)
    requires st.conn.Live? && env.exec(st.conn.gen, PragmaStatement(c))
    ensures ApplyPragma(env, path, st, c) == st.(trace := st.trace + [Exec(st.conn.gen, PragmaStatement(c), true)])
  {
  }

  lemma ApplyPragmasCons(env: Env, path: string, st: Boot, ps: seq<PragmaConstraint>)
    requires ps != []
    ensures ApplyPragmas(env, path, st, ps) == ApplyPragmas(env, path, ApplyPragma(env, path, st, ps[0]), ps[1..])
  {
  }

  lemma ExecsCons(g: nat, ps: seq<PragmaConstraint>)
    requires ps != []
    ensures Execs(g, ps) == [Exec(g, PragmaStatement(ps[0]), true)] + Execs(g, ps[1..])
  {
  }

  lemma PassTail(env: Env, g: nat, ps: seq<PragmaConstraint>)
    requires ps != [] && AllPragmasPass(env, g, ps)
    ensures env.exec(g, PragmaStatement(ps[0])) && AllPragmasPass(env, g, ps[1..])
  {
    assert forall i :: 0 <= i < |ps[1..]| ==> ps[1..][i] == ps[i + 1];
  }

  lemma {:induction false} PragmasPass(env: Env, path: string, st: Boot, ps: seq<PragmaConstraint>)
    requires st.conn.Live? && AllPragmasPass(env, st.conn.gen, ps)
    ensures ApplyPragmas(env, path, st, ps) == st.(trace := st.trace + Execs(st.conn.gen, ps))
    decreases |ps|
  {
    var g := st.conn.gen;
    if ps == [] {
      assert st.trace + Execs(g, ps) == st.trace;
    } else {
      var e := Exec(g, PragmaStatement(ps[0]), true);
      var st1 := st.(trace := st.trace + [e]);
      assert ApplyPragmas(env, path, st, ps) == ApplyPragmas(env, path, st1, ps[1..]) by {
        PassTail(env, g, ps);
        PragmaPasses(env, path, st, ps[0]);
        ApplyPragmasCons(env, path, st, ps);
      }
      assert AllPragmasPass(env, g, ps[1..]) by {
        PassTail(env, g, ps);
      }
      PragmasPass(env, path, st1, ps[1..]);
      assert st1.trace + Execs(g, ps[1..]) == st.trace + Execs(g, ps) by {
        ExecsCons(g, ps);
        AppendAssoc(st.trace, [e], Execs(g, ps[1..]));
      }
    }
  }

  lemma {:induction false} PragmasSplit(env: Env, path: string, st: Boot, a: seq<PragmaConstraint>, b: seq<PragmaConstraint>)
    ensures ApplyPragmas(env, path, st, a + b) == ApplyPragmas(env, path, ApplyPragmas(env, path, st, a), b)
    decreases |a|
  {
    if a == [] {
      assert a + b == b;
    } else {
      assert (a + b)[1..] == a[1..] + b;
      PragmasSplit(env, path, ApplyPragma(env, path, st, a[0]), a[1..], b);
    }
  }

  lemma PragmaFails(env: Env, path: string, st: Boot, c: PragmaConstraint)
    requires st.conn.Live? && !env.exec(st.conn.gen, PragmaStatement(c))
    ensures ApplyPragma(env, path, st, c)
      == Recover(env, path, st.(trace := st.trace + [Exec(st.conn.gen, PragmaStatement(c), false)]), st.conn.gen)
  {
  }

  lemma RecoverSucceeds(env: Env, path: string, st: Boot, g: nat)
    requires NewDb(env.create(st.creates + 1)).failure.None?
    ensures var b := Backup(st.files, path, env.clock(st.backups));
            var r := Recover(env, path, st, g);
            r.conn == Live(st.creates + 1) && r.creates == st.creates + 1 &&
            r.trace == st.trace + [Closed(g), BackedUp(b.target, b.renamed), Created(st.creates + 1, true)]
  {
  }

  /**
   * A pragma that fails on the original file recreates the database, and
   * the new handle only receives the pragmas after it: the earlier ones are
   * never applied to it.
   */
  lemma RecreatedHandleMissesEarlierPragmas(env: Env, path: string, st: Boot, ps: seq<PragmaConstraint>, j: nat)
    requires st.conn == Live(0) && j < |ps|
    requires AllPragmasPass(env, 0, ps[..j]) && !env.exec(0, PragmaStatement(ps[j]))
    requires NewDb(env.create(st.creates + 1)).failure.None?
    requires AllPragmasPass(env, st.creates + 1, ps[j + 1..])
    ensures var k := st.creates + 1;
            var b := Backup(st.files, path, env.clock(st.backups));
            ApplyPragmas(env, path, st, ps).conn == Live(k) &&
            ApplyPragmas(env, path, st, ps).trace == st.trace + Execs(0, ps[..j])
              + [Exec(0, PragmaStatement(ps[j]), false)]
              + [Closed(0), BackedUp(b.target, b.renamed), Created(k, true)]
              + Execs(k, ps[j + 1..])
  {
    var k := st.creates + 1;
    var ft := st.trace + Execs(0, ps[..j]) + [Exec(0, PragmaStatement(ps[j]), false)];
    var rec := Recover(env, path, st.(trace := ft), 0);
    var b := Backup(st.files, path, env.clock(st.backups));
    assert ApplyPragmas(env, path, st, ps) == ApplyPragmas(env, path, rec, ps[j + 1..]) by {
      PragmaFailsAt(env, path, st, ps, j);
    }
    assert rec.conn == Live(k) && rec.trace == ft + [Closed(0), BackedUp(b.target, b.renamed), Created(k, true)] by {
      RecoverWithTrace(env, path, st, ft, 0);
    }
    PragmasPass(env, path, rec, ps[j + 1..]);
  }

  /** `RecoverSucceeds` for a state whose trace alone has moved on. */
  lemma RecoverWithTrace(env: Env, path: string, st: Boot, t: seq<Action>, g: nat)
    requires NewDb(env.create(st.creates + 1)).failure.None?
    ensures var b := Backup(st.files, path, env.clock(st.backups));
            var r := Recover(env, path, st.(trace := t), g);
            r.conn == Live(st.creates + 1) &&
            r.trace == t + [Closed(g), BackedUp(b.target, b.renamed), Created(st.creates + 1, true)]
  {
    RecoverSucceeds(env, path, st.(trace := t), g);
  }

  /** The pragma loop up to the first pragma that fails on handle 0, which recovers. */
  lemma PragmaFailsAt(env: Env, path: string, st: Boot, ps: seq<PragmaConstraint>, j: nat)
    requires st.conn == Live(0) && j < |ps|
    requires AllPragmasPass(env, 0, ps[..j]) && !env.exec(0, PragmaStatement(ps[j]))
    ensures ApplyPragmas(env, path, st, ps) == ApplyPragmas(env, path,
      Recover(env, path, st.(trace := st.trace + Execs(0, ps[..j]) + [Exec(0, PragmaStatement(ps[j]), false)]), 0),
      ps[j + 1..])
  {
    var rest := [ps[j]] + ps[j + 1..];
    var mid := st.(trace := st.trace + Execs(0, ps[..j]));
    SplitAt(ps, j);
    assert ApplyPragmas(env, path, st, ps) == ApplyPragmas(env, path, mid, rest) by {
      PragmasSplit(env, path, st, ps[..j], rest);
      PragmasPass(env, path, st, ps[..j]);
    }
    ApplyPragmasCons(env, path, mid, rest);
    PragmaFails(env, path, mid, ps[j]);
  }

  // ---------------------------------------------------------------------
  // Keeping the original file

  lemma {:induction false} OriginalSurvivesPragmas(env: Env, path: string, st: Boot, ps: seq<PragmaConstraint>)
    requires ApplyPragmas(env, path, st, ps).conn == Live(0)
    ensures st.conn == Live(0) && AllPragmasPass(env, 0, ps)
    decreases |ps|
  {
    if ps != [] {
      var st1 := ApplyPragma(env, path, st, ps[0]);
      OriginalSurvivesPragmas(env, path, st1, ps[1..]);
      assert forall i :: 0 < i < |ps| ==> ps[i] == ps[1..][i - 1];
    }
  }

  lemma OriginalSurvivesStart(env: Env, path: string, files: Files)
    requires Start(env, path, files).conn == Live(0)
    ensures path in files && env.openOk && Start(env, path, files) == Boot(files, Live(0), 0, 0, [Opened(true)])
  {
  }

  /** Recovery always ends on a new handle, never on the original one. */
  lemma RecoverLeavesOriginal(env: Env, path: string, st: Boot, g: nat)
    ensures Recover(env, path, st, g).conn != Live(0)
  {
  }

  /** The two checks leave handle 0 in place exactly when both pass on it. */
  lemma StagesOnOriginal(env: Env, path: string, a: Boot)
    ensures SchemaStage(env, path, IntegrityStage(env, path, a)).conn == Live(0) <==>
      a.conn == Live(0) && env.integrity(0) == Row("ok") && SchemaMatches(env.schema(0), env.expected)
    ensures SchemaStage(env, path, IntegrityStage(env, path, a)).conn == Live(0) ==>
      SchemaStage(env, path, IntegrityStage(env, path, a)) == a.(trace := a.trace + [Integrity(0, true), SchemaChecked(0, true)])
  {
    var i := IntegrityStage(env, path, a);
    IntegrityOnOriginal(env, path, a);
    SchemaOnOriginal(env, path, i);
    if SchemaStage(env, path, i).conn == Live(0) {
      AppendAssoc(a.trace, [Integrity(0, true)], [SchemaChecked(0, true)]);
    }
  }

  /** The integrity check leaves handle 0 in place exactly when it passes on it. */
  lemma IntegrityOnOriginal(env: Env, path: string, a: Boot)
    ensures IntegrityStage(env, path, a).conn == Live(0) <==> a.conn == Live(0) && env.integrity(0) == Row("ok")
    ensures IntegrityStage(env, path, a).conn == Live(0) ==>
      IntegrityStage(env, path, a) == a.(trace := a.trace + [Integrity(0, true)])
  {
    if a.conn.Live? {
      RecoverLeavesOriginal(env, path, a.(trace := a.trace + [Integrity(a.conn.gen, false)]), a.conn.gen);
    }
  }

  /** The schema check leaves handle 0 in place exactly when it passes on it. */
  lemma SchemaOnOriginal(env: Env, path: string, a: Boot)
    ensures SchemaStage(env, path, a).conn == Live(0) <==> a.conn == Live(0) && SchemaMatches(env.schema(0), env.expected)
    ensures SchemaStage(env, path, a).conn == Live(0) ==>
      SchemaStage(env, path, a) == a.(trace := a.trace + [SchemaChecked(0, true)])
  {
    if a.conn.Live? {
      RecoverLeavesOriginal(env, path, a.(trace := a.trace + [SchemaChecked(a.conn.gen, false)]), a.conn.gen);
    }
  }

  /** When `Setup` ends on handle 0, the file opened and every check passed on it. */
  lemma ReadyOnlyOnOriginal(env: Env, path: string, files: Files, before: seq<PragmaConstraint>, cacheSize: int)
    requires SetupSpec(env, path, files, before, cacheSize).result == Ready(0)
    ensures path in files && env.openOk && AllPragmasPass(env, 0, Applied(before, cacheSize))
    ensures env.integrity(0) == Row("ok") && SchemaMatches(env.schema(0), env.expected)
    ensures SetupSpec(env, path, files, before, cacheSize).files == files
    ensures SetupSpec(env, path, files, before, cacheSize).trace
      == [Opened(true)] + Execs(0, Applied(before, cacheSize)) + [Integrity(0, true), SchemaChecked(0, true)]
  {
    var ps := Applied(before, cacheSize);
    var st := Start(env, path, files);
    var a := ApplyPragmas(env, path, st, ps);
    StagesOnOriginal(env, path, a);
    OriginalSurvivesPragmas(env, path, st, ps);
    OriginalSurvivesStart(env, path, files);
    PragmasPass(env, path, st, ps);
  }

  /** An existing file that opens and passes every check is kept. */
  lemma OriginalKept(env: Env, path: string, files: Files, before: seq<PragmaConstraint>, cacheSize: int)
    requires path in files && env.openOk && AllPragmasPass(env, 0, Applied(before, cacheSize))
    requires env.integrity(0) == Row("ok") && SchemaMatches(env.schema(0), env.expected)
    ensures SetupSpec(env, path, files, before, cacheSize).result == Ready(0)
  {
    var ps := Applied(before, cacheSize);
    var st := Start(env, path, files);
    assert st == Boot(files, Live(0), 0, 0, [Opened(true)]);
    PragmasPass(env, path, st, ps);
    StagesOnOriginal(env, path, ApplyPragmas(env, path, st, ps));
  }

  /**
   * `Setup` keeps the existing file exactly when it opens, every pragma
   * succeeds on it, the integrity check says exactly "ok" and the schema
   * matches; then nothing is backed up or recreated.
   */
  lemma ReadyOnOriginal(env: Env, path: string, files: Files, before: seq<PragmaConstraint>, cacheSize: int)
    ensures var out := SetupSpec(env, path, files, before, cacheSize);
            out.result == Ready(0) <==>
              path in files && env.openOk && AllPragmasPass(env, 0, Applied(before, cacheSize))
              && env.integrity(0) == Row("ok") && SchemaMatches(env.schema(0), env.expected)
    ensures var out := SetupSpec(env, path, files, before, cacheSize);
            out.result == Ready(0) ==>
              out.files == files &&
              out.trace == [Opened(true)] + Execs(0, Applied(before, cacheSize))
                           + [Integrity(0, true), SchemaChecked(0, true)]
  {
    if SetupSpec(env, path, files, before, cacheSize).result == Ready(0) {
      ReadyOnlyOnOriginal(env, path, files, before, cacheSize);
    }
    if path in files && env.openOk && AllPragmasPass(env, 0, Applied(before, cacheSize))
       && env.integrity(0) == Row("ok") && SchemaMatches(env.schema(0), env.expected) {
      OriginalKept(env, path, files, before, cacheSize);
    }
  }

  // ---------------------------------------------------------------------
  // The order of recovery actions

  predicate FailedCheck(a: Action)
  {
    (a.Exec? && !a.ok) || (a.Integrity? && !a.passed) || (a.SchemaChecked? && !a.passed)
  }

  /** An action that `Setup` only ever takes right after another one. */
  predicate Follower(a: Action)
  {
    a.Closed? || a.BackedUp? || a.Created?
  }

  /**
   * Every failed check is followed by closing that handle, a backup and a
   * recreation; a failed open by a backup and a recreation; a close only
   * follows a failed check; a backup only follows a close or a failed open;
   * a recreation, except the very first action, only follows a backup.
   */
  predicate RecoveryOrdered(t: seq<Action>)
  {
    && (forall i :: 0 <= i < |t| && FailedCheck(t[i]) ==>
          i + 3 < |t| && t[i + 1] == Closed(t[i].gen) && t[i + 2].BackedUp? && t[i + 3].Created?)
    && (forall i :: 0 <= i < |t| && t[i] == Opened(false) ==>
          i + 2 < |t| && t[i + 1].BackedUp? && t[i + 2].Created?)
    && (forall i :: 0 <= i < |t| && t[i].Closed? ==> 0 < i && FailedCheck(t[i - 1]))
    && (forall i :: 0 <= i < |t| && t[i].BackedUp? ==> 0 < i && (t[i - 1].Closed? || t[i - 1] == Opened(false)))
    && (forall i :: 0 <= i < |t| && t[i].Created? ==> i == 0 || t[i - 1].BackedUp?)
  }

  lemma OrderedConcatForward(a: seq<Action>, b: seq<Action>)
    requires RecoveryOrdered(a) && RecoveryOrdered(b)
    ensures forall i :: 0 <= i < |a + b| && FailedCheck((a + b)[i]) ==>
      i + 3 < |a + b| && (a + b)[i + 1] == Closed((a + b)[i].gen) && (a + b)[i + 2].BackedUp? && (a + b)[i + 3].Created?
    ensures forall i :: 0 <= i < |a + b| && (a + b)[i] == Opened(false) ==>
      i + 2 < |a + b| && (a + b)[i + 1].BackedUp? && (a + b)[i + 2].Created?
  {
    FailedChecksForward(a, b);
    FailedOpensForward(a, b);
  }

  lemma FailedChecksForward(a: seq<Action>, b: seq<Action>)
    requires RecoveryOrdered(a) && RecoveryOrdered(b)
    ensures forall i :: 0 <= i < |a + b| && FailedCheck((a + b)[i]) ==>
      i + 3 < |a + b| && (a + b)[i + 1] == Closed((a + b)[i].gen) && (a + b)[i + 2].BackedUp? && (a + b)[i + 3].Created?
  {
    forall i | 0 <= i < |a + b| && FailedCheck((a + b)[i])
      ensures i + 3 < |a + b| && (a + b)[i + 1] == Closed((a + b)[i].gen) && (a + b)[i + 2].BackedUp? && (a + b)[i + 3].Created?
    {
      if i < |a| {
        FailedCheckInFirst(a, b, i);
      } else {
        FailedCheckInSecond(a, b, i);
      }
    }
  }

  lemma FailedCheckInFirst(a: seq<Action>, b: seq<Action>, i: nat)
    requires RecoveryOrdered(a) && i < |a| && FailedCheck(a[i])
    ensures i + 3 < |a + b| && (a + b)[i] == a[i]
    ensures (a + b)[i + 1] == Closed(a[i].gen) && (a + b)[i + 2].BackedUp? && (a + b)[i + 3].Created?
  {
    assert (a + b)[i + 1] == a[i + 1] && (a + b)[i + 2] == a[i + 2] && (a + b)[i + 3] == a[i + 3];
  }

  lemma FailedCheckInSecond(a: seq<Action>, b: seq<Action>, i: nat)
    requires RecoveryOrdered(b) && |a| <= i < |a + b| && FailedCheck((a + b)[i])
    ensures i + 3 < |a + b|
    ensures (a + b)[i + 1] == Closed((a + b)[i].gen) && (a + b)[i + 2].BackedUp? && (a + b)[i + 3].Created?
  {
    var j := i - |a|;
    assert (a + b)[i] == b[j];
    assert (a + b)[i + 1] == b[j + 1] && (a + b)[i + 2] == b[j + 2] && (a + b)[i + 3] == b[j + 3];
  }

  lemma FailedOpensForward(a: seq<Action>, b: seq<Action>)
    requires RecoveryOrdered(a) && RecoveryOrdered(b)
    ensures forall i :: 0 <= i < |a + b| && (a + b)[i] == Opened(false) ==>
      i + 2 < |a + b| && (a + b)[i + 1].BackedUp? && (a + b)[i + 2].Created?
  {
    var t := a + b;
    forall i | 0 <= i < |t| && t[i] == Opened(false)
      ensures i + 2 < |t| && t[i + 1].BackedUp? && t[i + 2].Created?
    {
      if i < |a| {
        assert t[i] == a[i] && t[i + 1] == a[i + 1] && t[i + 2] == a[i + 2];
      } else {
        var j := i - |a|;
        assert t[i] == b[j];
        assert t[i + 1] == b[j + 1] && t[i + 2] == b[j + 2];
      }
    }
  }

  lemma OrderedConcatBackward(a: seq<Action>, b: seq<Action>)
    requires RecoveryOrdered(a) && RecoveryOrdered(b) && (b != [] ==> !Follower(b[0]))
    ensures forall i :: 0 <= i < |a + b| && (a + b)[i].Closed? ==> 0 < i && FailedCheck((a + b)[i - 1])
    ensures forall i :: 0 <= i < |a + b| && (a + b)[i].BackedUp? ==>
      0 < i && ((a + b)[i - 1].Closed? || (a + b)[i - 1] == Opened(false))
    ensures forall i :: 0 <= i < |a + b| && (a + b)[i].Created? ==> i == 0 || (a + b)[i - 1].BackedUp?
  {
    var t := a + b;
    forall i | 0 <= i < |t| && Follower(t[i]) && i >= |a|
      ensures i > |a| && t[i] == b[i - |a|] && t[i - 1] == b[i - |a| - 1]
    {
      assert t[i] == b[i - |a|];
    }
    forall i | 0 <= i < |t| && Follower(t[i]) && i < |a|
      ensures t[i] == a[i] && (i > 0 ==> t[i - 1] == a[i - 1])
    {
    }
  }

  lemma OrderedConcat(a: seq<Action>, b: seq<Action>)
    requires RecoveryOrdered(a) && RecoveryOrdered(b) && (b != [] ==> !Follower(b[0]))
    ensures RecoveryOrdered(a + b)
  {
    OrderedConcatForward(a, b);
    OrderedConcatBackward(a, b);
  }

  /** The block a failed check appends. */
  lemma RecoveryBlockOrdered(a: Action, target: string, renamed: bool, k: nat, ok: bool)
    requires FailedCheck(a)
    ensures RecoveryOrdered([a, Closed(a.gen), BackedUp(target, renamed), Created(k, ok)])
  {
    var t := [a, Closed(a.gen), BackedUp(target, renamed), Created(k, ok)];
    assert t[0] == a && t[1] == Closed(a.gen) && t[2] == BackedUp(target, renamed) && t[3] == Created(k, ok);
    assert !Follower(a) && a != Opened(false) by {
      assert a.Exec? || a.Integrity? || a.SchemaChecked?;
    }
    forall i | 0 <= i < |t| && FailedCheck(t[i]) ensures i == 0 {
    }
    forall i | 0 <= i < |t| && t[i] == Opened(false) ensures false {
    }
  }

  lemma RecoverTrace(env: Env, path: string, st: Boot, a: Action, g: nat)
    ensures var b := Backup(st.files, path, env.clock(st.backups));
            var k := st.creates + 1;
            Recover(env, path, st.(trace := st.trace + [a]), g).trace
              == st.trace + [a, Closed(g), BackedUp(b.target, b.renamed), Created(k, NewDb(env.create(k)).failure.None?)]
  {
  }

  /** One check, passed or recovered from, keeps the trace ordered. */
  lemma CheckStepOrdered(env: Env, path: string, st: Boot, a: Action, passed: bool)
    requires RecoveryOrdered(st.trace) && !Follower(a) && a != Opened(false)
    requires FailedCheck(a) <==> !passed
    requires a.Exec? || a.Integrity? || a.SchemaChecked?
    ensures RecoveryOrdered(
      (if passed then st.(trace := st.trace + [a]) else Recover(env, path, st.(trace := st.trace + [a]), a.gen)).trace)
  {
    if passed {
      SingleOrdered(a);
      OrderedConcat(st.trace, [a]);
    } else {
      var b := Backup(st.files, path, env.clock(st.backups));
      var k := st.creates + 1;
      RecoverTrace(env, path, st, a, a.gen);
      RecoveryBlockOrdered(a, b.target, b.renamed, k, NewDb(env.create(k)).failure.None?);
      OrderedConcat(st.trace, [a, Closed(a.gen), BackedUp(b.target, b.renamed), Created(k, NewDb(env.create(k)).failure.None?)]);
    }
  }

  lemma PragmaOrdered(env: Env, path: string, st: Boot, c: PragmaConstraint)
    requires RecoveryOrdered(st.trace)
    ensures RecoveryOrdered(ApplyPragma(env, path, st, c).trace)
  {
    match st.conn
    case Live(g) =>
      var ok := env.exec(g, PragmaStatement(c));
      CheckStepOrdered(env, path, st, Exec(g, PragmaStatement(c), ok), ok);
    case Down(_) =>
      SingleOrdered(ExecOnNil);
      OrderedConcat(st.trace, [ExecOnNil]);
    case Crashed =>
  }

  lemma {:induction false} PragmasOrdered(env: Env, path: string, st: Boot, ps: seq<PragmaConstraint>)
    requires RecoveryOrdered(st.trace)
    ensures RecoveryOrdered(ApplyPragmas(env, path, st, ps).trace)
    decreases |ps|
  {
    if ps != [] {
      PragmaOrdered(env, path, st, ps[0]);
      PragmasOrdered(env, path, ApplyPragma(env, path, st, ps[0]), ps[1..]);
    }
  }

  lemma StartOrdered(env: Env, path: string, files: Files)
    ensures RecoveryOrdered(Start(env, path, files).trace)
  {
    var t := Start(env, path, files).trace;
    if path !in files {
      assert t == [Created(1, NewDb(env.create(1)).failure.None?)];
      SingleOrdered(Created(1, NewDb(env.create(1)).failure.None?));
    } else if env.openOk {
      assert t == [Opened(true)];
      SingleOrdered(Opened(true));
    } else {
      var b := Backup(files, path, env.clock(0));
      assert t == [Opened(false), BackedUp(b.target, b.renamed), Created(1, NewDb(env.create(1)).failure.None?)];
      OpenFailBlockOrdered(b.target, b.renamed, 1, NewDb(env.create(1)).failure.None?);
    }
  }

  /** An action that needs nothing before or after it, alone. */
  lemma SingleOrdered(a: Action)
    requires !FailedCheck(a) && a != Opened(false) && !a.Closed? && !a.BackedUp?
    ensures RecoveryOrdered([a])
  {
    var t := [a];
    forall i | 0 <= i < |t| ensures i == 0 && t[i] == a {
    }
  }

  /** The block a failed open starts the trace with. */
  lemma OpenFailBlockOrdered(target: string, renamed: bool, k: nat, ok: bool)
    ensures RecoveryOrdered([Opened(false), BackedUp(target, renamed), Created(k, ok)])
  {
    var t := [Opened(false), BackedUp(target, renamed), Created(k, ok)];
    assert t[0] == Opened(false) && t[1] == BackedUp(target, renamed) && t[2] == Created(k, ok);
    forall i | 0 <= i < |t| && t[i] == Opened(false) ensures i == 0 {
    }
    forall i | 0 <= i < |t| && FailedCheck(t[i]) ensures false {
    }
  }

  lemma StagesOrdered(env: Env, path: string, st: Boot)
    requires RecoveryOrdered(st.trace)
    ensures RecoveryOrdered(IntegrityStage(env, path, st).trace)
    ensures RecoveryOrdered(SchemaStage(env, path, st).trace)
  {
    if st.conn.Live? {
      var g := st.conn.gen;
      var passed := env.integrity(g) == Row("ok");
      CheckStepOrdered(env, path, st, Integrity(g, passed), passed);
      var valid := SchemaMatches(env.schema(g), env.expected);
      CheckStepOrdered(env, path, st, SchemaChecked(g, valid), valid);
    }
  }

  /** Every run of `Setup` performs its recovery actions in the order close, backup, recreate. */
  lemma SetupRecoveryOrdered(env: Env, path: string, files: Files, before: seq<PragmaConstraint>, cacheSize: int)
    ensures RecoveryOrdered(SetupSpec(env, path, files, before, cacheSize).trace)
  {
    var st := Start(env, path, files);
    StartOrdered(env, path, files);
    if !EarlyExit(env, path, files) {
      var a := ApplyPragmas(env, path, st, Applied(before, cacheSize));
      PragmasOrdered(env, path, st, Applied(before, cacheSize));
      StagesOrdered(env, path, a);
      StagesOrdered(env, path, IntegrityStage(env, path, a));
    }
  }

  // ---------------------------------------------------------------------
  // What the final handle says about the run

  /** No `newDB` call recorded in `t` failed. */
  predicate NoFailedCreate(t: seq<Action>)
  {
    forall a :: a in t && a.Created? ==> a.ok
  }

  /**
   * The link between the (`db`, `err`) pair and the trace: a live handle
   * was never preceded by a failed `newDB` and, when it is a recreated one,
   * its fresh file sits at `path`; a missing handle carries the error of the
   * `newDB` recorded last; a panic is the last thing that happened.
   */
  predicate Consistent(env: Env, path: string, st: Boot)
  {
    match st.conn
    case Live(g) => NoFailedCreate(st.trace) && (g > 0 ==> path in st.files && st.files[path] == Fresh(g))
    case Down(f) =>
      0 < st.creates && |st.trace| > 0 && st.trace[|st.trace| - 1] == Created(st.creates, false)
      && NewDb(env.create(st.creates)).failure == Some(f)
    case Crashed => !NoFailedCreate(st.trace) && |st.trace| > 0 && st.trace[|st.trace| - 1] == ExecOnNil
  }

  lemma ConsistentCreate(env: Env, path: string, st: Boot)
    requires NoFailedCreate(st.trace)
    ensures Consistent(env, path, Create(env, path, st))
  {
  }

  lemma ConsistentRecover(env: Env, path: string, st: Boot, g: nat)
    requires NoFailedCreate(st.trace)
    ensures Consistent(env, path, Recover(env, path, st, g))
  {
    var b := Backup(st.files, path, env.clock(st.backups));
    var st1 := st.(trace := st.trace + [Closed(g)]);
    var st2 := st1.(files := b.files, backups := st1.backups + 1, trace := st1.trace + [BackedUp(b.target, b.renamed)]);
    ConsistentCreate(env, path, st2);
  }

  lemma ConsistentStart(env: Env, path: string, files: Files)
    ensures Consistent(env, path, Start(env, path, files))
  {
    var empty := Boot(files, Down(DriverError(OpenStep, "")), 0, 0, []);
    if path !in files {
      ConsistentCreate(env, path, empty);
    } else if !env.openOk {
      var b := Backup(files, path, env.clock(0));
      ConsistentCreate(env, path, empty.(files := b.files, backups := 1, trace := [Opened(false), BackedUp(b.target, b.renamed)]));
    }
  }

  lemma ConsistentPragma(env: Env, path: string, st: Boot, c: PragmaConstraint)
    requires Consistent(env, path, st)
    ensures Consistent(env, path, ApplyPragma(env, path, st, c))
  {
    match st.conn
    case Live(g) =>
      var ok := env.exec(g, PragmaStatement(c));
      if !ok {
        ConsistentRecover(env, path, st.(trace := st.trace + [Exec(g, PragmaStatement(c), ok)]), g);
      }
    case Down(_) =>
      var t := st.trace + [ExecOnNil];
      assert t[|st.trace| - 1] == Created(st.creates, false);
    case Crashed =>
  }

  lemma {:induction false} ConsistentPragmas(env: Env, path: string, st: Boot, ps: seq<PragmaConstraint>)
    requires Consistent(env, path, st)
    ensures Consistent(env, path, ApplyPragmas(env, path, st, ps))
    decreases |ps|
  {
    if ps != [] {
      ConsistentPragma(env, path, st, ps[0]);
      ConsistentPragmas(env, path, ApplyPragma(env, path, st, ps[0]), ps[1..]);
    }
  }

  lemma ConsistentStages(env: Env, path: string, st: Boot)
    requires Consistent(env, path, st)
    ensures Consistent(env, path, IntegrityStage(env, path, st))
    ensures Consistent(env, path, SchemaStage(env, path, st))
  {
    if st.conn.Live? {
      var g := st.conn.gen;
      var passed := env.integrity(g) == Row("ok");
      if !passed {
        ConsistentRecover(env, path, st.(trace := st.trace + [Integrity(g, passed)]), g);
      }
      var valid := SchemaMatches(env.schema(g), env.expected);
      if !valid {
        ConsistentRecover(env, path, st.(trace := st.trace + [SchemaChecked(g, valid)]), g);
      }
    }
  }

  /** The properties of a final state that `Setup` turns into its result. */
  predicate EndsAsRecorded(env: Env, path: string, o: Outcome)
  {
    && (o.result.Ready? <==> NoFailedCreate(o.trace))
    && (o.result.Failed? ==>
          |o.trace| > 0 && o.trace[|o.trace| - 1].Created? && !o.trace[|o.trace| - 1].ok
          && NewDb(env.create(o.trace[|o.trace| - 1].gen)).failure == Some(o.result.fault))
    && (o.result.Panicked? ==> |o.trace| > 0 && o.trace[|o.trace| - 1] == ExecOnNil)
    && (o.result.Ready? && o.result.gen > 0 ==> path in o.files && o.files[path] == Fresh(o.result.gen))
  }

  lemma FinishConsistent(env: Env, path: string, st: Boot)
    requires Consistent(env, path, st)
    ensures EndsAsRecorded(env, path, Outcome(Finish(st.conn), st.files, st.trace))
  {
    var t := st.trace;
    if st.conn.Down? {
      assert t[|t| - 1] in t;
    }
  }

  /**
   * How `Setup` ends, read off its trace: it returns a handle exactly when
   * no `newDB` call failed; an error is the error of the `newDB` call it
   * made last; a panic is its last action; and a handle other than the
   * original one is the fresh file at `path`.
   */
  lemma SetupResultCharacterised(env: Env, path: string, files: Files, before: seq<PragmaConstraint>, cacheSize: int)
    ensures EndsAsRecorded(env, path, SetupSpec(env, path, files, before, cacheSize))
  {
    var st := Start(env, path, files);
    ConsistentStart(env, path, files);
    if EarlyExit(env, path, files) {
      FinishConsistent(env, path, st);
    } else {
      var a := ApplyPragmas(env, path, st, Applied(before, cacheSize));
      ConsistentPragmas(env, path, st, Applied(before, cacheSize));
      ConsistentStages(env, path, a);
      ConsistentStages(env, path, IntegrityStage(env, path, a));
      FinishConsistent(env, path, SchemaStage(env, path, IntegrityStage(env, path, a)));
    }
  }

  /**
   * An error from `Setup` is the driver's own error, unchanged: the one
   * returned by the failing call of the last `newDB`, every earlier call
   * of which succeeded.
   */
  lemma SetupErrorIsDriverError(env: Env, path: string, files: Files, before: seq<PragmaConstraint>, cacheSize: int)
    ensures var o := SetupSpec(env, path, files, before, cacheSize);
      o.result.Failed? ==>
        exists k: nat :: && env.create(k).ErrorAt(o.result.fault.step) == Some(o.result.fault.text)
                         && forall s: CreateStep :: s.Index() < o.result.fault.step.Index() ==> env.create(k).ErrorAt(s).None?
  {
    var o := SetupSpec(env, path, files, before, cacheSize);
    SetupResultCharacterised(env, path, files, before, cacheSize);
    if o.result.Failed? {
      var k := o.trace[|o.trace| - 1].gen;
      assert NewDb(env.create(k)).failure == Some(o.result.fault);
    }
  }

  /**
   * When the existing file cannot be opened and its replacement cannot be
   * created either, the first pragma is run on the nil handle.
   */
  lemma OpenAndCreateFailPanics(env: Env, path: string, files: Files, before: seq<PragmaConstraint>, cacheSize: int)
    requires path in files && !env.openOk && NewDb(env.create(1)).failure.Some?
    ensures var b := Backup(files, path, env.clock(0));
            var o := SetupSpec(env, path, files, before, cacheSize);
            o.result == Panicked && o.files == b.files
            && o.trace == [Opened(false), BackedUp(b.target, b.renamed), Created(1, false), ExecOnNil]
  {
    var st := Start(env, path, files);
    var ps := Applied(before, cacheSize);
    ApplyPragmasCons(env, path, st, ps);
    CrashedStays(env, path, ApplyPragma(env, path, st, ps[0]), ps[1..]);
  }
}
