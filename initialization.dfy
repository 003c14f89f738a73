/**
 * The database bootstrap of internal/database/initialization.go: the pragma
 * list, `backup`, `newDB`, `fetchSchema`, `validateSchema` and the `Setup`
 * cascade (open or create, pragmas, integrity check, schema check, with
 * "close, back up, recreate" whenever a check fails).
 *
 * SQLite and the filesystem are not modelled; their answers come from an
 * `Env` oracle.  Every handle `Setup` holds has a generation: 0 for the file
 * that was already there, k for the handle of the k-th `newDB` call.
 */
module Database {
  import opened Wrappers
  import opened Text
  import Decimal
  import SqlText

  // ---------------------------------------------------------------------
  // The pragma list

  datatype PragmaConstraint = PragmaConstraint(pragma: string, value: string)

  /** The package-level `preConditions` as the program starts. */
  const DefaultPreConditions: seq<PragmaConstraint> := [
    PragmaConstraint("busy_timeout", "10000"),
    PragmaConstraint("journal_mode", "WAL"),
    PragmaConstraint("journal_size_limit", "200000000"),
    PragmaConstraint("synchronous", "NORMAL"),
    PragmaConstraint("foreign_keys", "ON"),
    PragmaConstraint("temp_store", "MEMORY")
  ]

  /** The constraint `Setup` appends: the cache size in decimal. */
  function CachePragma(cacheSize: int): PragmaConstraint
  {
    PragmaConstraint("cache_size", Decimal.Itoa(cacheSize))
  }

  /** The statement `Setup` executes for one constraint. */
  function PragmaStatement(c: PragmaConstraint): string
  {
    "PRAGMA " + c.pragma + " = " + c.value + ";"
  }

  // ---------------------------------------------------------------------
  // The filesystem and `backup`

  /** What a file holds: something that was there before, or the k-th fresh database. */
  datatype FileContent = Prior(id: nat) | Fresh(gen: nat)

  type Files = map<string, FileContent>

  datatype BackupOutcome = BackupOutcome(files: Files, target: string, renamed: bool)

  /** The name `backup` renames to: `path.bak`, or a timestamped name once that exists. */
  function BackupTarget(files: Files, path: string, stamp: string): string
  {
    if path + ".bak" in files then path + "-" + stamp + ".bak" else path + ".bak"
  }

  /**
   * `backup`: renames `path` to its backup name.  A failed rename is only
   * logged, so the outcome is data, never an error.
   */
  function Backup(files: Files, path: string, stamp: string): (r: BackupOutcome)
    ensures r.target == path + ".bak" <==> path + ".bak" !in files
    ensures r.target != path + ".bak" ==> r.target == path + "-" + stamp + ".bak"
    ensures r.renamed <==> path in files
    ensures r.renamed ==> path !in r.files && r.target in r.files && r.files[r.target] == files[path]
    ensures !r.renamed ==> r.files == files
    ensures forall f :: f in r.files ==> f == r.target || (f in files && r.files[f] == files[f])
    ensures forall f :: f in files && f != path && f != r.target ==> f in r.files
    ensures path + ".bak" in files ==> path + ".bak" in r.files && r.files[path + ".bak"] == files[path + ".bak"]
  {
    var target := BackupTarget(files, path, stamp);
    assert |target| > |path|;
    if path in files then
      BackupOutcome((files - {path})[target := files[path]], target, true)
    else
      BackupOutcome(files, target, false)
  }

  /**
   * Only `path.bak` is looked up: an existing time-stamped backup of the
   * same second is replaced by the rename, as `os.Rename` replaces its target.
   */
  lemma BackupReplacesStamped(files: Files, path: string, stamp: string)
    requires path in files && path + ".bak" in files && path + "-" + stamp + ".bak" in files
    ensures var r := Backup(files, path, stamp);
      && r.target == path + "-" + stamp + ".bak"
      && r.target in files && r.files[r.target] == files[path]
      && path !in r.files
  {
  }

  /** Two recoveries within one second lose the first one's evidence. */
  lemma BackupLosesEarlierStamped()
    ensures var files := map["p" := Prior(0), "p.bak" := Prior(1), "p-S.bak" := Prior(2)];
      var r := Backup(files, "p", "S");
      r.target == "p-S.bak" && forall f :: f in r.files ==> r.files[f] != Prior(2)
  {
    var files := map["p" := Prior(0), "p.bak" := Prior(1), "p-S.bak" := Prior(2)];
    assert "p" + ".bak" == "p.bak" && "p" + "-" + "S" + ".bak" == "p-S.bak";
    var r := Backup(files, "p", "S");
    assert r.target == "p-S.bak";
    forall f | f in r.files
      ensures r.files[f] != Prior(2)
    {
      if f != r.target {
        assert f in files && r.files[f] == files[f];
        assert f != "p";
        assert f == "p.bak";
      }
    }
  }

  // ---------------------------------------------------------------------
  // `newDB`

  /** The steps of `newDB`, each of which can fail. */
  datatype CreateStep = OpenStep | PragmaStep | BeginStep | SchemaStep | CommitStep
  {
    /** The position of the step in `newDB`, from 0. */
    function Index(): nat
    {
      match this
      case OpenStep => 0
      case PragmaStep => 1
      case BeginStep => 2
      case SchemaStep => 3
      case CommitStep => 4
    }
  }

  /** The calls `newDB` makes on the driver, in order. */
  datatype DriverCall = OpenCall | PragmaCall | BeginCall | SchemaCall | RollbackCall | CommitCall | CloseCall

  /** How the driver answers the calls of one `newDB`: the error each call returns, if any. */
  datatype CreateOracle = CreateOracle(openErr: Option<string>, pragmasErr: Option<string>, beginErr: Option<string>,
                                       schemaErr: Option<string>, commitErr: Option<string>)
  {
    const openOk: bool := openErr.None?
    const pragmasOk: bool := pragmasErr.None?
    const beginOk: bool := beginErr.None?
    const schemaOk: bool := schemaErr.None?
    const commitOk: bool := commitErr.None?

    /** The error the driver returns at a step. */
    function ErrorAt(step: CreateStep): Option<string>
    {
      match step
      case OpenStep => openErr
      case PragmaStep => pragmasErr
      case BeginStep => beginErr
      case SchemaStep => schemaErr
      case CommitStep => commitErr
    }
  }

  /** The error `newDB` returns: the driver's own error, from the step that failed. */
  datatype DriverError = DriverError(step: CreateStep, text: string)

  datatype NewDbOutcome = NewDbOutcome(failure: Option<DriverError>, calls: seq<DriverCall>)

  /** The step at which `newDB` stopped, if it failed. */
  function FailedStep(r: NewDbOutcome): Option<CreateStep>
  {
    if r.failure.None? then None else Some(r.failure.value.step)
  }

  /** The full run of a successful `newDB`. */
  const CreateCalls: seq<DriverCall> := [OpenCall, PragmaCall, BeginCall, SchemaCall, CommitCall]

  /**
   * `newDB`: open, set the two pragmas, begin, run the schema, commit; once
   * the handle is open, every failure closes it, and a failed schema run is
   * rolled back first.
   */
  function NewDb(o: CreateOracle): (r: NewDbOutcome)
    ensures r.failure.None? <==> o.openOk && o.pragmasOk && o.beginOk && o.schemaOk && o.commitOk
    ensures r.failure.None? ==> r.calls == CreateCalls
    ensures r.failure.Some? ==> o.ErrorAt(r.failure.value.step) == Some(r.failure.value.text)
    ensures r.failure.Some? ==> forall s: CreateStep :: s.Index() < r.failure.value.step.Index() ==> o.ErrorAt(s).None?
    ensures FailedStep(r) == Some(OpenStep) <==> !o.openOk
    ensures FailedStep(r) == Some(OpenStep) ==> r.calls == [OpenCall]
    ensures r.failure.Some? && FailedStep(r) != Some(OpenStep) ==> |r.calls| > 1 && r.calls[|r.calls| - 1] == CloseCall
    ensures CloseCall in r.calls <==> r.failure.Some? && FailedStep(r) != Some(OpenStep)
    ensures RollbackCall in r.calls <==> FailedStep(r) == Some(SchemaStep)
    ensures CommitCall in r.calls <==> o.openOk && o.pragmasOk && o.beginOk && o.schemaOk
    ensures |r.calls| > 0 && r.calls[0] == OpenCall
  {
    if !o.openOk then NewDbOutcome(Some(DriverError(OpenStep, o.openErr.value)), [OpenCall])
    else if !o.pragmasOk then
      NewDbOutcome(Some(DriverError(PragmaStep, o.pragmasErr.value)), [OpenCall, PragmaCall, CloseCall])
    else if !o.beginOk then
      NewDbOutcome(Some(DriverError(BeginStep, o.beginErr.value)), [OpenCall, PragmaCall, BeginCall, CloseCall])
    else if !o.schemaOk then
      NewDbOutcome(Some(DriverError(SchemaStep, o.schemaErr.value)),
                   [OpenCall, PragmaCall, BeginCall, SchemaCall, RollbackCall, CloseCall])
    else if !o.commitOk then
      NewDbOutcome(Some(DriverError(CommitStep, o.commitErr.value)),
                   [OpenCall, PragmaCall, BeginCall, SchemaCall, CommitCall, CloseCall])
    else NewDbOutcome(None, CreateCalls)
  }

  // ---------------------------------------------------------------------
  // `fetchSchema` and `validateSchema`

  /**
   * What `SELECT sql FROM sqlite_master WHERE type='table'` yields, as the
   * driver reports it: the query's error, each row's scan, and the error
   * `rows.Err` reports once the rows are exhausted.
   */
  datatype SchemaQuery = SchemaQuery(queryErr: Option<string>, rows: seq<Result<string>>, iterationErr: Option<string>)

  /** The text `fetchSchema` builds: every `sql` in row order, each followed by one newline. */
  function Snapshot(sqls: seq<string>): string
  {
    if sqls == [] then "" else Snapshot(sqls[..|sqls| - 1]) + sqls[|sqls| - 1] + "\n"
  }

  predicate AllScanned(rows: seq<Result<string>>)
  {
    forall i :: 0 <= i < |rows| ==> rows[i].Ok?
  }

  function Scanned(rows: seq<Result<string>>): (sqls: seq<string>)
    requires AllScanned(rows)
    ensures |sqls| == |rows| && forall i :: 0 <= i < |rows| ==> rows[i] == Ok(sqls[i])
  {
    seq(|rows|, i requires 0 <= i < |rows| && AllScanned(rows) => rows[i].value)
  }

  /** The snapshot is the rows joined by newlines, with one more after the last. */
  lemma {:induction false} SnapshotJoin(sqls: seq<string>)
    ensures Snapshot(sqls) == Join(sqls + [""], "\n")
    decreases |sqls|
  {
    if sqls != [] {
      var init, last := sqls[..|sqls| - 1], sqls[|sqls| - 1];
      assert Join([last, ""], "\n") == last + "\n" + "";
      if init == [] {
        assert sqls + [""] == [last, ""];
      } else {
        var j := Join(init, "\n");
        assert Snapshot(init) == j + "\n" by {
          SnapshotJoin(init);
          JoinConcat(init, [""], "\n");
        }
        assert Join(sqls + [""], "\n") == j + "\n" + (last + "\n") by {
          assert sqls + [""] == init + [last, ""];
          JoinConcat(init, [last, ""], "\n");
        }
        AppendAssoc(j + "\n", last, "\n");
      }
    }
  }

  lemma {:induction false} SnapshotSplitWith(sqls: seq<string>, t: string)
    requires forall i :: 0 <= i < |sqls| ==> '\n' !in sqls[i]
    ensures SplitOn(Snapshot(sqls) + t, '\n') == sqls + SplitOn(t, '\n')
    decreases |sqls|
  {
    if sqls != [] {
      var init, last := sqls[..|sqls| - 1], sqls[|sqls| - 1];
      var more := last + ['\n'] + t;
      assert Snapshot(sqls) + t == Snapshot(init) + more by {
        Regroup([], Snapshot(init), last, "\n", t);
      }
      assert SplitOn(Snapshot(init) + more, '\n') == init + SplitOn(more, '\n') by {
        assert forall i :: 0 <= i < |init| ==> init[i] == sqls[i];
        SnapshotSplitWith(init, more);
      }
      assert SplitOn(more, '\n') == [last] + SplitOn(t, '\n') by {
        SplitConcat(last, '\n', t);
        SplitNoSeparator(last, '\n');
      }
      AppendAssoc(init, [last], SplitOn(t, '\n'));
      assert sqls == init + [last];
    } else {
      assert Snapshot(sqls) + t == t;
    }
  }

  /** Rows without newlines come back as the lines of the snapshot. */
  lemma SnapshotLines(sqls: seq<string>)
    requires forall i :: 0 <= i < |sqls| ==> '\n' !in sqls[i]
    ensures SplitOn(Snapshot(sqls), '\n') == sqls + [""]
  {
    SnapshotSplitWith(sqls, "");
    assert Snapshot(sqls) + "" == Snapshot(sqls);
  }

  /** The error of the first row that fails to scan, or none when every row scans. */
  function FirstScanError(rows: seq<Result<string>>): (e: Option<string>)
    ensures e.None? <==> AllScanned(rows)
    ensures e.Some? ==> exists i :: (0 <= i < |rows| && AllScanned(rows[..i]) && rows[i] == Err(e.value))
  {
    if rows == [] then None
    else if rows[0].Err? then
      assert AllScanned(rows[..0]);
      Some(rows[0].error)
    else
      var e := FirstScanError(rows[1..]);
      assert forall i :: 0 < i < |rows| ==> rows[i] == rows[1..][i - 1];
      assert forall i :: 0 <= i < |rows| - 1 ==> rows[1..][..i] == rows[1..i + 1];
      e
  }

  /** A failing row after rows that all scan is the first failure. */
  lemma {:induction false} FirstScanErrorAt(rows: seq<Result<string>>, i: nat)
    requires i < |rows| && AllScanned(rows[..i]) && rows[i].Err?
    ensures FirstScanError(rows) == Some(rows[i].error)
    decreases i
  {
    if i > 0 {
      assert rows[0] == rows[..i][0];
      assert rows[1..][..i - 1] == rows[..i][1..];
      assert rows[1..][i - 1] == rows[i];
      FirstScanErrorAt(rows[1..], i - 1);
    }
  }

  /**
   * What `fetchSchema` returns: the query's error, else the first scan
   * error, else the iteration error, else the snapshot of every row.
   */
  function FetchedSchema(q: SchemaQuery): (r: Result<string>)
    ensures q.queryErr.Some? ==> r == Err(q.queryErr.value)
    ensures q.queryErr.None? && !AllScanned(q.rows) ==>
      exists i :: (0 <= i < |q.rows| && AllScanned(q.rows[..i]) && q.rows[i].Err? && r == Err(q.rows[i].error))
    ensures q.queryErr.None? && AllScanned(q.rows) && q.iterationErr.Some? ==> r == Err(q.iterationErr.value)
    ensures r.Ok? <==> q.queryErr.None? && AllScanned(q.rows) && q.iterationErr.None?
  {
    if q.queryErr.Some? then Err(q.queryErr.value)
    else match FirstScanError(q.rows)
      case Some(e) => Err(e)
      case None =>
        if q.iterationErr.Some? then Err(q.iterationErr.value)
        else Ok(Snapshot(Scanned(q.rows)))
  }

  /** `fetchSchema`: a builder loop over the rows. */
  method FetchSchema(q: SchemaQuery) returns (r: Result<string>)
    ensures r == FetchedSchema(q)
  {
    if q.queryErr.Some? {
      return Err(q.queryErr.value);
    }
    var sb := "";
    for i := 0 to |q.rows|
      invariant AllScanned(q.rows[..i])
      invariant sb == Snapshot(Scanned(q.rows[..i]))
    {
      if q.rows[i].Err? {
        FirstScanErrorAt(q.rows, i);
        return Err(q.rows[i].error);
      }
      assert Scanned(q.rows[..i + 1])[..i] == Scanned(q.rows[..i]);
      sb := sb + q.rows[i].value + "\n";
    }
    assert q.rows[..|q.rows|] == q.rows;
    if q.iterationErr.Some? {
      return Err(q.iterationErr.value);
    }
    return Ok(sb);
  }

  /** The schema check passes: the fetch succeeds and both texts normalise alike. */
  predicate SchemaMatches(q: SchemaQuery, expected: string)
  {
    FetchedSchema(q).Ok? && SqlText.NormalizeSql(FetchedSchema(q).value) == SqlText.NormalizeSql(expected)
  }

  /**
   * `validateSchema`: nil exactly when the fetch succeeds and the normalised
   * texts agree; a fetch error is reported as the same mismatch.
   */
  method ValidateSchema(q: SchemaQuery, expectedSchema: string) returns (valid: bool)
    ensures valid <==> FetchedSchema(q).Ok? && SqlText.NormalizeSql(FetchedSchema(q).value) == SqlText.NormalizeSql(expectedSchema)
  {
    var actualSchema := FetchSchema(q);
    if actualSchema.Err? {
      return false;
    }
    var normalizedExpected := SqlText.NormalizeSql(expectedSchema);
    var normalizedActual := SqlText.NormalizeSql(actualSchema.value);
    valid := normalizedExpected == normalizedActual;
  }

  // ---------------------------------------------------------------------
  // `Setup`

  /** The answer to `PRAGMA integrity_check;`. */
  datatype Probe = QueryFailed | Row(check: string)

  /**
   * Everything `Setup` learns from outside: whether opening the existing
   * file works, how the k-th `newDB` goes, whether a statement succeeds on a
   * handle, what the integrity check and the schema query say on a handle,
   * the time stamp of the k-th backup, and the embedded schema.
   */
  datatype Env = Env(
    openOk: bool,
    create: nat -> CreateOracle,
    exec: (nat, string) -> bool,
    integrity: nat -> Probe,
    schema: nat -> SchemaQuery,
    clock: nat -> string,
    expected: string)

  /**
   * The pair (`db`, `err`) of `Setup`: a live handle with no error, no
   * handle and the error of the last `newDB`, or the panic of using the nil
   * handle.
   */
  datatype Conn = Live(gen: nat) | Down(fault: DriverError) | Crashed

  /** The observable actions of `Setup`, in order. */
  datatype Action =
    | Opened(ok: bool)
    | Exec(gen: nat, stmt: string, ok: bool)
    | Integrity(gen: nat, passed: bool)
    | SchemaChecked(gen: nat, passed: bool)
    | Closed(gen: nat)
    | BackedUp(target: string, renamed: bool)
    | Created(gen: nat, ok: bool)
    | ExecOnNil

  /** The state `Setup` carries from step to step. */
  datatype Boot = Boot(files: Files, conn: Conn, creates: nat, backups: nat, trace: seq<Action>)

  datatype SetupResult = Ready(gen: nat) | Failed(fault: DriverError) | Panicked

  datatype Outcome = Outcome(result: SetupResult, files: Files, trace: seq<Action>)

  /** The k-th `newDB` call: the new handle and, on success, the fresh file at `path`. */
  function Create(env: Env, path: string, st: Boot): Boot
  {
    var k := st.creates + 1;
    var made := NewDb(env.create(k));
    if made.failure.None? then
      Boot(st.files[path := Fresh(k)], Live(k), k, st.backups, st.trace + [Created(k, true)])
    else
      Boot(st.files, Down(made.failure.value), k, st.backups, st.trace + [Created(k, false)])
  }

  /** `backup` followed by `newDB`. */
  function BackupAndCreate(env: Env, path: string, st: Boot): Boot
  {
    var b := Backup(st.files, path, env.clock(st.backups));
    Create(env, path, st.(files := b.files, backups := st.backups + 1, trace := st.trace + [BackedUp(b.target, b.renamed)]))
  }

  /** What every failed check does: close the handle, back up, recreate. */
  function Recover(env: Env, path: string, st: Boot, g: nat): Boot
  {
    BackupAndCreate(env, path, st.(trace := st.trace + [Closed(g)]))
  }

  /** From the start of `Setup` up to the pragma loop. */
  function Start(env: Env, path: string, files: Files): Boot
  {
    var empty := Boot(files, Down(DriverError(OpenStep, "")), 0, 0, []);
    if path !in files then Create(env, path, empty)
    else if env.openOk then empty.(conn := Live(0), trace := [Opened(true)])
    else BackupAndCreate(env, path, empty.(trace := [Opened(false)]))
  }

  /** A missing file whose `newDB` fails ends `Setup` at once. */
  predicate EarlyExit(env: Env, path: string, files: Files)
  {
    path !in files && NewDb(env.create(1)).failure.Some?
  }

  /** One iteration of the pragma loop. */
  function ApplyPragma(env: Env, path: string, st: Boot, c: PragmaConstraint): Boot
  {
    match st.conn
    case Live(g) =>
      var ok := env.exec(g, PragmaStatement(c));
      var st1 := st.(trace := st.trace + [Exec(g, PragmaStatement(c), ok)]);
      if ok then st1 else Recover(env, path, st1, g)
    case Down(_) => st.(conn := Crashed, trace := st.trace + [ExecOnNil])
    case Crashed => st
  }

  /** The pragma loop. */
  function ApplyPragmas(env: Env, path: string, st: Boot, ps: seq<PragmaConstraint>): Boot
    decreases |ps|
  {
    if ps == [] then st else ApplyPragmas(env, path, ApplyPragma(env, path, st, ps[0]), ps[1..])
  }

  /** The integrity check, run only while there is no error. */
  function IntegrityStage(env: Env, path: string, st: Boot): Boot
  {
    match st.conn
    case Live(g) =>
      var passed := env.integrity(g) == Row("ok");
      var st1 := st.(trace := st.trace + [Integrity(g, passed)]);
      if passed then st1 else Recover(env, path, st1, g)
    case _ => st
  }

  /** The schema check, run only while there is no error; nothing is checked after it. */
  function SchemaStage(env: Env, path: string, st: Boot): Boot
  {
    match st.conn
    case Live(g) =>
      var passed := SchemaMatches(env.schema(g), env.expected);
      var st1 := st.(trace := st.trace + [SchemaChecked(g, passed)]);
      if passed then st1 else Recover(env, path, st1, g)
    case _ => st
  }

  function Finish(c: Conn): SetupResult
  {
    match c
    case Live(g) => Ready(g)
    case Down(f) => Failed(f)
    case Crashed => Panicked
  }

  /** The whole of `Setup`, given the pragma list before the call. */
  function SetupSpec(env: Env, path: string, files: Files, before: seq<PragmaConstraint>, cacheSize: int): Outcome
  {
    var st := Start(env, path, files);
    if EarlyExit(env, path, files) then Outcome(Finish(st.conn), st.files, st.trace)
    else
      var done := SchemaStage(env, path, IntegrityStage(env, path,
        ApplyPragmas(env, path, st, before + [CachePragma(cacheSize)])));
      Outcome(Finish(done.conn), done.files, done.trace)
  }

  lemma {:induction false} CrashedStays(env: Env, path: string, st: Boot, ps: seq<PragmaConstraint>)
    requires st.conn.Crashed?
    ensures ApplyPragmas(env, path, st, ps) == st
    decreases |ps|
  {
    if ps != [] {
      CrashedStays(env, path, st, ps[1..]);
    }
  }

  /** `Setup` up to the pragma loop: create a missing file, or open the existing one. */
  method OpenOrCreate(env: Env, path: string, files: Files) returns (st: Boot)
    ensures st == Start(env, path, files)
    ensures st.conn.Down? && path !in files <==> EarlyExit(env, path, files)
  {
    var empty := Boot(files, Down(DriverError(OpenStep, "")), 0, 0, []);
    if path !in files {
      st := Create(env, path, empty);
    } else if env.openOk {
      st := empty.(conn := Live(0), trace := [Opened(true)]);
    } else {
      st := BackupAndCreate(env, path, empty.(trace := [Opened(false)]));
    }
  }

  /** The pragma loop; it stops where Go would panic on the nil handle. */
  method RunPragmas(env: Env, path: string, start: Boot, ps: seq<PragmaConstraint>) returns (st: Boot)
    ensures st == ApplyPragmas(env, path, start, ps)
  {
    st := start;
    for i := 0 to |ps|
      invariant ApplyPragmas(env, path, st, ps[i..]) == ApplyPragmas(env, path, start, ps)
    {
      assert ps[i..][1..] == ps[i + 1..];
      match st.conn
      case Live(g) =>
        var stmt := PragmaStatement(ps[i]);
        var ok := env.exec(g, stmt);
        st := st.(trace := st.trace + [Exec(g, stmt, ok)]);
        if !ok {
          st := Recover(env, path, st, g);
        }
      case Down(_) =>
        st := st.(conn := Crashed, trace := st.trace + [ExecOnNil]);
        CrashedStays(env, path, st, ps[i + 1..]);
        return;
      case Crashed =>
        CrashedStays(env, path, st, ps[i..]);
        return;
    }
    assert ps[|ps|..] == [];
  }

  /** The integrity check and its recovery. */
  method CheckIntegrity(env: Env, path: string, before: Boot) returns (st: Boot)
    ensures st == IntegrityStage(env, path, before)
  {
    st := before;
    if st.conn.Live? {
      var g := st.conn.gen;
      var check := env.integrity(g);
      var passed := check == Row("ok");
      st := st.(trace := st.trace + [Integrity(g, passed)]);
      if !passed {
        st := Recover(env, path, st, g);
      }
    }
  }

  /** The schema check and its recovery. */
  method CheckSchema(env: Env, path: string, before: Boot) returns (st: Boot)
    ensures st == SchemaStage(env, path, before)
  {
    st := before;
    if st.conn.Live? {
      var g := st.conn.gen;
      var valid := ValidateSchema(env.schema(g), env.expected);
      st := st.(trace := st.trace + [SchemaChecked(g, valid)]);
      if !valid {
        st := Recover(env, path, st, g);
      }
    }
  }

  /** The package state `Setup` updates: the global pragma list. */
  class Bootstrap {
    var preConditions: seq<PragmaConstraint>

    constructor ()
      ensures preConditions == DefaultPreConditions
    {
      preConditions := DefaultPreConditions;
    }

    /**
     * `Setup`.  Unless it returns at once, it appends the cache-size pragma
     * to the global list and applies the whole list.
     */
    method Setup(env: Env, path: string, files: Files, cacheSize: int)
      returns (result: SetupResult, files': Files, trace: seq<Action>)
      modifies this
      ensures preConditions == if EarlyExit(env, path, files) then old(preConditions)
                               else old(preConditions) + [CachePragma(cacheSize)]
      ensures Outcome(result, files', trace) == SetupSpec(env, path, files, old(preConditions), cacheSize)
    {
      var st := OpenOrCreate(env, path, files);
      if path !in files && st.conn.Down? {
        return Failed(st.conn.fault), st.files, st.trace;
      }
      preConditions := preConditions + [CachePragma(cacheSize)];
      st := RunPragmas(env, path, st, preConditions);
      if st.conn.Crashed? {
        return Panicked, st.files, st.trace;
      }
      st := CheckIntegrity(env, path, st);
      st := CheckSchema(env, path, st);
      result := Finish(st.conn);
      files', trace := st.files, st.trace;
    }
  }
}
