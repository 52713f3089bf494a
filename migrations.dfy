/**
 * database/database.go, schema migrations: reading the numbered migration
 * files, bootstrapping the base schema when the tracking table is missing,
 * and applying the files newer than the last tracked one inside a local
 * transaction. The local transactions' work is returned as a trace of
 * operations; each driver call's reply is a parameter.
 */
module Migrations {
  import opened Wrappers
  import opened Driver
  import GoStrings
  import Strconv
  import DataAccess

  /** sqlS: a migration file's number (the digits before its first '.'), name and text. */
  datatype SqlFile = SqlFile(number: int, name: string, data: string)

  /** The work done on a migration transaction. */
  datatype MigOp = BeginOp | ExecOp(file: nat) | RecordOp(file: nat) | RollbackOp | CommitOp

  const MigrationTable := "ra_migrations"
  const TrackQuery := "SELECT * FROM " + MigrationTable + " AS m ORDER BY id ASC"

  /** A listed file's number: Atoi of the first '.' piece of its name, range or syntax errors ignored. */
  function PathNumber(path: string): int
  {
    Strconv.Atoi(GoStrings.FirstPiece(GoStrings.LastPiece(path, '/'), '.')).value
  }

  /** A file whose name does not start with a number (after an optional sign) gets number 0. */
  lemma NonNumericFileNumber(path: string)
    requires var p := GoStrings.FirstPiece(GoStrings.LastPiece(path, '/'), '.');
      var d := if p != [] && (p[0] == '+' || p[0] == '-') then p[1..] else p;
      d == [] || !('0' <= d[0] <= '9')
    ensures PathNumber(path) == 0
  {
    Strconv.AtoiNonNumeric(GoStrings.FirstPiece(GoStrings.LastPiece(path, '/'), '.'));
  }

  /** A listed path and what reading it gives: its name is the last '/' piece, with its number. */
  function ParseFile(path: string, data: string): (f: SqlFile)
    ensures f.name == GoStrings.LastPiece(path, '/') && '/' !in f.name
    ensures f.number == PathNumber(path) && f.data == data
  {
    var name := GoStrings.LastPiece(path, '/');
    SqlFile(Strconv.Atoi(GoStrings.FirstPiece(name, '.')).value, name, data)
  }

  /** The files of the first n listed paths that could be read, in listing order. */
  function ReadableFiles(paths: seq<string>, contents: seq<Option<string>>, n: nat): seq<SqlFile>
    requires |contents| == |paths| && n <= |paths|
  {
    if n == 0 then []
    else
      ReadableFiles(paths, contents, n - 1) +
      (if contents[n - 1].Some? then [ParseFile(paths[n - 1], contents[n - 1].value)] else [])
  }

  /** migrationFiles: the glob's listing and each ReadFile result are inputs; unreadable files are skipped. */
  method MigrationFiles(paths: seq<string>, contents: seq<Option<string>>) returns (sqls: seq<SqlFile>)
    requires |contents| == |paths|
    ensures sqls == ReadableFiles(paths, contents, |paths|)
  {
    sqls := [];
    for i := 0 to |paths|
      invariant sqls == ReadableFiles(paths, contents, i)
    {
      var fileName := GoStrings.LastPiece(paths[i], '/');
      var fileNumber := GoStrings.FirstPiece(fileName, '.');
      var n := Strconv.Atoi(fileNumber).value;
      if contents[i].Some? {
        sqls := sqls + [SqlFile(n, fileName, contents[i].value)];
      }
    }
  }

  /** Exactly the readable files are kept, in order, and no file is invented. */
  lemma {:induction false} ReadableFilesExact(paths: seq<string>, contents: seq<Option<string>>, n: nat)
    requires |contents| == |paths| && n <= |paths|
    ensures var fs := ReadableFiles(paths, contents, n);
      |fs| <= n &&
      (forall i :: 0 <= i < n && contents[i].Some? ==> ParseFile(paths[i], contents[i].value) in fs) &&
      (forall k :: 0 <= k < |fs| ==> exists i :: 0 <= i < n && contents[i].Some? && fs[k] == ParseFile(paths[i], contents[i].value))
  {
    if n > 0 {
      ReadableFilesExact(paths, contents, n - 1);
      var prev := ReadableFiles(paths, contents, n - 1);
      var fs := ReadableFiles(paths, contents, n);
      assert fs[..|prev|] == prev;
      forall k | 0 <= k < |fs|
        ensures exists i :: 0 <= i < n && contents[i].Some? && fs[k] == ParseFile(paths[i], contents[i].value)
      {
        if k < |prev| {
          assert fs[k] == prev[k];
        } else {
          assert fs[k] == ParseFile(paths[n - 1], contents[n - 1].value);
        }
      }
    }
  }

  /** The three base-schema files, run only by the bootstrap. */
  predicate IsBaseName(name: string)
  {
    name == "01.postgres.up.sql" || name == "01.sqlite.up.sql" || name == "01.mysql.up.sql"
  }

  /** Which files a pass runs: the base files, or the non-base files newer than the last tracked number. */
  datatype Selector = Base | Newer(last: Option<int>)

  predicate Selected(sel: Selector, f: SqlFile)
  {
    match sel
    case Base => IsBaseName(f.name)
    case Newer(last) => !IsBaseName(f.name) && (last.None? || f.number > last.value)
  }

  /** The positions among the first n files that a pass selects, in order. */
  function Indices(files: seq<SqlFile>, sel: Selector, n: nat): (idx: seq<nat>)
    requires n <= |files|
    ensures forall k :: 0 <= k < |idx| ==> idx[k] < n && Selected(sel, files[idx[k]])
  {
    if n == 0 then []
    else Indices(files, sel, n - 1) + (if Selected(sel, files[n - 1]) then [n - 1] else [])
  }

  lemma {:induction false} IndicesComplete(files: seq<SqlFile>, sel: Selector, n: nat)
    requires n <= |files|
    ensures forall i :: 0 <= i < n ==> (Selected(sel, files[i]) <==> i in Indices(files, sel, n))
  {
    if n > 0 {
      IndicesComplete(files, sel, n - 1);
    }
  }

  /** The selected positions increase. */
  lemma {:induction false} IndicesIncrease(files: seq<SqlFile>, sel: Selector, n: nat)
    requires n <= |files|
    ensures forall k, l :: 0 <= k < l < |Indices(files, sel, n)| ==> Indices(files, sel, n)[k] < Indices(files, sel, n)[l]
  {
    if n > 0 {
      IndicesIncrease(files, sel, n - 1);
      var prev := Indices(files, sel, n - 1);
      assert forall k :: 0 <= k < |prev| ==> prev[k] < n - 1;
    }
  }

  function Execs(idx: seq<nat>): (ops: seq<MigOp>)
    ensures |ops| == |idx| && forall k :: 0 <= k < |idx| ==> ops[k] == ExecOp(idx[k])
  {
    if idx == [] then [] else Execs(idx[..|idx| - 1]) + [ExecOp(idx[|idx| - 1])]
  }

  lemma ExecsSnoc(idx: seq<nat>, i: nat)
    ensures Execs(idx + [i]) == Execs(idx) + [ExecOp(i)]
  {
    assert (idx + [i])[..|idx|] == idx;
  }

  /**
   * baseMigrations: when the tracking query fails with TableNotFound, a
   * transaction executes every base file; each Exec overwrites the error, so
   * the last base file decides between rollback (returning its error) and
   * commit. Any other outcome of the tracking query returns nil untouched.
   */
  function BaseSpec(dialect: Dialect, files: seq<SqlFile>, trackErr: Option<DbError>, execR: seq<Option<DbError>>): (Option<DbError>, seq<MigOp>)
    requires |execR| == |files|
  {
    if trackErr.None? || DataAccess.ErrorClass(dialect, trackErr.value) != DataAccess.TableNotFound then (None, [])
    else
      var idx := Indices(files, Base, |files|);
      var err := if idx == [] then None else execR[idx[|idx| - 1]];
      var ops := [BeginOp] + Execs(idx);
      if err.Some? then (err, ops + [RollbackOp]) else (None, ops + [CommitOp])
  }

  /** The bootstrap loop; Beginx is taken to succeed. */
  method BaseMigrations(dialect: Dialect, files: seq<SqlFile>, trackErr: Option<DbError>, execR: seq<Option<DbError>>)
    returns (err: Option<DbError>, ops: seq<MigOp>)
    requires |execR| == |files|
    ensures (err, ops) == BaseSpec(dialect, files, trackErr, execR)
  {
    if trackErr.Some? && DataAccess.ErrorClass(dialect, trackErr.value) == DataAccess.TableNotFound {
      err, ops := ExecBaseFiles(files, execR);
      if err.Some? {
        return err, ops + [RollbackOp];
      }
      return None, ops + [CommitOp];
    }
    return None, [];
  }

  /** The bootstrap's Exec loop: every base file in order, each Exec's result replacing the error. */
  method ExecBaseFiles(files: seq<SqlFile>, execR: seq<Option<DbError>>) returns (err: Option<DbError>, ops: seq<MigOp>)
    requires |execR| == |files|
    ensures var idx := Indices(files, Base, |files|);
      ops == [BeginOp] + Execs(idx) && err == if idx == [] then None else execR[idx[|idx| - 1]]
  {
    err := None;
    ops := [BeginOp];
    for i := 0 to |files|
      invariant ops == [BeginOp] + Execs(Indices(files, Base, i))
      invariant err == LastBaseExec(files, execR, i)
    {
      BaseStep(files, execR, i);
      if IsBaseName(files[i].name) {
        err := execR[i];
        ops := ops + [ExecOp(i)];
      }
    }
    LastBaseExecIsLast(files, execR, |files|);
  }

  /** What one more file adds to the base pass: its Exec and its error, when it is a base file. */
  lemma BaseStep(files: seq<SqlFile>, execR: seq<Option<DbError>>, i: nat)
    requires i < |files| && |execR| == |files|
    ensures IsBaseName(files[i].name) ==>
      Execs(Indices(files, Base, i + 1)) == Execs(Indices(files, Base, i)) + [ExecOp(i)] &&
      LastBaseExec(files, execR, i + 1) == execR[i]
    ensures !IsBaseName(files[i].name) ==>
      Indices(files, Base, i + 1) == Indices(files, Base, i) &&
      LastBaseExec(files, execR, i + 1) == LastBaseExec(files, execR, i)
  {
    var idx := Indices(files, Base, i);
    if IsBaseName(files[i].name) {
      assert Indices(files, Base, i + 1) == idx + [i];
      ExecsSnoc(idx, i);
    } else {
      assert Indices(files, Base, i + 1) == idx + [];
    }
  }

  /** The error left by the Execs of the base files among the first n. */
  function LastBaseExec(files: seq<SqlFile>, execR: seq<Option<DbError>>, n: nat): Option<DbError>
    requires n <= |files| && |execR| == |files|
  {
    if n == 0 then None
    else if IsBaseName(files[n - 1].name) then execR[n - 1]
    else LastBaseExec(files, execR, n - 1)
  }

  /** That error is the Exec result of the last selected base file. */
  lemma {:induction false} LastBaseExecIsLast(files: seq<SqlFile>, execR: seq<Option<DbError>>, n: nat)
    requires n <= |files| && |execR| == |files|
    ensures var idx := Indices(files, Base, n);
      LastBaseExec(files, execR, n) == if idx == [] then None else execR[idx[|idx| - 1]]
  {
    if n > 0 && !IsBaseName(files[n - 1].name) {
      LastBaseExecIsLast(files, execR, n - 1);
    }
  }

  /** The bootstrap runs only when the tracking table is missing, runs only base files, and commits iff the last of them succeeds. */
  lemma BaseBootstrap(dialect: Dialect, files: seq<SqlFile>, trackErr: Option<DbError>, execR: seq<Option<DbError>>)
    requires |execR| == |files|
    ensures var (err, ops) := BaseSpec(dialect, files, trackErr, execR);
      var idx := Indices(files, Base, |files|);
      (ops != [] <==> trackErr.Some? && DataAccess.ErrorClass(dialect, trackErr.value) == DataAccess.TableNotFound) &&
      (forall k :: 0 <= k < |ops| && ops[k].ExecOp? ==> IsBaseName(files[ops[k].file].name)) &&
      (ops != [] ==> (ops[|ops| - 1] == CommitOp <==> err.None?) &&
                     (err.Some? <==> idx != [] && execR[idx[|idx| - 1]].Some?)) &&
      (ops == [] ==> err.None?)
  {
  }

  /** Only the last base file's Exec counts: an earlier failure is committed over. */
  lemma BaseEarlierFailureIgnored(dialect: Dialect, files: seq<SqlFile>, trackErr: DbError, execR: seq<Option<DbError>>)
    requires |execR| == |files|
    requires DataAccess.ErrorClass(dialect, trackErr) == DataAccess.TableNotFound
    requires var idx := Indices(files, Base, |files|); idx != [] && execR[idx[|idx| - 1]].None?
    ensures BaseSpec(dialect, files, Some(trackErr), execR).0.None?
    ensures var ops := BaseSpec(dialect, files, Some(trackErr), execR).1; ops[|ops| - 1] == CommitOp
  {
  }

  /** The state of newMigrations' loop: the last error, the work done, and whether its transaction has ended. */
  datatype Run = Run(err: Option<DbError>, ops: seq<MigOp>, done: bool)

  /**
   * One file of newMigrations: an unselected file is passed over; on an
   * ended transaction Exec and Rollback answer ErrTxDone; otherwise a failed
   * Exec rolls back, and a successful one is recorded in the tracking table,
   * whose insert's error becomes the current error. The loop never stops early.
   */
  function RunStep(r: Run, i: nat, f: SqlFile, last: Option<int>, execReply: Option<DbError>, recReply: Option<DbError>): Run
  {
    if !Selected(Newer(last), f) then r
    else if r.done then Run(Some(ErrTxDone), r.ops, true)
    else if execReply.Some? then Run(execReply, r.ops + [ExecOp(i), RollbackOp], true)
    else Run(recReply, r.ops + [ExecOp(i), RecordOp(i)], false)
  }

  function NewRun(files: seq<SqlFile>, last: Option<int>, execR: seq<Option<DbError>>, recR: seq<Option<DbError>>, n: nat): Run
    requires |execR| == |files| && |recR| == |files| && n <= |files|
  {
    if n == 0 then Run(None, [], false)
    else RunStep(NewRun(files, last, execR, recR, n - 1), n - 1, files[n - 1], last, execR[n - 1], recR[n - 1])
  }

  /** newMigrations after its loop: Commit is always called, and reaches the driver only on a live transaction. */
  function NewSpec(files: seq<SqlFile>, last: Option<int>, execR: seq<Option<DbError>>, recR: seq<Option<DbError>>): (Option<DbError>, seq<MigOp>)
    requires |execR| == |files| && |recR| == |files|
  {
    var r := NewRun(files, last, execR, recR, |files|);
    (r.err, if r.done then r.ops else r.ops + [CommitOp])
  }

  /** Executing and recording each selected file in order. */
  function Plan(idx: seq<nat>): (ops: seq<MigOp>)
    ensures |ops| == 2 * |idx|
  {
    if idx == [] then [] else Plan(idx[..|idx| - 1]) + [ExecOp(idx[|idx| - 1]), RecordOp(idx[|idx| - 1])]
  }

  /** Every file a trace executes or records is among the first n and selected by Newer(last). */
  predicate OnlySelected(ops: seq<MigOp>, files: seq<SqlFile>, last: Option<int>, n: nat)
  {
    forall k :: 0 <= k < |ops| && (ops[k].ExecOp? || ops[k].RecordOp?) ==>
      ops[k].file < n && ops[k].file < |files| && !IsBaseName(files[ops[k].file].name) &&
      (last.Some? ==> files[ops[k].file].number > last.value)
  }

  /** Only selected files are ever executed: never a base file, never one at or below the last tracked number. */
  lemma {:induction false} NewRunExecsSelected(files: seq<SqlFile>, last: Option<int>, execR: seq<Option<DbError>>, recR: seq<Option<DbError>>, n: nat)
    requires |execR| == |files| && |recR| == |files| && n <= |files|
    ensures OnlySelected(NewRun(files, last, execR, recR, n).ops, files, last, n)
  {
    if n > 0 {
      NewRunExecsSelected(files, last, execR, recR, n - 1);
      var prev := NewRun(files, last, execR, recR, n - 1);
      assert OnlySelected(prev.ops, files, last, n - 1);
      var ops := NewRun(files, last, execR, recR, n).ops;
      var live := Selected(Newer(last), files[n - 1]) && !prev.done;
      assert live ==> ops == prev.ops + [ExecOp(n - 1), RollbackOp] || ops == prev.ops + [ExecOp(n - 1), RecordOp(n - 1)];
      assert !live ==> ops == prev.ops;
      forall k | 0 <= k < |ops| && (ops[k].ExecOp? || ops[k].RecordOp?)
        ensures ops[k].file < n && ops[k].file < |files| && !IsBaseName(files[ops[k].file].name) &&
                (last.Some? ==> files[ops[k].file].number > last.value)
      {
        if k < |prev.ops| {
          assert ops[k] == prev.ops[k];
        } else {
          assert ops[k].file == n - 1;
        }
      }
    }
  }

  /**
   * When no selected Exec fails, every selected file is executed and
   * recorded in order, the transaction stays live, and the error is the
   * last record insert's.
   */
  lemma {:induction false} NewRunNoFailure(files: seq<SqlFile>, last: Option<int>, execR: seq<Option<DbError>>, recR: seq<Option<DbError>>, n: nat)
    requires |execR| == |files| && |recR| == |files| && n <= |files|
    requires forall i :: 0 <= i < n && Selected(Newer(last), files[i]) ==> execR[i].None?
    ensures var r := NewRun(files, last, execR, recR, n);
      var idx := Indices(files, Newer(last), n);
      !r.done && r.ops == Plan(idx) && r.err == (if idx == [] then None else recR[idx[|idx| - 1]])
  {
    if n > 0 {
      NewRunNoFailure(files, last, execR, recR, n - 1);
      if Selected(Newer(last), files[n - 1]) {
        SelectedLiveStep(files, last, execR, recR, n);
      } else {
        UnselectedStep(files, last, execR, recR, n);
      }
    }
  }

  lemma SelectedLiveStep(files: seq<SqlFile>, last: Option<int>, execR: seq<Option<DbError>>, recR: seq<Option<DbError>>, n: nat)
    requires |execR| == |files| && |recR| == |files| && 0 < n <= |files|
    requires Selected(Newer(last), files[n - 1]) && execR[n - 1].None? && !NewRun(files, last, execR, recR, n - 1).done
    ensures NewRun(files, last, execR, recR, n) ==
      Run(recR[n - 1], NewRun(files, last, execR, recR, n - 1).ops + [ExecOp(n - 1), RecordOp(n - 1)], false)
    ensures Indices(files, Newer(last), n) == Indices(files, Newer(last), n - 1) + [n - 1]
    ensures Plan(Indices(files, Newer(last), n)) == Plan(Indices(files, Newer(last), n - 1)) + [ExecOp(n - 1), RecordOp(n - 1)]
  {
    var idx := Indices(files, Newer(last), n);
    assert idx[..|idx| - 1] == Indices(files, Newer(last), n - 1);
  }

  lemma UnselectedStep(files: seq<SqlFile>, last: Option<int>, execR: seq<Option<DbError>>, recR: seq<Option<DbError>>, n: nat)
    requires |execR| == |files| && |recR| == |files| && 0 < n <= |files|
    requires !Selected(Newer(last), files[n - 1])
    ensures NewRun(files, last, execR, recR, n) == NewRun(files, last, execR, recR, n - 1)
    ensures Indices(files, Newer(last), n) == Indices(files, Newer(last), n - 1)
  {
  }

  /**
   * The first failing Exec rolls the transaction back; nothing after it is
   * executed, and every later selected file turns the error into ErrTxDone.
   */
  lemma {:induction false} NewRunFirstFailure(files: seq<SqlFile>, last: Option<int>, execR: seq<Option<DbError>>, recR: seq<Option<DbError>>, i: nat, n: nat)
    requires |execR| == |files| && |recR| == |files| && i < n <= |files|
    requires Selected(Newer(last), files[i]) && execR[i].Some?
    requires forall j :: 0 <= j < i && Selected(Newer(last), files[j]) ==> execR[j].None?
    ensures var r := NewRun(files, last, execR, recR, n);
      r.done && r.ops == Plan(Indices(files, Newer(last), i)) + [ExecOp(i), RollbackOp] &&
      r.err == (if Indices(files, Newer(last), n) == Indices(files, Newer(last), i + 1) then execR[i] else Some(ErrTxDone))
  {
    if n == i + 1 {
      NewRunNoFailure(files, last, execR, recR, i);
    } else {
      NewRunFirstFailure(files, last, execR, recR, i, n - 1);
      LaterIndices(files, Newer(last), i + 1, n - 1);
      var r0 := NewRun(files, last, execR, recR, n - 1);
      assert NewRun(files, last, execR, recR, n) == RunStep(r0, n - 1, files[n - 1], last, execR[n - 1], recR[n - 1]);
      var prev := Indices(files, Newer(last), n - 1);
      if Selected(Newer(last), files[n - 1]) {
        assert Indices(files, Newer(last), n) == prev + [n - 1];
        assert |Indices(files, Newer(last), n)| > |Indices(files, Newer(last), i + 1)|;
      } else {
        assert Indices(files, Newer(last), n) == prev + [];
      }
    }
  }

  /** Selecting over a longer prefix only appends. */
  lemma {:induction false} LaterIndices(files: seq<SqlFile>, sel: Selector, m: nat, n: nat)
    requires m <= n <= |files|
    ensures Indices(files, sel, m) <= Indices(files, sel, n)
  {
    if m < n {
      LaterIndices(files, sel, m, n - 1);
    }
  }

  /** newMigrations commits iff no selected Exec fails. */
  lemma NewMigrationsCommit(files: seq<SqlFile>, last: Option<int>, execR: seq<Option<DbError>>, recR: seq<Option<DbError>>)
    requires |execR| == |files| && |recR| == |files|
    ensures var ops := NewSpec(files, last, execR, recR).1;
      ops != [] && ops[|ops| - 1] == CommitOp <==>
        forall i :: 0 <= i < |files| && Selected(Newer(last), files[i]) ==> execR[i].None?
  {
    var n := |files|;
    if exists i :: 0 <= i < n && Selected(Newer(last), files[i]) && execR[i].Some? {
      var i := FirstFailure(files, last, execR, n);
      NewRunFirstFailure(files, last, execR, recR, i, n);
    } else {
      NewRunNoFailure(files, last, execR, recR, n);
    }
  }

  /** With no file newer than the last tracked one, newMigrations only commits its empty transaction. */
  lemma NothingNewerOnlyCommits(files: seq<SqlFile>, last: Option<int>, execR: seq<Option<DbError>>, recR: seq<Option<DbError>>)
    requires |execR| == |files| && |recR| == |files|
    requires forall i :: 0 <= i < |files| ==> !Selected(Newer(last), files[i])
    ensures NewSpec(files, last, execR, recR) == (None, [CommitOp])
  {
    var n := |files|;
    NoneSelected(files, Newer(last), n);
    NewRunNoFailure(files, last, execR, recR, n);
    var r := NewRun(files, last, execR, recR, n);
    assert r.ops == [] && r.err.None? && !r.done;
    assert NewSpec(files, last, execR, recR) == (r.err, r.ops + [CommitOp]);
    assert r.ops + [CommitOp] == [CommitOp];
  }

  lemma {:induction false} NoneSelected(files: seq<SqlFile>, sel: Selector, n: nat)
    requires n <= |files| && forall i :: 0 <= i < n ==> !Selected(sel, files[i])
    ensures Indices(files, sel, n) == []
  {
    if n > 0 {
      NoneSelected(files, sel, n - 1);
    }
  }

  /** The first selected file whose Exec fails, when there is one. */
  lemma FirstFailure(files: seq<SqlFile>, last: Option<int>, execR: seq<Option<DbError>>, n: nat) returns (i: nat)
    requires |execR| == |files| && n <= |files|
    requires exists i :: 0 <= i < n && Selected(Newer(last), files[i]) && execR[i].Some?
    ensures i < n && Selected(Newer(last), files[i]) && execR[i].Some?
    ensures forall j :: 0 <= j < i && Selected(Newer(last), files[j]) ==> execR[j].None?
  {
    var k :| 0 <= k < n && Selected(Newer(last), files[k]) && execR[k].Some?;
    i := 0;
    while !(Selected(Newer(last), files[i]) && execR[i].Some?)
      invariant i <= k
      invariant forall j :: 0 <= j < i && Selected(Newer(last), files[j]) ==> execR[j].None?
      decreases k - i
    {
      i := i + 1;
    }
  }

  /** The result of the tracking read, as newMigrations sees it through Database.query. */
  function TrackResult(c: DataAccess.Conn, reply: QueryReply, rbReply: Option<DbError>): Result
  {
    DataAccess.AfterQuery(c, TrackQuery, reply, false, rbReply).1
  }

  /**
   * `lastMigration[1].(int64)` succeeds: no row came back, or the last row has
   * a second column holding an int64. Otherwise the expression panics.
   */
  predicate WellShaped(r: Result)
  {
    |r.rows| == 0 || (|r.rows| >= 2 && r.rows[1].IntCell?)
  }

  /** lastMigration's number, or none when no row came back (or the row cannot be read). */
  function TrackedLast(c: DataAccess.Conn, reply: QueryReply, rbReply: Option<DbError>): (last: Option<int>)
    ensures last.Some? <==> |TrackResult(c, reply, rbReply).rows| > 0 && WellShaped(TrackResult(c, reply, rbReply))
    ensures last.Some? ==> TrackResult(c, reply, rbReply).rows[1] == IntCell(last.value)
  {
    var r := TrackResult(c, reply, rbReply);
    if |r.rows| > 0 && WellShaped(r) then Some(r.rows[1].i) else None
  }

  /** Some file is not a base file, so the newMigrations loop reaches the tracked number. */
  predicate HasNonBase(files: seq<SqlFile>)
  {
    exists i :: 0 <= i < |files| && !IsBaseName(files[i].name)
  }

  /**
   * Because newMigrations reads the tracking table through Database.query,
   * a stored Error, a missing table or an empty table all read as "nothing
   * applied yet", and every non-base file is selected again.
   */
  lemma NoTrackingRerunsAll(c: DataAccess.Conn, reply: QueryReply, rbReply: Option<DbError>, f: SqlFile)
    requires c.error.Some? || reply.QueryFailed? || (reply.QueryRows? && reply.rows == [])
    ensures WellShaped(TrackResult(c, reply, rbReply)) && TrackedLast(c, reply, rbReply).None?
    ensures Selected(Newer(TrackedLast(c, reply, rbReply)), f) <==> !IsBaseName(f.name)
  {
  }

  /** With only base files, the loop selects nothing, so no Exec runs and only the empty commit remains. */
  lemma {:induction false} OnlyBaseFilesCommit(files: seq<SqlFile>, last: Option<int>, execR: seq<Option<DbError>>, recR: seq<Option<DbError>>, n: nat)
    requires |execR| == |files| && |recR| == |files| && n <= |files|
    requires forall j :: 0 <= j < n ==> IsBaseName(files[j].name)
    ensures NewRun(files, last, execR, recR, n) == Run(None, [], false)
  {
    if n > 0 {
      OnlyBaseFilesCommit(files, last, execR, recR, n - 1);
    }
  }

  /**
   * newMigrations: reads the last tracked migration through Database.query,
   * then runs the selected files on a local transaction (Beginx taken to
   * succeed) and commits. When a row came back that has no int64 second
   * column, the first non-base file panics before anything is executed.
   */
  method NewMigrations(db: DataAccess.Database, files: seq<SqlFile>, trackReply: QueryReply, rbReply: Option<DbError>,
                       execR: seq<Option<DbError>>, recR: seq<Option<DbError>>)
    returns (err: Option<DbError>, ops: seq<MigOp>, panicked: bool)
    requires |execR| == |files| && |recR| == |files|
    modifies db
    ensures db.State() == DataAccess.AfterQuery(old(db.State()), TrackQuery, trackReply, false, rbReply).0
    ensures panicked <==> !WellShaped(TrackResult(old(db.State()), trackReply, rbReply)) && HasNonBase(files)
    ensures panicked ==> ops == []
    ensures !panicked ==> (err, ops) == NewSpec(files, TrackedLast(old(db.State()), trackReply, rbReply), execR, recR)
  {
    ghost var c0 := db.State();
    var result := db.query(TrackQuery, trackReply, false, rbReply);
    var shaped := |result.rows| == 0 || (|result.rows| >= 2 && result.rows[1].IntCell?);
    var last: Option<int> := None;
    if |result.rows| > 0 && shaped {
      last := Some(result.rows[1].i);
    }
    assert last == TrackedLast(c0, trackReply, rbReply);
    err := None;
    ops := [];
    panicked := false;
    var done := false;
    for i := 0 to |files|
      invariant Run(err, ops, done) == NewRun(files, last, execR, recR, i)
      invariant !shaped ==> forall j :: 0 <= j < i ==> IsBaseName(files[j].name)
    {
      var f := files[i];
      if !IsBaseName(f.name) {
        if !shaped {
          OnlyBaseFilesCommit(files, last, execR, recR, i);
          panicked := true;
          return;
        }
        if last.None? || f.number > last.value {
          if done {
            err := Some(ErrTxDone);
          } else if execR[i].Some? {
            err := execR[i];
            ops := ops + [ExecOp(i), RollbackOp];
            done := true;
          } else {
            err := recR[i];
            ops := ops + [ExecOp(i), RecordOp(i)];
          }
        }
      }
    }
    if !done {
      ops := ops + [CommitOp];
    }
  }

  /**
   * migrationUp: the bootstrap's result is discarded; the error returned is
   * newMigrations'. Both passes read the same listing.
   */
  method MigrationUp(db: DataAccess.Database, paths: seq<string>, contents: seq<Option<string>>,
                     trackErr: Option<DbError>, baseExecR: seq<Option<DbError>>,
                     trackReply: QueryReply, rbReply: Option<DbError>,
                     execR: seq<Option<DbError>>, recR: seq<Option<DbError>>)
    returns (err: Option<DbError>, baseOps: seq<MigOp>, newOps: seq<MigOp>, panicked: bool)
    requires |contents| == |paths|
    requires var n := |ReadableFiles(paths, contents, |paths|)|; |baseExecR| == n && |execR| == n && |recR| == n
    modifies db
    ensures var files := ReadableFiles(paths, contents, |paths|);
      baseOps == BaseSpec(db.dialect, files, trackErr, baseExecR).1 &&
      (panicked <==> !WellShaped(TrackResult(old(db.State()), trackReply, rbReply)) && HasNonBase(files)) &&
      (panicked ==> newOps == []) &&
      (!panicked ==> (err, newOps) == NewSpec(files, TrackedLast(old(db.State()), trackReply, rbReply), execR, recR))
    ensures db.State() == DataAccess.AfterQuery(old(db.State()), TrackQuery, trackReply, false, rbReply).0
  {
    var files := MigrationFiles(paths, contents);
    var _, bops := BaseMigrations(db.dialect, files, trackErr, baseExecR);
    baseOps := bops;
    files := MigrationFiles(paths, contents);
    err, newOps, panicked := NewMigrations(db, files, trackReply, rbReply, execR, recR);
  }

  /**
   * InstallDB: migrates the SQL dialects (the two passes' steps, the
   * Database's new state and newMigrations' error) and does nothing for the
   * others; the reset step is not modelled.
   */
  method InstallDB(db: DataAccess.Database, paths: seq<string>, contents: seq<Option<string>>,
                   trackErr: Option<DbError>, baseExecR: seq<Option<DbError>>,
                   trackReply: QueryReply, rbReply: Option<DbError>,
                   execR: seq<Option<DbError>>, recR: seq<Option<DbError>>)
    returns (err: Option<DbError>, baseOps: seq<MigOp>, newOps: seq<MigOp>, panicked: bool)
    requires |contents| == |paths|
    requires var n := |ReadableFiles(paths, contents, |paths|)|; |baseExecR| == n && |execR| == n && |recR| == n
    modifies db
    ensures db.dialect !in {SQLite, Postgres, Mysql} ==>
      err.None? && baseOps == [] && newOps == [] && !panicked && db.State() == old(db.State())
    ensures db.dialect in {SQLite, Postgres, Mysql} ==>
      var files := ReadableFiles(paths, contents, |paths|);
      db.State() == DataAccess.AfterQuery(old(db.State()), TrackQuery, trackReply, false, rbReply).0 &&
      baseOps == BaseSpec(db.dialect, files, trackErr, baseExecR).1 &&
      (panicked <==> !WellShaped(TrackResult(old(db.State()), trackReply, rbReply)) && HasNonBase(files)) &&
      (panicked ==> newOps == []) &&
      (!panicked ==> (err, newOps) == NewSpec(files, TrackedLast(old(db.State()), trackReply, rbReply), execR, recR))
  {
    err, baseOps, newOps, panicked := None, [], [], false;
    if db.dialect in {SQLite, Postgres, Mysql} {
      err, baseOps, newOps, panicked := MigrationUp(db, paths, contents, trackErr, baseExecR, trackReply, rbReply, execR, recR);
    }
  }
}
