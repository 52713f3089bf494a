/**
 * database/database.go: the SQL data-access layer. A Database holds the
 * open handle, the transaction in progress (Tx, nil when none) and the
 * sticky Error of the last failed operation. Its transaction helpers,
 * query builders and Insert are modelled as transitions of that state,
 * each defined once as a function on a `Conn` snapshot and implemented
 * by a method of the `Database` class.
 */
module DataAccess {
  import opened Wrappers
  import opened Driver
  import GoStrings
  import SqlText
  import Changes

  /** The `Error` classes of dbError. */
  const TableNotFound := 1
  const OtherErrorClass := 0
  const InternalError := 1
  const Unclassified := -1

  /**
   * dbError: on Postgres a pq error is TableNotFound when its SQLSTATE is
   * 42P01 and OtherError otherwise; on SQLite an sqlite3 error whose code
   * reads "SQL logic error" is InternalError; everything else is -1.
   */
  function ErrorClass(dialect: Dialect, err: DbError): (r: int)
    ensures r == TableNotFound <==>
      (dialect == Postgres && err.PqError? && err.code == "42P01") ||
      (dialect == SQLite && err.Sqlite3Error? && err.codeText == "SQL logic error")
    ensures r == OtherErrorClass <==> dialect == Postgres && err.PqError? && err.code != "42P01"
    ensures r == TableNotFound || r == OtherErrorClass || r == Unclassified
  {
    match dialect
    case Postgres =>
      if err.PqError? then (if err.code == "42P01" then TableNotFound else OtherErrorClass)
      else Unclassified
    case SQLite =>
      if err.Sqlite3Error? && err.codeText == "SQL logic error" then InternalError else Unclassified
    case _ => Unclassified
  }

  /** MySQL errors, and errors of another driver than the configured one, are never classified. */
  lemma ForeignErrorsUnclassified(dialect: Dialect, err: DbError)
    requires dialect == Mysql || dialect == Bolt || dialect == Unsupported ||
             (dialect == Postgres && !err.PqError?) || (dialect == SQLite && !err.Sqlite3Error?)
    ensures ErrorClass(dialect, err) == Unclassified
  {
  }

  /** A transaction handle: the position of its Begin call in the log, and whether it has ended. */
  datatype Tx = Tx(id: nat, done: bool)

  /** The driver calls a Database makes, in order. */
  datatype Call =
    | BeginCall
    | CommitCall(tx: nat)
    | RollbackCall(tx: nat)
    | QueryCall(query: string, onTx: bool)
    | QueryRowCall(query: string, onTx: bool)
    | ExecCall(stmt: string)

  /** A snapshot of a Database: Tx, Error, and the driver calls made so far. */
  datatype Conn = Conn(tx: Option<Tx>, error: Option<DbError>, calls: seq<Call>)

  /** Tx.Commit / Tx.Rollback: a live transaction ends whatever the driver replies; an ended one answers ErrTxDone. */
  function EndTx(c: Conn, reply: Option<DbError>, commit: bool): (r: (Conn, Option<DbError>))
    requires c.tx.Some?
    ensures r.0.tx == Some(c.tx.value.(done := true)) && r.0.error == c.error
    ensures c.tx.value.done ==> r.0.calls == c.calls && r.1 == Some(ErrTxDone)
    ensures !c.tx.value.done ==>
      r.0.calls == c.calls + [if commit then CommitCall(c.tx.value.id) else RollbackCall(c.tx.value.id)] &&
      r.1 == reply
  {
    var t := c.tx.value;
    if t.done then (c, Some(ErrTxDone))
    else
      (c.(tx := Some(t.(done := true)),
          calls := c.calls + [if commit then CommitCall(t.id) else RollbackCall(t.id)]),
       reply)
  }

  /** beginTx: opens a transaction only when none is held; otherwise just clears Error. */
  function AfterBegin(c: Conn, reply: Option<DbError>): Conn
  {
    if c.tx.None? then
      if reply.None? then c.(tx := Some(Tx(|c.calls|, false)), calls := c.calls + [BeginCall])
      else c.(error := reply, calls := c.calls + [BeginCall])
    else c.(error := None)
  }

  /** rollback: ends a held transaction but keeps it in Tx; Error is the failure or nil. */
  function AfterRollback(c: Conn, reply: Option<DbError>): Conn
  {
    if c.tx.Some? then
      var (c', e) := EndTx(c, reply, false);
      if e.Some? then c'.(error := e) else c'.(error := None)
    else c.(error := None)
  }

  /** commit: ends a held transaction; clears Tx and Error only when the commit succeeds. */
  function AfterCommit(c: Conn, reply: Option<DbError>): Conn
  {
    if c.tx.Some? then
      var (c', e) := EndTx(c, reply, true);
      if e.Some? then c'.(error := e) else c'.(tx := None, error := None)
    else c
  }

  /** True when the held transaction has already been committed or rolled back. */
  predicate Ended(c: Conn)
  {
    c.tx.Some? && c.tx.value.done
  }

  /**
   * query: a stored Error is returned without running anything; otherwise the
   * query runs on Tx if one is held, else on DB; a failure rolls back and is
   * stored, and a success scans every row, keeping the last.
   */
  function AfterQuery(c: Conn, q: string, reply: QueryReply, target: bool, rbReply: Option<DbError>): (Conn, Result)
  {
    if c.error.Some? then (c, Result([], c.error))
    else
      var (c1, eff) :=
        if Ended(c) then (c, QueryFailed(ErrTxDone))
        else (c.(calls := c.calls + [QueryCall(q, c.tx.Some?)]), reply);
      if eff.QueryFailed? then (AfterRollback(c1, rbReply).(error := Some(eff.err)), Result([], Some(eff.err)))
      else (c1, LastRow(eff.rows, target))
  }

  /** sqlx's refusal of a nil StructScan destination. */
  const NilDestination := OtherError("must pass a pointer, not a value, to StructScan destination")

  /**
   * queryRow: runs on Tx or DB regardless of Error and scans one row
   * (`rowErr` is the row's own error, if any); a failed scan rolls back and is
   * reported but not stored. Without a target the scan always fails.
   */
  function AfterQueryRow(c: Conn, q: string, target: bool, rowErr: Option<DbError>, rbReply: Option<DbError>): (Conn, Result)
  {
    var (c1, e) :=
      if Ended(c) then (c, Some(ErrTxDone))
      else (c.(calls := c.calls + [QueryRowCall(q, c.tx.Some?)]), rowErr);
    var err := if e.None? && !target then Some(NilDestination) else e;
    if err.Some? then (AfterRollback(c1, rbReply), Result([], err)) else (c1, Result([], None))
  }

  /** Transaction: begin, run the callback, then roll back if it failed and commit otherwise. */
  function AfterTransaction(c: Conn, beginReply: Option<DbError>, cbErr: Option<DbError>, endReply: Option<DbError>): Conn
  {
    var c1 := AfterBegin(c, beginReply);
    if cbErr.Some? then AfterRollback(c1, endReply) else AfterCommit(c1, endReply)
  }

  // ---- properties of the transaction state machine ----

  /** beginTx reaches the driver exactly when no transaction is held, and then a successful one is live. */
  lemma BeginOnlyWithoutTx(c: Conn, reply: Option<DbError>)
    ensures var c' := AfterBegin(c, reply);
      (c'.calls == c.calls + [BeginCall] <==> c.tx.None?) &&
      (c.tx.Some? ==> c'.tx == c.tx && c'.calls == c.calls && c'.error.None?) &&
      (c.tx.None? && reply.None? ==> c'.tx == Some(Tx(|c.calls|, false)) && c'.error == c.error) &&
      (c.tx.None? && reply.Some? ==> c'.tx.None? && c'.error == reply)
  {
    if c.tx.Some? {
      assert |AfterBegin(c, reply).calls| == |c.calls|;
    }
  }

  /** A successful commit of a live transaction releases it and clears Error. */
  lemma CommitReleases(c: Conn)
    requires c.tx.Some? && !c.tx.value.done
    ensures AfterCommit(c, None) == Conn(None, None, c.calls + [CommitCall(c.tx.value.id)])
  {
  }

  /** A failed commit keeps the ended transaction in Tx and stores the failure. */
  lemma FailedCommitSticks(c: Conn, e: DbError)
    requires c.tx.Some? && !c.tx.value.done
    ensures var c' := AfterCommit(c, Some(e));
      Ended(c') && c'.error == Some(e) && c'.calls == c.calls + [CommitCall(c.tx.value.id)]
  {
  }

  /** rollback never releases Tx: a rolled-back transaction stays held, ended. */
  lemma RollbackKeepsTx(c: Conn, reply: Option<DbError>)
    requires c.tx.Some?
    ensures var c' := AfterRollback(c, reply);
      Ended(c') && c'.tx.value.id == c.tx.value.id &&
      (c'.error.None? <==> !c.tx.value.done && reply.None?)
  {
  }

  /**
   * Once the held transaction has ended without being released, no later
   * Transaction reaches the driver: each one reports ErrTxDone and the
   * Database stays in that state.
   */
  lemma EndedTransactionIsStuck(c: Conn, beginReply: Option<DbError>, cbErr: Option<DbError>, endReply: Option<DbError>)
    requires Ended(c)
    ensures var c' := AfterTransaction(c, beginReply, cbErr, endReply);
      Ended(c') && c'.tx == c.tx && c'.calls == c.calls && c'.error == Some(ErrTxDone)
  {
  }

  /** With an ended transaction held, query never reaches the driver and leaves an error stored. */
  lemma EndedQueryFails(c: Conn, q: string, reply: QueryReply, target: bool, rbReply: Option<DbError>)
    requires Ended(c)
    ensures var (c', r) := AfterQuery(c, q, reply, target, rbReply);
      c'.calls == c.calls && c'.tx == c.tx && r.err.Some? && c'.error == r.err &&
      (c.error.None? ==> r.err == Some(ErrTxDone))
  {
  }

  /** On a Database without a transaction, Transaction begins one and commits it iff the callback succeeds. */
  lemma TransactionOutcome(c: Conn, cbErr: Option<DbError>, endReply: Option<DbError>)
    requires c.tx.None?
    ensures var c' := AfterTransaction(c, None, cbErr, endReply);
      var id := |c.calls|;
      (cbErr.None? ==> c'.calls == c.calls + [BeginCall, CommitCall(id)] &&
                       (endReply.None? ==> c'.tx.None? && c'.error.None?) &&
                       (endReply.Some? ==> c'.tx == Some(Tx(id, true)) && c'.error == endReply)) &&
      (cbErr.Some? ==> c'.calls == c.calls + [BeginCall, RollbackCall(id)] &&
                       c'.tx == Some(Tx(id, true)) && c'.error == endReply)
  {
  }

  /**
   * A failed Begin leaves no transaction, so the closing step acts on nil:
   * commit keeps the Begin failure, rollback forgets it.
   */
  lemma FailedBeginTransaction(c: Conn, e: DbError, cbErr: Option<DbError>, endReply: Option<DbError>)
    requires c.tx.None?
    ensures var c' := AfterTransaction(c, Some(e), cbErr, endReply);
      c'.tx.None? && c'.calls == c.calls + [BeginCall] &&
      (cbErr.None? ==> c'.error == Some(e)) && (cbErr.Some? ==> c'.error.None?)
  {
  }

  /** query: a stored Error short-circuits; a failure is stored; a success yields the last row. */
  lemma QueryOutcome(c: Conn, q: string, reply: QueryReply, target: bool, rbReply: Option<DbError>)
    ensures var (c', r) := AfterQuery(c, q, reply, target, rbReply);
      (c.error.Some? ==> c' == c && r == Result([], c.error)) &&
      (c.error.None? && !Ended(c) ==> c'.calls[..|c.calls| + 1] == c.calls + [QueryCall(q, c.tx.Some?)]) &&
      (c.error.None? && !Ended(c) && reply.QueryFailed? ==> c'.error == Some(reply.err) && r == Result([], Some(reply.err))) &&
      (c.error.None? && !Ended(c) && reply.QueryRows? ==>
         c' == c.(calls := c.calls + [QueryCall(q, c.tx.Some?)]) && r == LastRow(reply.rows, target))
  {
    if c.error.None? && !Ended(c) && reply.QueryFailed? {
      var c1 := c.(calls := c.calls + [QueryCall(q, c.tx.Some?)]);
      var c2 := AfterRollback(c1, rbReply);
      assert c2.calls[..|c.calls| + 1] == c1.calls;
    }
  }

  /** queryRow neither reads nor stores Error except through its rollback, and fails without a target. */
  lemma QueryRowOutcome(c: Conn, q: string, target: bool, rowErr: Option<DbError>, rbReply: Option<DbError>)
    ensures var (c', r) := AfterQueryRow(c, q, target, rowErr, rbReply);
      (!target ==> r.err.Some?) &&
      (!Ended(c) && target && rowErr.None? ==> c' == c.(calls := c.calls + [QueryRowCall(q, c.tx.Some?)]) && r == Result([], None)) &&
      (r.err.Some? && c.tx.None? ==> c'.error.None?)
  {
  }

  /** The stored record a model is after Insert: its ID field set to the inserted row's id. */
  function FieldIndex(fs: seq<Changes.Field>, name: string): (r: Option<nat>)
    ensures r.Some? ==> r.value < |fs| && fs[r.value].name == name &&
                        forall j :: 0 <= j < r.value ==> fs[j].name != name
    ensures r.None? ==> forall j :: 0 <= j < |fs| ==> fs[j].name != name
  {
    if fs == [] then None
    else if fs[0].name == name then Some(0)
    else match FieldIndex(fs[1..], name)
      case None => None
      case Some(k) => Some(k + 1)
  }

  /** reflect's SetInt works on an int or int64 field. */
  predicate HasIntId(fs: seq<Changes.Field>)
  {
    FieldIndex(fs, "ID").Some? &&
    (fs[FieldIndex(fs, "ID").value].value.IntV? || fs[FieldIndex(fs, "ID").value].value.Int64V?)
  }

  function SetId(fs: seq<Changes.Field>, id: int): (r: seq<Changes.Field>)
    requires HasIntId(fs)
    ensures |r| == |fs| && HasIntId(r) && FieldIndex(r, "ID") == FieldIndex(fs, "ID")
    ensures var k := FieldIndex(fs, "ID").value;
      r[k].value.i == id && Changes.SameKind(r[k].value, fs[k].value) &&
      forall j :: 0 <= j < |fs| && j != k ==> r[j] == fs[j]
  {
    var k := FieldIndex(fs, "ID").value;
    var f := fs[k];
    var r := fs[k := f.(value := if f.value.IntV? then Changes.IntV(id) else Changes.Int64V(id))];
    FieldIndexSameNames(fs, r, "ID");
    r
  }

  /** SetId resolves the field by name, so it finds it again after GetChanges rewrote the record. */
  lemma WrittenKeepsIntId(fs: seq<Changes.Field>, data: seq<Changes.Field>)
    requires Changes.AllKindsAgree(fs, data) && HasIntId(fs)
    ensures HasIntId(Changes.WrittenAll(true, fs, data))
    ensures FieldIndex(Changes.WrittenAll(true, fs, data), "ID") == FieldIndex(fs, "ID")
  {
    var ws := Changes.WrittenAll(true, fs, data);
    var k := FieldIndex(fs, "ID").value;
    forall j | 0 <= j < |fs| ensures ws[j].name == fs[j].name {
      Changes.WrittenKind(true, fs[j], data);
    }
    Changes.WrittenKind(true, fs[k], data);
    FieldIndexSameNames(fs, ws, "ID");
  }

  lemma {:induction false} FieldIndexSameNames(a: seq<Changes.Field>, b: seq<Changes.Field>, name: string)
    requires |a| == |b| && forall j :: 0 <= j < |a| ==> a[j].name == b[j].name
    ensures FieldIndex(a, name) == FieldIndex(b, name)
  {
    if a != [] && a[0].name != name {
      FieldIndexSameNames(a[1..], b[1..], name);
    }
  }

  /** The statement Insert sends: insertSQL's text, cut before "returning" on SQLite. */
  function InsertStatement(dialect: Dialect, cols: seq<string>, table: string, keys: seq<string>): string
  {
    var str := SqlText.InsertSql(cols, table, GoStrings.Join(keys, ","));
    if dialect == SQLite then GoStrings.BeforeFirst(str, "returning") else str
  }

  class Database {
    const dialect: Dialect
    var tx: Option<Tx>
    var error: Option<DbError>
    var calls: seq<Call>

    function State(): Conn
      reads this
    {
      Conn(tx, error, calls)
    }

    constructor(dialect: Dialect)
      ensures this.dialect == dialect && State() == Conn(None, None, [])
    {
      this.dialect := dialect;
      tx := None;
      error := None;
      calls := [];
    }

    /** Tx.Commit or Tx.Rollback on the held transaction. */
    method EndHeld(reply: Option<DbError>, commit: bool) returns (err: Option<DbError>)
      requires tx.Some?
      modifies this
      ensures (State(), err) == EndTx(old(State()), reply, commit)
    {
      var t := tx.value;
      if t.done {
        return Some(ErrTxDone);
      }
      tx := Some(t.(done := true));
      calls := calls + [if commit then CommitCall(t.id) else RollbackCall(t.id)];
      err := reply;
    }

    method beginTx(reply: Option<DbError>)
      modifies this
      ensures State() == AfterBegin(old(State()), reply)
    {
      if tx.None? {
        var id := |calls|;
        calls := calls + [BeginCall];
        if reply.Some? {
          error := reply;
        } else {
          tx := Some(Tx(id, false));
        }
        return;
      }
      error := None;
    }

    method rollback(reply: Option<DbError>)
      modifies this
      ensures State() == AfterRollback(old(State()), reply)
    {
      if tx.Some? {
        var err := EndHeld(reply, false);
        if err.Some? {
          error := err;
          return;
        }
      }
      error := None;
    }

    method commit(reply: Option<DbError>)
      modifies this
      ensures State() == AfterCommit(old(State()), reply)
    {
      if tx.Some? {
        var err := EndHeld(reply, true);
        if err.Some? {
          error := err;
          return;
        }
        tx := None;
        error := None;
      }
    }

    method query(q: string, reply: QueryReply, target: bool, rbReply: Option<DbError>) returns (result: Result)
      modifies this
      ensures (State(), result) == AfterQuery(old(State()), q, reply, target, rbReply)
    {
      if error.Some? {
        return Result([], error);
      }
      var eff := reply;
      if tx.Some? && tx.value.done {
        eff := QueryFailed(ErrTxDone);
      } else {
        calls := calls + [QueryCall(q, tx.Some?)];
      }
      if eff.QueryFailed? {
        rollback(rbReply);
        error := Some(eff.err);
        return Result([], Some(eff.err));
      }
      result := ScanRows(eff.rows, target);
    }

    method queryRow(q: string, target: bool, rowErr: Option<DbError>, rbReply: Option<DbError>) returns (result: Result)
      modifies this
      ensures (State(), result) == AfterQueryRow(old(State()), q, target, rowErr, rbReply)
    {
      var err := rowErr;
      if tx.Some? && tx.value.done {
        err := Some(ErrTxDone);
      } else {
        calls := calls + [QueryRowCall(q, tx.Some?)];
      }
      if err.None? && !target {
        err := Some(NilDestination);
      }
      result := Result([], None);
      if err.Some? {
        rollback(rbReply);
        result := result.(err := err);
      }
    }

    /** The callback's own work on the Database is not modelled; only its verdict `cbErr`. */
    method Transaction(beginReply: Option<DbError>, cbErr: Option<DbError>, endReply: Option<DbError>)
      modifies this
      ensures State() == AfterTransaction(old(State()), beginReply, cbErr, endReply)
    {
      beginTx(beginReply);
      if cbErr.Some? {
        rollback(endReply);
      } else {
        commit(endReply);
      }
    }

    /**
     * Insert(m, data, keys...): detects the changes of `data` against `m` in
     * insert mode, renders the insert statement over the changed columns with
     * the key columns joined by ",", executes it on DB (not on Tx, and
     * regardless of Error), and on success stores the new row's id in m's ID
     * field. `lastId` is what LastInsertId answers (its error is ignored).
     */
    method Insert(m: array<Changes.Field>, data: seq<Changes.Field>, table: string, keys: seq<string>,
                  execReply: Option<DbError>, lastId: int)
      returns (err: Option<DbError>, stmt: string)
      requires Changes.AllKindsAgree(m[..], data) && HasIntId(m[..])
      modifies this, m
      ensures var d := Changes.DiffFields(true, old(m[..]), data);
        stmt == InsertStatement(dialect, d.keys, table, keys)
      ensures err == execReply
      ensures tx == old(tx) && error == old(error) && calls == old(calls) + [ExecCall(stmt)]
      ensures var ws := Changes.WrittenAll(true, old(m[..]), data);
        HasIntId(ws) && m[..] == (if execReply.None? then SetId(ws, lastId) else ws)
    {
      ghost var fs := m[..];
      WrittenKeepsIntId(fs, data);
      var _, c1, namedParams := Changes.GetChanges(m, data, ["insert"]);
      var str := SqlText.InsertSql(c1, table, GoStrings.Join(keys, ","));
      if dialect == SQLite {
        str := GoStrings.BeforeFirst(str, "returning");
      }
      stmt := str;
      calls := calls + [ExecCall(stmt)];
      err := execReply;
      if err.None? {
        var k := FieldIndex(m[..], "ID").value;
        var f := m[k];
        m[k] := f.(value := if f.value.IntV? then Changes.IntV(lastId) else Changes.Int64V(lastId));
      }
    }
  }
}
