/**
 * What the data layer sees of its database drivers. Every driver call
 * (Beginx, Queryx, Exec, Commit, Rollback, a row scan) is modelled by its
 * reply, which the caller of a model operation supplies; the operations
 * record the calls they make.
 */
module Driver {
  import opened Wrappers

  /** model.DB: the configured database system. */
  datatype Dialect = Bolt | SQLite | Postgres | Mysql | Unsupported

  /** The dynamic type and content of an `error` value the layer inspects. */
  datatype DbError =
    | PqError(code: string, constraint: string)   // *pq.Error: SQLSTATE code and constraint name
    | Sqlite3Error(codeText: string)              // sqlite3.Error, by the text of its code
    | MysqlError(number: int)                     // a MySQL driver error
    | ErrTxDone                                   // sql.ErrTxDone: the transaction was committed or rolled back
    | BucketExists                                // bolt.ErrBucketExists
    | NotSupported                                // errors.New("this method not supported")
    | OtherError(text: string)                    // anything else

  /** One column value of a scanned row. */
  datatype Cell = IntCell(i: int) | StrCell(s: string) | NullCell | OtherCell

  /** What one rows.Next() step scans: the column values and the scan's error. */
  datatype ScannedRow = ScannedRow(values: seq<Cell>, scanErr: Option<DbError>)

  /** The reply to a Queryx call: an error, or the rows it yields. */
  datatype QueryReply = QueryFailed(err: DbError) | QueryRows(rows: seq<ScannedRow>)

  /** database.Result: the last scanned row's values and the error reported. */
  datatype Result = Result(rows: seq<Cell>, err: Option<DbError>)

  /**
   * The result of scanning every row of a reply: each step overwrites the
   * previous one, so only the last row counts. With a target model the values
   * go into the model and `rows` stays empty.
   */
  function LastRow(rows: seq<ScannedRow>, target: bool): (r: Result)
    ensures rows == [] ==> r == Result([], None)
    ensures rows != [] ==> r.err == rows[|rows| - 1].scanErr
    ensures rows != [] && !target ==> r.rows == rows[|rows| - 1].values
    ensures target ==> r.rows == []
  {
    if rows == [] then Result([], None)
    else if target then Result([], rows[|rows| - 1].scanErr)
    else Result(rows[|rows| - 1].values, rows[|rows| - 1].scanErr)
  }

  /** The rows.Next() loop of query: one scan per row, each replacing the result. */
  method ScanRows(rows: seq<ScannedRow>, target: bool) returns (r: Result)
    ensures r == LastRow(rows, target)
  {
    r := Result([], None);
    var i := 0;
    while i < |rows|
      invariant 0 <= i <= |rows|
      invariant r == LastRow(rows[..i], target)
    {
      if target {
        r := r.(err := rows[i].scanErr);
      } else {
        r := Result(rows[i].values, rows[i].scanErr);
      }
      i := i + 1;
    }
    assert rows[..i] == rows;
  }
}
