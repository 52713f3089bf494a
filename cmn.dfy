/**
 * cmn/database.go: the older data layer. Besides the SQL dialects it
 * supports a Bolt key/value store, whose installer and dropper work on the
 * set of top-level bucket names inside one atomic Update. Its transaction
 * fields follow the same Commit/Rollback rules as the newer layer (the
 * same transition functions are used), but BeginTx leaves Error alone and
 * Query neither consults nor records Error.
 */
module CmnDatabase {
  import opened Wrappers
  import opened Driver
  import GoStrings
  import Strconv
  import DataAccess
  import Migrations

  const Users := "ra_users"
  const Jobs := "ra_jobs"
  const JobDetails := "ra_job_details"
  const JobLogs := "ra_job_logs"
  const MigrationsBucket := "ra_migrations"

  const DataBuckets: set<string> := {Users, Jobs, JobDetails, JobLogs}
  const AllBuckets: set<string> := DataBuckets + {MigrationsBucket}

  /** bolt.Tx.CreateBucket: fails with ErrBucketExists on a name already present. */
  function CreateBucket(tx: set<string>, name: string): (r: (set<string>, Option<DbError>))
    ensures name in tx ==> r == (tx, Some(BucketExists))
    ensures name !in tx ==> r == (tx + {name}, None)
  {
    if name in tx then (tx, Some(BucketExists)) else (tx + {name}, None)
  }

  /**
   * What the Bolt installer leaves and returns, stated directly: a store
   * without ra_migrations gets all five buckets unless a data bucket is
   * already there; a store with ra_migrations is refused. A failed Update
   * changes nothing.
   */
  function BoltInstall(b: set<string>): (set<string>, Option<DbError>)
  {
    if MigrationsBucket in b || b * DataBuckets != {} then (b, Some(BucketExists))
    else (b + AllBuckets, None)
  }

  class BoltStore {
    /** The names of the top-level buckets. */
    var buckets: set<string>

    constructor(buckets: set<string>)
      ensures this.buckets == buckets
    {
      this.buckets := buckets;
    }

    /**
     * InstallDB's Update callback on a scratch copy of the buckets: when
     * ra_migrations is absent, create the four data buckets, stopping at the
     * first failure; then create ra_migrations. The copy is kept only when
     * the callback returns nil.
     */
    method Install() returns (err: Option<DbError>)
      modifies this
      ensures (buckets, err) == BoltInstall(old(buckets))
    {
      NamesDistinct();
      var tx := buckets;
      var e: Option<DbError> := None;
      if MigrationsBucket !in tx {
        var r := CreateBucket(tx, Users);
        tx, e := r.0, r.1;
        if e.None? {
          r := CreateBucket(tx, Jobs);
          tx, e := r.0, r.1;
          if e.None? {
            r := CreateBucket(tx, JobDetails);
            tx, e := r.0, r.1;
            if e.None? {
              r := CreateBucket(tx, JobLogs);
              tx, e := r.0, r.1;
            }
          }
        }
        if e.None? {
          NoDataBuckets(buckets);
        } else {
          SomeDataBucket(buckets);
        }
      }
      if e.None? {
        var r := CreateBucket(tx, MigrationsBucket);
        tx, e := r.0, r.1;
      }
      if e.None? {
        assert tx == buckets + {Users, Jobs, JobDetails, JobLogs, MigrationsBucket};
        buckets := tx;
      }
      err := e;
      assert MigrationsBucket in old(buckets) ==> buckets == old(buckets) && err == Some(BucketExists);
      assert MigrationsBucket !in old(buckets) && old(buckets) * DataBuckets != {} ==> buckets == old(buckets) && err == Some(BucketExists);
      assert MigrationsBucket !in old(buckets) && old(buckets) * DataBuckets == {} ==> err.None?;
      assert MigrationsBucket !in old(buckets) && old(buckets) * DataBuckets == {} ==> buckets == old(buckets) + AllBuckets;
    }

    /** DropDB's Update callback: delete every bucket, ignoring ErrBucketNotFound for missing ones. */
    method Drop() returns (err: Option<DbError>)
      modifies this
      ensures buckets == old(buckets) - AllBuckets && err.None?
    {
      var tx := buckets;
      tx := tx - {MigrationsBucket};
      tx := tx - {Users};
      tx := tx - {Jobs};
      tx := tx - {JobDetails};
      tx := tx - {JobLogs};
      buckets := tx;
      err := None;
    }
  }

  /** The five bucket names are pairwise distinct (they differ in length). */
  lemma NamesDistinct()
    ensures |MigrationsBucket| == 13 && |Users| == 8 && |Jobs| == 7 && |JobDetails| == 14 && |JobLogs| == 11
  {
  }

  lemma NoDataBuckets(b: set<string>)
    requires Users !in b && Jobs !in b && JobDetails !in b && JobLogs !in b
    ensures b * DataBuckets == {}
  {
    forall x | x in DataBuckets ensures x !in b {
    }
  }

  lemma SomeDataBucket(b: set<string>)
    requires Users in b || Jobs in b || JobDetails in b || JobLogs in b
    ensures b * DataBuckets != {}
  {
    if Users in b {
      assert Users in b * DataBuckets;
    } else if Jobs in b {
      assert Jobs in b * DataBuckets;
    } else if JobDetails in b {
      assert JobDetails in b * DataBuckets;
    } else {
      assert JobLogs in b * DataBuckets;
    }
  }

  /** A store with none of the buckets is installed completely. */
  lemma FreshInstall(b: set<string>)
    requires b * AllBuckets == {}
    ensures BoltInstall(b) == (b + AllBuckets, None)
  {
    assert MigrationsBucket in AllBuckets && MigrationsBucket !in b * AllBuckets;
    assert DataBuckets <= AllBuckets;
    assert b * DataBuckets <= b * AllBuckets;
  }

  /** Any one data bucket present without ra_migrations makes the install fail and leave the store as it was. */
  lemma DataBucketBlocksInstall(b: set<string>, x: string)
    requires MigrationsBucket !in b && x in DataBuckets && x in b
    ensures BoltInstall(b) == (b, Some(BucketExists))
  {
    assert x in b * DataBuckets;
  }

  /** An installed store is refused: re-creating ra_migrations fails and nothing changes. */
  lemma ReinstallRefused(b: set<string>)
    requires MigrationsBucket in b
    ensures BoltInstall(b) == (b, Some(BucketExists))
  {
  }

  /** The install test's sequence: after a drop the install succeeds; a drop followed by creating one data bucket makes it fail. */
  lemma DropThenInstall(b: set<string>, x: string)
    requires x in DataBuckets
    ensures BoltInstall(b - AllBuckets) == ((b - AllBuckets) + AllBuckets, None)
    ensures BoltInstall((b - AllBuckets) + {x}) == ((b - AllBuckets) + {x}, Some(BucketExists))
  {
    FreshInstall(b - AllBuckets);
    DataBucketBlocksInstall((b - AllBuckets) + {x}, x);
  }

  /** cmn dbError: a pq error on Postgres is 1 for 42P01 and 0 otherwise; MySQL and everything else is -1. */
  function ErrorClass(dialect: Dialect, err: DbError): (r: int)
    ensures r == 1 <==> dialect == Postgres && err.PqError? && err.code == "42P01"
    ensures r == 0 <==> dialect == Postgres && err.PqError? && err.code != "42P01"
    ensures r == 1 || r == 0 || r == -1
  {
    if dialect == Postgres && err.PqError? then (if err.code == "42P01" then 1 else 0) else -1
  }

  /** The map after the first n listed files: a readable file writes its data under its number, replacing an earlier file's. */
  function FileMap(paths: seq<string>, contents: seq<Option<string>>, n: nat): map<int, string>
    requires |contents| == |paths| && n <= |paths|
  {
    if n == 0 then map[]
    else
      var m := FileMap(paths, contents, n - 1);
      if contents[n - 1].Some? then m[Migrations.PathNumber(paths[n - 1]) := contents[n - 1].value]
      else m
  }

  /** migrationFiles: number -> contents for every readable listed file. */
  method MigrationFiles(paths: seq<string>, contents: seq<Option<string>>) returns (sqls: map<int, string>)
    requires |contents| == |paths|
    ensures sqls == FileMap(paths, contents, |paths|)
  {
    sqls := map[];
    for i := 0 to |paths|
      invariant sqls == FileMap(paths, contents, i)
    {
      var fileName := GoStrings.LastPiece(paths[i], '/');
      var fileNumber := GoStrings.FirstPiece(fileName, '.');
      var n := Strconv.Atoi(fileNumber).value;
      if contents[i].Some? {
        sqls := sqls[n := contents[i].value];
      }
    }
  }

  /** The map's keys are the readable files' numbers. */
  lemma {:induction false} FileMapKeys(paths: seq<string>, contents: seq<Option<string>>, n: nat)
    requires |contents| == |paths| && n <= |paths|
    ensures forall k :: k in FileMap(paths, contents, n) <==> exists i :: 0 <= i < n && contents[i].Some? && Migrations.PathNumber(paths[i]) == k
  {
    if n > 0 {
      FileMapKeys(paths, contents, n - 1);
      var prev := FileMap(paths, contents, n - 1);
      var m := FileMap(paths, contents, n);
      forall k ensures k in m <==> exists i :: 0 <= i < n && contents[i].Some? && Migrations.PathNumber(paths[i]) == k {
        if k in m && !(contents[n - 1].Some? && Migrations.PathNumber(paths[n - 1]) == k) {
          assert k in prev;
          var i :| 0 <= i < n - 1 && contents[i].Some? && Migrations.PathNumber(paths[i]) == k;
          assert 0 <= i < n;
        }
      }
    }
  }

  /** A number's entry is the contents of the last readable file with that number. */
  lemma {:induction false} FileMapLastWins(paths: seq<string>, contents: seq<Option<string>>, n: nat, i: nat)
    requires |contents| == |paths| && i < n <= |paths| && contents[i].Some?
    requires forall j :: i < j < n && contents[j].Some? ==> Migrations.PathNumber(paths[j]) != Migrations.PathNumber(paths[i])
    ensures Migrations.PathNumber(paths[i]) in FileMap(paths, contents, n) && FileMap(paths, contents, n)[Migrations.PathNumber(paths[i])] == contents[i].value
  {
    if i < n - 1 {
      FileMapLastWins(paths, contents, n - 1, i);
    }
  }

  /** cmn BeginTx: opens a transaction only when none is held, and never clears Error. */
  function AfterBeginTx(c: DataAccess.Conn, reply: Option<DbError>): DataAccess.Conn
  {
    if c.tx.None? then
      if reply.None? then c.(tx := Some(DataAccess.Tx(|c.calls|, false)), calls := c.calls + [DataAccess.BeginCall])
      else c.(error := reply, calls := c.calls + [DataAccess.BeginCall])
    else c
  }

  /** cmn Query: refused on Bolt; otherwise runs on Tx or DB and reports a failure without storing it or rolling back. */
  function AfterQuery(c: DataAccess.Conn, dialect: Dialect, q: string, reply: QueryReply): (DataAccess.Conn, Result)
  {
    if dialect == Bolt then (c, Result([], Some(NotSupported)))
    else if DataAccess.Ended(c) then (c, Result([], Some(ErrTxDone)))
    else
      var c1 := c.(calls := c.calls + [DataAccess.QueryCall(q, c.tx.Some?)]);
      if reply.QueryFailed? then (c1, Result([], Some(reply.err))) else (c1, LastRow(reply.rows, false))
  }

  /** Unlike beginTx of the newer layer, BeginTx on a held transaction keeps a stored Error. */
  lemma BeginTxKeepsError(c: DataAccess.Conn, reply: Option<DbError>)
    requires c.tx.Some?
    ensures AfterBeginTx(c, reply) == c
    ensures DataAccess.AfterBegin(c, reply) == c.(error := None)
  {
  }

  /** Query on Bolt is refused without any call; on SQL it never changes Tx or Error. */
  lemma QueryGuard(c: DataAccess.Conn, dialect: Dialect, q: string, reply: QueryReply)
    ensures dialect == Bolt ==> AfterQuery(c, dialect, q, reply) == (c, Result([], Some(NotSupported)))
    ensures AfterQuery(c, dialect, q, reply).0.tx == c.tx && AfterQuery(c, dialect, q, reply).0.error == c.error
    ensures dialect != Bolt && !DataAccess.Ended(c) && reply.QueryFailed? ==> AfterQuery(c, dialect, q, reply).1 == Result([], Some(reply.err))
  {
  }

  class Database {
    const dialect: Dialect
    const bolt: BoltStore
    var tx: Option<DataAccess.Tx>
    var error: Option<DbError>
    var calls: seq<DataAccess.Call>

    function State(): DataAccess.Conn
      reads this
    {
      DataAccess.Conn(tx, error, calls)
    }

    constructor(dialect: Dialect, bolt: BoltStore)
      ensures this.dialect == dialect && this.bolt == bolt && State() == DataAccess.Conn(None, None, [])
    {
      this.dialect := dialect;
      this.bolt := bolt;
      tx := None;
      error := None;
      calls := [];
    }

    method EndHeld(reply: Option<DbError>, commit: bool) returns (err: Option<DbError>)
      requires tx.Some?
      modifies this
      ensures (State(), err) == DataAccess.EndTx(old(State()), reply, commit)
    {
      var t := tx.value;
      if t.done {
        return Some(ErrTxDone);
      }
      tx := Some(t.(done := true));
      calls := calls + [if commit then DataAccess.CommitCall(t.id) else DataAccess.RollbackCall(t.id)];
      err := reply;
    }

    method BeginTx(reply: Option<DbError>)
      modifies this
      ensures State() == AfterBeginTx(old(State()), reply)
    {
      if tx.None? {
        var id := |calls|;
        calls := calls + [DataAccess.BeginCall];
        if reply.Some? {
          error := reply;
        } else {
          tx := Some(DataAccess.Tx(id, false));
        }
      }
    }

    method Rollback(reply: Option<DbError>)
      modifies this
      ensures State() == DataAccess.AfterRollback(old(State()), reply)
    {
      if tx.Some? {
        var err := EndHeld(reply, false);
        if err.Some? {
          error := err;
          return;
        }
      }
      error := None;
    }

    method Commit(reply: Option<DbError>)
      modifies this
      ensures State() == DataAccess.AfterCommit(old(State()), reply)
    {
      if tx.Some? {
        var err := EndHeld(reply, true);
        if err.Some? {
          error := err;
          return;
        }
        tx := None;
        error := None;
      }
    }

    method Query(q: string, reply: QueryReply) returns (result: Result)
      modifies this
      ensures (State(), result) == AfterQuery(old(State()), dialect, q, reply)
    {
      if dialect == Bolt {
        return Result([], Some(NotSupported));
      }
      if tx.Some? && tx.value.done {
        return Result([], Some(ErrTxDone));
      }
      calls := calls + [DataAccess.QueryCall(q, tx.Some?)];
      if reply.QueryFailed? {
        return Result([], Some(reply.err));
      }
      result := ScanRows(reply.rows, false);
    }
  }

  /** The driver's replies for one migration file of the install loop. */
  datatype Replies = Replies(begin: Option<DbError>, query: QueryReply, end: Option<DbError>)

  /** The install loop's state: the connection, the numbers of the files run, and whether it broke off. */
  datatype Install = Install(conn: DataAccess.Conn, ran: seq<int>, stopped: bool)

  /**
   * The first n iterations of the install loop over the files in map order:
   * BeginTx, run the file, then Rollback and stop if it failed, else Commit.
   */
  function InstallLoop(c: DataAccess.Conn, dialect: Dialect, files: map<int, string>, order: seq<int>, replies: seq<Replies>, n: nat): Install
    requires n <= |order| && |replies| == |order| && forall i :: 0 <= i < |order| ==> order[i] in files
  {
    if n == 0 then Install(c, [], false)
    else
      var r := InstallLoop(c, dialect, files, order, replies, n - 1);
      if r.stopped then r
      else
        var rp := replies[n - 1];
        var c1 := AfterBeginTx(r.conn, rp.begin);
        var (c2, res) := AfterQuery(c1, dialect, files[order[n - 1]], rp.query);
        if res.err.Some? then Install(DataAccess.AfterRollback(c2, rp.end), r.ran + [order[n - 1]], true)
        else Install(DataAccess.AfterCommit(c2, rp.end), r.ran + [order[n - 1]], false)
  }

  /** Map iteration order: every key exactly once. */
  predicate Enumerates(order: seq<int>, files: map<int, string>)
  {
    (forall k :: k in files ==> k in order) && (forall i :: 0 <= i < |order| ==> order[i] in files) &&
    forall i, j :: 0 <= i < j < |order| ==> order[i] != order[j]
  }

  /** The SQL branch of InstallDB: outcome of the tracking query, then possibly the install loop. */
  function SqlInstall(c: DataAccess.Conn, dialect: Dialect, trackReply: QueryReply, files: map<int, string>, order: seq<int>, replies: seq<Replies>): (DataAccess.Conn, Option<DbError>)
    requires |replies| == |order| && forall i :: 0 <= i < |order| ==> order[i] in files
  {
    var (c1, res) := AfterQuery(c, dialect, Migrations.TrackQuery, trackReply);
    if res.err.Some? then
      if ErrorClass(dialect, res.err.value) == 1 then (InstallLoop(c1, dialect, files, order, replies, |order|).conn, None)
      else (c1, res.err)
    else if |res.rows| > 0 then (c1, None)
    else (InstallLoop(c1, dialect, files, order, replies, |order|).conn, None)
  }

  /** The loop runs files in map order, each at most once, and breaks off right after the first failing one. */
  lemma {:induction false} InstallLoopPrefix(c: DataAccess.Conn, dialect: Dialect, files: map<int, string>, order: seq<int>, replies: seq<Replies>, n: nat)
    requires n <= |order| && |replies| == |order| && forall i :: 0 <= i < |order| ==> order[i] in files
    ensures var r := InstallLoop(c, dialect, files, order, replies, n);
      |r.ran| <= n && r.ran == order[..|r.ran|] && (!r.stopped ==> |r.ran| == n) && (r.stopped ==> |r.ran| > 0)
  {
    if n > 0 {
      InstallLoopPrefix(c, dialect, files, order, replies, n - 1);
      var r := InstallLoop(c, dialect, files, order, replies, n - 1);
      if !r.stopped {
        assert order[..n] == order[..n - 1] + [order[n - 1]];
      }
    }
  }

  /** A reply under which a migration file runs cleanly: rows whose last scan succeeded. */
  predicate CleanReplies(rp: Replies)
  {
    rp.begin.None? && rp.end.None? && rp.query.QueryRows? && LastRow(rp.query.rows, false).err.None?
  }

  /**
   * Without a held transaction and with every driver call succeeding, the
   * loop runs every file in its own committed transaction and ends with no
   * transaction held.
   */
  lemma {:induction false} InstallLoopClean(c: DataAccess.Conn, dialect: Dialect, files: map<int, string>, order: seq<int>, replies: seq<Replies>, n: nat)
    requires n <= |order| && |replies| == |order| && forall i :: 0 <= i < |order| ==> order[i] in files
    requires dialect != Bolt && c.tx.None? && forall i :: 0 <= i < n ==> CleanReplies(replies[i])
    ensures var r := InstallLoop(c, dialect, files, order, replies, n);
      !r.stopped && r.ran == order[..n] && r.conn.tx.None? && (n > 0 ==> r.conn.error.None?)
  {
    if n > 0 {
      InstallLoopClean(c, dialect, files, order, replies, n - 1);
      assert order[..n] == order[..n - 1] + [order[n - 1]];
    }
  }

  /**
   * InstallDB on SQL: a failed tracking query of class 1 installs and
   * returns nil, any other failure is returned; a successful one installs
   * only when it found no rows.
   */
  lemma SqlInstallOutcome(c: DataAccess.Conn, dialect: Dialect, trackReply: QueryReply, files: map<int, string>, order: seq<int>, replies: seq<Replies>)
    requires dialect == Postgres || dialect == Mysql
    requires |replies| == |order| && forall i :: 0 <= i < |order| ==> order[i] in files
    ensures var (c1, res) := AfterQuery(c, dialect, Migrations.TrackQuery, trackReply);
      var (c', err) := SqlInstall(c, dialect, trackReply, files, order, replies);
      (err.Some? <==> res.err.Some? && ErrorClass(dialect, res.err.value) != 1) &&
      (err.Some? ==> err == res.err && c' == c1) &&
      (res.err.None? && |res.rows| > 0 ==> c' == c1 && err.None?) &&
      (dialect == Mysql && !DataAccess.Ended(c) && trackReply.QueryFailed? ==> err == Some(trackReply.err))
  {
  }

  /** InstallDB: the Bolt installer, the SQL installer, or nothing. */
  method InstallDB(db: Database, paths: seq<string>, contents: seq<Option<string>>, order: seq<int>,
                   trackReply: QueryReply, replies: seq<Replies>)
    returns (err: Option<DbError>)
    requires |contents| == |paths| && Enumerates(order, FileMap(paths, contents, |paths|)) && |replies| == |order|
    modifies db, db.bolt
    ensures db.dialect == Bolt ==> (db.bolt.buckets, err) == BoltInstall(old(db.bolt.buckets)) && db.State() == old(db.State())
    ensures db.dialect == Postgres || db.dialect == Mysql ==>
      (db.State(), err) == SqlInstall(old(db.State()), db.dialect, trackReply, FileMap(paths, contents, |paths|), order, replies) &&
      db.bolt.buckets == old(db.bolt.buckets)
    ensures db.dialect !in {Bolt, Postgres, Mysql} ==> err.None? && db.State() == old(db.State()) && db.bolt.buckets == old(db.bolt.buckets)
  {
    err := None;
    if db.dialect == Bolt {
      err := db.bolt.Install();
    } else if db.dialect == Postgres || db.dialect == Mysql {
      var result := db.Query(Migrations.TrackQuery, trackReply);
      var run := false;
      if result.err.Some? {
        if ErrorClass(db.dialect, result.err.value) == 1 {
          run := true;
        } else {
          return result.err;
        }
      } else if |result.rows| == 0 {
        run := true;
      }
      if run {
        var files := MigrationFiles(paths, contents);
        InstallFiles(db, files, order, replies);
      }
    }
  }

  /** The install loop of InstallDB: one transaction per file in map order, stopping after the first failure. */
  method InstallFiles(db: Database, files: map<int, string>, order: seq<int>, replies: seq<Replies>)
    requires |replies| == |order| && forall i :: 0 <= i < |order| ==> order[i] in files
    modifies db
    ensures db.State() == InstallLoop(old(db.State()), db.dialect, files, order, replies, |order|).conn
  {
    ghost var c1 := db.State();
    var i := 0;
    var stopped := false;
    ghost var ran: seq<int> := [];
    while i < |order| && !stopped
      invariant 0 <= i <= |order|
      invariant Install(db.State(), ran, stopped) == InstallLoop(c1, db.dialect, files, order, replies, i)
      invariant stopped ==> InstallLoop(c1, db.dialect, files, order, replies, |order|) == InstallLoop(c1, db.dialect, files, order, replies, i)
    {
      db.BeginTx(replies[i].begin);
      var res := db.Query(files[order[i]], replies[i].query);
      ran := ran + [order[i]];
      if res.err.Some? {
        db.Rollback(replies[i].end);
        stopped := true;
      } else {
        db.Commit(replies[i].end);
      }
      i := i + 1;
      if stopped {
        StoppedStays(c1, db.dialect, files, order, replies, i, |order|);
      }
    }
  }

  /** Once the loop has broken off, further iterations change nothing. */
  lemma {:induction false} StoppedStays(c: DataAccess.Conn, dialect: Dialect, files: map<int, string>, order: seq<int>, replies: seq<Replies>, m: nat, n: nat)
    requires m <= n <= |order| && |replies| == |order| && forall i :: 0 <= i < |order| ==> order[i] in files
    requires InstallLoop(c, dialect, files, order, replies, m).stopped
    ensures InstallLoop(c, dialect, files, order, replies, n) == InstallLoop(c, dialect, files, order, replies, m)
  {
    if m < n {
      StoppedStays(c, dialect, files, order, replies, m, n - 1);
    }
  }

  /**
   * The first n queries of DropDB's SQL branch: every down file runs in map
   * order, failures do not stop the loop, and each result's error replaces
   * the previous one.
   */
  function DropLoop(c: DataAccess.Conn, dialect: Dialect, files: map<int, string>, order: seq<int>, replies: seq<QueryReply>, n: nat): (DataAccess.Conn, Option<DbError>)
    requires n <= |order| && |replies| == |order| && forall i :: 0 <= i < |order| ==> order[i] in files
  {
    if n == 0 then (c, None)
    else
      var (c1, _) := DropLoop(c, dialect, files, order, replies, n - 1);
      var (c2, res) := AfterQuery(c1, dialect, files[order[n - 1]], replies[n - 1]);
      (c2, res.err)
  }

  /**
   * Without an ended transaction, the SQL drop sends exactly one query per
   * down file, in map order, on the held transaction if any, and never
   * changes Tx or Error.
   */
  lemma {:induction false} DropSendsEveryFile(c: DataAccess.Conn, dialect: Dialect, files: map<int, string>, order: seq<int>, replies: seq<QueryReply>, n: nat)
    requires n <= |order| && |replies| == |order| && forall i :: 0 <= i < |order| ==> order[i] in files
    requires dialect != Bolt && !DataAccess.Ended(c)
    ensures var c' := DropLoop(c, dialect, files, order, replies, n).0;
      c'.tx == c.tx && c'.error == c.error && |c'.calls| == |c.calls| + n && c'.calls[..|c.calls|] == c.calls &&
      forall k :: 0 <= k < n ==> c'.calls[|c.calls| + k] == DataAccess.QueryCall(files[order[k]], c.tx.Some?)
  {
    if n > 0 {
      DropSendsEveryFile(c, dialect, files, order, replies, n - 1);
    }
  }

  /** The SQL drop returns the last file's error: an earlier failure is forgotten once a later file succeeds. */
  lemma DropLastErrorWins(c: DataAccess.Conn, dialect: Dialect, files: map<int, string>, order: seq<int>, replies: seq<QueryReply>)
    requires |replies| == |order| && forall i :: 0 <= i < |order| ==> order[i] in files
    requires dialect != Bolt && !DataAccess.Ended(c) && |order| > 0
    ensures var last := replies[|order| - 1];
      DropLoop(c, dialect, files, order, replies, |order|).1 ==
        if last.QueryFailed? then Some(last.err) else LastRow(last.rows, false).err
  {
    DropSendsEveryFile(c, dialect, files, order, replies, |order| - 1);
  }

  /**
   * DropDB: on Bolt every bucket is deleted and nil returned; on Postgres
   * and Mysql every down file is queried and the last error returned; on
   * any other dialect nothing happens.
   */
  method DropDB(db: Database, paths: seq<string>, contents: seq<Option<string>>, order: seq<int>, replies: seq<QueryReply>)
    returns (err: Option<DbError>)
    requires |contents| == |paths| && Enumerates(order, FileMap(paths, contents, |paths|)) && |replies| == |order|
    modifies db, db.bolt
    ensures db.dialect == Bolt ==> db.bolt.buckets == old(db.bolt.buckets) - AllBuckets && err.None? && db.State() == old(db.State())
    ensures db.dialect == Postgres || db.dialect == Mysql ==>
      (db.State(), err) == DropLoop(old(db.State()), db.dialect, FileMap(paths, contents, |paths|), order, replies, |order|) &&
      db.bolt.buckets == old(db.bolt.buckets)
    ensures db.dialect !in {Bolt, Postgres, Mysql} ==> err.None? && db.State() == old(db.State()) && db.bolt.buckets == old(db.bolt.buckets)
  {
    err := None;
    if db.dialect == Bolt {
      var _ := db.bolt.Drop();
    } else if db.dialect == Postgres || db.dialect == Mysql {
      var files := MigrationFiles(paths, contents);
      ghost var c0 := db.State();
      for i := 0 to |order|
        invariant (db.State(), err) == DropLoop(c0, db.dialect, files, order, replies, i)
        invariant db.bolt.buckets == old(db.bolt.buckets)
      {
        var result := db.Query(files[order[i]], replies[i]);
        err := result.err;
      }
    }
  }
}
