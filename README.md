# agente data-access core, modelled in Dafny

This project models the persistence core of the agente job server:

- **Change detector** (`database/change.go`). It compares a current record with a requested one field by field, using a rule chosen by each field's kind. It collects changes, changed column names and named parameters, and writes the requested values back into the current record.
- **SQL text builders** for insert and update (`database/database.go`). It also models `Insert`, including the SQLite cut before `returning` and the ID back-fill.
- **Transactional `Database` wrapper.** It keeps a held transaction `Tx` and a sticky `Error`, and covers `beginTx`, `rollback`, `commit`, `query`, `queryRow`, `Transaction` and the driver-error classifier `dbError`.
- **Migration runner.** This covers reading the migration files, bootstrapping from the base file when the tracking table is missing, and applying newer files inside one transaction.
- **Validator helpers** (`database/validator.go`). These turn validation failures and constraint violations into column-keyed messages.
- **Older `cmn` layer** (`cmn/database.go`). This covers the Bolt bucket installer and dropper, and the SQL installer and dropper that iterate a Go map. It also covers that layer's transactions and the `Query` guard.
- **Utilities.** `utils/util.go` (snake case, integer parsing and formatting, slice searches), the pluggable error of `errors/errors.go`, and the start-up configuration checks of `cmd/main.go`.

## How the model works

- **Driver calls are parameters.** Every driver call (`Beginx`, `Queryx`, `Exec`, `Commit`, `Rollback`, the row scans) becomes an explicit "reply" parameter.
- **Each `Database` object becomes a class.** Its fields are `tx`, a sticky `error` and a `calls` log of the driver calls made. Every method is specified by a pure transition function on a `Conn(tx, error, calls)` snapshot (`AfterBegin`, `AfterQuery`, …). The lemmas about those functions carry the properties.
- **A transaction is `Tx(id, done)`.** `id` is the position of its `BeginCall` in the log. Once a commit or rollback has reached the driver, the transaction is done. From then on, every driver call on it answers `sql.ErrTxDone` without reaching the database.
- **Go map iteration order is a parameter.** The cmn installer iterates a `map[int]string`; its order is an explicit `order` sequence that enumerates every key exactly once.
- **Bolt `Update` is atomic.** The callback works on a scratch copy of the bucket set. The copy is kept only when the callback returns nil.
- **Go integers keep their width.** `strconv.ParseInt`/`Atoi` are modelled digit by digit, with Go's range clamping and syntax errors. `int64` is a subset type with the exact bounds.

Behaviour of the code worth knowing, which the model reproduces:

- **Migrations run in the glob's lexical order**, not sorted by number: `filepath.Glob` returns names in lexical order.
- **`newMigrations` compares against the last row the tracking query read**, not the highest number. The tracking query goes through `db.query`, so a stored `Error` makes it read nothing and every non-base file is rerun.
- **A failed migration does not stop the loop.** The `break` after a failed `Exec` (database/database.go:305, 318) leaves only the `switch`. Later files then reach a transaction that has already been rolled back. Their `Exec` answers `ErrTxDone` without a call, and so does the final `Commit`.
- **In `baseMigrations`, only the last base file's `Exec` decides the outcome.** An earlier failure is overwritten.
- **Identical records need not give an empty change set.** `bool`, `zero.Bool` and `decimal.NullDecimal` fields always count as changed (change.go:100-117, 152-160). The model proves exactly when identical records give no changes.
- **In the newer layer, a failed `Beginx` followed by a failing callback loses the error.** `Transaction` then calls `rollback` with no transaction held, and that clears `Error`.
- **In the cmn layer, `BeginTx` on a held transaction keeps a stored `Error`**, while the newer `beginTx` clears it.
- **`TableNotFound` and `InternalError` are both 1.** A SQLite "SQL logic error" is therefore indistinguishable from a missing table.

## Model

| member | source | states |
|---|---|---|
| GoStrings.Split | database/database.go:230-231 | `strings.Split` on one character yields at least one piece, and no piece contains the separator |
| GoStrings.JoinSplit | cmn/database.go:233-234 | joining the pieces of `strings.Split` with the same separator gives back the string |
| GoStrings.SplitJoin | utils/util.go:149-155 | splitting a join of separator-free pieces gives back exactly those pieces |
| GoStrings.BeforeFirst | database/database.go:506-507 | the first piece of a split on a word is the longest prefix with no occurrence of the word, ending at its first occurrence or at the end |
| GoStrings.BeforeFirstAppend | database/database.go:506-507 | when the word first occurs at the join point, the first piece is exactly the text before it |
| Strconv.ParseUint | utils/util.go:65 | an error-free unsigned parse lies below 2^bitSize |
| Strconv.ParseIntInRange | utils/util.go:158-164 | every `strconv.ParseInt` value, range errors included, is clamped into the signed range of the bit size |
| Strconv.ScanDecimal | utils/util.go:58-65 | scanning the decimal digits of n gives back n |
| Strconv.FormatParseRoundTrip | utils/util.go:58-70 | `ParseInt(FormatInt(x, 10), 10, 64)` is x with no error, for every int64 x |
| Strconv.AtoiNonNumeric | database/database.go:231-232 | a file number with no digit right after its optional sign parses as 0 with a syntax error |
| Utils.Lower | utils/util.go:33 | the lowering keeps the length and lowers each ASCII capital in place; other characters are kept |
| Utils.LowerRun | utils/util.go:26 | the `[a-z]+` run is the longest prefix of lower-case letters |
| Utils.SnakeHasNoUpper | utils/util.go:30-34 | `ToSnakeCase` leaves no ASCII upper-case letter |
| Utils.SnakeOnlyInsertsUnderscores | utils/util.go:30-34 | deleting underscores from `ToSnakeCase(s)` gives lower(s) without its underscores, so the two passes only insert underscores |
| Utils.FirstCapPassOnlyInserts | utils/util.go:26-31 | the `(.)([A-Z][a-z]+)` pass only inserts underscores |
| Utils.AllCapPassOnlyInserts | utils/util.go:27-32 | the `([a-z0-9])([A-Z])` pass only inserts underscores |
| Utils.AllCapPassSeparates | utils/util.go:27-32 | after the second pass, no lower-case letter or digit is directly followed by a capital |
| Utils.SnakeKeepsLowerCase | utils/util.go:30-34 | a string with no ASCII capital is its own snake case (under the ASCII-only lowering) |
| Utils.SnakeIdempotent | utils/util.go:30-34 | `ToSnakeCase` is idempotent |
| Utils.InArray | utils/util.go:37-55 | `exists` holds iff the argument is a slice containing the value; `index` is then its first position, else -1 |
| Utils.StringInSlice | utils/util.go:167-174 | true iff the string is in the list |
| Utils.Int64ToStr | utils/util.go:58-61 | the text holds only digits and '-' |
| Utils.StrToInt64 | utils/util.go:64-70 | the base-10, 64-bit parse value, or 0 when the parse reports an error |
| Utils.StrToInt | utils/util.go:73-79 | the `Atoi` value, or 0 when it reports an error |
| Utils.StrToInt64RoundTrip | utils/util.go:58-70 | `StrToInt64(Int64ToStr(x)) == x` for every int64 |
| Utils.Int64Strings | utils/util.go:150-153 | one decimal string per number, position by position |
| Utils.JoinInt64Array | utils/util.go:149-155 | the decimal strings joined with the separator; "" for no numbers |
| Utils.JoinInt64ArrayRoundTrip | utils/util.go:149-155 | splitting on a non-digit, non-'-' separator and parsing each piece gives back the numbers |
| Utils.ParseInt | utils/util.go:158-164 | `flag` is set iff `strconv.ParseInt` errs; `i` is its (clamped) value; the value lies in the bit size's signed range |
| PluggableErrors.New | errors/errors.go:19-35 | the text is kept; status, detail and errors come from the first three arguments in turn, or stay zero values |
| PluggableErrors.ErrorReturnsText | errors/errors.go:44-46 | `Error()` returns the text New was given |
| PluggableErrors.ExtraArgsIgnored | errors/errors.go:22-32 | arguments after the third have no effect |
| Startup.ConfigError | cmd/main.go:99-116 | the checks run in order (DB, PORT, CHANNEL_NAME, no queue, two queues) and the first failing one gives its message |
| Startup.ConfigPassesIffAcceptable | cmd/main.go:99-116 | start-up passes iff DB, port and channel are set and exactly one of the redis and RabbitMQ hosts is |
| Startup.ConfigErrorMessages | cmd/main.go:99-116 | every failure carries one of the five messages |
| Driver.LastRow | database/database.go:433-439 | with rows and no target, the result holds the last row's values and its scan error; with a target the rows stay empty; no rows gives an empty, error-free result |
| Driver.ScanRows | database/database.go:433-439 | the scanning loop computes `LastRow` |
| Changes.Lookup | database/change.go:65 | `FieldByName` finds a field of that name, or reports that none exists |
| Changes.FieldOutcome | database/change.go:65-162 | a Change carries the field's Go name and db tag and comes with a parameter under that tag; the only parameter without a Change is insert mode's zero.Int one under ""; an unexamined field is untouched |
| Changes.PlainRule | database/change.go:119-151 | string, int and int64 fields change iff the values differ, and current takes requested's value |
| Changes.ZeroStringRule | database/change.go:73-84 | zero.String changes iff the strings differ and requested's is non-empty, and then the whole wrapper is copied |
| Changes.ZeroIntRule | database/change.go:85-99 | zero.Int changes iff the numbers differ and requested's is non-zero, and then only Int64 is copied; otherwise insert mode copies the wrapper and stores the number under "" |
| Changes.AlwaysChangeRule | database/change.go:100-160 | bool, zero.Bool and NullDecimal always change, with requested's value; zero.Bool is not written back |
| Changes.IdExcludedButNotID | database/change.go:39-44 | `DBInterface` and `Id` are never compared, while `ID` is |
| Changes.UnexaminedUntouched | database/change.go:65 | a field absent from requested, or whose requested db tag is empty, produces nothing and keeps its value |
| Changes.WrittenAll | database/change.go:37-46 | the write-back acts field by field on current |
| Changes.WrittenKind | database/change.go:82-159 | the write-back keeps every field's name, tag and kind |
| Changes.CompareField | database/change.go:41-43 | one loop step writes only field i and extends the diff by that field's outcome |
| Changes.PruneParams | database/change.go:48-52 | the cleaned map keeps exactly the entries whose key is non-empty and whose value is not the empty string |
| Changes.CompareFields | database/change.go:37-46 | the field loop yields the reference diff `DiffFields` of current against requested, and current holds the written-back values |
| Changes.GetChanges | database/change.go:20-55 | with no mode, nothing is returned and current is unchanged; otherwise changes, keys and the cleaned map are the reference diff of current against requested, and current holds the written-back values |
| Changes.KeysNameChanges | database/change.go:79-80 | keys list the changes' column names, one for one |
| Changes.ChangesFollowFields | database/change.go:37-46 | changes follow current's field order, and a field appears iff it counts as changed |
| Changes.ChangedIndicesComplete | database/change.go:37-46 | a field counts as changed iff its index is among the changed indices |
| Changes.ParamsNameColumns | database/change.go:81-158 | every map key is a changed column or "", and every changed column is a key |
| Changes.EmptyKeyWriters | database/change.go:65-160 | the map gets the key "" iff some compared field writes it: a changed field whose own `db` tag is empty, or, in insert mode, an unchanged zero.Int (line 96 stores under the still-empty `change.Name`) |
| Changes.EmptyKeyOnlyFromInsert | database/change.go:95-97 | when every field of current carries a `db` tag, the map never gets the key "" in update mode |
| Changes.IdenticalRecords | database/change.go:65-162 | comparing a record with an identical copy gives no changes iff none of its compared fields is bool, zero.Bool or NullDecimal |
| Changes.SecondPassQuiet | database/change.go:65-162 | after the write-back, comparing again finds changes only in the always-changing kinds |
| Changes.KeyWithoutParam | database/change.go:48-52 | for any record, a string field that requested clears to "" is listed in keys, its parameter holds "" and the cleaned map drops it, provided no other field has the same column (the string case is at lines 119-128) |
| SqlText.InsertTemplateRenders | database/database.go:537-562 | the insert template renders to `insert into T (c1, c2) values (:c1, :c2) returning K`, and without `returning K` when the key is empty |
| SqlText.UpdateTemplateRenders | database/database.go:564-586 | the update template renders to `update T set c1 = :c1, c2 = :c2 where W returning K`, and without `returning K` when the key is empty |
| SqlText.JoinAfterIsJoin | database/database.go:539-541 | the `$putComa` idiom is a comma join |
| SqlText.TrimRight | database/database.go:542 | `{{-` removes exactly the trailing white space |
| SqlText.SqliteDropsReturning | database/database.go:505-508 | cutting the insert text at "returning" is exactly the statement without a key column |
| DataAccess.ErrorClass | database/database.go:335-361 | the class is 1 iff a Postgres 42P01 error or an SQLite "SQL logic error", 0 iff another Postgres error, else -1 |
| DataAccess.ForeignErrorsUnclassified | database/database.go:347-360 | Mysql errors and errors of another driver are never classified |
| DataAccess.EndTx | database/database.go:376-395 | ending a transaction marks it done; on a done one the driver is not called and ErrTxDone comes back |
| DataAccess.BeginOnlyWithoutTx | database/database.go:363-374 | beginTx calls the driver iff no transaction is held; with one held it only clears Error; a failed Begin stores the error |
| DataAccess.CommitReleases | database/database.go:387-397 | a successful commit releases Tx and clears Error |
| DataAccess.FailedCommitSticks | database/database.go:389-391 | a failed commit keeps the ended transaction and stores the failure |
| DataAccess.RollbackKeepsTx | database/database.go:376-385 | rollback never releases Tx; Error is cleared iff the driver rollback succeeded |
| DataAccess.EndedTransactionIsStuck | database/database.go:483-491 | once an unreleased transaction has ended, every Transaction reports ErrTxDone without a driver call |
| DataAccess.EndedQueryFails | database/database.go:420-431 | a query on an ended transaction never reaches the database and leaves an error stored |
| DataAccess.TransactionOutcome | database/database.go:483-491 | Transaction begins, then commits iff the callback succeeds and rolls back otherwise |
| DataAccess.FailedBeginTransaction | database/database.go:483-491 | after a failed Begin in beginTx, commit keeps the failure and rollback forgets it |
| DataAccess.QueryOutcome | database/database.go:409-443 | a stored Error short-circuits unchanged; a failure is stored after the rollback; a success yields the last row |
| DataAccess.QueryRowOutcome | database/database.go:455-480 | queryRow without a target always fails; a failure without a transaction leaves no stored error |
| DataAccess.FieldIndex | database/database.go:517 | `FieldByName("ID")` finds the first field of that name, or none |
| DataAccess.SetId | database/database.go:517 | only the ID field changes, and it takes the new id |
| DataAccess.WrittenKeepsIntId | database/database.go:502-517 | GetChanges' write-back keeps the int ID field in place |
| DataAccess.Database.constructor | database/database.go:92-161 | a new Database holds no transaction, no error and no calls |
| DataAccess.Database.beginTx | database/database.go:363-374 | the new state is `AfterBegin` of the old one |
| DataAccess.Database.rollback | database/database.go:376-385 | the new state is `AfterRollback` of the old one |
| DataAccess.Database.commit | database/database.go:387-397 | the new state is `AfterCommit` of the old one |
| DataAccess.Database.query | database/database.go:409-443 | the new state and the result are `AfterQuery` of the old state |
| DataAccess.Database.queryRow | database/database.go:455-480 | the new state and the result are `AfterQueryRow` of the old state |
| DataAccess.Database.Transaction | database/database.go:483-491 | the new state is `AfterTransaction` of the old one |
| DataAccess.Database.Insert | database/database.go:501-521 | the statement is the rendered insert of the changed columns (cut before "returning" on SQLite), sent as one Exec; on success ID takes the new id; Tx and Error are untouched |
| Migrations.ParseFile | database/database.go:230-239 | the name is the last path element; the number is the `Atoi` of its text before the first '.' |
| Migrations.NonNumericFileNumber | database/database.go:231-232 | a name not starting with a digit gets number 0 |
| Migrations.MigrationFiles | database/database.go:222-244 | the loop computes the listing's readable files in order |
| Migrations.ReadableFilesExact | database/database.go:229-241 | every readable file is kept and nothing else is |
| Migrations.Indices | database/database.go:262-328 | only positions below n whose files are selected are listed |
| Migrations.IndicesIncrease | database/database.go:262-328 | the selected positions are listed in increasing order, so files run in listing order |
| Migrations.IndicesComplete | database/database.go:262-328 | a position is listed iff its file is selected |
| Migrations.BaseMigrations | database/database.go:253-281 | the bootstrap loop computes `BaseSpec` |
| Migrations.ExecBaseFiles | database/database.go:261-268 | the transaction executes exactly the base files, in order, and the error left is that of the last base file (nil when there is none) |
| Migrations.LastBaseExecIsLast | database/database.go:262-268 | the error after the loop is the reply to the last base file's Exec, since each Exec overwrites it |
| Migrations.BaseBootstrap | database/database.go:253-281 | the bootstrap runs iff the tracking query failed with TableNotFound; it executes only base files and commits iff the last of them succeeded, else returns its error |
| Migrations.BaseEarlierFailureIgnored | database/database.go:262-274 | a failing base file followed by a succeeding one is committed and returns nil |
| Migrations.NewRunExecsSelected | database/database.go:295-328 | newMigrations executes only non-base files newer than the last tracked one |
| Migrations.NewRunNoFailure | database/database.go:295-328 | when no selected Exec fails, every selected file is executed and recorded in order, and the error is the last record insert's |
| Migrations.NewRunFirstFailure | database/database.go:302-319 | after the first failing Exec the transaction is rolled back, nothing later is executed, and a later selected file turns the error into ErrTxDone |
| Migrations.NewMigrationsCommit | database/database.go:330 | Commit reaches the driver iff no selected Exec failed |
| Migrations.NothingNewerOnlyCommits | database/database.go:283-333 | with nothing newer, newMigrations only commits, and returns nil |
| Migrations.FirstFailure | database/database.go:295-328 | when some selected Exec fails, there is a first one |
| Migrations.NoTrackingRerunsAll | database/database.go:286-290 | a stored Error, a failed or an empty tracking query reads without a panic and selects every non-base file |
| Migrations.TrackedLast | database/database.go:286-301 | a tracked number exists iff a row came back with an int64 second column, and it is that column |
| Migrations.OnlyBaseFilesCommit | database/database.go:295-298 | base files are passed over: with only base files nothing is executed, recorded or rolled back |
| Migrations.NewMigrations | database/database.go:283-333 | the tracking read is a `query` on the Database; it panics, before any Exec, iff a row came back without an int64 second column and some file is not a base file; otherwise the errors and steps are `NewSpec` of the tracked last number |
| Migrations.MigrationUp | database/database.go:246-251 | both passes run on the same listing: the bootstrap's steps are `BaseSpec` and its error is discarded; newMigrations' panic, steps and error are passed on |
| Migrations.InstallDB | database/database.go:179-190 | SQLite, Postgres and Mysql run both passes: the Database's new state is that after the tracking query, the steps are `BaseSpec` and `NewSpec`, and the error or the panic is newMigrations'; any other dialect runs nothing, returns nil and keeps the state |
| Validator.ValidateStruct | database/validator.go:36-52 | the validator's error comes back as is; the map is built from its field errors |
| Validator.StructErrorsKeys | database/validator.go:41-48 | the keys are exactly the failing fields' snake-case names |
| Validator.StructErrorsLastWins | database/validator.go:42-46 | a key holds the message of the last error with that key: "tag: param", or the tag alone |
| Validator.CodeMessage | database/validator.go:96-103 | the unique message for a unique violation, the not-exists message for a foreign-key violation, else "" |
| Validator.ConstraintErrors | database/validator.go:92-108 | with any tag, the field's snake-case key gets the code's message; with none, the map is unchanged |
| Validator.UniquePieces | database/validator.go:65-74 | splitting the matched unique tag yields the constraint once, or never when its name holds a comma |
| Validator.UniqueTags | database/validator.go:65-75 | one unique entry iff the field's unique tag is the constraint and the name has no comma |
| Validator.ValidateConstraint | database/validator.go:55-90 | the error is handed back; only a Postgres error produces entries, namely the constraint map of the fields |
| Validator.ConstraintMapMeaning | database/validator.go:60-86 | the keys are exactly the matching fields' snake-case names, all with the code's message |
| Validator.CommaConstraintOnlyForeign | database/validator.go:65-83 | a constraint whose name holds a comma is reported only through a foreign tag |
| CmnDatabase.CreateBucket | cmn/database.go:161-180 | `CreateBucket` adds a missing bucket, and refuses an existing one with ErrBucketExists |
| CmnDatabase.FreshInstall | cmn/database.go:157-183 | on a store with no agente bucket, the install creates all five |
| CmnDatabase.DataBucketBlocksInstall | cmn/database.go:159-175 | with no migrations bucket but some data bucket, the install fails and the whole update is discarded |
| CmnDatabase.ReinstallRefused | cmn/database.go:159-181 | with a migrations bucket, the install fails with ErrBucketExists and changes nothing |
| CmnDatabase.DropThenInstall | cmn/database.go:131-183 | after a drop the install succeeds; an unrelated bucket is kept |
| CmnDatabase.BoltStore.Install | cmn/database.go:157-183 | the bucket set and error are `BoltInstall` of the old set |
| CmnDatabase.BoltStore.Drop | cmn/database.go:131-140 | all five buckets are removed, whichever existed, and nil is returned |
| CmnDatabase.ErrorClass | cmn/database.go:244-262 | 1 iff a Postgres 42P01 error, 0 iff another Postgres error, else -1 |
| CmnDatabase.MigrationFiles | cmn/database.go:227-242 | the loop computes the number-keyed map of readable files |
| CmnDatabase.FileMapKeys | cmn/database.go:232-240 | the keys are exactly the numbers of the readable files |
| CmnDatabase.FileMapLastWins | cmn/database.go:238 | a number maps to the contents of the last readable file carrying it |
| CmnDatabase.BeginTxKeepsError | cmn/database.go:264-273 | with a transaction held, BeginTx changes nothing, while the newer beginTx clears Error |
| CmnDatabase.QueryGuard | cmn/database.go:299-324 | Query on Bolt is refused without a call; Query never changes Tx or Error; a failure is returned as is |
| CmnDatabase.Database.constructor | cmn/database.go:65-125 | a new Database holds no transaction, no error and no calls |
| CmnDatabase.Database.BeginTx | cmn/database.go:264-273 | the new state is `AfterBeginTx` of the old one |
| CmnDatabase.Database.Rollback | cmn/database.go:275-284 | the same transition as the newer rollback |
| CmnDatabase.Database.Commit | cmn/database.go:286-296 | the same transition as the newer commit |
| CmnDatabase.Database.Query | cmn/database.go:299-324 | the new state and the result are `AfterQuery` of the old state |
| CmnDatabase.InstallLoopPrefix | cmn/database.go:189-215 | the loop runs files in map order, each at most once, and breaks off right after the first failing one |
| CmnDatabase.InstallLoopClean | cmn/database.go:188-197 | with nothing failing, every file runs in its own committed transaction and none is left held |
| CmnDatabase.SqlInstallOutcome | cmn/database.go:184-219 | a class-1 tracking failure installs and returns nil; any other failure is returned; a successful query installs only when it found no rows |
| CmnDatabase.InstallFiles | cmn/database.go:189-215 | the loop leaves the connection as the reference install loop `InstallLoop` does |
| CmnDatabase.InstallDB | cmn/database.go:154-225 | Bolt runs the bucket installer; Postgres and Mysql run `SqlInstall`; any other dialect (SQLite included) does nothing |
| CmnDatabase.DropSendsEveryFile | cmn/database.go:141-147 | the SQL drop sends one query per down file, in map order, ignoring failures, and never changes Tx or Error |
| CmnDatabase.DropLastErrorWins | cmn/database.go:143-146 | the SQL drop returns the last file's error |
| CmnDatabase.DropDB | cmn/database.go:128-151 | Bolt deletes all five buckets and returns nil; Postgres and Mysql run `DropLoop`; any other dialect does nothing |

## Left out

- `NewDB` in both layers (driver open, ping, pool sizing, connection strings): I/O. A new `Database` starts with no transaction and no error.
- `reset()` (database/database.go:192-214) and `DropDB` of the newer layer (database/database.go:164-176): they only send DDL statements.
- `QueryRow` of the cmn layer (cmn/database.go:327-349): it writes `Rows[0]` of a nil slice, so it always panics.
- `Select`, `Update`, `Delete`, `QueryWithModel`, `QueryRow`: stubs or one-line wrappers of `query`/`queryRow`; the wrappers are covered through the `target` flag.
- `filepath.Glob` and `ioutil.ReadFile`: the listing is a parameter, as paths in glob order plus each file's contents or a read failure.
- The driver's answers (`Beginx`, `Queryx`, `Exec`, `QueryRowx`, scans, `Commit`, `Rollback`, `LastInsertId`): parameters. Rows, cells and errors are modelled only as far as the core inspects them.
- Migrations.BaseMigrations, Migrations.NewMigrations: `Beginx` of the local transaction is taken to succeed. A failed `Beginx` leaves a nil transaction, on which the first `Exec` (database/database.go:261-263) or the final `Commit` panics; that panic is not modelled.
- DataAccess.Database.Transaction: the callback's own database work is not modelled. Only its error is a parameter.
- DataAccess.Database.Insert: `sqlx.Named`/`sqlx.In` parameter binding and the `LastInsertId` error (which the source ignores) are not modelled.
- `strconv.ParseInt` with base 0 (prefix detection): the core only uses base 10. Utils.ParseInt and Strconv.ParseIntInRange require a non-zero base.
- `HashPassword`, `ComparePassword`, `FloatToStr`, `StrToFloat`, the time parsers, `Passkey`: outside the modelled core (bcrypt, floating point, clocks, randomness).
- Changes.GetChanges: current and requested are taken as distinct records (no aliasing). Every compared pair of same-named fields is required to have one kind. In the source, some mismatched pairs make reflection panic (`Int()` on a non-integer, `Set` across types). Others pass harmlessly: an untracked kind of current never reads requested, and equal int and int64 values never reach `Set`. None of these mixed-kind outcomes is modelled.
- Validator.ValidateStruct: the go-playground validator is a parameter, as its list of field errors. An `InvalidValidationError`, which the source would panic on, is not modelled.
- Validator.CodeMessage: the violation codes and messages are constants in a file that is not part of this model, so they are a parameter.
- Rows are never closed and the logger's lines are not modelled: neither affects the results.
- Bolt's own transaction failures (disk I/O in `Update`): only the callback's answer decides the outcome.
- Utils.Lower, Utils.SnakeKeepsLowerCase: only ASCII letters are lowered. Go's `strings.ToLower` lowers every Unicode capital, so for "Ä" Go's `ToSnakeCase` gives "ä" where the model keeps "Ä". Unicode case tables are not modelled.
- Utils.InArray: an untyped nil second argument makes `reflect.TypeOf(nil).Kind()` panic (utils/util.go:41). The model has no nil argument: a non-slice value, `NotSlice`, gives (false, -1) as any non-slice does in Go.
- Utils.FirstCapPassOnlyInserts: where the first pass puts its underscores (before each capital that starts a lower-case run) is not stated, only that it inserts nothing but underscores.
