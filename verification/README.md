# Verification of the API toolkit's stateful core

A Dafny model of the parts of the toolkit that carry state or a contract worth proving: the migration
engine, the token-bucket rate limiter, the PostgreSQL transaction manager, the health manager with its
composite checkers, and the parsers around them (traceparent headers, list queries, migration file
names, quoted identifiers, the hand-written integer printer). `dafny verify dfyconfig.toml` checks it.

## How it is built

Each component has a specification made of functions on values, a class or methods that work step by
step as the Go code does and are proved to compute exactly those functions, and lemmas that prove what
the component promises about the functions, over every input and every run.

| component | specification | step by step | properties |
|---|---|---|---|
| rate limiter | `RateLimit`, `Decimal` | `Limiter`, `Itoa` | `RateLimit` |
| migration engine | `Ledger`, `MigrationLoading`, `MigrationFiles`, `Quoting` | `Runner` | `LedgerTable`, `LedgerLog`, `LedgerSteps`, `LedgerReplies`, `LedgerRuns`, `LedgerUndo`, `LedgerCounts`, `LedgerRoundTrip`, `LedgerHistory`, `MigrationSources`, `MigrationRetries` |
| several runners | `AdvisoryLock` | | `AdvisoryLock`, `LockedRuns`, `SerialRuns`, `SerialHistory` |
| transaction manager | `Transactions` | `TxManager` | `TransactionSteps`, `TransactionFacts`, `TransactionMeaning` |
| health | `HealthStatus`, `HealthCache`, `HealthReports` | `HealthManager`, `HealthStatus` | the same three |
| trace headers | `TraceContext` | `TraceContext` | `TraceContext` |
| list queries | `ListQuery` | `ListQuery` | `ListQuery` |
| strings | `Common`, `Texts` | | `Texts` |

- **Migration engine.** The database is the log of durable effects (a committed up script, an upserted
  row, a committed down script with its row deletion); the ledger table, the stack of success rows and
  the schema are functions of the log. Every database call takes the next event of a script: it
  answers, fails, takes effect with its answer lost, or the process dies in it with or without the
  effect. The theorems hold for every script. The clock of the database moves by any non-negative
  amount per call.
- **Rate limiter.** A trace lists requests in the order in which they take the mutex. The clock is
  read before that, so timestamps in a trace are in no particular order unless a lemma asks for it.
- **Advisory lock.** A state machine over the interleavings of any number of Runners with one lock key, each
  with its pool and its migrations, doing Ups and Downs. Locking and unlocking pick any session of the
  pool. Every call may fail, take effect with its answer lost, or be the last one of its process.
- **Transaction manager.** A program tree stands for the code that uses the manager; each operation
  picks the context of an enclosing WithinTx or the one outside. What Query and QueryRow return is held in
  variables and can be closed and scanned anywhere. Panics are outcomes like errors, and deferred calls
  run on all of them. A connection is one acquisition from the pool.
- **Health.** A checker is a function of the time it is called at. One check reads the clock at the
  cache, before the call and after it.
- **Trace headers and list queries.** Random bytes and the order in which a map is walked are inputs.

## Assumptions

- `float64` values and durations in seconds are real numbers.
- `sort.Slice` is modelled by a stable insertion sort; with keys that do not repeat the result is the
  only sorted one.
- The checksum is any function of the trimmed text. `exec_ms` has no influence and is left out.
- A rollback ends the transaction whatever it returns, and a failed begin leaves none open.
- Releasing a connection that is back already does nothing; calling Close or Scan on a variable that holds
  nothing panics.
- A process that dies ends all sessions of its pool, which releases the lock; otherwise sessions stay open.
- The database's clock starts at 0 and never goes back.
- `int` has 64 bits.

## Where code and comments differ

- The comment at migrator/migrator.go:35-36 says that later files override earlier ones of the same
  name. The code rejects a second file with the same version and direction (lines 445-449), and so does
  the model (`MigrationLoading.LoadExact`).
- A failed load keeps what it has appended to the Runner, and a retry appends again (lines 458, 467).
  `MigrationRetries.RetryUniqueExactly` says exactly when a Runner is free of duplicates after failed
  loads, `MigrationRetries.RetryDuplicates` gives the inputs where it is not, and
  `MigrationRetries.RetryCommitsTwice` what its next Up then does.
- Any flags but 00 are reported as sampled by the traceparent parser, while section 3.2.2.5 of W3C Trace
  Context defines only the lowest bit so: `TraceContext.FlagsExact` says when the two agree.
- A one-second Retry-After is advertised even when the bucket refills more slowly, and a RetryAfter below
  one second as 0: `RateLimit.AdvertisedWaitExactly` says when the advertised wait is enough.
- A report over a non-empty list of names without a checker has the empty status, which is none of the
  constants: `HealthReports.UnregisteredIgnored`.
- itoa's buffer has room for 12 bytes only: `Itoa.Print` says what happens outside that range; its call
  site stays inside.

## Model

| member | source | states |
|---|---|---|
| `RateLimit.AdmissionCharacterised` | middleware/ratelimit/ratelimit.go:44-73 | For any trace in mutex order, with timestamps in any order: request n is admitted if and only if for every earlier request j on its key (and n itself) the admissions in [j, n) plus one are at most Capacity + RefillRate * (t_n - t_j). |
| `RateLimit.LineIsMinimum` | middleware/ratelimit/ratelimit.go:49-60 | The line tokens + rate * (t - lastSeen) of a bucket is the lowest of the lines Capacity + rate * (t - t_j) - admissions since j over the earlier requests j on its key, and one of them attains it; for any imposed decisions. |
| `RateLimit.FoundVersusPermitted` | middleware/ratelimit/ratelimit.go:49-72 | For any imposed history of decisions the refilled bucket holds a whole token exactly when the request is permitted by the limiter that remembers all history. |
| `RateLimit.WindowBound` | middleware/ratelimit/ratelimit.go:44-73 | The number of admissions on a key stamped inside any window [a, b] is at most Capacity + RefillRate * (b - a), even when stamps arrive out of order. |
| `RateLimit.NoneAdmitsMore` | middleware/ratelimit/ratelimit.go:44-73 | The limiter respects the budget, and no sequence of decisions that does has admitted more requests on any key at any point of any trace. |
| `RateLimit.KeyIndependence` | middleware/ratelimit/ratelimit.go:44-73 | On every interleaving of keys, the decisions on one key and its bucket are those of a fresh limiter fed only that key's requests. |
| `RateLimit.RefusalsAreFree` | middleware/ratelimit/ratelimit.go:62-71 | Deleting any set of refused requests from a trace leaves every other decision as it was. |
| `RateLimit.RefusalKeepsLines` | middleware/ratelimit/ratelimit.go:55-71 | With Capacity at least 1 a refusal moves no bucket's line. |
| `RateLimit.TooSmallAdmitsNothing` | middleware/ratelimit/ratelimit.go:62-71 | With a Capacity below 1 nothing is ever admitted. |
| `RateLimit.TokensInRange` | middleware/ratelimit/ratelimit.go:50-72 | With Capacity at least 1 and non-decreasing timestamps every bucket holds between 0 and Capacity tokens. |
| `RateLimit.FoundAtLeast` | middleware/ratelimit/ratelimit.go:49-61 | For any imposed history and any x: the refilled bucket holds x tokens if and only if on every stretch of its key the budget exceeds the admissions by x. |
| `RateLimit.DebtExactly` | middleware/ratelimit/ratelimit.go:47-72 | For stamps in any order, a request leaves its bucket without debt if and only if no stretch of its key ending in it had admitted more than Capacity + RefillRate times its length. |
| `RateLimit.LateStampLeavesDebt` | middleware/ratelimit/ratelimit.go:47-60 | An instance: a request stamped before an admitted one leaves -5 tokens. |
| `RateLimit.AdmittedAfterWaiting` | middleware/ratelimit/ratelimit.go:50-72 | A request refused with x tokens at t, with nothing on its key admitted since, is admitted if and only if it comes at t + (1 - x) / RefillRate or later. |
| `RateLimit.WaitSuffices` | middleware/ratelimit/ratelimit.go:62-71 | With ordered stamps, waiting w seconds is enough for every refused client when RefillRate * w is at least 1. |
| `RateLimit.WaitExactly` | middleware/ratelimit/ratelimit.go:50-72 | Over all ordered traces, waiting w seconds gets every refused client admitted, if nothing on its key was admitted since, if and only if Capacity is at least 1 and RefillRate * w is at least 1. |
| `RateLimit.AdvertisedWaitExactly` | middleware/ratelimit/ratelimit.go:64-68 | With Capacity at least 1 the seconds said in Retry-After are enough if and only if RefillRate times them is at least 1: the default second for rates of at least 1 only, and a RetryAfter below one second, announced as 0, never. |
| `RateLimit.RetrySeconds` | middleware/ratelimit/ratelimit.go:64-68 | The header says the whole seconds of RetryAfter, and 1 when RetryAfter is not positive. |
| `RateLimit.Normalize` | middleware/ratelimit/ratelimit.go:31-42 | New replaces a capacity that is not positive by 20 and a rate that is not by 10, each on its own, and keeps everything else. |
| `Limiter.Bucket.Decide` | middleware/ratelimit/ratelimit.go:55-72 | Refill, cap and take a token in place: the new bucket and the decision are those of the specification. |
| `Limiter.Middleware.constructor` | middleware/ratelimit/ratelimit.go:31-42 | A new middleware has normalised options and no buckets. |
| `Limiter.Middleware.BucketFor` | middleware/ratelimit/ratelimit.go:50-54 | A new key gets a fresh full bucket, no bucket is shared by two keys, and no other bucket changes. |
| `Limiter.Middleware.Take` | middleware/ratelimit/ratelimit.go:49-73 | The section under the mutex changes the table and decides as the specification says; buckets of distinct keys stay distinct objects. |
| `Limiter.Middleware.Handle` | middleware/ratelimit/ratelimit.go:44-77 | One request: table, decision, and for a refusal the decimal text of the Retry-After seconds, which fits itoa's buffer for every int64 duration. |
| `Itoa.Print` | middleware/ratelimit/ratelimit.go:92-112 | The backward fill of a 12-byte buffer yields the canonical decimal text of every integer above -10^11 and below 10^12; for every other int64 but the smallest it panics on the index, and for the smallest it prints a lone sign. |
| `Itoa.FitsMeaning` | middleware/ratelimit/ratelimit.go:96-97 | That range is exactly the integers whose decimal text has at most 12 characters. |
| `Decimal.DigitsDenote` | middleware/ratelimit/ratelimit.go:102-106 | The digits filled in denote the number and have no leading zero. |
| `Decimal.DigitsUnique` | middleware/ratelimit/ratelimit.go:102-106 | They are the only text without leading zeros that does. |
| `Decimal.TextExact` | middleware/ratelimit/ratelimit.go:92-112 | The text of an integer is the only one that is a lone zero, or an optional minus sign and digits of its value without a leading zero. |
| `LedgerHistory.LedgerIsStack` | migrator/migrator.go:81-139 | At every point of any history of Up and Down runs, with any failure or crash at any database call: if the clock moves (and even if migration sets change), or if there is one set (and even if the clock stands still), the success rows read in (applied_at, version) order are exactly the push history. |
| `LedgerHistory.EveryUpPushes` | migrator/migrator.go:81-105 | Every Up of such a history loses no success row and pushes rows for the first of its pending migrations, ascending, all of them if it returns nil; without a pending list it has no effect and does not return nil. |
| `LedgerHistory.EveryDownPops` | migrator/migrator.go:107-139 | Every Down removes exactly the top success row, with the down migration of that version in the same effect, or has no effect; it returns nil without one only on an empty stack. |
| `LedgerHistory.RecordedIsPrefix` | migrator/migrator.go:81-139 | With one migration set the success rows are at every point the first versions of the set in ascending order. |
| `LedgerHistory.CrashSafety` | migrator/migrator.go:254-302 | In Up-only histories of one set, whatever fails: the recorded versions are a prefix of the up versions, each of them was committed, and only the first pending version can be committed without being recorded. |
| `LedgerHistory.SchemaFollowsLedger` | migrator/migrator.go:283-334 | If each down script undoes its up script and no failure fell between a commit and its record, the schema is at every point the fold of the up scripts behind the success rows, in ledger order. |
| `LedgerHistory.EveryDownIsAtomic` | migrator/migrator.go:107-139 | Every Down changes schema and table together, by the down script of the top version and the deletion of its row, if and only if it may, that script is loaded, lock, table, read, begin, script (unless blank) and delete all work, and the commit takes effect; otherwise it changes neither. |
| `LedgerHistory.EveryDownReturns` | migrator/migrator.go:107-139 | It returns nil if and only if all those calls and the commit work, or there is no success row and the calls up to the read work; and the process does not die in the unlock. |
| `LedgerHistory.UpThenDownsRestores` | migrator/migrator.go:81-139 | An Up that pushed k versions without such a gap, followed by k Downs that return nil, restores the schema and the success rows. |
| `LedgerHistory.SecondUpIsIdle` | migrator/migrator.go:254-281 | After an Up that returned nil the pending list of the same set is empty and the next Up with it has no effect. |
| `LedgerHistory.CommitsCounted` | migrator/migrator.go:81-139 | At every point of every such history a version has been committed once if its row is there, once for each time it was reverted, and once for each commit not directly followed by its success record. |
| `LedgerHistory.UpCommitsCounted` | migrator/migrator.go:254-302 | In Up-only histories: once if its row is there and once for each such gap. |
| `LedgerHistory.GapIsReapplied` | migrator/migrator.go:297-302 | An Up that returns nil commits each pending migration once more, so one whose record was lost is then committed at least twice. |
| `LedgerHistory.CommittedTwice` | migrator/migrator.go:254-302 | It happens: for every up migration, an Up that loses its record and an Up that works commit it exactly twice. |
| `LedgerCounts.CommitCount` | migrator/migrator.go:254-352 | The count for any disciplined log whose success records directly follow their commits. |
| `LedgerCounts.NilUpCommits` | migrator/migrator.go:81-105 | An Up that returns nil commits a version as often as its pending list has it. |
| `LedgerCounts.FirstUpCommits` | migrator/migrator.go:81-105 | On an empty ledger, as often as the loaded set has an up migration of it, duplicates included. |
| `LedgerSteps.ApplyOneTrail` | migrator/migrator.go:283-302 | Applying one migration leaves a prefix of: its commit, its record; or a failure row; and returns nil only after both commit and success record. |
| `LedgerSteps.ApplyAllTrail` | migrator/migrator.go:98-103 | Applying a list leaves committed and recorded pairs for a first part of it and at most one migration cut short. |
| `LedgerReplies.RevertExactly` | migrator/migrator.go:304-334 | By the replies alone: a revert has its effect if and only if begin, a script that is not blank and the delete of one row work and the commit takes effect; a failing script leaves everything as it was and is an error. |
| `LedgerReplies.DownExactly` | migrator/migrator.go:107-139 | The same for a whole Down on any database, with when it returns nil. |
| `LedgerReplies.ApplyExactly` | migrator/migrator.go:283-302 | By the replies to begin, script, commit and record: when the script is committed, when the success row and when the failure row of that migration is written, at which time, and that nil means all four worked. |
| `LedgerReplies.UpExactly` | migrator/migrator.go:81-105 | For each pending migration of an Up: where in the log its commit, its success row and its failure row are, each if and only if all calls before worked and its own were answered so; nil if and only if all calls worked; without a pending list nothing is left, and it panics if and only if the migrations are loaded, a checksum changed and the calls up to the read worked. |
| `LedgerReplies.UpStopsDead` | migrator/migrator.go:81-105 | An Up makes its calls in order and none after the one in which its process dies. |
| `LedgerReplies.DownStopsDead` | migrator/migrator.go:107-139 | The same for a Down. |
| `LedgerUndo.FailureIsRecorded` | migrator/migrator.go:292-296 | When the script fails and the database still answers, exactly a failure row of the migration is left and an error returned. |
| `LedgerUndo.FailedCommitIsRecorded` | migrator/migrator.go:297-300 | When the commit fails, the failure row is left too; if only its answer was lost, after the commit. |
| `LedgerUndo.UpCompletes` | migrator/migrator.go:81-105 | If all its calls, four for each pending migration and four more, succeed and no checksum changed, Up returns nil. |
| `LedgerUndo.DownCompletes` | migrator/migrator.go:107-139 | If its calls succeed and the top version has a down migration, Down returns nil and reverts exactly that. |
| `LedgerUndo.SchemaIsFold` | migrator/migrator.go:283-334 | The same for any disciplined log, with the commit that still waits for its record applied on top. |
| `LedgerTable.TableKeyed` | migrator/migrator.go:336-352 | The upsert and the delete keep one row per version. |
| `LedgerTable.TableExact` | migrator/migrator.go:318-352 | A record leaves exactly one row of its version, that one; a revert leaves none; no other row changes, and a commit changes none. |
| `LedgerTable.DeleteTop` | migrator/migrator.go:318-332 | Deleting the version of the last success row affects one row and removes exactly that row from the success rows. |
| `LedgerTable.OrderBySorts` | migrator/migrator.go:213-235 | Reading orders the rows by (applied_at, version). |
| `LedgerTable.OrderByPermutes` | migrator/migrator.go:213-235 | And returns each row as often as it is there. |
| `LedgerTable.SuccessesOrdered` | migrator/migrator.go:238-252 | Keeping the success rows of the ordered read is the same as ordering the success rows. |
| `LedgerTable.PendingExact` | migrator/migrator.go:254-281 | When it does not panic, the pending list is strictly ascending and holds exactly the up migrations without a success row. |
| `LedgerTable.PanicExact` | migrator/migrator.go:266-272 | It panics if and only if some up migration has a success row with another checksum. |
| `LedgerTable.FindIsFirst` | migrator/migrator.go:488-495 | find returns the first loaded migration with that version and direction, and nil exactly if there is none. |
| `LedgerLog.TableIsStack` | migrator/migrator.go:304-352 | In a log in which only versions without a success row are recorded and only the top is reverted, the success rows in storage order are the stack. |
| `LedgerLog.ReadsStack` | migrator/migrator.go:213-252 | They are so in (applied_at, version) order too, if record times increase or the stack ascends by version and times do not go back. |
| `LedgerLog.TrailCommits` | migrator/migrator.go:98-103 | What an Up leaves commits every version it records and at most one more of its list, and reverts nothing. |
| `Runner.Runner.UniqueDirs` | migrator/migrator.go:386-398 | Each non-empty directory once, in order of first mention. |
| `Runner.Runner.ListFiles` | migrator/migrator.go:419-436 | All plain files of all roots in order; none if a root cannot be listed. |
| `Runner.Runner.CollectFiles` | migrator/migrator.go:437-460 | Appends the parsed files to the Runner's migrations until one cannot be read or repeats a key; what was appended stays. |
| `Runner.Runner.LoadMigrations` | migrator/migrator.go:373-469 | The Runner's two fields after a load, successful or not, are those of the specification. |
| `Runner.Runner.OnlySuccesses` | migrator/migrator.go:238-252 | Keeps exactly the success rows, in order. |
| `Runner.Runner.PendingUp` | migrator/migrator.go:254-281 | Computes the pending list of the specification, or panics as it says. |
| `Runner.Runner.Find` | migrator/migrator.go:488-495 | Returns the first migration with the version and direction. |
| `Runner.Runner.Record` | migrator/migrator.go:336-352 | One call that upserts the row at the database's time. |
| `Runner.Runner.ApplyOne` | migrator/migrator.go:283-302 | Begin, script, commit, record, with the failure row on errors: state and result are those of the specification, whatever each call answers. |
| `Runner.Runner.ApplyAll` | migrator/migrator.go:98-103 | Applies in order and stops at the first error. |
| `Runner.Runner.DeleteRowAndCommit` | migrator/migrator.go:317-333 | Deletes the row and commits, or rolls back unless exactly one row was deleted. |
| `Runner.Runner.RevertOne` | migrator/migrator.go:304-334 | Runs the down script, unless it is blank, and deletes the row in one transaction. |
| `Runner.Runner.UpLocked` | migrator/migrator.go:82-104 | What Up does inside the lock, including the load into the Runner's fields. |
| `Runner.Runner.Up` | migrator/migrator.go:81-105 | Lock, apply, unlock: database and result as specified for the migrations this Runner has after loading. |
| `Runner.Runner.DownLocked` | migrator/migrator.go:114-138 | What Down does inside the lock. |
| `Runner.Runner.Down` | migrator/migrator.go:107-139 | Refused without permission; otherwise lock, revert the latest success, unlock. |
| `MigrationLoading.LoadExact` | migrator/migrator.go:373-469 | A Runner with no earlier failed load ends up with exactly one migration per parseable file of all deduplicated roots, strictly sorted by (version, direction); the load fails if and only if there is no root, a root or migration file cannot be read, or a key repeats. |
| `MigrationLoading.CollectedExact` | migrator/migrator.go:437-460 | The parsing loop finishes exactly when every parseable file is readable and no (version, direction) repeats; what it appended never repeats one. |
| `MigrationLoading.CollectedUntil` | migrator/migrator.go:437-460 | Otherwise it has appended exactly the migrations of the files before the first one that is unreadable or repeats a key. |
| `MigrationSources.LoadedFromFiles` | migrator/migrator.go:373-469 | What a Runner has loaded are exactly the migrations of the plain files in its sources: version, name and direction from the file name, the text of that file without the space around it, and the checksum of that text; every source and every such file could be read. |
| `MigrationSources.CarriedText` | migrator/migrator.go:454-457 | A readable file stands for exactly the migration with its name's parts, its trimmed text and the checksum of that. |
| `MigrationSources.UniqueExact` | migrator/migrator.go:386-398 | Every non-empty directory is read once, in the order of first mention. |
| `MigrationSources.RootsExact` | migrator/migrator.go:377-416 | The sources are MigrationsDir and MigrationsDirs, each directory once, and then all embedded file systems, in order. |
| `MigrationSources.FilesExact` | migrator/migrator.go:425-435 | Of a listing every entry that is no directory is taken, as often as it is listed. |
| `MigrationLoading.SortSorts` | migrator/migrator.go:461-466 | Sorting a set without repeated keys orders it strictly by version and direction. |
| `MigrationRetries.RetryUniqueExactly` | migrator/migrator.go:373-469 | One Runner whose loads fail, against any sequence of directory contents with the same file names, until one succeeds: it then holds no (version, direction) twice if and only if every failed load had stopped at an unlistable directory or at its first migration file. |
| `MigrationRetries.FirstAppended` | migrator/migrator.go:437-460 | The parsing loop appends nothing if and only if there is no migration file or the first one cannot be read; otherwise it begins with that one. |
| `MigrationRetries.LoadsOnce` | migrator/migrator.go:373-376 | Once a load has succeeded, later loads succeed and change nothing, whatever the directories hold by then. |
| `MigrationRetries.RetriedUpCommits` | migrator/migrator.go:93-103 | On an empty ledger the Up of such a Runner, if it returns nil, commits each version once for its file and once more for each time a failed load had left it. |
| `MigrationFiles.ScanExact` | migrator/migrator.go:60-65 | A deterministic scanner accepts exactly the language of the file name pattern, and a name splits into digits, name and direction in one way. |
| `MigrationFiles.ScanPrint` | migrator/migrator.go:60-65 | Printing parts and scanning gives them back. |
| `MigrationFiles.ParseFileNameExact` | migrator/migrator.go:471-486 | A file is a migration if and only if its base name is 8 to 14 digits, an underscore, a name, a direction and .sql; it then has that name, direction and file, and as version the value of the digits, which is below 10^14, so that parsing the number never fails. |
| `MigrationFiles.NameAlphabet` | migrator/migrator.go:60-65 | Names are made of letters, digits, underscores and dashes. |
| `MigrationRetries.RetryDuplicates` | migrator/migrator.go:437-467 | One Runner and one directory with any two migration files of different keys: while the second cannot be read the load fails and leaves the first; then the retry succeeds and holds the first twice. |
| `MigrationRetries.RetryCommitsTwice` | migrator/migrator.go:93-103 | The first Up of that Runner, with a database that answers every call, returns nil and commits the first migration twice. |
| `MigrationFiles.ParsePrinted` | migrator/migrator.go:471-486 | A name printed from digits, name and direction parses to a migration with that version, name and direction. |
| `MigrationFiles.BaseExact` | migrator/migrator.go:472-472 | The base of a path is its last element, whatever slashes follow; of a directory entry, the entry. |
| `Quoting.QuoteThenRead` | migrator/migrator.go:508-510 | Reading a quoted identifier with doubled quotes from pq(s) followed by any text that does not start with a quote gives s and that text. |
| `Quoting.ReadThenQuote` | migrator/migrator.go:508-510 | Whatever reads as an identifier is pq of it followed by the rest. |
| `Quoting.PqInjective` | migrator/migrator.go:508-510 | Distinct table names are quoted differently. |
| `AdvisoryLock.MutualExclusion` | migrator/migrator.go:354-371 | For Runners on distinct pools, on no interleaving of Ups and Downs, with failures, lost answers and dying processes, are two of them between lock and unlock, even if lock and unlock land on different sessions of a pool. |
| `AdvisoryLock.LockAlwaysHeld` | migrator/migrator.go:354-371 | After every such interleaving whoever is past the lock holds it in a session of its own pool. |
| `AdvisoryLock.ExclusionExactly` | migrator/migrator.go:354-371 | The lock excludes on every interleaving if and only if no two Runners share a pool: a session that has the lock can take it again. |
| `AdvisoryLock.LockRestoredExactly` | migrator/migrator.go:359-369 | A call leaves the lock as it found it if and only if it unlocks on the session that locked. |
| `AdvisoryLock.DeathExactly` | migrator/migrator.go:354-371 | A process may die at any point: its Runners are gone, the others and the log stay as they are, and if it held the lock, the lock is free to take. |
| `AdvisoryLock.MisplacedUnlockLeaks` | migrator/migrator.go:364-369 | Otherwise the lock stays with that pool while nobody is inside. |
| `AdvisoryLock.LeakShutsOthersOut` | migrator/migrator.go:364-369 | Then on every continuation in which that Runner does not act, nobody enters and nothing changes. |
| `AdvisoryLock.CommitsCounted` | migrator/migrator.go:81-139 | On every interleaving of Ups and Downs, with failures, lost answers and deaths: a version has been committed once if its row is there, once for each revert, once if a Runner is about to record it, and once for each time its record was given up. |
| `AdvisoryLock.CommittedOnce` | migrator/migrator.go:81-105 | So concurrent Ups that give up no record of a version commit it at most once, and once if it is recorded. |
| `AdvisoryLock.RunsThrough` | migrator/migrator.go:81-105 | A Runner that can take the lock and finds no changed checksum can record every pending migration and leave the lock as it was. |
| `LockedRuns.UpIsPlayed` | migrator/migrator.go:81-105 | Whatever the database answers an Up of the call-by-call engine, the same effects are left by one Runner of the interleaving model passing through the lock, which ends as it was. |
| `LockedRuns.DownIsPlayed` | migrator/migrator.go:107-139 | The same for a Down. |
| `SerialHistory.InterleavingsAreSerial` | migrator/migrator.go:81-139 | The converse: every interleaving of Runners on distinct pools leaves the log of a history in which call-by-call Ups and Downs run one after the other, Ups alone if nobody does a Down. |
| `SerialHistory.ConcurrentCrashSafety` | migrator/migrator.go:254-302 | So concurrent Ups of one set are crash safe: a prefix of the up versions is recorded, each was committed, and only the first pending version can be committed without being recorded. |
| `SerialHistory.ConcurrentPrefix` | migrator/migrator.go:81-139 | With concurrent Downs too, the table read back is the push history and holds the first versions of the set. |
| `SerialHistory.ConcurrentCommits` | migrator/migrator.go:81-139 | And a version has been committed once for its row, once for each revert and once for each gap, even if the clock stands still. |
| `TransactionFacts.WholePrograms` | txpostgres/txpostgres.go:31-136 | After every finite program of nested WithinTx, facade operations, handles closed and scanned in any order, anywhere, repeatedly or never, deferred calls, errors and panics, whatever each database call answers: exactly the connections that handles got and have not given back are in use, their number the difference of the two; none was released inside its transaction; and of each connection all writes are visible or none. |
| `TransactionFacts.ConnectionsExactly` | txpostgres/txpostgres.go:31-136 | Inside any surrounding program: in use are the connections from before that no handle had and those that handles now hold, so the same as before if and only if the same are held. |
| `TransactionFacts.HandleKeepsConnection` | txpostgres/txpostgres.go:108-131 | A connection held by a handle stays in use until the handle gives it back, and no longer, whatever else runs. |
| `TransactionFacts.ForgottenHandleLeaks` | txpostgres/txpostgres.go:80-131 | If the only variable that holds a pool handle is never closed or scanned again, its connection stays in use whatever runs. |
| `TransactionFacts.DisciplinedComesBack` | txpostgres/txpostgres.go:31-131 | Programs that close rows by a deferred call right after the query and scan rows right after theirs give every connection back, on every outcome. |
| `TransactionSteps.GiveBackOk` | txpostgres/txpostgres.go:117-131 | Giving back a connection, for the first time or again, ends no transaction and touches no other connection. |
| `TransactionSteps.RunOk` | txpostgres/txpostgres.go:31-131 | Induction behind both: what was visible stays visible, transactions of the caller stay open and private, and other connections are left alone. |
| `TransactionFacts.WithinTxAtomic` | txpostgres/txpostgres.go:31-51 | A WithinTx that returns nil makes all of its own writes visible; one whose body fails or panics returns just that and makes none visible; one that did not begin sent nothing. |
| `TransactionMeaning.RunsMean` | txpostgres/txpostgres.go:31-136 | What a program makes visible, what each enclosing transaction holds, what its handles are and how it ends is decided by its contexts and the replies alone: every run on connections shows the meaning of the program, in which each WithinTx has its own list of writes and there are no connections. |
| `TransactionMeaning.StatementsStay` | txpostgres/txpostgres.go:53-62 | Exec, Query and QueryRow with the context of a WithinTx are statements on its connection: they acquire none, and their writes are not visible. |
| `TransactionMeaning.OwnWritesTogether` | txpostgres/txpostgres.go:31-51 | A WithinTx whose statements all use its own context: nil makes exactly its writes that took effect visible, in order; a body that fails or panics leaves what is visible as it was. |
| `TransactionFacts.NestedIndependent` | txpostgres/txpostgres.go:31-51 | What a nested WithinTx made visible is not changed by anything that runs later or by how the outer transaction ends, and the outer one commits or rolls back as a whole on its own connection. |
| `TransactionSteps.EndingOk` | txpostgres/txpostgres.go:38-50 | Commit or deferred rollback, then release: no transaction open at the release, no other connection touched. |
| `TransactionSteps.FacadeOk` | txpostgres/txpostgres.go:69-78 | The facade's Exec takes one connection and gives it back, whether it works or not. |
| `TransactionSteps.BadReleaseCounted` | txpostgres/txpostgres.go:38-44 | A release counts as one inside a transaction exactly if it is. |
| `TxManager.Manager.constructor` | txpostgres/txpostgres.go:29-29 | A manager on an unused pool. |
| `TxManager.Manager.Acquire` | txpostgres/txpostgres.go:34-37 | Takes an unused connection, or fails without one. |
| `TxManager.Manager.Release` | txpostgres/txpostgres.go:38-38 | Gives a connection back, counting those still inside a transaction. |
| `TxManager.Manager.Begin` | txpostgres/txpostgres.go:40-43 | Opens a transaction or leaves the connection as it was. |
| `TxManager.Manager.ExecInTx` | txpostgres/txpostgres.go:55-60 | A statement on the transaction in the context. |
| `TxManager.Manager.ExecOnConn` | txpostgres/txpostgres.go:77-77 | A statement on a plain connection is visible at once. |
| `TxManager.Manager.Commit` | txpostgres/txpostgres.go:50-50 | Makes the transaction's writes visible and ends it, or leaves it open. |
| `TxManager.Manager.Rollback` | txpostgres/txpostgres.go:44-44 | Ends the transaction if it is still open. |
| `TxManager.Manager.Exec` | txpostgres/txpostgres.go:69-78 | Acquire, execute, release. |
| `TxManager.Manager.WithinTx` | txpostgres/txpostgres.go:31-51 | Acquire, begin, body, commit on success, deferred rollback and release, on every outcome of the body. |
| `TxManager.Manager.Query` | txpostgres/txpostgres.go:80-94 | Rows with the connection to give back, or a release when the query fails. |
| `TxManager.Manager.QueryRow` | txpostgres/txpostgres.go:96-106 | A row with the connection to give back, or with the error of getting none. |
| `TxManager.Manager.Close` | txpostgres/txpostgres.go:117-120 | Closing rows gives their connection back. |
| `TxManager.Manager.Scan` | txpostgres/txpostgres.go:128-136 | Scanning a row gives its connection back, whatever the scan returns; a row without one only reports the error. |
| `TxManager.Manager.Play` | txpostgres/txpostgres.go:55-131 | A whole program, the transaction in the context or the facade serving each operation. |
| `HealthStatus.FoldIsWorst` | health/health.go:150-173 | The fold over the results is the maximum of unhealthy, degraded, healthy and nothing, whatever their order. |
| `HealthStatus.FirstUnhealthyExact` | health/health.go:140-148 | The early exit is taken if and only if some result is unhealthy, and returns the first of them. |
| `HealthStatus.FoldMessages` | health/health.go:154-178 | After the early exit the reported messages are the non-empty messages of the degraded results, in order. |
| `HealthStatus.CountersExact` | health/health.go:88-102 | Each counter is positive exactly if its status was reported; the four sum to the number of results without those whose status is none of the constants. |
| `HealthStatus.CountersAgree` | health/health.go:104-114 | The counter rule gives the status of the fold, and unknown where the fold gives none. |
| `HealthStatus.CombinedIsWorst` | health/checkers.go:193-259 | A composite of at least one checker has the status of the worst result, an empty one is unknown. |
| `HealthStatus.CombinedMessage` | health/checkers.go:193-259 | A composite says the message of the first unhealthy result, or lists the non-empty messages of the degraded ones in order. |
| `HealthStatus.ResultsExact` | health/checkers.go:208-211 | It combines the results of its checkers, each in its place. |
| `HealthStatus.NestingIsFlat` | health/checkers.go:193-259 | A composite, however nested, has the status of one flat composite over its leaves if and only if it has a leaf or is itself empty. |
| `HealthStatus.LeafOrderIsFree` | health/checkers.go:193-259 | Two trees of non-empty composites with the same leaf results, in any order and nesting, have the same status. |
| `HealthStatus.CheckIsWorst` | health/checkers.go:205-244 | What a checker adds to a composite is the worst of its leaves; empty composites and unknown results add nothing. |
| `HealthStatus.RunCheck` | health/checkers.go:193-260 | The composite check with its early return and loops computes status and message of the specification. |
| `HealthStatus.FoldResults` | health/checkers.go:221-244 | The loop over the results computes the fold. |
| `HealthReports.OverallIsWorst` | health/health.go:125-185 | performChecks and a composite agree on every non-empty list; on the empty one the first says healthy and the second unknown. |
| `HealthReports.OverallExact` | health/health.go:125-185 | The first unhealthy result is returned as it is; otherwise the message lists the non-empty messages of the degraded results in order, and is empty without any. |
| `HealthReports.AskAllStops` | health/health.go:136-148 | Checkers are asked in order up to the first unhealthy one; none after it is called, and no other cache entry changes. |
| `HealthReports.UnregisteredIgnored` | health/health.go:125-185 | After any run, names without a checker take no early exit and make no difference to a report with others, nor to the manager; a report over such names only has no status. |
| `HealthReports.ReportsAreFixed` | health/health.go:125-185 | After any history of checkers that always answer the same, with caching on or off, a report over names is that of all their answers, the ones behind the early exit included, and its status the worst of them. |
| `HealthReports.DetailedExact` | health/health.go:76-122 | In whatever order the map of checkers is walked, and whatever the clock shows at each step, the detailed report has one entry per checker, each as if asked alone at its turn, and each counter is the number of entries with its status. |
| `HealthReports.FixedShown` | health/health.go:76-122 | With checkers that always answer the same it shows of each exactly that answer, whatever is cached. |
| `HealthReports.DetailedOrderIsFree` | health/health.go:80-82 | So for such checkers any two walks, at any clock readings, show the same statuses, messages, counters and overall status. |
| `HealthReports.AskedAlone` | health/health.go:88-90 | A check changes no other checker's cached result. |
| `HealthCache.CallsAreSpaced` | health/health.go:187-228 | With caching on and a clock that does not go back, the next Check of a name is decided at least CacheDuration after the timestamp of the one before. |
| `HealthCache.CalledWhenStale` | health/health.go:190-199 | A registered checker is called if and only if all its earlier results are at least CacheDuration old. |
| `HealthCache.WindowBound` | health/health.go:187-228 | Any window of length w sees at most w / CacheDuration + 1 calls of a checker. |
| `HealthCache.AnswersComeFromCalls` | health/health.go:187-228 | Every result for a registered name is what the checker registered at some step answered then, stamped with that step's time: the step is this check, or the latest call and less than CacheDuration old; across re-registration. |
| `HealthCache.CacheIsLatestCall` | health/health.go:220-225 | The cache holds for a name the answer of its latest call, and nothing if there was none or caching is off. |
| `HealthCache.UnregisteredIsUnknown` | health/health.go:206-212 | A name without a checker is answered with the status unknown and the message that names it, and changes nothing. |
| `HealthCache.CachingIsInvisible` | health/health.go:187-228 | If checkers always answer the same, any two cache configurations give the same status and message for every check of every run. |
| `HealthCache.CheckersAreRegistered` | health/health.go:42-47 | The checkers are those of the latest registration of each name. |
| `HealthManager.Manager.constructor` | health/health.go:34-40 | A new manager has no checkers and an empty cache. |
| `HealthManager.Manager.RegisterChecker` | health/health.go:42-47 | Replaces the checker of its name and keeps the cache. |
| `HealthManager.Manager.PerformCheck` | health/health.go:187-228 | Cache lookup, check and cache update change the manager and answer as specified. |
| `HealthManager.Manager.PerformChecks` | health/health.go:124-185 | Early return, loop and message are those of the specification, and so is the cache afterwards. |
| `HealthManager.Manager.GetDetailedHealth` | health/health.go:76-122 | The loop over the names, the counters and the rule over them compute the specified report. |
| `TraceContext.ParseExact` | middleware/trace/trace.go:87-109 | The parser accepts a string if and only if it has at most 200 bytes, its first 55 are a version-00 header with non-zero lower-case hex identifiers, and a dash follows if anything does; it returns the fields at their places (sections 3.2.2.1 to 3.2.2.5 of W3C Trace Context). |
| `Texts.JoinSplit` | middleware/trace/trace.go:92-92 | Joining the parts of a split gives the string back. |
| `Texts.SplitJoin` | middleware/trace/trace.go:92-92 | Splitting joined parts without the separator gives the parts back. |
| `Texts.TrimExact` | migrator/migrator.go:454-454 | Trimming takes exactly the space around a text away. |
| `TraceContext.ParseFormat` | middleware/trace/trace.go:111-117 | Parsing a formatted header gives trace ID, parent ID and flag back; any sampled byte but 1 is written as 0. |
| `TraceContext.FormatParse` | middleware/trace/trace.go:103-117 | Formatting what was parsed gives the first 55 characters back if and only if the flags were 00 or 01. |
| `TraceContext.FlagsExact` | middleware/trace/trace.go:103-107 | The flag returned is the sampled bit if and only if the flags are 00 or have that bit: other flags are reported as sampled. |
| `TraceContext.NewIDsAreValid` | middleware/trace/trace.go:119-136 | Whatever the random source returns, generated identifiers are valid. |
| `TraceContext.NewIDDigits` | middleware/trace/trace.go:119-136 | Two digits of an identifier are one random byte, in order; all zeros become 01 and zeros. |
| `TraceContext.NewIDsDiffer` | middleware/trace/trace.go:119-136 | Identifiers are equal if and only if their random bytes are, but for all zeros and that replacement. |
| `TraceContext.SpanIDsDiffer` | middleware/trace/trace.go:52-53 | So are the span IDs of any two requests, at any services and with any headers. |
| `TraceContext.HexAlphabet` | middleware/trace/trace.go:155-163 | The digits read and written are 0123456789abcdef. |
| `TraceContext.HexInjective` | middleware/trace/trace.go:126-126 | Different bytes have different texts. |
| `TraceContext.ChainKeepsTrace` | middleware/trace/trace.go:36-66 | Along any chain of services that send their header on, the trace ID is the one entered by the last service that does not trust its caller; with none, the one of the incoming header, or of the first service if that header is not acceptable. |
| `TraceContext.ServedHeader` | middleware/trace/trace.go:52-62 | Every header sent is canonical and parses to the trace, span and flag of its service. |
| `TraceContext.Sampled` | middleware/trace/trace.go:37-39 | The flag written is 0 or 1, and 0 only if sampling is switched off. |
| `TraceContext.IsLowerHex` | middleware/trace/trace.go:155-163 | The loop decides whether all characters are lower-case hex digits. |
| `TraceContext.IsAllZeroHex` | middleware/trace/trace.go:165-172 | The loop decides whether all characters are zeros. |
| `TraceContext.IsAllZero` | middleware/trace/trace.go:138-145 | The loop decides whether all bytes are zero. |
| `TraceContext.IsValidID` | middleware/trace/trace.go:147-153 | Length, digits and non-zero, for trace and span IDs. |
| `TraceContext.ParseTraceParent` | middleware/trace/trace.go:87-109 | Computes the parser of the specification. |
| `TraceContext.NewIdentifier` | middleware/trace/trace.go:119-136 | Fills an array, patches its first byte if all are zero, and encodes it. |
| `TraceContext.Handle` | middleware/trace/trace.go:40-65 | Trace ID, span ID and header for one request. |
| `ListQuery.OrderIsFree` | endpoints/list.go:55-100 | For any two orders in which the query map is walked: same limit, offset, search, filter keys and missing list, and the same values for each filter, each as often. |
| `ListQuery.FiltersOrderIsFree` | endpoints/list.go:74-88 | For any two orders in which the query map is walked, every filter is in both results or in neither, with the same values, each as often. |
| `ListQuery.OrderHiddenExactly` | endpoints/list.go:75-88 | The list of a filter is the same for every order of the walk if and only if the trimmed values of any two keys that feed it make the same list either way round. |
| `ListQuery.OneKeyHidesOrder` | endpoints/list.go:75-88 | So it is when at most one key feeds the filter with a value that is not blank. |
| `ListQuery.OrderShowsInLists` | endpoints/list.go:75-88 | An instance where it shows: a query with x and filter.x gives its two values in the order walked. |
| `ListQuery.CollectExact` | endpoints/list.go:74-88 | A filter is there if and only if an allowed key that feeds it has a non-blank value, and holds exactly the trimmed non-blank values of those keys, key after key. |
| `ListQuery.KeysStayTogether` | endpoints/list.go:198-214 | The values of one key stand together in the filter's list, in their own order. |
| `ListQuery.TargetExact` | endpoints/list.go:76-88 | A key feeds filter x if and only if it is not reserved and is filter[y] or filter.y with y non-empty and x its trimmed form, or is x and has neither form; so filter[] is a filter called filter[], and a blank y feeds the filter with the empty name. |
| `ListQuery.DestinationExact` | endpoints/list.go:190-196 | The values of a key go to its filter if and only if the allow-list has no name but empty ones, or has that name. |
| `ListQuery.FiltersAllowed` | endpoints/list.go:190-214 | Every filter is in a non-empty allow-list, and its list is not empty and holds no empty value. |
| `ListQuery.AtoiExact` | endpoints/list.go:146-155 | A text is read as a number if and only if it is an optional sign and digits, leading zeros allowed, of a value that fits an int. |
| `ListQuery.LimitExact` | endpoints/list.go:57-57 | The limit is the number that the parameter writes, or else the default, raised to 1 and cut to a positive MaxLimit. |
| `ListQuery.OffsetExact` | endpoints/list.go:157-166 | The offset is the number the text writes, signs and leading zeros included, and 0 for a negative one or for anything else. |
| `ListQuery.AtoiText` | endpoints/list.go:146-155 | Every int is read back from its decimal text. |
| `ListQuery.ParametersExact` | endpoints/list.go:55-64 | Limit and offset are those that the first values of limit and offset write, and the search text the first value of its parameter, by default search, without the space around it. |
| `ListQuery.TrimAllExact` | endpoints/list.go:202-209 | The values of a list are those of its parts, and of one value that value without the space around it, or none if it is blank. |
| `ListQuery.MissingExact` | endpoints/list.go:216-230 | The missing list depends only on which filters are there. |
| `ListQuery.MissingOf` | endpoints/list.go:216-230 | Missing are, in order, the required keys that are not empty and have no filter. |
| `ListQuery.TrimValues` | endpoints/list.go:202-209 | Trimmed values without the blank ones, in order. |
| `ListQuery.FindMissing` | endpoints/list.go:216-230 | Required non-empty keys without a filter, in order. |
| `ListQuery.AllowedKeys` | endpoints/list.go:66-72 | The allow-list without empty names. |
| `ListQuery.CollectFilters` | endpoints/list.go:74-88 | The loop over the query builds the filters of the specification. |
| `ListQuery.Parse` | endpoints/list.go:55-100 | The whole query, for any order of its map. |

## Left out

- SQL execution, pgx, database/sql, the file system, SHA-256, the random source and the wall clock: replaced by scripts, logs, values and parameters as described above.
- Float rounding: the token arithmetic and the seconds of Retry-After are exact here.
- Overflow of the time arithmetic: instants and durations are unbounded integers or reals, except the Retry-After duration.
- clientIP and other HTTP plumbing of the rate limiter and the trace middleware: the key, the incoming header and the outgoing one are values.
- The textual status report, logging and the text of errors: only whether a call returns nil, an error, panics or never returns is modelled.
- The ten-minute timeout of withLock and cancelled contexts: a call that is cut short is one that fails.
- Liveness of the advisory lock: an unlock may miss the session that locked, so progress is claimed only for a Runner that stays on one session (AdvisoryLock.RunsThrough).
- What several calls at once on one pool do to the log: the lock does not keep them apart (AdvisoryLock.ExclusionExactly).
- AdvisoryLock.CommitsCounted: with Downs it needs a clock that moves between records, since Runners with different migrations may otherwise revert a row that is not the latest; with one set SerialHistory.ConcurrentCommits does without.
- Statements that go on in the database after their process died, and sessions the pool closes on its own.
- Rows left open inside a transaction, statements after an error in a PostgreSQL transaction, contexts and rows of a transaction used after its end, and connection state that outlives a release.
- Loops and goroutines in the code that uses the transaction manager: programs are finite trees run by one goroutine.
- IsNoRows and AsPgError: library calls.
- Concurrent use of the health manager: checks and registrations run one at a time; two checks at once may both miss the cache.
- Health details, durations and the timeout handed to checkers: statuses, messages and timestamps are modelled.
- GetLiveness, GetReadiness and GetHealth: performChecks on the configured names.
- Built-in checkers (database, HTTP, custom): any checker is a function of time.
- NewListResponse, cloneFilters, First, Has and Raw: copies and look-ups of a parsed query.
- Bootstrap, routing, CORS, docs, specs, configuration, validation, logging adapters and the other middleware: they forward to libraries.
