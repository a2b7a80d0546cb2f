/**
 The migration engine of migrator/migrator.go as functions on values. The database is the log of
 the durable effects the engine has had on it; every call to it consumes one event of a script
 that says whether the call answers, fails, loses its answer or never returns.
 */
module Ledger {
  import opened Common

  datatype Migration =
    Migration(version: int, name: string, dir: string, file: string, sql: string, checksum: string)

  datatype Row = Row(version: int, name: string, checksum: string, appliedAt: int, success: bool)

  /** A committed up script, an upserted ledger row, a committed down script with its row deletion. */
  datatype Effect = Committed(m: Migration) | Recorded(row: Row) | Reverted(m: Migration)

  /**
   Done: the effect takes place and the caller is told. Failed: neither. Lost: the effect takes
   place but the caller sees an error. CrashBefore and CrashAfter: the process dies in the call,
   without or with the effect.
   */
  datatype Reply = Done | Failed | Lost | CrashBefore | CrashAfter

  /** tick is how far the database clock moves during the call. */
  datatype Event = Event(reply: Reply, tick: nat)

  datatype Db = Db(log: seq<Effect>, now: int, script: seq<Event>)

  datatype Status = Ok | Err | Panicked | Crashed

  // ------------------------------------------------------------------
  // The ledger table

  function Delete(rows: seq<Row>, version: int): seq<Row> {
    if rows == [] then []
    else Delete(rows[..|rows| - 1], version)
         + (if rows[|rows| - 1].version == version then [] else [rows[|rows| - 1]])
  }

  function Upsert(rows: seq<Row>, row: Row): seq<Row> {
    Delete(rows, row.version) + [row]
  }

  function TableStep(rows: seq<Row>, e: Effect): seq<Row> {
    match e
    case Committed(_) => rows
    case Recorded(row) => Upsert(rows, row)
    case Reverted(m) => Delete(rows, m.version)
  }

  /** The table a log leaves behind, in storage order. */
  function RowsOf(log: seq<Effect>): seq<Row> {
    if log == [] then [] else TableStep(RowsOf(log[..|log| - 1]), log[|log| - 1])
  }

  /** ORDER BY applied_at ASC, version ASC. */
  predicate RowLeq(a: Row, b: Row) {
    a.appliedAt < b.appliedAt || (a.appliedAt == b.appliedAt && a.version <= b.version)
  }

  function InsertRow(r: Row, s: seq<Row>): seq<Row> {
    if s == [] then [r]
    else if RowLeq(s[|s| - 1], r) then s + [r]
    else InsertRow(r, s[..|s| - 1]) + [s[|s| - 1]]
  }

  function OrderBy(rows: seq<Row>): seq<Row> {
    if rows == [] then [] else InsertRow(rows[|rows| - 1], OrderBy(rows[..|rows| - 1]))
  }

  function Successes(rows: seq<Row>): seq<Row> {
    if rows == [] then []
    else Successes(rows[..|rows| - 1]) + (if rows[|rows| - 1].success then [rows[|rows| - 1]] else [])
  }

  /** What loadApplied reads. */
  function LoadApplied(db: Db): seq<Row> {
    OrderBy(RowsOf(db.log))
  }

  // ------------------------------------------------------------------
  // Pending migrations

  /** The success rows by version, as pendingUp collects them. */
  function AppliedSet(rows: seq<Row>): map<int, Row> {
    if rows == [] then map[]
    else
      var r := rows[|rows| - 1];
      var before := AppliedSet(rows[..|rows| - 1]);
      if r.success then before[r.version := r] else before
  }

  predicate Mismatch(m: Migration, applied: map<int, Row>) {
    m.dir == "up" && m.version in applied && applied[m.version].checksum != m.checksum
  }

  predicate IsPending(m: Migration, applied: map<int, Row>) {
    m.dir == "up" && m.version !in applied
  }

  function Pending(ms: seq<Migration>, applied: map<int, Row>): seq<Migration> {
    if ms == [] then []
    else Pending(ms[..|ms| - 1], applied)
         + (if IsPending(ms[|ms| - 1], applied) then [ms[|ms| - 1]] else [])
  }

  function InsertMigration(m: Migration, s: seq<Migration>): seq<Migration> {
    if s == [] then [m]
    else if s[|s| - 1].version <= m.version then s + [m]
    else InsertMigration(m, s[..|s| - 1]) + [s[|s| - 1]]
  }

  function SortByVersion(ms: seq<Migration>): seq<Migration> {
    if ms == [] then [] else InsertMigration(ms[|ms| - 1], SortByVersion(ms[..|ms| - 1]))
  }

  /** None is the panic on a changed checksum. */
  function PendingUp(ms: seq<Migration>, rows: seq<Row>): Option<seq<Migration>> {
    var applied := AppliedSet(rows);
    if exists m | m in ms :: Mismatch(m, applied) then None
    else Some(SortByVersion(Pending(ms, applied)))
  }

  function Find(ms: seq<Migration>, version: int, dir: string): Option<Migration> {
    if ms == [] then None
    else if ms[0].version == version && ms[0].dir == dir then Some(ms[0])
    else Find(ms[1..], version, dir)
  }

  // ------------------------------------------------------------------
  // Calls to the database

  function Next(db: Db): Event {
    if db.script == [] then Event(CrashBefore, 0) else db.script[0]
  }

  predicate TakesEffect(r: Reply) {
    r.Done? || r.Lost? || r.CrashAfter?
  }

  function Told(r: Reply): Status {
    match r
    case Done => Ok
    case Failed => Err
    case Lost => Err
    case CrashBefore => Crashed
    case CrashAfter => Crashed
  }

  /** One call whose durable effect would be e; None is a call without one. */
  function Call(db: Db, e: Option<Effect>): (Db, Status) {
    var next := Next(db);
    (Db(if e.Some? && TakesEffect(next.reply) then db.log + [e.value] else db.log,
        db.now + next.tick,
        if db.script == [] then [] else db.script[1..]),
     Told(next.reply))
  }

  function RowFor(m: Migration, at: int, success: bool): Row {
    Row(m.version, m.name, m.checksum, at, success)
  }

  /** The upsert happens at the time the database's clock shows. */
  function Record(db: Db, m: Migration, success: bool): (Db, Status) {
    Call(db, Some(Recorded(RowFor(m, db.now + Next(db).tick, success))))
  }

  function NotOk(s: Status): Status {
    if s.Crashed? then Crashed else Err
  }

  function Rollback(db: Db): (Db, Status) {
    var (d, s) := Call(db, None);
    (d, NotOk(s))
  }

  function RecordFailure(db: Db, m: Migration): (Db, Status) {
    var (d, s) := Record(db, m, false);
    (d, NotOk(s))
  }

  function ApplyOne(db: Db, m: Migration): (Db, Status) {
    var (begun, s0) := Call(db, None);
    if !s0.Ok? then (begun, s0) else
    var (executed, s1) := Call(begun, None);
    if s1.Crashed? then (executed, s1) else
    if s1.Err? then
      var (rolledBack, s2) := Rollback(executed);
      if s2.Crashed? then (rolledBack, s2) else RecordFailure(rolledBack, m)
    else
      var (committed, s2) := Call(executed, Some(Committed(m)));
      if s2.Crashed? then (committed, s2)
      else if s2.Err? then RecordFailure(committed, m)
      else Record(committed, m, true)
  }

  function ApplyAll(db: Db, pending: seq<Migration>): (Db, Status)
    decreases |pending|
  {
    if pending == [] then (db, Ok)
    else
      var (d, s) := ApplyOne(db, pending[0]);
      if !s.Ok? then (d, s) else ApplyAll(d, pending[1..])
  }

  function CountVersion(rows: seq<Row>, version: int): nat {
    if rows == [] then 0
    else CountVersion(rows[..|rows| - 1], version) + (if rows[|rows| - 1].version == version then 1 else 0)
  }

  function DeleteRowAndCommit(db: Db, m: Migration): (Db, Status) {
    var (deleted, s0) := Call(db, None);
    if s0.Crashed? then (deleted, s0)
    else if s0.Err? || CountVersion(RowsOf(db.log), m.version) != 1 then Rollback(deleted)
    else Call(deleted, Some(Reverted(m)))
  }

  function RevertOne(db: Db, m: Migration): (Db, Status) {
    var (begun, s0) := Call(db, None);
    if !s0.Ok? then (begun, s0) else
    if TrimSpace(m.sql) == "" then DeleteRowAndCommit(begun, m) else
    var (executed, s1) := Call(begun, None);
    if s1.Crashed? then (executed, s1)
    else if s1.Err? then Rollback(executed)
    else DeleteRowAndCommit(executed, m)
  }

  /** The deferred unlock runs unless the process is dead. */
  function Unlock(db: Db, s: Status): (Db, Status) {
    if s.Crashed? then (db, s) else
    var (d, u) := Call(db, None);
    (d, if u.Crashed? then Crashed else s)
  }

  /** Everything Up does inside the lock; loaded is None when loading the migrations fails. */
  function UpLocked(db: Db, loaded: Option<seq<Migration>>): (Db, Status) {
    var (ensured, s0) := Call(db, None);
    if !s0.Ok? then (ensured, s0) else
    if loaded.None? then (ensured, Err) else
    var (selected, s1) := Call(ensured, None);
    if !s1.Ok? then (selected, s1) else
    match PendingUp(loaded.value, LoadApplied(ensured))
    case None => (selected, Panicked)
    case Some(pending) => ApplyAll(selected, pending)
  }

  function Up(db: Db, loaded: Option<seq<Migration>>): (Db, Status) {
    var (locked, s0) := Call(db, None);
    if !s0.Ok? then (locked, s0) else
    var (d, s) := UpLocked(locked, loaded);
    Unlock(d, s)
  }

  function DownLocked(db: Db, loaded: Option<seq<Migration>>): (Db, Status) {
    var (ensured, s0) := Call(db, None);
    if !s0.Ok? then (ensured, s0) else
    if loaded.None? then (ensured, Err) else
    var (selected, s1) := Call(ensured, None);
    if !s1.Ok? then (selected, s1) else
    var applied := Successes(LoadApplied(ensured));
    if applied == [] then (selected, Ok) else
    match Find(loaded.value, applied[|applied| - 1].version, "down")
    case None => (selected, Err)
    case Some(down) => RevertOne(selected, down)
  }

  function Down(db: Db, allowed: bool, loaded: Option<seq<Migration>>): (Db, Status) {
    if !allowed then (db, Err) else
    var (locked, s0) := Call(db, None);
    if !s0.Ok? then (locked, s0) else
    var (d, s) := DownLocked(locked, loaded);
    Unlock(d, s)
  }
}
