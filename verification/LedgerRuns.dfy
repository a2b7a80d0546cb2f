/**
 Whole runs of Up and Down against a database that may fail or crash in any call. Each run takes a
 reachable database to a reachable one: what an Up leaves is a trail of its pending list, so it pushes a
 first part of that list, and what a Down leaves is nothing or one revert of the top. The prefix and
 gap properties of one migration set are kept by every run.
 */
module LedgerRuns {
  import opened Common
  import opened Ledger
  import opened LedgerTable
  import opened LedgerLog
  import opened LedgerSteps

  /** One process: an Up or a Down with the migrations it loaded, if it could. */
  datatype Op = RunUp(loaded: Option<seq<Migration>>) | RunDown(allowed: bool, loaded: Option<seq<Migration>>)

  function Do(db: Db, op: Op): Db {
    match op
    case RunUp(loaded) => Up(db, loaded).0
    case RunDown(allowed, loaded) => Down(db, allowed, loaded).0
  }

  function Run(db: Db, ops: seq<Op>): Db {
    if ops == [] then db else Do(Run(db, ops[..|ops| - 1]), ops[|ops| - 1])
  }

  /** An empty ledger and any behaviour of the database. */
  function Start(script: seq<Event>): Db {
    Db([], 0, script)
  }

  /** A reachable database: strict if the clock moves, otherwise with an ascending stack. */
  ghost predicate Good(db: Db, strict: bool) {
    InTime(db, strict) && Disciplined(db.log) && (strict || Ascending(Versions(Stack(db.log))))
  }

  lemma Reads(db: Db, strict: bool)
    requires Good(db, strict)
    ensures Successes(LoadApplied(db)) == Stack(db.log)
  {
    ReadsStack(db.log, strict);
  }

  ghost predicate Loadable(op: Op) {
    op.loaded.Some? ==> UniqueSet(op.loaded.value)
  }

  /** What an Up with a pending list pushes and leaves. */
  ghost predicate UpEffect(log: seq<Effect>, ms: seq<Migration>, p: seq<Migration>, es: seq<Effect>, s: Status) {
    && Increasing(p)
    && (forall m :: m in p <==> m in ms && m.dir == "up" && !OnStack(log, m.version))
    && UpTrail(p, es) && PushedFor(Pushed(es), p)
    && (s.Ok? ==> |Pushed(es)| == |p|)
  }

  /** Pushes the first of the pending migrations, or nothing without a pending list. */
  ghost predicate UpResult(db: Db, loaded: Option<seq<Migration>>, es: seq<Effect>, s: Status) {
    var pending := PendingOf(db, loaded);
    if pending.None? then es == [] && !s.Ok? else UpEffect(db.log, loaded.value, pending.value, es, s)
  }

  lemma TrailResult(db: Db, loaded: Option<seq<Migration>>, es: seq<Effect>, s: Status, strict: bool)
    requires Good(db, strict) && Loadable(RunUp(loaded)) && UpLeaves(PendingOf(db, loaded), es, s)
    ensures UpResult(db, loaded, es, s)
    ensures Disciplined(db.log + es) && Stack(db.log + es) == Stack(db.log) + Pushed(es)
  {
    hide Stack, UpTrail, Pushed, LoadApplied, Timely, UniqueSet;
    var pending := PendingOf(db, loaded);
    if pending.None? {
      PushedNone(es);
      StackGrows(db.log, es);
      assert db.log + es == db.log;
    } else {
      hide PendingUp, Disciplined, Increasing;
      PendingNow(db, loaded.value, pending.value, strict);
      TrailEffect(db.log, pending.value, es);
    }
  }

  /** Up keeps every success row and pushes the first of the pending migrations in ascending order. */
  lemma UpPushes(db: Db, loaded: Option<seq<Migration>>, strict: bool) returns (es: seq<Effect>)
    requires Good(db, strict) && Loadable(RunUp(loaded))
    ensures var (d, s) := Up(db, loaded);
            && d.log == db.log + es && InTime(d, strict) && Disciplined(d.log)
            && Stack(d.log) == Stack(db.log) + Pushed(es)
            && UpResult(db, loaded, es, s)
  {
    es := UpLeft(db, loaded, strict);
    hide Up, Stack, Pushed, Disciplined, InTime, UpResult, UpLeaves, PendingOf, UniqueSet, Loadable;
    TrailResult(db, loaded, es, Up(db, loaded).1, strict);
  }

  lemma PendingNow(db: Db, ms: seq<Migration>, p: seq<Migration>, strict: bool)
    requires Good(db, strict) && UniqueSet(ms) && PendingUp(ms, LoadApplied(db)) == Some(p)
    ensures Increasing(p) && forall m :: m in p <==> m in ms && m.dir == "up" && !OnStack(db.log, m.version)
  {
    Reads(db, strict);
    PendingExact(ms, LoadApplied(db));
  }

  lemma TrailEffect(log: seq<Effect>, p: seq<Migration>, es: seq<Effect>)
    requires Disciplined(log) && Increasing(p) && UpTrail(p, es)
    requires forall m | m in p :: !OnStack(log, m.version)
    ensures Disciplined(log + es) && Stack(log + es) == Stack(log) + Pushed(es) && PushedFor(Pushed(es), p)
  {
    TrailCommits(p, es);
    TrailPushes(p, es);
    TrailDisciplined(log, p, es);
    hide UpTrail, Pushed, Stack, Disciplined;
    StackGrows(log, es);
  }

  /** Pops the top with the down migration of its version, or leaves everything as it was. */
  ghost predicate DownResult(log: seq<Effect>, loaded: Option<seq<Migration>>, log': seq<Effect>, s: Status) {
    var stack := Stack(log);
    || (log' == log && (s.Ok? ==> stack == []))
    || (&& loaded.Some? && stack != [] && Stack(log') == stack[..|stack| - 1]
        && var down := Find(loaded.value, stack[|stack| - 1].version, "down");
           down.Some? && log' == log + [Reverted(down.value)])
  }

  lemma RevertResult(log: seq<Effect>, loaded: Option<seq<Migration>>, log': seq<Effect>, s: Status)
    requires Disciplined(log)
    requires var stack := Stack(log);
             || (log' == log && (s.Ok? ==> stack == []))
             || (&& loaded.Some? && stack != []
                 && var down := Find(loaded.value, stack[|stack| - 1].version, "down");
                    down.Some? && log' == log + [Reverted(down.value)])
    ensures DownResult(log, loaded, log', s) && Disciplined(log')
  {
    if log' != log {
      var version := Stack(log)[|Stack(log)| - 1].version;
      var down := Find(loaded.value, version, "down");
      FindMeaning(loaded.value, version, "down");
      hide Find, Stack, Disciplined, RowsOf;
      Snoc(log, Reverted(down.value));
    }
  }

  /** Down pops the top of the stack, whole, or changes nothing. */
  lemma DownPops(db: Db, allowed: bool, loaded: Option<seq<Migration>>, strict: bool)
    requires Good(db, strict)
    ensures var (d, s) := Down(db, allowed, loaded);
            InTime(d, strict) && Disciplined(d.log) && DownResult(db.log, loaded, d.log, s)
  {
    Reads(db, strict);
    DownLeft(db, allowed, loaded, strict);
    hide Down, Find, InTime, LoadApplied, Disciplined, Stack, RowsOf, DownResult;
    var (d, s) := Down(db, allowed, loaded);
    RevertResult(db.log, loaded, d.log, s);
  }

  // ------------------------------------------------------------------
  // The ledger refines a stack

  lemma {:induction false} RunsAreGood(script: seq<Event>, ops: seq<Op>)
    requires forall e | e in script :: e.tick > 0
    requires forall op | op in ops :: Loadable(op)
    ensures Good(Run(Start(script), ops), true)
  {
    if ops != [] {
      var init, op := ops[..|ops| - 1], ops[|ops| - 1];
      assert ops == init + [op];
      RunsAreGood(script, init);
      match op
      case RunUp(loaded) => var _ := UpPushes(Run(Start(script), init), loaded, true);
      case RunDown(allowed, loaded) => DownPops(Run(Start(script), init), allowed, loaded, true);
    }
  }

  // ------------------------------------------------------------------
  // A fixed migration set

  /** The versions of a set's up migrations, ascending. */
  function UpVersions(ms: seq<Migration>): seq<int> {
    MigrationVersions(SortByVersion(Pending(ms, map[])))
  }

  lemma UpVersionsMeaning(ms: seq<Migration>)
    requires UniqueSet(ms)
    ensures Ascending(UpVersions(ms))
    ensures forall v :: v in UpVersions(ms) <==> exists m :: m in ms && m.dir == "up" && m.version == v
  {
    PendingMembers(ms, map[]);
    var sorted := SortByVersion(Pending(ms, map[]));
    SortByVersionSorts(Pending(ms, map[]));
    forall m | m in ms && m.dir == "up" ensures m.version in UpVersions(ms) {
      assert IsPending(m, map[]) && m in sorted;
      VersionOf(sorted, m);
    }
    forall v | v in UpVersions(ms) ensures exists m :: m in ms && m.dir == "up" && m.version == v {
      var i :| 0 <= i < |sorted| && UpVersions(ms)[i] == v;
      assert sorted[i] in sorted && IsPending(sorted[i], map[]);
    }
  }

  lemma VersionOf(ms: seq<Migration>, m: Migration)
    requires m in ms
    ensures m.version in MigrationVersions(ms)
  {
    var i :| 0 <= i < |ms| && ms[i] == m;
    assert MigrationVersions(ms)[i] == m.version;
  }

  /** The stack holds the first versions of the set. */
  ghost predicate AtPrefix(ms: seq<Migration>, log: seq<Effect>) {
    |Stack(log)| <= |UpVersions(ms)| && Versions(Stack(log)) == UpVersions(ms)[..|Stack(log)|]
  }

  /** Pending is then the rest of the set. */
  lemma PendingIsRest(ms: seq<Migration>, log: seq<Effect>, p: seq<Migration>)
    requires UniqueSet(ms) && AtPrefix(ms, log) && Increasing(p)
    requires forall m :: m in p <==> m in ms && m.dir == "up" && !OnStack(log, m.version)
    ensures MigrationVersions(p) == UpVersions(ms)[|Stack(log)|..]
  {
    var vs, k := UpVersions(ms), |Stack(log)|;
    UpVersionsMeaning(ms);
    hide UpVersions;
    assert vs == vs[..k] + vs[k..];
    forall v | v in MigrationVersions(p) ensures v in vs[k..] {
      var i :| 0 <= i < |p| && MigrationVersions(p)[i] == v;
      assert p[i] in p && v in vs;
    }
    forall v | v in vs[k..] ensures v in MigrationVersions(p) {
      NotBoth(vs, k, v);
      assert v in vs;
      var m :| m in ms && m.dir == "up" && m.version == v;
      VersionOf(p, m);
    }
    AscendingUnique(MigrationVersions(p), vs[k..]);
  }

  lemma NotBoth(vs: seq<int>, k: nat, v: int)
    requires Ascending(vs) && k <= |vs| && v in vs[k..]
    ensures v in vs && v !in vs[..k]
  {
    var i :| 0 <= i < |vs[k..]| && vs[k..][i] == v;
    assert vs[k + i] == v;
  }

  ghost predicate Uses(op: Op, ms: seq<Migration>) {
    op.loaded.Some? ==> op.loaded.value == ms
  }

  lemma PrefixAscends(ms: seq<Migration>, log: seq<Effect>)
    requires UniqueSet(ms) && AtPrefix(ms, log)
    ensures Ascending(Versions(Stack(log)))
  {
    UpVersionsMeaning(ms);
  }

  lemma FixedUp(ms: seq<Migration>, db: Db, loaded: Option<seq<Migration>>)
    returns (es: seq<Effect>, p: seq<Migration>)
    requires UniqueSet(ms) && Good(db, false) && AtPrefix(ms, db.log) && Uses(RunUp(loaded), ms)
    ensures var d := Up(db, loaded).0;
            && Good(d, false) && AtPrefix(ms, d.log)
            && d.log == db.log + es && Stack(d.log) == Stack(db.log) + Pushed(es)
    ensures es != [] ==> UpTrail(p, es) && MigrationVersions(p) == UpVersions(ms)[|Stack(db.log)|..]
  {
    es := UpPushes(db, loaded, false);
    p := [];
    hide Up, UpTrail;
    if PendingOf(db, loaded).Some? {
      p := PendingOf(db, loaded).value;
      PendingIsRest(ms, db.log, p);
      PushedPrefix(ms, db.log, p, Pushed(es));
    }
    PrefixAscends(ms, Up(db, loaded).0.log);
  }

  lemma PushedPrefix(ms: seq<Migration>, log: seq<Effect>, p: seq<Migration>, rows: seq<Row>)
    requires AtPrefix(ms, log) && PushedFor(rows, p)
    requires MigrationVersions(p) == UpVersions(ms)[|Stack(log)|..]
    ensures |Stack(log)| + |rows| <= |UpVersions(ms)|
    ensures Versions(Stack(log) + rows) == UpVersions(ms)[..|Stack(log)| + |rows|]
  {
    hide UpVersions, Stack;
    var vs, k := UpVersions(ms), |Stack(log)|;
    forall i | 0 <= i < |rows| ensures rows[i].version == vs[k + i] {
      assert MigrationVersions(p)[i] == vs[k..][i];
    }
    forall i | 0 <= i < k ensures Stack(log)[i].version == vs[i] {
      assert Versions(Stack(log))[i] == vs[..k][i];
    }
  }

  lemma FixedDown(ms: seq<Migration>, db: Db, allowed: bool, loaded: Option<seq<Migration>>)
    requires UniqueSet(ms) && Good(db, false) && AtPrefix(ms, db.log)
    ensures Good(Down(db, allowed, loaded).0, false) && AtPrefix(ms, Down(db, allowed, loaded).0.log)
  {
    DownPops(db, allowed, loaded, false);
    var d := Down(db, allowed, loaded).0;
    if d.log != db.log {
      assert Versions(Stack(d.log)) == Versions(Stack(db.log))[..|Stack(d.log)|];
    }
    PrefixAscends(ms, d.log);
  }

  lemma {:induction false} FixedRuns(script: seq<Event>, ms: seq<Migration>, ops: seq<Op>)
    requires UniqueSet(ms) && forall op | op in ops :: Uses(op, ms)
    ensures Good(Run(Start(script), ops), false) && AtPrefix(ms, Run(Start(script), ops).log)
  {
    if ops != [] {
      var init, op := ops[..|ops| - 1], ops[|ops| - 1];
      assert ops == init + [op];
      FixedRuns(script, ms, init);
      match op
      case RunUp(loaded) => var _, _ := FixedUp(ms, Run(Start(script), init), loaded);
      case RunDown(allowed, loaded) => FixedDown(ms, Run(Start(script), init), allowed, loaded);
    }
  }

  /** Every recorded version was committed; no other committed version but the first pending one. */
  ghost predicate OneGap(ms: seq<Migration>, log: seq<Effect>) {
    var vs, k := UpVersions(ms), |Stack(log)|;
    && (forall i | 0 <= i < k && i < |vs| :: CommittedVersion(log, vs[i]))
    && (forall m | Committed(m) in log :: Below(vs, k + 1, m.version))
  }

  ghost predicate CommittedVersion(log: seq<Effect>, v: int) {
    exists m :: Committed(m) in log && m.version == v
  }

  /** A trail over the rest of the set, seen from the set's versions. */
  lemma TrailOverRest(vs: seq<int>, k: nat, p: seq<Migration>, es: seq<Effect>)
    requires k <= |vs| && UpTrail(p, es) && MigrationVersions(p) == vs[k..]
    ensures k + |Pushed(es)| <= |vs|
    ensures forall i | k <= i < k + |Pushed(es)| :: CommittedVersion(es, vs[i])
    ensures forall m | Committed(m) in es :: Below(vs, k + |Pushed(es)| + 1, m.version)
  {
    hide UpTrail, Pushed, MigrationVersions;
    TrailCommits(p, es);
    var n := |Pushed(es)|;
    forall i | 0 <= i < |p| ensures p[i].version == vs[k + i] {
      assert MigrationVersions(p)[i] == vs[k..][i];
    }
    forall i | k <= i < k + n ensures CommittedVersion(es, vs[i]) {
      assert Committed(p[i - k]) in es;
    }
    forall m | Committed(m) in es ensures Below(vs, k + n + 1, m.version) {
      var last := if n < |p| then n + 1 else |p|;
      var i :| 0 <= i < last && p[..last][i] == m;
      assert vs[k + i] == m.version;
    }
  }

  /** v is one of the first n versions. */
  ghost predicate Below(vs: seq<int>, n: nat, v: int) {
    exists i :: 0 <= i < n && i < |vs| && vs[i] == v
  }

  lemma OneGapStep(ms: seq<Migration>, log: seq<Effect>, es: seq<Effect>, p: seq<Migration>)
    requires AtPrefix(ms, log) && OneGap(ms, log) && UpTrail(p, es)
    requires MigrationVersions(p) == UpVersions(ms)[|Stack(log)|..]
    requires Stack(log + es) == Stack(log) + Pushed(es)
    ensures OneGap(ms, log + es)
  {
    var vs, k, n := UpVersions(ms), |Stack(log)|, |Pushed(es)|;
    TrailOverRest(vs, k, p, es);
    hide UpVersions, UpTrail, Stack, Pushed, MigrationVersions;
    forall i | 0 <= i < k + n && i < |vs| ensures CommittedVersion(log + es, vs[i]) {
      var source := if i < k then log else es;
      assert CommittedVersion(source, vs[i]);
      var m :| Committed(m) in source && m.version == vs[i];
      assert Committed(m) in log + es;
    }
    forall m | Committed(m) in log + es ensures Below(vs, k + n + 1, m.version) {
      if Committed(m) in log {
        assert Below(vs, k + 1, m.version);
      }
    }
  }

  lemma OneGapUp(ms: seq<Migration>, db: Db, loaded: Option<seq<Migration>>)
    requires UniqueSet(ms) && Good(db, false) && AtPrefix(ms, db.log) && Uses(RunUp(loaded), ms)
    requires OneGap(ms, db.log)
    ensures OneGap(ms, Up(db, loaded).0.log)
  {
    var es, p := FixedUp(ms, db, loaded);
    hide Up, AtPrefix, OneGap, UpTrail, Stack, Pushed, UpVersions, Good, UniqueSet;
    if es != [] {
      OneGapStep(ms, db.log, es, p);
    } else {
      assert db.log + es == db.log;
    }
  }

  lemma OneGapNone(ms: seq<Migration>)
    ensures OneGap(ms, [])
  {
  }

  lemma {:induction false} OneGapRuns(script: seq<Event>, ms: seq<Migration>, ops: seq<Op>)
    requires UniqueSet(ms) && forall op | op in ops :: op.RunUp? && Uses(op, ms)
    ensures OneGap(ms, Run(Start(script), ops).log)
  {
    hide Good, AtPrefix, UniqueSet, Up, Down, OneGap;
    if ops == [] {
      OneGapNone(ms);
    } else {
      var init, op := ops[..|ops| - 1], ops[|ops| - 1];
      assert ops == init + [op] && op in ops && op == RunUp(op.loaded);
      OneGapRuns(script, ms, init);
      FixedRuns(script, ms, init);
      OneGapUp(ms, Run(Start(script), init), op.loaded);
    }
  }
}
