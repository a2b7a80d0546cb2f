/**
 What Up and Down do to the schema, when they complete, and what a second Up does. A down script undoes
 its up script if running both changes nothing; then the schema is the fold of the up scripts behind
 the success rows as long as every commit has its record.
 */
module LedgerUndo {
  import opened Common
  import opened Ledger
  import opened LedgerTable
  import opened LedgerLog
  import opened LedgerSteps
  import opened LedgerRuns

  // ------------------------------------------------------------------
  // Completion

  /** The next n calls all succeed. */
  predicate AllDone(db: Db, n: nat) {
    |db.script| >= n && forall i | 0 <= i < n :: db.script[i].reply.Done?
  }

  lemma CallDone(db: Db, e: Option<Effect>, n: nat)
    requires AllDone(db, n) && n > 0
    ensures Call(db, e).1.Ok? && AllDone(Call(db, e).0, n - 1)
  {
  }

  lemma ApplyOneCompletes(db: Db, m: Migration, n: nat)
    requires AllDone(db, n) && n >= 4
    ensures ApplyOne(db, m).1.Ok? && AllDone(ApplyOne(db, m).0, n - 4)
  {
    hide AllDone, Call;
    CallDone(db, None, n);
    var begun := Call(db, None).0;
    CallDone(begun, None, n - 1);
    var executed := Call(begun, None).0;
    CallDone(executed, Some(Committed(m)), n - 2);
    var committed := Call(executed, Some(Committed(m))).0;
    CallDone(committed, Some(Recorded(RowFor(m, committed.now + Next(committed).tick, true))), n - 3);
  }

  /** A script that fails leaves a failure row and nothing else, if the database still answers. */
  lemma FailureIsRecorded(db: Db, m: Migration)
    requires |db.script| >= 4 && db.script[0].reply.Done? && Told(db.script[1].reply).Err?
    requires !Told(db.script[2].reply).Crashed? && TakesEffect(db.script[3].reply)
    ensures var (d, s) := ApplyOne(db, m);
            && !s.Ok? && |d.log| == |db.log| + 1 && db.log <= d.log && IsRecord(d.log[|db.log|], m, false)
            && RowsOf(d.log) == Upsert(RowsOf(db.log), d.log[|db.log|].row)
  {
    hide RowsOf, TableStep, Upsert;
    var begun := Call(db, None).0;
    var executed := Call(begun, None).0;
    var rolledBack := Call(executed, None).0;
    assert rolledBack.log == db.log && rolledBack.script == db.script[3..];
    var d := Record(rolledBack, m, false).0;
    RowSnoc(db.log, RowFor(m, rolledBack.now + Next(rolledBack).tick, false));
  }

  lemma RowSnoc(log: seq<Effect>, row: Row)
    ensures RowsOf(log + [Recorded(row)]) == Upsert(RowsOf(log), row)
  {
    Snoc(log, Recorded(row));
  }

  /** So does a commit that fails; one whose answer is lost took place all the same. */
  lemma FailedCommitIsRecorded(db: Db, m: Migration)
    requires |db.script| >= 4 && db.script[0].reply.Done? && db.script[1].reply.Done?
    requires Told(db.script[2].reply).Err? && TakesEffect(db.script[3].reply)
    ensures var (d, s) := ApplyOne(db, m);
            var kept := if db.script[2].reply.Lost? then db.log + [Committed(m)] else db.log;
            !s.Ok? && |d.log| == |kept| + 1 && kept <= d.log && IsRecord(d.log[|kept|], m, false)
  {
    var begun := Call(db, None).0;
    var executed := Call(begun, None).0;
    assert executed.log == db.log && executed.script == db.script[2..];
    var committed := Call(executed, Some(Committed(m))).0;
    assert committed.script == db.script[3..];
  }

  lemma {:induction false} ApplyAllCompletes(db: Db, p: seq<Migration>, n: nat)
    requires AllDone(db, n) && n >= 4 * |p|
    ensures ApplyAll(db, p).1.Ok? && AllDone(ApplyAll(db, p).0, n - 4 * |p|)
    decreases |p|
  {
    if p != [] {
      ApplyOneCompletes(db, p[0], n);
      ApplyAllCompletes(ApplyOne(db, p[0]).0, p[1..], n - 4);
    }
  }

  /** When every call succeeds and no checksum changed, Up returns without an error. */
  lemma UpCompletes(db: Db, ms: seq<Migration>)
    requires PendingUp(ms, LoadApplied(db)).Some?
    requires AllDone(db, 4 + 4 * |PendingUp(ms, LoadApplied(db)).value|)
    ensures Up(db, Some(ms)).1.Ok?
  {
    var p := PendingUp(ms, LoadApplied(db)).value;
    hide AllDone, Call, ApplyAll, PendingUp;
    var n := 4 + 4 * |p|;
    CallDone(db, None, n);
    var locked := Call(db, None).0;
    CallDone(locked, None, n - 1);
    var ensured := Call(locked, None).0;
    CallDone(ensured, None, n - 2);
    var selected := Call(ensured, None).0;
    SameLog(db, locked, ensured);
    ApplyAllCompletes(selected, p, n - 3);
    CallDone(ApplyAll(selected, p).0, None, 1);
  }

  lemma SameLog(db: Db, locked: Db, ensured: Db)
    requires locked == Call(db, None).0 && ensured == Call(locked, None).0
    ensures LoadApplied(ensured) == LoadApplied(db)
  {
  }

  lemma RevertCompletes(db: Db, m: Migration, n: nat)
    requires AllDone(db, n) && n >= 4 && CountVersion(RowsOf(db.log), m.version) == 1
    ensures var (d, s) := RevertOne(db, m);
            s.Ok? && d.log == db.log + [Reverted(m)] && AllDone(d, n - 4)
  {
    CallDone(db, None, n);
    var begun := Call(db, None).0;
    CallDone(begun, None, n - 1);
    var executed := if TrimSpace(m.sql) == "" then begun else Call(begun, None).0;
    CallDone(executed, None, n - 2);
    CallDone(Call(executed, None).0, Some(Reverted(m)), n - 3);
    hide TrimSpace, CountVersion, RowsOf;
  }

  lemma DownLockedCompletes(db: Db, ms: seq<Migration>, m: Migration, n: nat)
    requires AllDone(db, n) && n >= 6 && CountVersion(RowsOf(db.log), m.version) == 1
    requires var applied := Successes(LoadApplied(db));
             applied != [] && Find(ms, applied[|applied| - 1].version, "down") == Some(m)
    ensures var (d, s) := DownLocked(db, Some(ms));
            s.Ok? && d.log == db.log + [Reverted(m)] && AllDone(d, n - 6)
  {
    hide AllDone, Find, CountVersion, RowsOf, RevertOne, Successes, OrderBy;
    CallDone(db, None, n);
    var ensured := Call(db, None).0;
    CallDone(ensured, None, n - 1);
    RevertCompletes(Call(ensured, None).0, m, n - 2);
  }

  /** When every call succeeds and the top has a down migration, Down reverts it: its row is there. */
  lemma DownCompletes(db: Db, ms: seq<Migration>, strict: bool)
    requires Good(db, strict) && Stack(db.log) != [] && AllDone(db, 8)
    requires Find(ms, Stack(db.log)[|Stack(db.log)| - 1].version, "down").Some?
    ensures Down(db, true, Some(ms)).1.Ok?
    ensures Down(db, true, Some(ms)).0.log
            == db.log + [Reverted(Find(ms, Stack(db.log)[|Stack(db.log)| - 1].version, "down").value)]
  {
    var version := Stack(db.log)[|Stack(db.log)| - 1].version;
    var m := Find(ms, version, "down").value;
    Reads(db, strict);
    FindMeaning(ms, version, "down");
    TableIsStack(db.log);
    TableKeyed(db.log);
    DeleteTop(RowsOf(db.log), version);
    hide AllDone, Find, CountVersion, RowsOf, Stack, Successes, OrderBy, DownLocked, Good;
    CallDone(db, None, 8);
    DownLockedCompletes(Call(db, None).0, ms, m, 7);
    CallDone(DownLocked(Call(db, None).0, Some(ms)).0, None, 1);
  }

  // ------------------------------------------------------------------
  // The schema

  /** The schema after a log, for any meaning f of a script as a change of schema. */
  ghost function Schema<S>(f: (S, Migration) -> S, s: S, log: seq<Effect>): S {
    if log == [] then s
    else
      var before := Schema(f, s, log[..|log| - 1]);
      match log[|log| - 1]
      case Committed(m) => f(before, m)
      case Recorded(_) => before
      case Reverted(m) => f(before, m)
  }

  ghost function FoldUps<S>(f: (S, Migration) -> S, s: S, ups: seq<Migration>): S {
    if ups == [] then s else f(FoldUps(f, s, ups[..|ups| - 1]), ups[|ups| - 1])
  }

  /** The up migrations behind the rows of the stack, bottom to top. */
  ghost function Ups(log: seq<Effect>): seq<Migration> {
    if log == [] then []
    else
      var init := log[..|log| - 1];
      if IsPush(log[|log| - 1]) && EndsInCommit(init) then Ups(init) + [init[|init| - 1].m]
      else if log[|log| - 1].Reverted? && Ups(init) != [] then Ups(init)[..|Ups(init)| - 1]
      else Ups(init)
  }

  predicate EndsInCommit(log: seq<Effect>) {
    log != [] && log[|log| - 1].Committed?
  }

  /** Every success record directly follows the commit it records. */
  ghost predicate Paired(log: seq<Effect>) {
    forall i | 0 <= i < |log| && IsPush(log[i]) ::
      i > 0 && log[i - 1].Committed? && log[i - 1].m.version == log[i].row.version
  }

  /** No failure falls between a commit and its record, except perhaps after the last effect. */
  ghost predicate NoGapInside(log: seq<Effect>) {
    forall i | 0 <= i < |log| - 1 && log[i].Committed? :: IsPush(log[i + 1])
  }

  ghost predicate GapFree(log: seq<Effect>) {
    NoGapInside(log) && !EndsInCommit(log)
  }

  /** Every reverted down script undoes every committed up script of its version. */
  ghost predicate Inverts<S(!new)>(f: (S, Migration) -> S, log: seq<Effect>) {
    forall u, d, s | Committed(u) in log && Reverted(d) in log && u.version == d.version :: f(f(s, u), d) == s
  }

  lemma {:induction false} UpsMatchStack(log: seq<Effect>)
    requires Paired(log)
    ensures MigrationVersions(Ups(log)) == Versions(Stack(log))
    ensures forall u | u in Ups(log) :: Committed(u) in log
  {
    hide Paired, Ups, Stack, MigrationVersions, Versions;
    if log == [] {
      NothingToMatch();
    } else {
      var init, e := log[..|log| - 1], log[|log| - 1];
      assert log == init + [e];
      PairedBefore(log);
      UpsMatchStack(init);
      UpsMatchSnoc(init, e);
    }
  }

  lemma NothingToMatch()
    ensures Ups([]) == [] && MigrationVersions(Ups([])) == Versions(Stack([]))
  {
  }

  lemma PairedBefore(log: seq<Effect>)
    requires log != [] && Paired(log)
    ensures Paired(log[..|log| - 1])
    ensures IsPush(log[|log| - 1]) ==>
              EndsInCommit(log[..|log| - 1]) && log[|log| - 2].m.version == log[|log| - 1].row.version
  {
    var init := log[..|log| - 1];
    forall i | 0 <= i < |init| ensures init[i] == log[i] {}
  }

  lemma UpsMatchSnoc(init: seq<Effect>, e: Effect)
    requires MigrationVersions(Ups(init)) == Versions(Stack(init))
    requires forall u | u in Ups(init) :: Committed(u) in init
    requires IsPush(e) ==> EndsInCommit(init) && init[|init| - 1].m.version == e.row.version
    ensures MigrationVersions(Ups(init + [e])) == Versions(Stack(init + [e]))
    ensures forall u | u in Ups(init + [e]) :: Committed(u) in init + [e]
  {
    hide MigrationVersions, Versions, Ups, Stack;
    Snoc(init, e);
    UpsSnoc(init, e);
    if IsPush(e) {
      assert init[|init| - 1] == Committed(init[|init| - 1].m);
    }
  }

  lemma UpsSnoc(init: seq<Effect>, e: Effect)
    ensures Ups(init + [e]) ==
            if IsPush(e) && EndsInCommit(init) then Ups(init) + [init[|init| - 1].m]
            else if e.Reverted? && Ups(init) != [] then Ups(init)[..|Ups(init)| - 1]
            else Ups(init)
  {
    assert (init + [e])[..|init|] == init;
  }

  lemma InvertsInit<S(!new)>(f: (S, Migration) -> S, log: seq<Effect>)
    requires log != [] && Inverts(f, log)
    ensures Inverts(f, log[..|log| - 1])
  {
    assert log == log[..|log| - 1] + [log[|log| - 1]];
  }

  lemma PairedInit(log: seq<Effect>)
    requires log != [] && Paired(log) && NoGapInside(log)
    ensures Paired(log[..|log| - 1]) && NoGapInside(log[..|log| - 1])
    ensures EndsInCommit(log[..|log| - 1]) <==> IsPush(log[|log| - 1])
  {
    var init := log[..|log| - 1];
    forall i | 0 <= i < |init| ensures init[i] == log[i] {}
    if IsPush(log[|log| - 1]) {
      assert log[|log| - 2] == init[|init| - 1];
    }
  }

  /** Without gaps the schema is the fold of the recorded up scripts, plus a commit not yet recorded. */
  lemma {:induction false} SchemaIsFold<S(!new)>(f: (S, Migration) -> S, s: S, log: seq<Effect>)
    requires Disciplined(log) && Paired(log) && NoGapInside(log) && Inverts(f, log)
    ensures Schema(f, s, log) == if EndsInCommit(log) then f(FoldUps(f, s, Ups(log)), log[|log| - 1].m)
                                 else FoldUps(f, s, Ups(log))
  {
    if log != [] {
      var init, e := log[..|log| - 1], log[|log| - 1];
      PairedInit(log);
      InvertsInit(f, log);
      SchemaIsFold(f, s, init);
      if e.Reverted? {
        UndoTop(f, s, init, e.m);
      }
    }
  }

  lemma UndoTop<S(!new)>(f: (S, Migration) -> S, s: S, log: seq<Effect>, d: Migration)
    requires Paired(log) && Stack(log) != [] && Stack(log)[|Stack(log)| - 1].version == d.version
    requires Inverts(f, log + [Reverted(d)])
    ensures Ups(log) != [] && f(FoldUps(f, s, Ups(log)), d) == FoldUps(f, s, Ups(log)[..|Ups(log)| - 1])
  {
    UpsMatchStack(log);
    var ups := Ups(log);
    assert |MigrationVersions(ups)| == |Stack(log)|;
    var u := ups[|ups| - 1];
    assert u in ups && MigrationVersions(ups)[|ups| - 1] == d.version;
    assert Committed(u) in log + [Reverted(d)] && Reverted(d) in log + [Reverted(d)];
  }

  lemma {:induction false} TrailPaired(p: seq<Migration>, es: seq<Effect>)
    requires UpTrail(p, es)
    ensures Paired(es)
    decreases |p|
  {
    if |es| >= 2 && IsPush(es[1]) {
      TrailPaired(p[1..], es[2..]);
      forall i | 0 <= i < |es| && IsPush(es[i])
        ensures i > 0 && es[i - 1].Committed? && es[i - 1].m.version == es[i].row.version
      {
        if i >= 2 {
          assert es[2..][i - 2] == es[i];
          assert es[2..][i - 3] == es[i - 1];
        }
      }
    }
  }

  lemma PairedConcat(a: seq<Effect>, b: seq<Effect>)
    requires Paired(a) && Paired(b)
    ensures Paired(a + b)
  {
    forall i | 0 <= i < |a + b| && IsPush((a + b)[i])
      ensures i > 0 && (a + b)[i - 1].Committed? && (a + b)[i - 1].m.version == (a + b)[i].row.version
    {
      if i >= |a| {
        assert (a + b)[i] == b[i - |a|];
        assert b[i - |a| - 1] == (a + b)[i - 1];
      }
    }
  }

  lemma UpPaired(db: Db, loaded: Option<seq<Migration>>, strict: bool)
    requires InTime(db, strict) && Paired(db.log)
    ensures Paired(Up(db, loaded).0.log)
  {
    var es := UpLeft(db, loaded, strict);
    hide Up, InTime, Timely, PendingOf;
    if PendingOf(db, loaded).Some? {
      TrailPaired(PendingOf(db, loaded).value, es);
    }
    PairedConcat(db.log, es);
  }

  lemma DownPaired(db: Db, allowed: bool, loaded: Option<seq<Migration>>, strict: bool)
    requires InTime(db, strict) && Paired(db.log)
    ensures Paired(Down(db, allowed, loaded).0.log)
  {
    DownLeft(db, allowed, loaded, strict);
    var d := Down(db, allowed, loaded).0;
    hide Down, InTime, Timely, LoadApplied, Find;
    if d.log != db.log {
      PairedConcat(db.log, [d.log[|db.log|]]);
    }
  }
}
