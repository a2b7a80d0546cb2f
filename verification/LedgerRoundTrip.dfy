/**
 Sequences of runs: an Up followed by Downs, and an Up followed by another. One that pushed k versions is
 taken back by k Downs that return nil, version by version from the top of the stack, and the schema
 with them; an Up after one that returned nil finds nothing pending. Here these are stated for one
 database and the runs that follow on it; LedgerHistory states them for histories.
 */
module LedgerRoundTrip {
  import opened Common
  import opened Ledger
  import opened LedgerTable
  import opened LedgerLog
  import opened LedgerSteps
  import opened LedgerRuns
  import opened LedgerUndo

  /** k Downs in a row. */
  function Downs(db: Db, ms: seq<Migration>, k: nat): Db
    decreases k
  {
    if k == 0 then db else Down(Downs(db, ms, k - 1), true, Some(ms)).0
  }

  /** All k of them return without an error. */
  predicate DownsOk(db: Db, ms: seq<Migration>, k: nat)
    decreases k
  {
    k == 0 || (DownsOk(db, ms, k - 1) && Down(Downs(db, ms, k - 1), true, Some(ms)).1.Ok?)
  }

  /** With one set or a moving clock the invariant survives an Up. */
  ghost predicate Settled(db: Db, ms: seq<Migration>, strict: bool) {
    Good(db, strict) && UniqueSet(ms) && (strict || AtPrefix(ms, db.log))
  }

  lemma UpSettles(db: Db, ms: seq<Migration>, strict: bool) returns (es: seq<Effect>)
    requires Settled(db, ms, strict)
    ensures var (d, s) := Up(db, Some(ms));
            && Good(d, strict) && d.log == db.log + es && UpResult(db, Some(ms), es, s)
            && Stack(d.log) == Stack(db.log) + Pushed(es)
  {
    es := UpPushes(db, Some(ms), strict);
    hide Up, UpResult, Stack, Pushed;
    if !strict {
      var _, _ := FixedUp(ms, db, Some(ms));
    }
  }

  lemma NoReverts(db: Db, ms: seq<Migration>, es: seq<Effect>, s: Status)
    requires UpResult(db, Some(ms), es, s)
    ensures forall e | e in es :: !e.Reverted?
  {
    if PendingOf(db, Some(ms)).Some? {
      TrailCommits(PendingOf(db, Some(ms)).value, es);
    }
  }

  ghost predicate AllReverts(es: seq<Effect>) {
    forall i | 0 <= i < |es| :: es[i].Reverted?
  }

  /** One more row popped. */
  lemma DownPopsOne(d: Db, ms: seq<Migration>, strict: bool) returns (r: Effect)
    requires Good(d, strict) && Stack(d.log) != [] && Down(d, true, Some(ms)).1.Ok?
    ensures var d' := Down(d, true, Some(ms)).0;
            && Good(d', strict) && d'.log == d.log + [r] && r.Reverted?
            && Stack(d'.log) == Stack(d.log)[..|Stack(d.log)| - 1]
  {
    DownPops(d, true, Some(ms), strict);
    var d' := Down(d, true, Some(ms)).0;
    hide Down, InTime, Timely, Disciplined, Stack, Find;
    r := d'.log[|d.log|];
    assert Versions(Stack(d'.log)) == Versions(Stack(d.log))[..|Stack(d'.log)|];
  }

  /** d is db with k rows popped by the reverts rs. */
  ghost predicate Popped(db: Db, d: Db, rs: seq<Effect>, k: nat, strict: bool) {
    && Good(d, strict) && d.log == db.log + rs && AllReverts(rs) && k <= |Stack(db.log)|
    && Stack(d.log) == Stack(db.log)[..|Stack(db.log)| - k]
  }

  lemma PoppedNone(db: Db, strict: bool)
    requires Good(db, strict)
    ensures Popped(db, db, [], 0, strict)
  {
    assert db.log + [] == db.log && Stack(db.log)[..|Stack(db.log)|] == Stack(db.log);
  }

  lemma PoppedMore(db: Db, d: Db, rs: seq<Effect>, k: nat, ms: seq<Migration>, strict: bool)
    returns (r: Effect)
    requires Popped(db, d, rs, k, strict) && k < |Stack(db.log)| && Down(d, true, Some(ms)).1.Ok?
    ensures Popped(db, Down(d, true, Some(ms)).0, rs + [r], k + 1, strict)
  {
    hide Stack, Good;
    r := DownPopsOne(d, ms, strict);
    hide Down;
    var stack := Stack(db.log);
    assert stack[..|stack| - k][..|stack| - k - 1] == stack[..|stack| - (k + 1)];
    assert db.log + rs + [r] == db.log + (rs + [r]);
  }

  /** A run of successful Downs pops as many rows. */
  lemma {:induction false} DownsPop(db: Db, ms: seq<Migration>, k: nat, strict: bool) returns (rs: seq<Effect>)
    requires Good(db, strict) && k <= |Stack(db.log)| && DownsOk(db, ms, k)
    ensures Popped(db, Downs(db, ms, k), rs, k, strict)
    decreases k
  {
    hide Down, Good, Stack, Popped;
    if k == 0 {
      PoppedNone(db, strict);
      rs := [];
    } else {
      var before := DownsPop(db, ms, k - 1, strict);
      var r := PoppedMore(db, Downs(db, ms, k - 1), before, k - 1, ms, strict);
      rs := before + [r];
    }
  }

  lemma {:induction false} UpsAfterReverts(log: seq<Effect>, rs: seq<Effect>)
    requires AllReverts(rs)
    ensures Ups(log + rs) <= Ups(log)
    decreases |rs|
  {
    if rs == [] {
      assert log + rs == log;
    } else {
      var init := rs[..|rs| - 1];
      assert rs == init + [rs[|rs| - 1]] && (log + rs)[..|log + rs| - 1] == log + init;
      UpsAfterReverts(log, init);
    }
  }

  lemma {:induction false} UpsGrow(log: seq<Effect>, es: seq<Effect>)
    requires forall e | e in es :: !e.Reverted?
    ensures Ups(log) <= Ups(log + es)
    decreases |es|
  {
    if es == [] {
      assert log + es == log;
    } else {
      var init := es[..|es| - 1];
      assert es == init + [es[|es| - 1]] && (log + es)[..|log + es| - 1] == log + init;
      UpsGrow(log, init);
    }
  }

  /**
   An Up that pushed k rows, with no failure between commit and record, followed by k Downs that
   succeed restores the schema and the success rows.
   */
  lemma Restored<S(!new)>(f: (S, Migration) -> S, s: S, db: Db, ms: seq<Migration>, strict: bool,
                                     up: Db, k: nat, down: Db)
    requires Settled(db, ms, strict) && Paired(db.log) && GapFree(db.log)
    requires up == Up(db, Some(ms)).0 && GapFree(up.log) && k == |Stack(up.log)| - |Stack(db.log)|
    requires down == Downs(up, ms, k) && DownsOk(up, ms, k) && Inverts(f, down.log)
    ensures Schema(f, s, down.log) == Schema(f, s, db.log)
    ensures Successes(LoadApplied(down)) == Successes(LoadApplied(db))
  {
    var es := UpSettles(db, ms, strict);
    NoReverts(db, ms, es, Up(db, Some(ms)).1);
    UpPaired(db, Some(ms), strict);
    hide Up, UpResult, Downs, DownsOk, Pushed, Stack, Ups, Paired, GapFree, Inverts, InTime, LoadApplied;
    var rs := DownsPop(up, ms, k, strict);
    Reads(db, strict);
    Reads(down, strict);
    assert Stack(down.log) == Stack(db.log);
    hide Disciplined, Schema;
    RestoredLog(f, s, db.log, es, rs);
  }

  lemma RestoredLog<S(!new)>(f: (S, Migration) -> S, s: S, log: seq<Effect>, es: seq<Effect>, rs: seq<Effect>)
    requires Disciplined(log) && Disciplined(log + es + rs) && Paired(log) && Paired(log + es)
    requires GapFree(log) && GapFree(log + es)
    requires (forall e | e in es :: !e.Reverted?) && AllReverts(rs)
    requires Stack(log + es + rs) == Stack(log) && Inverts(f, log + es + rs)
    ensures Schema(f, s, log + es + rs) == Schema(f, s, log)
  {
    SameUps(log, es, rs);
    RevertsAreGapFree(log + es, rs);
    assert log + es + rs == log + (es + rs);
    InvertsBefore(f, log, es + rs);
    SchemaIsFold(f, s, log);
    SchemaIsFold(f, s, log + es + rs);
  }

  lemma SameUps(log: seq<Effect>, es: seq<Effect>, rs: seq<Effect>)
    requires (forall e | e in es :: !e.Reverted?) && AllReverts(rs)
    requires Paired(log) && Paired(log + es) && Stack(log + es + rs) == Stack(log)
    ensures Ups(log + es + rs) == Ups(log) && Paired(log + es + rs)
  {
    UpsGrow(log, es);
    UpsAfterReverts(log + es, rs);
    PairedConcat(log + es, rs);
    UpsMatchStack(log);
    UpsMatchStack(log + es + rs);
    assert |MigrationVersions(Ups(log))| == |MigrationVersions(Ups(log + es + rs))|;
  }

  lemma RevertsAreGapFree(log: seq<Effect>, rs: seq<Effect>)
    requires GapFree(log) && AllReverts(rs)
    ensures GapFree(log + rs)
  {
    var all := log + rs;
    forall i | 0 <= i < |all| - 1 && all[i].Committed? ensures IsPush(all[i + 1]) {
      assert i < |log| && all[i] == log[i] && i < |log| - 1 && all[i + 1] == log[i + 1];
    }
    if rs == [] {
      assert all == log;
    }
  }

  lemma InvertsBefore<S(!new)>(f: (S, Migration) -> S, log: seq<Effect>, es: seq<Effect>)
    requires Inverts(f, log + es)
    ensures Inverts(f, log)
  {
  }

  // ------------------------------------------------------------------
  // Up again

  /** After an Up that returned without an error, the next one with the same set finds nothing to do. */
  lemma IdleAgain(db: Db, ms: seq<Migration>, strict: bool)
    requires Settled(db, ms, strict) && Up(db, Some(ms)).1.Ok?
    ensures var d := Up(db, Some(ms)).0;
            && (forall m | m in ms && m.dir == "up" :: OnStack(d.log, m.version))
            && PendingUp(ms, LoadApplied(d)) == Some([])
            && Up(d, Some(ms)).0.log == d.log
  {
    var es := UpSettles(db, ms, strict);
    var d := Up(db, Some(ms)).0;
    hide Up, Stack, Pushed, PendingUp, LoadApplied;
    var p := PendingOf(db, Some(ms)).value;
    assert UpEffect(db.log, ms, p, es, Ok);
    hide UpEffect, UpResult;
    AllPushed(db, d, ms, p, es);
    NoPanicAfter(db, d, ms, p, es, strict);
    NothingPending(d, ms, strict);
    var _ := IdleUp(d, ms, strict);
  }

  lemma NothingPending(d: Db, ms: seq<Migration>, strict: bool)
    requires Good(d, strict) && UniqueSet(ms) && PendingUp(ms, LoadApplied(d)).Some?
    requires forall m | m in ms && m.dir == "up" :: OnStack(d.log, m.version)
    ensures PendingUp(ms, LoadApplied(d)) == Some([])
  {
    var p := PendingUp(ms, LoadApplied(d)).value;
    var first := if p == [] then None else Some(p[0]);
    assert first.Some? ==> first.value in p;
    hide PendingUp, LoadApplied, OnStack;
    PendingNow(d, ms, p, strict);
  }

  lemma AllPushed(db: Db, d: Db, ms: seq<Migration>, p: seq<Migration>, es: seq<Effect>)
    requires UpEffect(db.log, ms, p, es, Ok) && Stack(d.log) == Stack(db.log) + Pushed(es)
    ensures forall m | m in ms && m.dir == "up" :: OnStack(d.log, m.version)
  {
    hide Stack, UpTrail, Pushed, Increasing;
    assert Versions(Stack(d.log)) == Versions(Stack(db.log)) + Versions(Pushed(es));
    forall m | m in ms && m.dir == "up" ensures OnStack(d.log, m.version) {
      if !OnStack(db.log, m.version) {
        assert m in p;
        var i :| 0 <= i < |p| && p[i] == m;
        assert Versions(Pushed(es))[i] == m.version;
      }
    }
  }

  /** The rows an Up pushes carry the checksums of the set, so the set does not panic on them. */
  lemma NoPanicAfter(db: Db, d: Db, ms: seq<Migration>, p: seq<Migration>, es: seq<Effect>, strict: bool)
    requires UniqueSet(ms) && Good(db, strict) && Good(d, strict) && PendingUp(ms, LoadApplied(db)).Some?
    requires UpEffect(db.log, ms, p, es, Ok) && Stack(d.log) == Stack(db.log) + Pushed(es)
    ensures PendingUp(ms, LoadApplied(d)).Some?
  {
    TableKeyed(db.log);
    TableKeyed(d.log);
    OrderByKeyed(RowsOf(db.log));
    OrderByKeyed(RowsOf(d.log));
    PanicExact(ms, LoadApplied(db));
    PanicExact(ms, LoadApplied(d));
    Reads(db, strict);
    Reads(d, strict);
    SuccessesMembers(LoadApplied(db));
    SuccessesMembers(LoadApplied(d));
    hide Stack, UpTrail, Pushed, Increasing, Good, PendingUp, LoadApplied, Successes, Keyed;
    forall m, r | m in ms && m.dir == "up" && r in LoadApplied(d) && r.success && r.version == m.version
      ensures r.checksum == m.checksum
    {
      assert r in Stack(d.log);
      if r in Stack(db.log) {
        assert r in LoadApplied(db);
      } else {
        var i :| 0 <= i < |Pushed(es)| && Pushed(es)[i] == r;
        assert p[i] in p;
        SameMigration(ms, m, p[i]);
      }
    }
  }

  lemma SameMigration(ms: seq<Migration>, a: Migration, b: Migration)
    requires UniqueSet(ms) && a in ms && b in ms && a.version == b.version && a.dir == b.dir
    ensures a == b
  {
    var i :| 0 <= i < |ms| && ms[i] == a;
    var j :| 0 <= j < |ms| && ms[j] == b;
  }

  lemma IdleUp(d: Db, ms: seq<Migration>, strict: bool) returns (es: seq<Effect>)
    requires Good(d, strict) && UniqueSet(ms) && PendingUp(ms, LoadApplied(d)) == Some([])
    ensures es == [] && Up(d, Some(ms)).0.log == d.log
  {
    es := UpLeft(d, Some(ms), strict);
    assert d.log + [] == d.log;
  }
}
