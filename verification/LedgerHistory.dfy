/**
 The main results about the migration engine: any sequence of runs of Up and Down, on a database that
 is empty first and may answer, fail or crash in any call.
 */
module LedgerHistory {
  import opened Common
  import opened Ledger
  import opened LedgerTable
  import opened LedgerLog
  import opened LedgerSteps
  import opened LedgerRuns
  import opened LedgerUndo
  import opened LedgerCounts
  import opened LedgerReplies
  import opened LedgerRoundTrip

  /** The databases before, between and after the runs, and what each run returned. */
  datatype History = History(dbs: seq<Db>, returned: seq<Status>, ops: seq<Op>) {
    ghost predicate Valid() {
      && |dbs| == |ops| + 1 && |returned| == |ops| && dbs[0] == Start(dbs[0].script)
      && forall i | 0 <= i < |ops| :: Happened(i)
    }

    /** Run i took one database to the next. */
    ghost predicate Happened(i: nat)
      requires |dbs| == |ops| + 1 && |returned| == |ops| && i < |ops|
    {
      match ops[i]
      case RunUp(loaded) => Up(dbs[i], loaded) == (dbs[i + 1], returned[i])
      case RunDown(allowed, loaded) => Down(dbs[i], allowed, loaded) == (dbs[i + 1], returned[i])
    }

    /** The clock moves in every call; each run has loaded at most one migration per version and direction. */
    ghost predicate MovingClock()
      requires |dbs| > 0
    {
      (forall e | e in dbs[0].script :: e.tick > 0) && forall op | op in ops :: Loadable(op)
    }

    /** All runs that could load their migrations loaded ms. */
    ghost predicate OneSet(ms: seq<Migration>) {
      UniqueSet(ms) && forall op | op in ops :: Uses(op, ms)
    }

    ghost predicate OnlyUps() {
      forall op | op in ops :: op.RunUp?
    }
  }

  /** A history in which the order of the success rows is certain: by the clock or by the versions. */
  ghost predicate Ordered(h: History, only: Option<seq<Migration>>)
    requires |h.dbs| > 0
  {
    match only
    case None => h.MovingClock()
    case Some(ms) => h.OneSet(ms)
  }

  lemma RunIs(h: History, i: nat)
    requires h.Valid() && i < |h.ops|
    ensures h.ops[i].RunUp? ==> Up(h.dbs[i], h.ops[i].loaded) == (h.dbs[i + 1], h.returned[i])
    ensures h.ops[i].RunDown? ==> Down(h.dbs[i], h.ops[i].allowed, h.ops[i].loaded) == (h.dbs[i + 1], h.returned[i])
  {
    hide Up, Down;
    assert h.Happened(i);
  }

  lemma {:induction false} IsRun(h: History, k: nat)
    requires h.Valid() && k <= |h.ops|
    ensures h.dbs[k] == Run(h.dbs[0], h.ops[..k])
    decreases k
  {
    hide Up, Down;
    if k > 0 {
      IsRun(h, k - 1);
      RunIs(h, k - 1);
      assert h.ops[..k][..k - 1] == h.ops[..k - 1];
    }
  }

  /** Every database of an ordered history satisfies the invariant of runs. */
  lemma OrderedIsGood(h: History, only: Option<seq<Migration>>, k: nat)
    requires h.Valid() && Ordered(h, only) && k <= |h.ops|
    ensures Good(h.dbs[k], only.None?)
    ensures only.Some? ==> AtPrefix(only.value, h.dbs[k].log)
    ensures k < |h.ops| ==> Loadable(h.ops[k])
  {
    hide Run, Good, AtPrefix, UniqueSet;
    IsRun(h, k);
    assert k < |h.ops| ==> h.ops[k] in h.ops;
    match only
    case None => RunsAreGood(h.dbs[0].script, h.ops[..k]);
    case Some(ms) => FixedRuns(h.dbs[0].script, ms, h.ops[..k]);
  }

  // ------------------------------------------------------------------
  // The ledger

  /**
   With a clock that moves, or with one migration set: at every point of any history the success
   rows read back are exactly the push history.
   */
  lemma LedgerIsStack(h: History, only: Option<seq<Migration>>, k: nat)
    requires h.Valid() && Ordered(h, only) && k <= |h.ops|
    ensures Disciplined(h.dbs[k].log)
    ensures Successes(LoadApplied(h.dbs[k])) == Stack(h.dbs[k].log)
  {
    OrderedIsGood(h, only, k);
    Reads(h.dbs[k], only.None?);
  }

  /** What run i added to the log. */
  ghost predicate Added(h: History, i: nat, es: seq<Effect>)
    requires i < |h.ops| && |h.dbs| == |h.ops| + 1
  {
    h.dbs[i + 1].log == h.dbs[i].log + es
  }

  /**
   Every Up of a history keeps all success rows and pushes the first of its pending migrations, in
   ascending order, all of them if it returns nil.
   */
  lemma EveryUpPushes(h: History, only: Option<seq<Migration>>, i: nat) returns (es: seq<Effect>)
    requires h.Valid() && Ordered(h, only) && i < |h.ops| && h.ops[i].RunUp?
    ensures Added(h, i, es) && UpResult(h.dbs[i], h.ops[i].loaded, es, h.returned[i])
    ensures Stack(h.dbs[i + 1].log) == Stack(h.dbs[i].log) + Pushed(es)
  {
    hide Up, Down, Good, UpResult, Stack, Pushed;
    OrderedIsGood(h, only, i);
    RunIs(h, i);
    es := UpPushes(h.dbs[i], h.ops[i].loaded, only.None?);
  }

  /** Every Down of a history pops exactly the top with its down migration, or changes nothing. */
  lemma EveryDownPops(h: History, only: Option<seq<Migration>>, i: nat)
    requires h.Valid() && Ordered(h, only) && i < |h.ops| && h.ops[i].RunDown?
    ensures DownResult(h.dbs[i].log, h.ops[i].loaded, h.dbs[i + 1].log, h.returned[i])
  {
    hide Up, Down, Good, DownResult;
    OrderedIsGood(h, only, i);
    RunIs(h, i);
    DownPops(h.dbs[i], h.ops[i].allowed, h.ops[i].loaded, only.None?);
  }

  /** With one set the success rows are at every point the first versions of the set, ascending. */
  lemma RecordedIsPrefix(h: History, ms: seq<Migration>, k: nat)
    requires h.Valid() && h.OneSet(ms) && k <= |h.ops|
    ensures var applied := Successes(LoadApplied(h.dbs[k]));
            |applied| <= |UpVersions(ms)| && Versions(applied) == UpVersions(ms)[..|applied|]
  {
    LedgerIsStack(h, Some(ms), k);
    OrderedIsGood(h, Some(ms), k);
  }

  /**
   Crash safety of Up-only histories of one set, at every point: what is recorded is a prefix of the
   set, all of it was committed, and only the first pending version can be committed and unrecorded.
   */
  lemma CrashSafety(h: History, ms: seq<Migration>, k: nat)
    requires h.Valid() && h.OneSet(ms) && h.OnlyUps() && k <= |h.ops|
    ensures AtPrefix(ms, h.dbs[k].log) && OneGap(ms, h.dbs[k].log)
    ensures Successes(LoadApplied(h.dbs[k])) == Stack(h.dbs[k].log)
  {
    hide Run, OneGap, UniqueSet, LoadApplied, Stack;
    LedgerIsStack(h, Some(ms), k);
    OrderedIsGood(h, Some(ms), k);
    IsRun(h, k);
    OneGapRuns(h.dbs[0].script, ms, h.ops[..k]);
  }

  // ------------------------------------------------------------------
  // The schema

  lemma NothingPaired()
    ensures Paired([])
  {
  }

  /** Every success record directly follows its commit. */
  lemma {:induction false} AlwaysPaired(h: History, only: Option<seq<Migration>>, k: nat)
    requires h.Valid() && Ordered(h, only) && k <= |h.ops|
    ensures Paired(h.dbs[k].log)
    decreases k
  {
    hide Up, Down, Paired;
    if k == 0 {
      NothingPaired();
    } else {
      AlwaysPaired(h, only, k - 1);
      OrderedIsGood(h, only, k - 1);
      RunIs(h, k - 1);
      match h.ops[k - 1]
      case RunUp(loaded) => UpPaired(h.dbs[k - 1], loaded, only.None?);
      case RunDown(allowed, loaded) => DownPaired(h.dbs[k - 1], allowed, loaded, only.None?);
    }
  }

  /**
   If the down scripts undo the up scripts and no failure fell between a commit and its record, the
   schema is at every point what the recorded up scripts, in ledger order, make of the first one.
   */
  lemma SchemaFollowsLedger<S(!new)>(f: (S, Migration) -> S, s: S, h: History, only: Option<seq<Migration>>, k: nat)
    requires h.Valid() && Ordered(h, only) && k <= |h.ops|
    requires GapFree(h.dbs[k].log) && Inverts(f, h.dbs[k].log)
    ensures Schema(f, s, h.dbs[k].log) == FoldUps(f, s, Ups(h.dbs[k].log))
    ensures MigrationVersions(Ups(h.dbs[k].log)) == Versions(Successes(LoadApplied(h.dbs[k])))
  {
    hide Schema, FoldUps, Ups, Inverts, Stack;
    LedgerIsStack(h, only, k);
    AlwaysPaired(h, only, k);
    SchemaIsFold(f, s, h.dbs[k].log);
    UpsMatchStack(h.dbs[k].log);
  }

  /** Schema and table are as they were. */
  ghost predicate Unchanged<S>(f: (S, Migration) -> S, s: S, before: Db, after: Db) {
    RowsOf(after.log) == RowsOf(before.log) && Schema(f, s, after.log) == Schema(f, s, before.log)
  }

  /** The down script has run and the row of its version is gone. */
  ghost predicate Undone<S>(f: (S, Migration) -> S, s: S, before: Db, after: Db, down: Migration) {
    && RowsOf(after.log) == Delete(RowsOf(before.log), down.version)
    && Schema(f, s, after.log) == f(Schema(f, s, before.log), down)
  }

  /** The down migration of the top version, if the run may use it and there is one. */
  function TopDown(db: Db, allowed: bool, loaded: Option<seq<Migration>>): Option<Migration> {
    var stack := Stack(db.log);
    if allowed && loaded.Some? && stack != [] then Find(loaded.value, stack[|stack| - 1].version, "down") else None
  }

  /**
   Every Down changes schema and table together, exactly if it may, there is a down migration, every call
   before its commit works and the commit takes effect. Otherwise it changes neither.
   */
  lemma EveryDownIsAtomic<S>(f: (S, Migration) -> S, s: S, h: History, only: Option<seq<Migration>>, i: nat)
    requires h.Valid() && Ordered(h, only) && i < |h.ops| && h.ops[i].RunDown?
    ensures var down := TopDown(h.dbs[i], h.ops[i].allowed, h.ops[i].loaded);
            if down.Some? && Reached(h.dbs[i], down.value) then Undone(f, s, h.dbs[i], h.dbs[i + 1], down.value)
            else Unchanged(f, s, h.dbs[i], h.dbs[i + 1])
  {
    hide Up, Down, Good, Schema, Delete, RowsOf, Stack, Find, Reached, Successes, OrderBy;
    OrderedIsGood(h, only, i);
    RunIs(h, i);
    var db, allowed, loaded := h.dbs[i], h.ops[i].allowed, h.ops[i].loaded;
    DownDecided(db, allowed, loaded, only.None?);
    var down := TopDown(db, allowed, loaded);
    if down.Some? && Reached(db, down.value) {
      FindMeaning(loaded.value, Stack(db.log)[|Stack(db.log)| - 1].version, "down");
      SchemaSnoc(f, s, db.log, down.value);
      Snoc(db.log, Reverted(down.value));
    }
  }

  lemma SchemaSnoc<S>(f: (S, Migration) -> S, s: S, log: seq<Effect>, down: Migration)
    ensures Schema(f, s, log + [Reverted(down)]) == f(Schema(f, s, log), down)
  {
    assert (log + [Reverted(down)])[..|log|] == log;
  }

  /**
   A Down returns nil exactly if it may, the migrations are loaded, and all its calls work: those up to
   the read if there is no success row, otherwise those of the revert of a down migration, too.
   */
  lemma EveryDownReturns(h: History, only: Option<seq<Migration>>, i: nat)
    requires h.Valid() && Ordered(h, only) && i < |h.ops| && h.ops[i].RunDown?
    ensures var db, loaded := h.dbs[i], h.ops[i].loaded;
            var down := TopDown(db, h.ops[i].allowed, loaded);
            h.returned[i].Ok? <==> && h.ops[i].allowed && loaded.Some?
                                   && if Stack(db.log) == [] then WorkThenUnlock(db, 3)
                                      else down.Some? && WorkThenUnlock(db, CallsBefore(down.value) + 1)
  {
    hide Up, Down, Good, RowsOf, Stack, Find, Successes, OrderBy, OneRow, WorkThenUnlock;
    OrderedIsGood(h, only, i);
    RunIs(h, i);
    DownExactly(h.dbs[i], h.ops[i].allowed, h.ops[i].loaded);
    DownDecided(h.dbs[i], h.ops[i].allowed, h.ops[i].loaded, only.None?);
  }

  // ------------------------------------------------------------------
  // Undo and redo

  lemma SameSet(h: History, only: Option<seq<Migration>>, ms: seq<Migration>, i: nat)
    requires |h.dbs| > 0 && Ordered(h, only) && i < |h.ops| && h.ops[i] == RunUp(Some(ms))
    ensures only.Some? ==> only.value == ms
  {
    hide UniqueSet;
    assert h.ops[i] in h.ops;
  }

  /** Runs a + 1 to a + k are Downs with ms that returned nil. */
  ghost predicate DownsFollow(h: History, ms: seq<Migration>, a: nat, k: nat)
    requires |h.returned| == |h.ops|
  {
    a + k < |h.ops|
    && forall i | a < i <= a + k :: h.ops[i] == RunDown(true, Some(ms)) && h.returned[i].Ok?
  }

  lemma {:induction false} DownsAre(h: History, ms: seq<Migration>, a: nat, k: nat, n: nat)
    requires h.Valid() && DownsFollow(h, ms, a, k) && n <= k
    ensures h.dbs[a + 1 + n] == Downs(h.dbs[a + 1], ms, n) && DownsOk(h.dbs[a + 1], ms, n)
    decreases n
  {
    hide Up, Down;
    if n > 0 {
      DownsAre(h, ms, a, k, n - 1);
      RunIs(h, a + n);
    }
  }

  /**
   An Up that pushed k versions, with no failure between commit and record so far, followed by k
   Downs that return nil: the schema and the success rows are what they were before the Up.
   */
  lemma UpThenDownsRestores<S(!new)>(f: (S, Migration) -> S, s: S, h: History, only: Option<seq<Migration>>,
                                     ms: seq<Migration>, a: nat, k: nat)
    requires h.Valid() && Ordered(h, only) && UniqueSet(ms) && DownsFollow(h, ms, a, k) && h.ops[a] == RunUp(Some(ms))
    requires k == |Stack(h.dbs[a + 1].log)| - |Stack(h.dbs[a].log)|
    requires GapFree(h.dbs[a].log) && GapFree(h.dbs[a + 1].log) && Inverts(f, h.dbs[a + 1 + k].log)
    ensures Schema(f, s, h.dbs[a + 1 + k].log) == Schema(f, s, h.dbs[a].log)
    ensures Successes(LoadApplied(h.dbs[a + 1 + k])) == Successes(LoadApplied(h.dbs[a]))
  {
    hide Up, Down, Good, Stack, Schema, GapFree, Inverts, Paired, Downs, DownsOk, UniqueSet, LoadApplied, AtPrefix;
    OrderedIsGood(h, only, a);
    AlwaysPaired(h, only, a);
    DownsAre(h, ms, a, k, k);
    RunIs(h, a);
    SameSet(h, only, ms, a);
    Restored(f, s, h.dbs[a], ms, only.None?, h.dbs[a + 1], k, h.dbs[a + 1 + k]);
  }

  /** After an Up that returned nil, another Up with the same set finds nothing to do and has no effect. */
  lemma SecondUpIsIdle(h: History, only: Option<seq<Migration>>, ms: seq<Migration>, i: nat)
    requires h.Valid() && Ordered(h, only) && UniqueSet(ms) && i + 1 < |h.ops|
    requires h.ops[i] == RunUp(Some(ms)) && h.returned[i].Ok? && h.ops[i + 1] == RunUp(Some(ms))
    ensures PendingUp(ms, LoadApplied(h.dbs[i + 1])) == Some([])
    ensures h.dbs[i + 2].log == h.dbs[i + 1].log
  {
    hide Up, Down, Good, PendingUp, LoadApplied, UniqueSet, AtPrefix;
    OrderedIsGood(h, only, i);
    RunIs(h, i);
    RunIs(h, i + 1);
    SameSet(h, only, ms, i);
    IdleAgain(h.dbs[i], ms, only.None?);
  }

  // ------------------------------------------------------------------
  // How often a version is committed

  /**
   At every point of every history a version has been committed once for its row, once for each time
   it was reverted, and once for each commit that was not followed by its record.
   */
  lemma CommitsCounted(h: History, only: Option<seq<Migration>>, k: nat, version: int)
    requires h.Valid() && Ordered(h, only) && k <= |h.ops|
    ensures var log := h.dbs[k].log;
            Commits(log, version) == Bit(OnStack(log, version)) + Reverts(log, version) + Gaps(log, version)
  {
    hide Paired, Stack, Commits, Reverts, Gaps;
    LedgerIsStack(h, only, k);
    AlwaysPaired(h, only, k);
    CommitCount(h.dbs[k].log, version);
  }

  /** Ups revert nothing. */
  lemma {:induction false} UpsRevertNothing(h: History, only: Option<seq<Migration>>, k: nat, version: int)
    requires h.Valid() && Ordered(h, only) && h.OnlyUps() && k <= |h.ops|
    ensures Reverts(h.dbs[k].log, version) == 0
    decreases k
  {
    hide Up, Down, Stack, Reverts, Pushed, UpResult;
    if k == 0 {
      NothingCounted(version);
    } else {
      assert h.ops[k - 1] in h.ops;
      UpsRevertNothing(h, only, k - 1, version);
      var es := EveryUpPushes(h, only, k - 1);
      UpResultReverts(h.dbs[k - 1], h.ops[k - 1].loaded, es, h.returned[k - 1]);
      ReverseFree(h.dbs[k - 1].log, es, version);
    }
  }

  lemma UpResultReverts(db: Db, loaded: Option<seq<Migration>>, es: seq<Effect>, s: Status)
    requires UpResult(db, loaded, es, s)
    ensures forall e | e in es :: !e.Reverted?
  {
    if PendingOf(db, loaded).Some? {
      TrailCommits(PendingOf(db, loaded).value, es);
    }
  }

  lemma {:induction false} ReverseFree(log: seq<Effect>, es: seq<Effect>, version: int)
    requires forall e | e in es :: !e.Reverted?
    ensures Reverts(log + es, version) == Reverts(log, version)
    decreases |es|
  {
    if es == [] {
      assert log + es == log;
    } else {
      var init, last := es[..|es| - 1], es[|es| - 1];
      assert log + es == log + init + [last];
      ReverseFree(log, init, version);
      CommitsSnoc(log + init, last, version);
    }
  }

  /** In Up-only histories a version is committed at most once beyond its gaps, and once for its row. */
  lemma UpCommitsCounted(h: History, only: Option<seq<Migration>>, k: nat, version: int)
    requires h.Valid() && Ordered(h, only) && h.OnlyUps() && k <= |h.ops|
    ensures var log := h.dbs[k].log; Commits(log, version) == Bit(OnStack(log, version)) + Gaps(log, version)
  {
    hide Stack, Commits, Reverts, Gaps, OnStack;
    CommitsCounted(h, only, k, version);
    UpsRevertNothing(h, only, k, version);
  }

  /**
   An Up that returns nil commits each of its pending migrations once more; one whose record was lost
   earlier is then committed for at least the second time.
   */
  lemma GapIsReapplied(h: History, only: Option<seq<Migration>>, ms: seq<Migration>, i: nat, m: Migration)
    requires h.Valid() && Ordered(h, only) && i < |h.ops| && h.ops[i] == RunUp(Some(ms)) && h.returned[i].Ok?
    requires m in ms && m.dir == "up" && !OnStack(h.dbs[i].log, m.version)
    ensures Commits(h.dbs[i + 1].log, m.version) == Commits(h.dbs[i].log, m.version) + 1
    ensures Committed(m) in h.dbs[i].log ==> Commits(h.dbs[i + 1].log, m.version) >= 2
  {
    hide Up, Down, Stack, Pushed, Commits, PendingUp, LoadApplied, OnStack, Entries, InTime;
    OrderedIsGood(h, only, i);
    RunIs(h, i);
    NilUpCommits(h.dbs[i], ms, m.version, only.None?);
    var es := EveryUpPushes(h, only, i);
    EntriesOnce(PendingUp(ms, LoadApplied(h.dbs[i])).value, m);
    CommittedCounts(h.dbs[i].log, m);
  }

  lemma {:induction false} CommittedCounts(log: seq<Effect>, m: Migration)
    ensures Committed(m) in log ==> Commits(log, m.version) >= 1
  {
    if log != [] {
      CommittedCounts(log[..|log| - 1], m);
      assert log == log[..|log| - 1] + [log[|log| - 1]];
    }
  }

  // ------------------------------------------------------------------
  // A version committed twice

  function Reliable(n: nat): seq<Event> {
    seq(n, i requires 0 <= i < n => Event(Done, 1))
  }

  /** The record of the first migration fails; everything else works, and works again. */
  function LosesOneRecord(): seq<Event> {
    Reliable(6) + [Event(Failed, 1)] + Reliable(9)
  }

  /** Two Ups with one migration against such a database. */
  function TwoUps(m: Migration): History {
    var d0 := Start(LosesOneRecord());
    var (d1, s1) := Up(d0, Some([m]));
    var (d2, s2) := Up(d1, Some([m]));
    History([d0, d1, d2], [s1, s2], [RunUp(Some([m])), RunUp(Some([m]))])
  }

  lemma CallReliable(db: Db, e: Option<Effect>, n: nat, rest: seq<Event>)
    requires n > 0 && db.script == Reliable(n) + rest
    ensures var (d, s) := Call(db, e);
            && s.Ok? && d.log == (if e.Some? then db.log + [e.value] else db.log)
            && d.script == Reliable(n - 1) + rest
  {
    assert (Reliable(n) + rest)[1..] == Reliable(n - 1) + rest;
  }

  lemma CallFails(db: Db, e: Option<Effect>, rest: seq<Event>)
    requires db.script == Reliable(0) + ([Event(Failed, 1)] + rest)
    ensures var (d, s) := Call(db, e); s.Err? && d.log == db.log && d.script == rest
  {
    assert db.script == [Event(Failed, 1)] + rest;
  }

  lemma UnrecordedApply(db: Db, m: Migration, rest: seq<Event>)
    requires db.script == Reliable(3) + ([Event(Failed, 1)] + rest)
    ensures var (d, s) := ApplyOne(db, m);
            s.Err? && d.log == db.log + [Committed(m)] && d.script == rest
  {
    hide Call, Reliable, RowFor, Next;
    var after := [Event(Failed, 1)] + rest;
    CallReliable(db, None, 3, after);
    var begun := Call(db, None).0;
    CallReliable(begun, None, 2, after);
    var executed := Call(begun, None).0;
    CallReliable(executed, Some(Committed(m)), 1, after);
    var committed := Call(executed, Some(Committed(m))).0;
    CallFails(committed, Some(Recorded(RowFor(m, committed.now + Next(committed).tick, true))), rest);
  }

  lemma FirstOfTwo(m: Migration)
    requires m.dir == "up"
    ensures var (d, s) := Up(Start(LosesOneRecord()), Some([m]));
            d.log == [Committed(m)] && d.script == Reliable(8)
  {
    hide Call, ApplyOne, PendingUp, LoadApplied, Reliable;
    var d0 := Start(LosesOneRecord());
    var rest := [Event(Failed, 1)] + Reliable(9);
    assert LosesOneRecord() == Reliable(6) + rest;
    CallReliable(d0, None, 6, rest);
    var locked := Call(d0, None).0;
    CallReliable(locked, None, 5, rest);
    var ensured := Call(locked, None).0;
    CallReliable(ensured, None, 4, rest);
    var selected := Call(ensured, None).0;
    OnePending(ensured, m);
    UnrecordedApply(selected, m, Reliable(9));
    var failed := ApplyOne(selected, m).0;
    assert failed.script == Reliable(9) + [];
    CallReliable(failed, None, 9, []);
    assert [] + [Committed(m)] == [Committed(m)];
  }

  /** A database without rows has every up migration pending. */
  lemma OnePending(db: Db, m: Migration)
    requires m.dir == "up" && (db.log == [] || db.log == [Committed(m)])
    ensures PendingUp([m], LoadApplied(db)) == Some([m])
  {
    assert [Committed(m)][..0] == [] && RowsOf([]) == [];
    assert RowsOf([Committed(m)]) == RowsOf([]);
    assert LoadApplied(db) == [];
    assert [m][..0] == [] && [] + [m] == [m];
    assert Pending([m], map[]) == [m] && SortByVersion([m]) == [m];
  }

  /** It happens: a reachable history of one set in which a version is committed twice. */
  lemma CommittedTwice(m: Migration)
    requires m.dir == "up"
    ensures var h := TwoUps(m);
            h.Valid() && h.OneSet([m]) && h.OnlyUps() && h.returned[1].Ok? && Commits(h.dbs[2].log, m.version) == 2
  {
    hide Up, LosesOneRecord, Commits;
    var h := TwoUps(m);
    assert h.Happened(0) && h.Happened(1);
    FirstOfTwo(m);
    var d1 := h.dbs[1];
    OnePending(d1, m);
    assert AllDone(d1, 8);
    UpCompletes(d1, [m]);
    OrderedIsGood(h, Some([m]), 1);
    NilUpCommits(d1, [m], m.version, false);
    EntriesOne(m, m.version);
    OneCommit(m);
  }

  lemma OneCommit(m: Migration)
    ensures Commits([Committed(m)], m.version) == 1
  {
    assert [Committed(m)][..0] == [];
  }
}
