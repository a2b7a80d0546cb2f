/**
 How often each version is committed: once if its row is there, once for each time it was reverted and
 once for each commit that was not followed by its success record. The count holds for every log the
 engine can leave.
 */
module LedgerCounts {
  import opened Common
  import opened Ledger
  import opened LedgerTable
  import opened LedgerLog
  import opened LedgerSteps
  import opened LedgerUndo

  predicate CommitsVersion(e: Effect, version: int) {
    e.Committed? && e.m.version == version
  }

  function Commits(log: seq<Effect>, version: int): nat {
    if log == [] then 0
    else Commits(log[..|log| - 1], version) + if CommitsVersion(log[|log| - 1], version) then 1 else 0
  }

  predicate RevertsVersion(e: Effect, version: int) {
    e.Reverted? && e.m.version == version
  }

  function Reverts(log: seq<Effect>, version: int): nat {
    if log == [] then 0
    else Reverts(log[..|log| - 1], version) + if RevertsVersion(log[|log| - 1], version) then 1 else 0
  }

  /** Commits of a version that are not directly followed by a success record. */
  function Gaps(log: seq<Effect>, version: int): nat {
    if log == [] then 0
    else
      Gaps(log[1..], version)
      + if CommitsVersion(log[0], version) && !(|log| > 1 && IsPush(log[1])) then 1 else 0
  }

  function Bit(b: bool): nat {
    if b then 1 else 0
  }

  lemma CommitsSnoc(log: seq<Effect>, e: Effect, version: int)
    ensures Commits(log + [e], version) == Commits(log, version) + Bit(CommitsVersion(e, version))
    ensures Reverts(log + [e], version) == Reverts(log, version) + Bit(RevertsVersion(e, version))
  {
    assert (log + [e])[..|log|] == log;
  }

  lemma {:induction false} CommitsConcat(a: seq<Effect>, b: seq<Effect>, version: int)
    ensures Commits(a + b, version) == Commits(a, version) + Commits(b, version)
  {
    if b == [] {
      assert a + b == a;
    } else {
      CommitsConcat(a, b[..|b| - 1], version);
      assert (a + b)[..|a + b| - 1] == a + b[..|b| - 1];
    }
  }

  /** A record closes the gap of the commit before it; a commit opens one. */
  lemma {:induction false} GapsSnoc(log: seq<Effect>, e: Effect, version: int)
    ensures Gaps(log + [e], version) + Bit(IsPush(e) && log != [] && CommitsVersion(log[|log| - 1], version))
            == Gaps(log, version) + Bit(CommitsVersion(e, version))
  {
    if log == [] {
      assert ([e])[1..] == [] && log + [e] == [e];
    } else {
      GapsSnoc(log[1..], e, version);
      assert (log + [e])[1..] == log[1..] + [e];
      if |log| == 1 {
        assert log[1..] == [];
      }
    }
  }

  lemma {:induction false} StackKeyed(log: seq<Effect>)
    requires Disciplined(log)
    ensures Keyed(Stack(log))
  {
    if log != [] {
      var init, e := log[..|log| - 1], log[|log| - 1];
      StackKeyed(init);
      if IsPush(e) {
        var stack := Stack(init);
        forall i | 0 <= i < |stack| ensures stack[i].version != e.row.version {
          assert Versions(stack)[i] in Versions(stack);
        }
      }
    }
  }

  /** What one more effect does to a version's place on the stack. */
  lemma OnStackSnoc(log: seq<Effect>, e: Effect, version: int)
    requires Disciplined(log) && Disciplined(log + [e])
    ensures Bit(OnStack(log + [e], version)) + Bit(RevertsVersion(e, version))
            == Bit(OnStack(log, version)) + Bit(IsPush(e) && e.row.version == version)
  {
    StackKeyed(log);
    hide Stack, Disciplined;
    Snoc(log, e);
    var stack := Stack(log);
    if IsPush(e) {
      assert Versions(stack + [e.row]) == Versions(stack) + [e.row.version];
    } else if e.Reverted? {
      var init := stack[..|stack| - 1];
      assert Versions(stack) == Versions(init) + [e.m.version];
      assert e.m.version !in Versions(init);
    }
  }

  lemma {:induction false} PairedInitOnly(log: seq<Effect>)
    requires log != [] && Paired(log)
    ensures Paired(log[..|log| - 1])
    ensures IsPush(log[|log| - 1]) ==>
              |log| > 1 && CommitsVersion(log[|log| - 2], log[|log| - 1].row.version)
  {
    PairedBefore(log);
  }

  /**
   In every disciplined log in which success records directly follow their commits, a version has been
   committed once for its row, once for each time it was reverted, and once for each gap.
   */
  lemma {:induction false} CommitCount(log: seq<Effect>, version: int)
    requires Disciplined(log) && Paired(log)
    ensures Commits(log, version) == Bit(OnStack(log, version)) + Reverts(log, version) + Gaps(log, version)
  {
    hide Paired, Disciplined, Stack, Commits, Reverts, Gaps;
    if log == [] {
      NothingCounted(version);
    } else {
      var init, e := log[..|log| - 1], log[|log| - 1];
      assert log == init + [e];
      PairedInitOnly(log);
      Snoc(init, e);
      CommitCount(init, version);
      CommitsSnoc(init, e, version);
      GapsSnoc(init, e, version);
      OnStackSnoc(init, e, version);
    }
  }

  lemma NothingCounted(version: int)
    ensures Commits([], version) == 0 && Reverts([], version) == 0 && Gaps([], version) == 0 && !OnStack([], version)
  {
  }

  // ------------------------------------------------------------------
  // One Up

  /** How many of the migrations have a version. */
  function Entries(ms: seq<Migration>, version: int): nat {
    if ms == [] then 0 else Entries(ms[1..], version) + if ms[0].version == version then 1 else 0
  }

  /** A complete trail commits every migration of its list as often as it is there. */
  lemma {:induction false} CompleteTrail(p: seq<Migration>, es: seq<Effect>, version: int)
    requires UpTrail(p, es) && |Pushed(es)| == |p|
    ensures Commits(es, version) == Entries(p, version) && Gaps(es, version) == 0
    decreases |p|
  {
    if |es| >= 2 && IsPush(es[1]) {
      FirstPair(p, es);
      PushedPair(es);
      CompleteTrail(p[1..], es[2..], version);
      CommitsConcat([es[0], es[1]], es[2..], version);
      PairCounted(es, version);
    } else {
      PushedNone(es);
      assert p == [] && es == [];
    }
  }

  lemma PairCounted(es: seq<Effect>, version: int)
    requires |es| >= 2 && es[0].Committed? && IsPush(es[1])
    ensures Commits([es[0], es[1]], version) == Bit(CommitsVersion(es[0], version))
    ensures Gaps(es, version) == Gaps(es[2..], version)
  {
    CommitsSnoc([], es[0], version);
    CommitsSnoc([es[0]], es[1], version);
    assert [] + [es[0]] == [es[0]] && [es[0]] + [es[1]] == [es[0], es[1]];
    assert es[1..][1..] == es[2..];
  }

  /** An Up that returns nil commits every pending migration, as often as it is in the set. */
  lemma NilUpCommits(db: Db, ms: seq<Migration>, version: int, strict: bool)
    requires InTime(db, strict) && Up(db, Some(ms)).1.Ok?
    ensures PendingUp(ms, LoadApplied(db)).Some?
    ensures Commits(Up(db, Some(ms)).0.log, version)
            == Commits(db.log, version) + Entries(PendingUp(ms, LoadApplied(db)).value, version)
  {
    hide Up, InTime, Commits, Entries, PendingUp, LoadApplied, UpTrail, Pushed;
    var es := UpLeft(db, Some(ms), strict);
    CompleteTrail(PendingUp(ms, LoadApplied(db)).value, es, version);
    CommitsConcat(db.log, es, version);
  }

  lemma {:induction false} EntriesOnce(ms: seq<Migration>, m: Migration)
    requires Increasing(ms) && m in ms
    ensures Entries(ms, m.version) == 1
    decreases |ms|
  {
    var rest := ms[1..];
    if ms[0] == m {
      EntriesNone(rest, m.version);
    } else {
      assert m in rest;
      EntriesOnce(rest, m);
      var i :| 0 <= i < |rest| && rest[i] == m;
      assert ms[i + 1] == m;
    }
  }

  lemma {:induction false} EntriesNone(ms: seq<Migration>, version: int)
    requires forall m | m in ms :: m.version != version
    ensures Entries(ms, version) == 0
  {
    if ms != [] {
      EntriesNone(ms[1..], version);
    }
  }

  lemma {:induction false} EntriesConcat(a: seq<Migration>, b: seq<Migration>, version: int)
    ensures Entries(a + b, version) == Entries(a, version) + Entries(b, version)
  {
    if a == [] {
      assert a + b == b;
    } else {
      EntriesConcat(a[1..], b, version);
      assert (a + b)[1..] == a[1..] + b;
    }
  }

  lemma EntriesOne(m: Migration, version: int)
    ensures Entries([m], version) == Bit(m.version == version)
  {
    assert [m][1..] == [];
  }

  lemma {:induction false} EntriesOfInsert(m: Migration, s: seq<Migration>, version: int)
    ensures Entries(InsertMigration(m, s), version) == Entries(s, version) + Bit(m.version == version)
  {
    hide Entries;
    EntriesOne(m, version);
    if s != [] {
      var init, last := s[..|s| - 1], s[|s| - 1];
      assert s == init + [last];
      EntriesConcat(init, [last], version);
      EntriesConcat(s, [m], version);
      if last.version > m.version {
        EntriesOfInsert(m, init, version);
        EntriesConcat(InsertMigration(m, init), [last], version);
      }
    } else {
      EntriesConcat([], [m], version);
      assert [] + [m] == [m];
    }
  }

  /** How many up migrations of a set have a version. */
  function UpEntries(ms: seq<Migration>, version: int): nat {
    if ms == [] then 0
    else UpEntries(ms[..|ms| - 1], version)
         + if ms[|ms| - 1].dir == "up" && ms[|ms| - 1].version == version then 1 else 0
  }

  lemma {:induction false} PendingEntries(ms: seq<Migration>, version: int)
    ensures Entries(Pending(ms, map[]), version) == UpEntries(ms, version)
  {
    if ms != [] {
      var init, last := ms[..|ms| - 1], ms[|ms| - 1];
      PendingEntries(init, version);
      EntriesOne(last, version);
      EntriesConcat(Pending(init, map[]), Pending(ms, map[])[|Pending(init, map[])|..], version);
      assert Pending(ms, map[]) == Pending(init, map[]) + if last.dir == "up" then [last] else [];
    }
  }

  lemma {:induction false} SortedEntries(ms: seq<Migration>, version: int)
    ensures Entries(SortByVersion(ms), version) == Entries(ms, version)
  {
    hide Entries;
    if ms != [] {
      var init, last := ms[..|ms| - 1], ms[|ms| - 1];
      assert ms == init + [last];
      SortedEntries(init, version);
      EntriesOfInsert(last, SortByVersion(init), version);
      EntriesConcat(init, [last], version);
      EntriesOne(last, version);
    }
  }

  /** On an empty ledger a nil Up commits a version as often as the set has up migrations of it. */
  lemma FirstUpCommits(db: Db, ms: seq<Migration>, version: int)
    requires db.log == [] && db.now >= 0 && Up(db, Some(ms)).1.Ok?
    ensures Commits(Up(db, Some(ms)).0.log, version) == UpEntries(ms, version)
  {
    hide Up, Entries, UpEntries, Pending, SortByVersion;
    NilUpCommits(db, ms, version, false);
    NothingCounted(version);
    PendingEntries(ms, version);
    SortedEntries(Pending(ms, map[]), version);
    NothingApplied(db);
  }

  lemma NothingApplied(db: Db)
    requires db.log == []
    ensures LoadApplied(db) == [] && AppliedSet(LoadApplied(db)) == map[]
  {
  }
}
