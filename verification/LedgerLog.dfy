/**
 What the log of durable effects says about the ledger table. The success rows are a stack: recording a
 success pushes a row and reverting pops one. Reading the table in order gives that stack if the clock
 moves, or if the stack ascends by version.
 */
module LedgerLog {
  import opened Common
  import opened Ledger
  import opened LedgerTable

  function StackStep(stack: seq<Row>, e: Effect): seq<Row> {
    match e
    case Committed(_) => stack
    case Recorded(row) => if row.success then stack + [row] else stack
    case Reverted(_) => if stack == [] then [] else stack[..|stack| - 1]
  }

  /** The push history: a recorded success is pushed, a revert pops whatever is on top. */
  function Stack(log: seq<Effect>): seq<Row> {
    if log == [] then [] else StackStep(Stack(log[..|log| - 1]), log[|log| - 1])
  }

  predicate OnStack(log: seq<Effect>, version: int) {
    version in Versions(Stack(log))
  }

  ghost predicate Obeys(stack: seq<Row>, e: Effect) {
    match e
    case Committed(_) => true
    case Recorded(row) => row.version !in Versions(stack)
    case Reverted(m) => stack != [] && stack[|stack| - 1].version == m.version
  }

  /** Rows are recorded only for versions not on the stack, and only the top is reverted. */
  ghost predicate Disciplined(log: seq<Effect>) {
    log == [] || (Disciplined(log[..|log| - 1]) && Obeys(Stack(log[..|log| - 1]), log[|log| - 1]))
  }

  lemma Snoc(log: seq<Effect>, e: Effect)
    ensures RowsOf(log + [e]) == TableStep(RowsOf(log), e)
    ensures Stack(log + [e]) == StackStep(Stack(log), e)
    ensures Disciplined(log + [e]) <==> Disciplined(log) && Obeys(Stack(log), e)
  {
    assert (log + [e])[..|log|] == log;
  }

  /** In a disciplined log the success rows of the table, in storage order, are the stack. */
  lemma {:induction false} TableIsStack(log: seq<Effect>)
    requires Disciplined(log)
    ensures Successes(RowsOf(log)) == Stack(log)
  {
    if log != [] {
      var init := log[..|log| - 1];
      var rows := RowsOf(init);
      TableIsStack(init);
      TableKeyed(init);
      match log[|log| - 1]
      case Committed(_) =>
      case Recorded(row) =>
        hide Delete;
        DeleteFailure(rows, row.version);
        SuccessesLast(Delete(rows, row.version), row);
      case Reverted(m) =>
        hide Delete;
        DeleteTop(rows, m.version);
    }
  }

  // ------------------------------------------------------------------
  // Time

  /** Record times never go back; if strict, every one is later than those before it. */
  ghost predicate Timely(log: seq<Effect>, strict: bool) {
    forall i, j | 0 <= i < j < |log| && log[i].Recorded? && log[j].Recorded? ::
      log[i].row.appliedAt <= log[j].row.appliedAt && (strict ==> log[i].row.appliedAt < log[j].row.appliedAt)
  }

  /** The time of the latest record; the clock starts at 0. */
  function Latest(log: seq<Effect>): int {
    if log == [] then 0
    else
      var before, e := Latest(log[..|log| - 1]), log[|log| - 1];
      if e.Recorded? && e.row.appliedAt > before then e.row.appliedAt else before
  }

  lemma LatestSnoc(log: seq<Effect>, e: Effect)
    ensures Latest(log + [e]) == if e.Recorded? && e.row.appliedAt > Latest(log) then e.row.appliedAt else Latest(log)
  {
    assert (log + [e])[..|log|] == log;
  }

  /** Every record carries a time at which the clock has not gone back; if strict, it has moved. */
  ghost predicate Clocked(log: seq<Effect>, strict: bool) {
    log == [] || (Clocked(log[..|log| - 1], strict) && InClock(log[..|log| - 1], log[|log| - 1], strict))
  }

  ghost predicate InClock(log: seq<Effect>, e: Effect, strict: bool) {
    e.Recorded? ==> e.row.appliedAt >= Latest(log) && (strict ==> e.row.appliedAt > Latest(log))
  }

  lemma ClockedSnoc(log: seq<Effect>, e: Effect, strict: bool)
    ensures Clocked(log + [e], strict) <==> Clocked(log, strict) && InClock(log, e, strict)
  {
    assert (log + [e])[..|log|] == log;
  }

  lemma {:induction false} ClockedPrefix(log: seq<Effect>, es: seq<Effect>, strict: bool)
    requires Clocked(log + es, strict)
    ensures Clocked(log, strict)
    decreases |es|
  {
    if es == [] {
      assert log + es == log;
    } else {
      assert (log + es)[..|log + es| - 1] == log + es[..|es| - 1];
      ClockedPrefix(log, es[..|es| - 1], strict);
    }
  }

  lemma {:induction false} LatestBounds(log: seq<Effect>)
    ensures forall i | 0 <= i < |log| && log[i].Recorded? :: log[i].row.appliedAt <= Latest(log)
  {
    if log != [] {
      var init := log[..|log| - 1];
      LatestBounds(init);
      assert forall i | 0 <= i < |init| :: init[i] == log[i];
    }
  }

  /** One more record on time. */
  lemma TimelySnoc(log: seq<Effect>, e: Effect, strict: bool)
    requires Timely(log, strict)
    requires e.Recorded? ==> e.row.appliedAt >= Latest(log) && (strict ==> e.row.appliedAt > Latest(log))
    ensures Timely(log + [e], strict)
  {
    hide Latest;
    LatestBounds(log);
    var all := log + [e];
    forall i, j | 0 <= i < j < |all| && all[i].Recorded? && all[j].Recorded?
      ensures all[i].row.appliedAt <= all[j].row.appliedAt
      ensures strict ==> all[i].row.appliedAt < all[j].row.appliedAt
    {
      assert all[i] == log[i];
      if j < |log| { assert all[j] == log[j]; }
    }
  }

  lemma {:induction false} StackFromLog(log: seq<Effect>, r: Row)
    requires r in Stack(log)
    ensures Recorded(r) in log && r.success
  {
    var init := log[..|log| - 1];
    assert log == init + [log[|log| - 1]];
    if r in Stack(init) {
      StackFromLog(init, r);
    }
  }

  lemma {:induction false} StackInTime(log: seq<Effect>, strict: bool)
    requires Timely(log, strict)
    ensures forall i, j | 0 <= i < j < |Stack(log)| ::
              Stack(log)[i].appliedAt <= Stack(log)[j].appliedAt
              && (strict ==> Stack(log)[i].appliedAt < Stack(log)[j].appliedAt)
  {
    if log != [] {
      var n := |log| - 1;
      StackInTime(log[..n], strict);
      if log[n].Recorded? {
        forall r | r in Stack(log[..n])
          ensures r.appliedAt <= log[n].row.appliedAt && (strict ==> r.appliedAt < log[n].row.appliedAt)
        {
          StackFromLog(log[..n], r);
          var i :| 0 <= i < n && log[..n][i] == Recorded(r);
          assert log[i] == Recorded(r);
        }
      }
    }
  }

  /**
   Reading the success rows in (applied_at, version) order gives the stack from bottom to top,
   if the clock moves between records or if the stack ascends by version.
   */
  lemma ReadsStack(log: seq<Effect>, strict: bool)
    requires Disciplined(log) && Timely(log, strict)
    requires strict || Ascending(Versions(Stack(log)))
    ensures Successes(OrderBy(RowsOf(log))) == Stack(log)
  {
    TableIsStack(log);
    SuccessesOrdered(RowsOf(log));
    StackInTime(log, strict);
    forall i, j | 0 <= i < j < |Stack(log)| ensures RowLeq(Stack(log)[i], Stack(log)[j]) {
      if !strict {
        assert Versions(Stack(log))[i] < Versions(Stack(log))[j];
      }
    }
    AlreadyOrdered(Stack(log));
  }

  // ------------------------------------------------------------------
  // What one Up can leave behind

  ghost predicate IsRecord(e: Effect, m: Migration, success: bool) {
    e.Recorded? && e.row == Row(m.version, m.name, m.checksum, e.row.appliedAt, success)
  }

  /** Some pending migrations, in order, each committed and recorded; then at most one cut short. */
  ghost predicate UpTrail(p: seq<Migration>, es: seq<Effect>)
    decreases |p|
  {
    es == [] ||
    (p != [] &&
     (|| (|es| == 1 && (es[0] == Committed(p[0]) || IsRecord(es[0], p[0], false)))
      || (|es| == 2 && es[0] == Committed(p[0]) && IsRecord(es[1], p[0], false))
      || (|es| >= 2 && es[0] == Committed(p[0]) && IsRecord(es[1], p[0], true) && UpTrail(p[1..], es[2..]))))
  }

  predicate IsPush(e: Effect) {
    e.Recorded? && e.row.success
  }

  /** The rows a trail pushes. */
  function Pushed(es: seq<Effect>): seq<Row> {
    if es == [] then [] else (if IsPush(es[0]) then [es[0].row] else []) + Pushed(es[1..])
  }

  lemma PushedPair(es: seq<Effect>)
    requires |es| >= 2 && es[0].Committed?
    ensures Pushed(es) == (if IsPush(es[1]) then [es[1].row] else []) + Pushed(es[2..])
    ensures es == [es[0], es[1]] + es[2..]
  {
    assert es[1..][1..] == es[2..];
  }

  lemma PushedNone(es: seq<Effect>)
    requires |es| <= 2 && forall e | e in es :: !IsPush(e)
    ensures Pushed(es) == []
  {
    if |es| > 0 { PushedNone(es[1..]); }
  }

  lemma PushFirst(stack: seq<Row>, es: seq<Effect>)
    requires es != [] && !es[0].Reverted?
    ensures StackStep(stack, es[0]) + Pushed(es[1..]) == stack + Pushed(es)
  {
    if IsPush(es[0]) {
      assert stack + [es[0].row] + Pushed(es[1..]) == stack + ([es[0].row] + Pushed(es[1..]));
    }
  }

  /** Without a revert the stack only grows. */
  lemma {:induction false} StackGrows(log: seq<Effect>, es: seq<Effect>)
    requires forall e | e in es :: !e.Reverted?
    ensures Stack(log + es) == Stack(log) + Pushed(es)
    decreases |es|
  {
    if es == [] {
      assert log + es == log;
    } else {
      hide Stack, RowsOf, Disciplined, TableStep, Obeys;
      Snoc(log, es[0]);
      StackGrows(log + [es[0]], es[1..]);
      Regroup(log, es);
      PushFirst(Stack(log), es);
    }
  }

  lemma Regroup(log: seq<Effect>, es: seq<Effect>)
    requires es != []
    ensures log + [es[0]] + es[1..] == log + es
    ensures |es| >= 2 ==> log + [es[0]] + [es[1]] + es[2..] == log + es
  {
  }

  /** The rows pushed are those of the first migrations of the list. */
  ghost predicate PushedFor(rows: seq<Row>, p: seq<Migration>) {
    |rows| <= |p| && forall i | 0 <= i < |rows| :: rows[i] == RowFor(p[i], rows[i].appliedAt, true)
  }

  lemma FirstPair(p: seq<Migration>, es: seq<Effect>)
    requires UpTrail(p, es) && es != []
    ensures p != []
    ensures |es| == 1 ==> !IsPush(es[0]) && (es[0] == Committed(p[0]) || IsRecord(es[0], p[0], false))
    ensures |es| >= 2 ==> es[0] == Committed(p[0]) && IsRecord(es[1], p[0], IsPush(es[1]))
    ensures |es| >= 2 && IsPush(es[1]) ==> UpTrail(p[1..], es[2..])
    ensures |es| >= 2 && !IsPush(es[1]) ==> |es| == 2
  {
  }

  /** A trail pushes a prefix of the list, in order. */
  lemma {:induction false} TrailPushes(p: seq<Migration>, es: seq<Effect>)
    requires UpTrail(p, es)
    ensures PushedFor(Pushed(es), p)
    decreases |p|
  {
    if |es| >= 2 && IsPush(es[1]) {
      PushedPair(es);
      TrailPushes(p[1..], es[2..]);
      var rows := Pushed(es);
      forall i | 0 <= i < |rows| ensures rows[i] == RowFor(p[i], rows[i].appliedAt, true) {
        if i > 0 { assert p[i] == p[1..][i - 1]; }
      }
    } else {
      PushedNone(es);
    }
  }

  /** A trail commits what it pushes and at most one migration more, and reverts nothing. */
  lemma {:induction false} TrailCommits(p: seq<Migration>, es: seq<Effect>)
    requires UpTrail(p, es)
    ensures |Pushed(es)| <= |p|
    ensures forall i | 0 <= i < |Pushed(es)| :: Committed(p[i]) in es
    ensures forall m | Committed(m) in es :: m in p[..if |Pushed(es)| < |p| then |Pushed(es)| + 1 else |p|]
    ensures forall e | e in es :: !e.Reverted?
    decreases |p|
  {
    if |es| >= 2 && IsPush(es[1]) {
      PushedPair(es);
      TrailCommits(p[1..], es[2..]);
      assert p == [p[0]] + p[1..];
      forall i | 0 <= i < |Pushed(es)| ensures Committed(p[i]) in es {
        if i > 0 { assert p[i] == p[1..][i - 1]; }
      }
    } else {
      PushedNone(es);
    }
  }

  /** A trail of pending migrations keeps the discipline. */
  lemma {:induction false} TrailDisciplined(log: seq<Effect>, p: seq<Migration>, es: seq<Effect>)
    requires Disciplined(log) && Increasing(p) && UpTrail(p, es)
    requires forall m | m in p :: !OnStack(log, m.version)
    ensures Disciplined(log + es)
    decreases |p|
  {
    if es == [] {
      assert log + es == log;
    } else {
      hide Stack, Disciplined, UpTrail;
      FirstPair(p, es);
      Regroup(log, es);
      assert p[0] in p;
      Snoc(log, es[0]);
      if |es| == 1 {
        assert es == [es[0]];
      } else {
        var log2 := log + [es[0]] + [es[1]];
        Snoc(log + [es[0]], es[1]);
        if IsPush(es[1]) {
          StillPending(log, log2, p, es[1].row);
          TrailDisciplined(log2, p[1..], es[2..]);
        } else {
          assert log2 + es[2..] == log2;
        }
      }
    }
  }

  lemma StillPending(log: seq<Effect>, log2: seq<Effect>, p: seq<Migration>, row: Row)
    requires Increasing(p) && p != [] && row.version == p[0].version && Stack(log2) == Stack(log) + [row]
    requires forall m | m in p :: !OnStack(log, m.version)
    ensures Increasing(p[1..]) && forall m | m in p[1..] :: !OnStack(log2, m.version)
  {
    assert Versions(Stack(log2)) == Versions(Stack(log)) + [p[0].version];
    forall m | m in p[1..] ensures !OnStack(log2, m.version) {
      assert m in p;
    }
  }
}
