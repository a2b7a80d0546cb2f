/** A history for every chain of sections, and what it says about interleavings. */
module SerialHistory {
  import opened Common
  import opened Ledger
  import opened LedgerTable
  import opened LedgerLog
  import opened LedgerRuns
  import opened LedgerCounts
  import opened LedgerHistory
  import opened SerialRuns
  import AdvisoryLock

  type Setup = AdvisoryLock.Setup

  // ------------------------------------------------------------------
  // Answers of the database that make one run leave what a section left

  const WORKS := Event(Done, 0)
  const FAILS := Event(Failed, 0)

  /** The record of e works, at its time, when the clock shows now. */
  function RecordAt(e: Effect, now: int): Event {
    if e.Recorded? && e.row.appliedAt >= now then Event(Done, e.row.appliedAt - now) else WORKS
  }

  /** The answers while applying p that leave es; the clock shows now. */
  function ApplyScript(p: seq<Migration>, es: seq<Effect>, now: int): seq<Event> {
    if es == [] then (if p == [] then [] else [FAILS])
    else if |es| >= 2 then
      if IsPush(es[1]) then
        [WORKS, WORKS, WORKS, RecordAt(es[1], now)]
        + ApplyScript(if p == [] then [] else p[1..], es[2..], es[1].row.appliedAt)
      else [WORKS, WORKS, Event(Lost, 0), RecordAt(es[1], now)]
    else if es[0].Committed? then [WORKS, WORKS, WORKS, FAILS]
    else [WORKS, FAILS, WORKS, RecordAt(es[0], now)]
  }

  /** The answers to a whole Up or Down that leaves es; one that leaves nothing fails to get the lock. */
  function SectionScript(setup: Setup, log: seq<Effect>, sec: Section): seq<Event>
    requires sec.i < |setup.sets|
  {
    if sec.es == [] then [FAILS]
    else if sec.down then
      [WORKS, WORKS, WORKS, WORKS]
      + (if BlankDown(setup.sets[sec.i], log) then [] else [WORKS]) + [WORKS, WORKS, WORKS]
    else
      [WORKS, WORKS, WORKS] + ApplyScript(Found(setup.sets[sec.i], log).GetOr([]), sec.es, Latest(log)) + [WORKS]
  }

  predicate BlankDown(ms: seq<Migration>, log: seq<Effect>) {
    var down := AdvisoryLock.DownOf(ms, log);
    down.Some? && TrimSpace(down.value.sql) == ""
  }

  lemma CallIs(db: Db, e: Option<Effect>, ev: Event, rest: seq<Event>)
    requires db.script == [ev] + rest
    ensures Next(db) == ev
    ensures Call(db, e)
            == (Db(if e.Some? && TakesEffect(ev.reply) then db.log + [e.value] else db.log, db.now + ev.tick, rest),
                Told(ev.reply))
  {
  }

  /** Commit and record. */
  lemma PairScripted(db: Db, m: Migration, at: int, rest: seq<Event>)
    requires at >= db.now
    requires var e := Recorded(RowFor(m, at, true)); db.script == [WORKS, WORKS, WORKS, RecordAt(e, db.now)] + rest
    ensures ApplyOne(db, m) == (Db(db.log + [Committed(m), Recorded(RowFor(m, at, true))], at, rest), Ok)
  {
    hide Call, Next;
    var last := RecordAt(Recorded(RowFor(m, at, true)), db.now);
    assert db.script == [WORKS] + ([WORKS, WORKS, last] + rest);
    CallIs(db, None, WORKS, [WORKS, WORKS, last] + rest);
    var begun := Call(db, None).0;
    assert begun.script == [WORKS] + ([WORKS, last] + rest);
    CallIs(begun, None, WORKS, [WORKS, last] + rest);
    var executed := Call(begun, None).0;
    assert executed.script == [WORKS] + ([last] + rest);
    CallIs(executed, Some(Committed(m)), WORKS, [last] + rest);
    var committed := Call(executed, Some(Committed(m))).0;
    CallIs(committed, Some(Recorded(RowFor(m, at, true))), last, rest);
    assert db.log + [Committed(m)] + [Recorded(RowFor(m, at, true))] == db.log + [Committed(m), Recorded(RowFor(m, at, true))];
  }

  /** A commit whose record fails. */
  lemma CommitScripted(db: Db, m: Migration, rest: seq<Event>)
    requires db.script == [WORKS, WORKS, WORKS, FAILS] + rest
    ensures ApplyOne(db, m) == (Db(db.log + [Committed(m)], db.now, rest), Err)
  {
    hide Call, Next;
    assert db.script == [WORKS] + ([WORKS, WORKS, FAILS] + rest);
    CallIs(db, None, WORKS, [WORKS, WORKS, FAILS] + rest);
    var begun := Call(db, None).0;
    assert begun.script == [WORKS] + ([WORKS, FAILS] + rest);
    CallIs(begun, None, WORKS, [WORKS, FAILS] + rest);
    var executed := Call(begun, None).0;
    assert executed.script == [WORKS] + ([FAILS] + rest);
    CallIs(executed, Some(Committed(m)), WORKS, [FAILS] + rest);
    var committed := Call(executed, Some(Committed(m))).0;
    CallIs(committed, Some(Recorded(RowFor(m, db.now, true))), FAILS, rest);
  }

  /** A commit whose answer is lost, and the failure row. */
  lemma LostScripted(db: Db, m: Migration, at: int, rest: seq<Event>)
    requires at >= db.now
    requires var e := Recorded(RowFor(m, at, false)); db.script == [WORKS, WORKS, Event(Lost, 0), RecordAt(e, db.now)] + rest
    ensures ApplyOne(db, m) == (Db(db.log + [Committed(m), Recorded(RowFor(m, at, false))], at, rest), Err)
  {
    hide Call, Next;
    var last := RecordAt(Recorded(RowFor(m, at, false)), db.now);
    assert db.script == [WORKS] + ([WORKS, Event(Lost, 0), last] + rest);
    CallIs(db, None, WORKS, [WORKS, Event(Lost, 0), last] + rest);
    var begun := Call(db, None).0;
    assert begun.script == [WORKS] + ([Event(Lost, 0), last] + rest);
    CallIs(begun, None, WORKS, [Event(Lost, 0), last] + rest);
    var executed := Call(begun, None).0;
    assert executed.script == [Event(Lost, 0)] + ([last] + rest);
    CallIs(executed, Some(Committed(m)), Event(Lost, 0), [last] + rest);
    var committed := Call(executed, Some(Committed(m))).0;
    CallIs(committed, Some(Recorded(RowFor(m, at, false))), last, rest);
    assert db.log + [Committed(m)] + [Recorded(RowFor(m, at, false))] == db.log + [Committed(m), Recorded(RowFor(m, at, false))];
  }

  /** A script that fails, and the failure row. */
  lemma FailureScripted(db: Db, m: Migration, at: int, rest: seq<Event>)
    requires at >= db.now
    requires var e := Recorded(RowFor(m, at, false)); db.script == [WORKS, FAILS, WORKS, RecordAt(e, db.now)] + rest
    ensures ApplyOne(db, m) == (Db(db.log + [Recorded(RowFor(m, at, false))], at, rest), Err)
  {
    hide Call, Next;
    var last := RecordAt(Recorded(RowFor(m, at, false)), db.now);
    assert db.script == [WORKS] + ([FAILS, WORKS, last] + rest);
    CallIs(db, None, WORKS, [FAILS, WORKS, last] + rest);
    var begun := Call(db, None).0;
    assert begun.script == [FAILS] + ([WORKS, last] + rest);
    CallIs(begun, None, FAILS, [WORKS, last] + rest);
    var executed := Call(begun, None).0;
    assert executed.script == [WORKS] + ([last] + rest);
    CallIs(executed, None, WORKS, [last] + rest);
    var rolledBack := Call(executed, None).0;
    CallIs(rolledBack, Some(Recorded(RowFor(m, at, false))), last, rest);
  }

  lemma BeginFails(db: Db, m: Migration, rest: seq<Event>)
    requires db.script == [FAILS] + rest
    ensures ApplyOne(db, m) == (Db(db.log, db.now, rest), Err)
  {
    hide Call;
    CallIs(db, None, FAILS, rest);
  }

  /** One effect, or two without a success record, and no more. */
  lemma EndScripted(db: Db, p: seq<Migration>, es: seq<Effect>, rest: seq<Event>)
    requires p != [] && UpTrail(p, es) && (|es| >= 2 ==> !IsPush(es[1])) && Clocked(db.log + es, false)
    requires db.script == ApplyScript(p, es, db.now) + rest && Latest(db.log) == db.now
    ensures ApplyOne(db, p[0]) == (Db(db.log + es, Latest(db.log + es), rest), Err)
  {
    hide Call, Next, Clocked, Latest, ApplyOne, UpTrail;
    if es == [] {
      assert db.log + es == db.log;
      BeginFails(db, p[0], rest);
    } else {
      FirstPair(p, es);
      LatestSnoc(db.log, es[0]);
      if |es| == 1 {
        assert es == [es[0]];
        ClockedSnoc(db.log, es[0], false);
        if es[0].Committed? {
          CommitScripted(db, p[0], rest);
        } else {
          FailureScripted(db, p[0], es[0].row.appliedAt, rest);
        }
      } else {
        assert es == [es[0], es[1]] && db.log + es == db.log + [es[0]] + [es[1]];
        ClockedSnoc(db.log + [es[0]], es[1], false);
        LatestSnoc(db.log + [es[0]], es[1]);
        LostScripted(db, p[0], es[1].row.appliedAt, rest);
      }
    }
  }

  lemma {:induction false} ApplyScripted(db: Db, p: seq<Migration>, es: seq<Effect>, rest: seq<Event>)
    requires UpTrail(p, es) && Clocked(db.log + es, false)
    requires db.script == ApplyScript(p, es, db.now) + rest && Latest(db.log) == db.now
    ensures var (d, s) := ApplyAll(db, p);
            d == Db(db.log + es, Latest(db.log + es), rest) && (s.Ok? || s.Err?)
    decreases |p|
  {
    hide Clocked, Latest, ApplyOne, UpTrail;
    if p == [] {
      NoTrailOfNothing(es);
      assert db.log + es == db.log;
    } else if |es| >= 2 && IsPush(es[1]) {
      FirstPair(p, es);
      var e, at := es[1], es[1].row.appliedAt;
      var tail := ApplyScript(p[1..], es[2..], at);
      ClockedTwo(db.log, es);
      assert db.script == [WORKS, WORKS, WORKS, RecordAt(e, db.now)] + (tail + rest);
      PairScripted(db, p[0], at, tail + rest);
      var d := ApplyOne(db, p[0]).0;
      assert d.log + es[2..] == db.log + es;
      ApplyScripted(d, p[1..], es[2..], rest);
    } else {
      EndScripted(db, p, es, rest);
    }
  }

  lemma NoTrailOfNothing(es: seq<Effect>)
    requires UpTrail([], es)
    ensures es == []
  {
  }

  lemma ClockedTwo(log: seq<Effect>, es: seq<Effect>)
    requires |es| >= 2 && Clocked(log + es, false) && es[0].Committed? && es[1].Recorded?
    ensures es[1].row.appliedAt >= Latest(log) && Latest(log + [es[0], es[1]]) == es[1].row.appliedAt
    ensures log + [es[0], es[1]] + es[2..] == log + es
  {
    assert log + es == log + [es[0]] + [es[1]] + es[2..];
    assert log + [es[0]] + [es[1]] == log + [es[0], es[1]];
    ClockedPrefix(log + [es[0]] + [es[1]], es[2..], false);
    ClockedSnoc(log + [es[0]], es[1], false);
    LatestSnoc(log, es[0]);
    LatestSnoc(log + [es[0]], es[1]);
  }

  // ------------------------------------------------------------------
  // One section

  /** The run that a section is. */
  function OpOf(setup: Setup, sec: Section): Op
    requires sec.i < |setup.sets|
  {
    if sec.down then RunDown(true, Some(setup.sets[sec.i])) else RunUp(Some(setup.sets[sec.i]))
  }

  function DbAt(log: seq<Effect>, script: seq<Event>): Db {
    Db(log, Latest(log), script)
  }

  lemma QuietScripted(setup: Setup, log: seq<Effect>, sec: Section, rest: seq<Event>)
    requires sec.i < |setup.sets| && sec.es == []
    ensures Do(DbAt(log, SectionScript(setup, log, sec) + rest), OpOf(setup, sec)) == DbAt(log + sec.es, rest)
  {
    hide Call, Latest;
    assert log + sec.es == log;
    CallIs(DbAt(log, [FAILS] + rest), None, FAILS, rest);
  }

  lemma UpScripted(setup: Setup, log: seq<Effect>, sec: Section, rest: seq<Event>)
    requires sec.i < |setup.sets| && !sec.down && sec.es != [] && Leaves(setup.sets[sec.i], log, false, sec.es)
    requires Clocked(log + sec.es, false)
    ensures Do(DbAt(log, SectionScript(setup, log, sec) + rest), OpOf(setup, sec)) == DbAt(log + sec.es, rest)
  {
    hide Call, Latest, Clocked, UpTrail, PendingUp, OrderBy, RowsOf, ApplyScript, ApplyAll;
    var ms := setup.sets[sec.i];
    var p := Found(ms, log).value;
    var body := ApplyScript(p, sec.es, Latest(log));
    var db := DbAt(log, SectionScript(setup, log, sec) + rest);
    assert db.script == [WORKS] + ([WORKS, WORKS] + body + [WORKS] + rest);
    CallIs(db, None, WORKS, [WORKS, WORKS] + body + [WORKS] + rest);
    var locked := Call(db, None).0;
    assert locked.script == [WORKS] + ([WORKS] + body + [WORKS] + rest);
    CallIs(locked, None, WORKS, [WORKS] + body + [WORKS] + rest);
    var ensured := Call(locked, None).0;
    assert ensured.script == [WORKS] + (body + ([WORKS] + rest));
    CallIs(ensured, None, WORKS, body + ([WORKS] + rest));
    var selected := Call(ensured, None).0;
    ApplyScripted(selected, p, sec.es, [WORKS] + rest);
    CallIs(ApplyAll(selected, p).0, None, WORKS, rest);
  }

  /** The top row is there exactly once. */
  lemma {:induction false} CountKeyed(rows: seq<Row>, r: Row)
    requires Keyed(rows) && r in rows
    ensures CountVersion(rows, r.version) == 1
  {
    var init, last := rows[..|rows| - 1], rows[|rows| - 1];
    assert rows == init + [last];
    if last == r {
      assert forall x | x in init :: x.version != r.version;
      CountAbsent(init, r.version);
    } else {
      assert r in init;
      CountKeyed(init, r);
      var i :| 0 <= i < |init| && init[i] == r;
      assert rows[i] == r;
    }
  }

  lemma TopCounted(ms: seq<Migration>, log: seq<Effect>)
    requires AdvisoryLock.DownOf(ms, log).Some?
    ensures var applied := Successes(OrderBy(RowsOf(log)));
            var m := AdvisoryLock.DownOf(ms, log).value;
            && applied != [] && Find(ms, applied[|applied| - 1].version, "down") == Some(m)
            && CountVersion(RowsOf(log), m.version) == 1
  {
    hide Find, CountVersion, RowsOf;
    var applied := Successes(OrderBy(RowsOf(log)));
    var top := applied[|applied| - 1];
    FindMeaning(ms, top.version, "down");
    TableKeyed(log);
    SuccessesMembers(OrderBy(RowsOf(log)));
    OrderBySorts(RowsOf(log));
    assert top in applied;
    CountKeyed(RowsOf(log), top);
  }

  lemma DownScripted(setup: Setup, log: seq<Effect>, sec: Section, rest: seq<Event>)
    requires sec.i < |setup.sets| && sec.down && sec.es != [] && Leaves(setup.sets[sec.i], log, true, sec.es)
    ensures Do(DbAt(log, SectionScript(setup, log, sec) + rest), OpOf(setup, sec)) == DbAt(log + sec.es, rest)
  {
    hide Call, Latest, OrderBy, RowsOf, Find, CountVersion, TrimSpace, Successes, RevertOne;
    var ms := setup.sets[sec.i];
    TopCounted(ms, log);
    var m := AdvisoryLock.DownOf(ms, log).value;
    var blank := TrimSpace(m.sql) == "";
    var tail := [WORKS] + (if blank then [] else [WORKS]) + [WORKS, WORKS] + ([WORKS] + rest);
    var db := DbAt(log, SectionScript(setup, log, sec) + rest);
    assert db.script == [WORKS] + ([WORKS, WORKS] + tail);
    CallIs(db, None, WORKS, [WORKS, WORKS] + tail);
    var locked := Call(db, None).0;
    assert locked.script == [WORKS] + ([WORKS] + tail);
    CallIs(locked, None, WORKS, [WORKS] + tail);
    var ensured := Call(locked, None).0;
    CallIs(ensured, None, WORKS, tail);
    var selected := Call(ensured, None).0;
    RevertScripted(selected, m, [WORKS] + rest);
    LatestSnoc(log, Reverted(m));
    CallIs(RevertOne(selected, m).0, None, WORKS, rest);
  }

  lemma RevertScripted(db: Db, m: Migration, rest: seq<Event>)
    requires CountVersion(RowsOf(db.log), m.version) == 1
    requires db.script == [WORKS] + (if TrimSpace(m.sql) == "" then [] else [WORKS]) + [WORKS, WORKS] + rest
    ensures RevertOne(db, m) == (Db(db.log + [Reverted(m)], db.now, rest), Ok)
  {
    hide Call, RowsOf, CountVersion, TrimSpace;
    var exec := if TrimSpace(m.sql) == "" then [] else [WORKS];
    assert db.script == [WORKS] + (exec + [WORKS, WORKS] + rest);
    CallIs(db, None, WORKS, exec + [WORKS, WORKS] + rest);
    var begun := Call(db, None).0;
    if exec != [] {
      assert begun.script == [WORKS] + ([WORKS, WORKS] + rest);
      CallIs(begun, None, WORKS, [WORKS, WORKS] + rest);
    } else {
      assert begun.script == [WORKS, WORKS] + rest;
    }
    var executed := if exec == [] then begun else Call(begun, None).0;
    assert executed.script == [WORKS] + ([WORKS] + rest);
    CallIs(executed, None, WORKS, [WORKS] + rest);
    CallIs(Call(executed, None).0, Some(Reverted(m)), WORKS, rest);
  }

  lemma SectionScripted(setup: Setup, log: seq<Effect>, sec: Section, rest: seq<Event>)
    requires sec.i < |setup.sets| && Leaves(setup.sets[sec.i], log, sec.down, sec.es) && Clocked(log + sec.es, false)
    ensures Do(DbAt(log, SectionScript(setup, log, sec) + rest), OpOf(setup, sec)) == DbAt(log + sec.es, rest)
  {
    hide Do, SectionScript, Latest, Clocked;
    if sec.es == [] {
      QuietScripted(setup, log, sec, rest);
    } else if sec.down {
      DownScripted(setup, log, sec, rest);
    } else {
      UpScripted(setup, log, sec, rest);
    }
  }

  // ------------------------------------------------------------------
  // The history of a chain

  ghost predicate InSetup(setup: Setup, secs: seq<Section>) {
    forall sec | sec in secs :: sec.i < |setup.sets|
  }

  lemma {:induction false} ChainInSetup(setup: Setup, secs: seq<Section>)
    requires Chain(setup, secs)
    ensures InSetup(setup, secs)
  {
    if secs != [] {
      ChainInSetup(setup, secs[..|secs| - 1]);
      assert secs == secs[..|secs| - 1] + [secs[|secs| - 1]];
    }
  }

  lemma {:induction false} ChainAt(setup: Setup, secs: seq<Section>, k: nat)
    requires Chain(setup, secs) && k < |secs|
    ensures secs[k].i < |setup.sets| && Leaves(setup.sets[secs[k].i], LogOf(secs[..k]), secs[k].down, secs[k].es)
    ensures LogOf(secs[..k + 1]) == LogOf(secs[..k]) + secs[k].es
  {
    hide Leaves;
    assert secs[..k + 1][..k] == secs[..k];
    if k < |secs| - 1 {
      var init := secs[..|secs| - 1];
      ChainAt(setup, init, k);
      assert init[..k] == secs[..k] && init[k] == secs[k];
    }
  }

  lemma {:induction false} ClockedAt(secs: seq<Section>, k: nat)
    requires Clocked(LogOf(secs), false) && k <= |secs|
    ensures Clocked(LogOf(secs[..k]), false)
    decreases |secs|
  {
    hide Clocked;
    if k == |secs| {
      assert secs[..k] == secs;
    } else {
      var init := secs[..|secs| - 1];
      ClockedPrefix(LogOf(init), secs[|secs| - 1].es, false);
      ClockedAt(init, k);
      assert init[..k] == secs[..k];
    }
  }

  /** The answers to the sections from the k-th on. */
  function ScriptFrom(setup: Setup, secs: seq<Section>, k: nat): seq<Event>
    requires k <= |secs|
    decreases |secs| - k
  {
    if k == |secs| then []
    else
      (if secs[k].i < |setup.sets| then SectionScript(setup, LogOf(secs[..k]), secs[k]) else [])
      + ScriptFrom(setup, secs, k + 1)
  }

  ghost function OpsOf(setup: Setup, secs: seq<Section>): (ops: seq<Op>)
    requires InSetup(setup, secs)
    ensures |ops| == |secs| && forall k | 0 <= k < |secs| :: secs[k] in secs && ops[k] == OpOf(setup, secs[k])
  {
    seq(|secs|, k requires 0 <= k < |secs| => assert secs[k] in secs; OpOf(setup, secs[k]))
  }

  ghost function DbsOf(setup: Setup, secs: seq<Section>): (dbs: seq<Db>)
    ensures |dbs| == |secs| + 1
    ensures forall k | 0 <= k <= |secs| :: dbs[k] == DbAt(LogOf(secs[..k]), ScriptFrom(setup, secs, k))
  {
    seq(|secs| + 1, k requires 0 <= k <= |secs| => DbAt(LogOf(secs[..k]), ScriptFrom(setup, secs, k)))
  }

  function Returned(db: Db, op: Op): Status {
    match op
    case RunUp(loaded) => Up(db, loaded).1
    case RunDown(allowed, loaded) => Down(db, allowed, loaded).1
  }

  ghost function HistoryOf(setup: Setup, secs: seq<Section>): (h: History)
    requires InSetup(setup, secs)
    ensures h.dbs == DbsOf(setup, secs) && h.ops == OpsOf(setup, secs) && |h.returned| == |secs|
    ensures forall k | 0 <= k < |secs| :: h.returned[k] == Returned(h.dbs[k], h.ops[k])
  {
    var dbs, ops := DbsOf(setup, secs), OpsOf(setup, secs);
    History(dbs, seq(|secs|, k requires 0 <= k < |secs| => Returned(dbs[k], ops[k])), ops)
  }

  lemma StepHappened(h: History, k: nat)
    requires |h.dbs| == |h.ops| + 1 && |h.returned| == |h.ops| && k < |h.ops|
    requires Do(h.dbs[k], h.ops[k]) == h.dbs[k + 1] && h.returned[k] == Returned(h.dbs[k], h.ops[k])
    ensures h.Happened(k)
  {
    hide Up, Down;
  }

  lemma ChainIsHistory(setup: Setup, secs: seq<Section>)
    requires Chain(setup, secs) && Clocked(LogOf(secs), false)
    ensures InSetup(setup, secs) && HistoryOf(setup, secs).Valid()
    ensures HistoryOf(setup, secs).dbs[|secs|].log == LogOf(secs)
  {
    hide Do, Returned, Clocked, Leaves, SectionScript, Chain, Latest, InSetup, Up, Down;
    ChainInSetup(setup, secs);
    var h := HistoryOf(setup, secs);
    forall k | 0 <= k < |secs| ensures h.Happened(k) {
      ChainAt(setup, secs, k);
      ClockedAt(secs, k + 1);
      SectionScripted(setup, LogOf(secs[..k]), secs[k], ScriptFrom(setup, secs, k + 1));
      StepHappened(h, k);
    }
    assert secs[..|secs|] == secs;
    StartsEmpty(setup, secs);
  }

  lemma StartsEmpty(setup: Setup, secs: seq<Section>)
    ensures DbsOf(setup, secs)[0] == Start(DbsOf(setup, secs)[0].script)
  {
    assert secs[..0] == [];
  }

  // ------------------------------------------------------------------
  // Interleavings are serial

  /** Each run of the history is an Up or a Down of one of the Runners, with its migrations. */
  ghost predicate RunsOf(setup: Setup, h: History) {
    forall op | op in h.ops :: exists i :: 0 <= i < |setup.sets| && op.loaded == Some(setup.sets[i])
  }

  lemma RunsOfSections(setup: Setup, secs: seq<Section>, ups: bool)
    requires InSetup(setup, secs) && forall sec | sec in secs && ups :: !sec.down
    ensures RunsOf(setup, HistoryOf(setup, secs)) && (ups ==> HistoryOf(setup, secs).OnlyUps())
  {
    hide DbsOf, Returned;
    var ops := OpsOf(setup, secs);
    forall op | op in ops
      ensures exists i :: 0 <= i < |setup.sets| && op.loaded == Some(setup.sets[i])
      ensures ups ==> op.RunUp?
    {
      var k :| 0 <= k < |ops| && ops[k] == op;
      assert secs[k] in secs && op.loaded == Some(setup.sets[secs[k].i]);
    }
  }

  /**
   Whatever Runners of distinct pools do on any interleaving, their log is that of a history of their
   Ups and Downs one after the other, of Ups alone if nobody does a Down.
   */
  lemma InterleavingsAreSerial(setup: Setup, actions: seq<AdvisoryLock.Action>) returns (h: History)
    requires AdvisoryLock.Proper(setup) && Distinct(setup.pools) && AdvisoryLock.PlayAll(setup, actions).Some?
    ensures h.Valid() && RunsOf(setup, h) && (AdvisoryLock.UpsOnly(actions) ==> h.OnlyUps())
    ensures h.dbs[|h.ops|].log == AdvisoryLock.PlayAll(setup, actions).value.log
  {
    hide AdvisoryLock.PlayAll, Distinct, Chain, Clocked, LogOf, RunsOf, InSetup;
    var ups := AdvisoryLock.UpsOnly(actions);
    var secs := Sections(setup, actions, ups);
    ChainIsHistory(setup, secs);
    h := HistoryOf(setup, secs);
    RunsOfSections(setup, secs, ups);
  }

  /** All Runners have the same migrations. */
  ghost predicate SameSet(setup: Setup, ms: seq<Migration>) {
    UniqueSet(ms) && forall i | 0 <= i < |setup.sets| :: setup.sets[i] == ms
  }

  lemma OneSetHistory(setup: Setup, h: History, ms: seq<Migration>)
    requires RunsOf(setup, h) && SameSet(setup, ms)
    ensures h.OneSet(ms)
  {
    hide UniqueSet;
    forall op | op in h.ops ensures Uses(op, ms) {
      var i :| 0 <= i < |setup.sets| && op.loaded == Some(setup.sets[i]);
    }
  }

  /**
   Crash safety on every interleaving of concurrent Ups with one set, failures, lost answers and deaths
   included: what is recorded is a prefix of the set, all of it was committed, and only the first
   pending version can be committed and unrecorded.
   */
  lemma ConcurrentCrashSafety(setup: Setup, actions: seq<AdvisoryLock.Action>, ms: seq<Migration>)
    requires AdvisoryLock.Proper(setup) && Distinct(setup.pools) && AdvisoryLock.PlayAll(setup, actions).Some?
    requires SameSet(setup, ms) && AdvisoryLock.UpsOnly(actions)
    ensures var log := AdvisoryLock.PlayAll(setup, actions).value.log; AtPrefix(ms, log) && OneGap(ms, log)
  {
    hide AdvisoryLock.PlayAll, Distinct, AtPrefix, OneGap, UniqueSet, Up, Down, Stack;
    var h := InterleavingsAreSerial(setup, actions);
    OneSetHistory(setup, h, ms);
    CrashSafety(h, ms, |h.ops|);
  }

  /** And with Downs the table read back is at every point the first versions of the set. */
  lemma ConcurrentPrefix(setup: Setup, actions: seq<AdvisoryLock.Action>, ms: seq<Migration>)
    requires AdvisoryLock.Proper(setup) && Distinct(setup.pools) && AdvisoryLock.PlayAll(setup, actions).Some?
    requires SameSet(setup, ms)
    ensures var log := AdvisoryLock.PlayAll(setup, actions).value.log;
            var applied := Successes(OrderBy(RowsOf(log)));
            applied == Stack(log) && |applied| <= |UpVersions(ms)| && Versions(applied) == UpVersions(ms)[..|applied|]
  {
    hide AdvisoryLock.PlayAll, Distinct, UniqueSet, Up, Down, Stack, OrderBy, RowsOf, Successes, UpVersions;
    var h := InterleavingsAreSerial(setup, actions);
    OneSetHistory(setup, h, ms);
    LedgerIsStack(h, Some(ms), |h.ops|);
    RecordedIsPrefix(h, ms, |h.ops|);
  }

  /** A version has been committed once for its row, once for each revert and once for each gap. */
  lemma ConcurrentCommits(setup: Setup, actions: seq<AdvisoryLock.Action>, ms: seq<Migration>, version: int)
    requires AdvisoryLock.Proper(setup) && Distinct(setup.pools) && AdvisoryLock.PlayAll(setup, actions).Some?
    requires SameSet(setup, ms)
    ensures var log := AdvisoryLock.PlayAll(setup, actions).value.log;
            Commits(log, version) == Bit(OnStack(log, version)) + Reverts(log, version) + Gaps(log, version)
  {
    hide AdvisoryLock.PlayAll, Distinct, UniqueSet, Up, Down, OnStack, Commits, Reverts, Gaps;
    var h := InterleavingsAreSerial(setup, actions);
    OneSetHistory(setup, h, ms);
    CommitsCounted(h, Some(ms), |h.ops|, version);
  }
}
