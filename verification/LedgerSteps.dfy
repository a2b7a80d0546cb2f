/**
 What each operation of the runner can leave in the log, whatever the database answers: of a list of
 migrations commits and records for a first part and at most one cut short, of a revert one effect or
 none. All of them keep the clock in time with the log.
 */
module LedgerSteps {
  import opened Common
  import opened Ledger
  import opened LedgerTable
  import opened LedgerLog

  /** The clock is past every record; if strict, it moves in every call. */
  ghost predicate InTime(db: Db, strict: bool) {
    && Timely(db.log, strict) && Clocked(db.log, strict) && Latest(db.log) <= db.now
    && (strict ==> forall e | e in db.script :: e.tick > 0)
  }

  ghost function Added(db: Db, db': Db): seq<Effect>
    requires db.log <= db'.log
  {
    db'.log[|db.log|..]
  }

  lemma CallInTime(db: Db, e: Option<Effect>, strict: bool)
    requires InTime(db, strict)
    requires e.Some? && e.value.Recorded? ==> e.value.row.appliedAt == db.now + Next(db).tick
    ensures InTime(Call(db, e).0, strict)
  {
    hide Timely, Clocked, Latest;
    var d := Call(db, e).0;
    assert forall x | x in d.script :: x in db.script;
    if e.Some? && TakesEffect(Next(db).reply) {
      assert Next(db) in db.script;
      TimelySnoc(db.log, e.value, strict);
      ClockedSnoc(db.log, e.value, strict);
      LatestSnoc(db.log, e.value);
    }
  }

  lemma QuietCall(db: Db, strict: bool)
    requires InTime(db, strict)
    ensures InTime(Call(db, None).0, strict) && Call(db, None).0.log == db.log
    ensures !Call(db, None).1.Panicked?
  {
    hide InTime;
    CallInTime(db, None, strict);
  }

  lemma RecordCall(db: Db, m: Migration, success: bool, strict: bool)
    requires InTime(db, strict)
    ensures InTime(Record(db, m, success).0, strict) && !Record(db, m, success).1.Panicked?
    ensures var (d, s) := Record(db, m, success);
            || (d.log == db.log && !s.Ok?)
            || (|d.log| == |db.log| + 1 && db.log <= d.log && IsRecord(d.log[|db.log|], m, success))
  {
    hide InTime;
    var row := RowFor(m, db.now + Next(db).tick, success);
    CallInTime(db, Some(Recorded(row)), strict);
  }

  /** Applying one migration leaves at most its commit and its record. */
  lemma ApplyOneTrail(db: Db, m: Migration, strict: bool)
    requires InTime(db, strict)
    ensures var (d, s) := ApplyOne(db, m);
            && InTime(d, strict) && db.log <= d.log && UpTrail([m], Added(db, d))
            && !s.Panicked? && (s.Ok? ==> |Added(db, d)| == 2 && IsPush(Added(db, d)[1]))
  {
    hide InTime, Call;
    QuietCall(db, strict);
    var (begun, s0) := Call(db, None);
    if s0.Ok? {
      QuietCall(begun, strict);
      var (executed, s1) := Call(begun, None);
      if s1.Err? {
        QuietCall(executed, strict);
        RecordCall(Rollback(executed).0, m, false, strict);
      } else if s1.Ok? {
        CallInTime(executed, Some(Committed(m)), strict);
        CommitCall(executed, m);
        var (committed, s2) := Call(executed, Some(Committed(m)));
        RecordCall(committed, m, false, strict);
        RecordCall(committed, m, true, strict);
      }
    }
  }

  lemma CommitCall(db: Db, m: Migration)
    ensures var (d, s) := Call(db, Some(Committed(m)));
            && !s.Panicked?
            && (d.log == db.log || d.log == db.log + [Committed(m)])
            && (s.Ok? ==> d.log == db.log + [Committed(m)])
  {
  }

  lemma TrailCons(p: seq<Migration>, first: seq<Effect>, rest: seq<Effect>)
    requires p != [] && UpTrail([p[0]], first)
    requires |first| == 2 && IsPush(first[1]) && UpTrail(p[1..], rest)
    ensures UpTrail(p, first + rest) && Pushed(first + rest) == [first[1].row] + Pushed(rest)
  {
    FirstPair([p[0]], first);
    assert (first + rest)[2..] == rest;
    PushedPair(first + rest);
  }

  lemma TrailAlone(p: seq<Migration>, first: seq<Effect>)
    requires p != [] && UpTrail([p[0]], first)
    ensures UpTrail(p, first)
  {
    if |first| >= 2 && IsPush(first[1]) {
      FirstPair([p[0]], first);
      assert first[2..] == [];
    }
  }

  lemma NoTrail()
    ensures UpTrail([], []) && Pushed([]) == []
  {
  }

  lemma {:induction false} ApplyAllTrail(db: Db, p: seq<Migration>, strict: bool)
    requires InTime(db, strict)
    ensures var (d, s) := ApplyAll(db, p);
            && InTime(d, strict) && db.log <= d.log && UpTrail(p, Added(db, d))
            && !s.Panicked? && (s.Ok? ==> |Pushed(Added(db, d))| == |p|)
    decreases |p|
  {
    hide InTime, UpTrail, ApplyOne, Pushed, IsPush;
    if p == [] {
      NoTrail();
      assert Added(db, db) == [];
    } else {
      ApplyOneTrail(db, p[0], strict);
      var (d, s) := ApplyOne(db, p[0]);
      if s.Ok? {
        ApplyAllTrail(d, p[1..], strict);
        var d' := ApplyAll(d, p[1..]).0;
        TrailCons(p, Added(db, d), Added(d, d'));
        assert Added(db, d') == Added(db, d) + Added(d, d');
      } else {
        TrailAlone(p, Added(db, d));
      }
    }
  }

  /** The pending list an Up would compute: None without migrations or with a changed checksum. */
  function PendingOf(db: Db, loaded: Option<seq<Migration>>): Option<seq<Migration>> {
    if loaded.None? then None else PendingUp(loaded.value, LoadApplied(db))
  }

  /** Up leaves nothing without a pending list, otherwise a trail of it, complete if it returns Ok. */
  ghost predicate UpLeaves(pending: Option<seq<Migration>>, es: seq<Effect>, s: Status) {
    match pending
    case None => es == [] && !s.Ok?
    case Some(p) => UpTrail(p, es) && (s.Ok? ==> |Pushed(es)| == |p|)
  }

  lemma UpLockedLeaves(db: Db, loaded: Option<seq<Migration>>, strict: bool) returns (es: seq<Effect>)
    requires InTime(db, strict)
    ensures var (d, s) := UpLocked(db, loaded);
            InTime(d, strict) && d.log == db.log + es && UpLeaves(PendingOf(db, loaded), es, s)
  {
    hide InTime, Call, ApplyAll, PendingUp;
    es := [];
    QuietCall(db, strict);
    var ensured := Call(db, None).0;
    QuietCall(ensured, strict);
    NothingLeft(PendingOf(db, loaded));
    if loaded.Some? && PendingUp(loaded.value, LoadApplied(db)).Some? {
      var selected := Call(ensured, None).0;
      var p := PendingUp(loaded.value, LoadApplied(db)).value;
      ApplyAllTrail(selected, p, strict);
      if UpLocked(db, loaded) == ApplyAll(selected, p) {
        es := Added(selected, ApplyAll(selected, p).0);
        assert UpLeaves(Some(p), es, ApplyAll(selected, p).1);
      }
    }
  }

  lemma NothingLeft(pending: Option<seq<Migration>>)
    ensures forall s: Status | !s.Ok? :: UpLeaves(pending, [], s)
  {
  }

  lemma UpLeft(db: Db, loaded: Option<seq<Migration>>, strict: bool) returns (es: seq<Effect>)
    requires InTime(db, strict)
    ensures var (d, s) := Up(db, loaded);
            InTime(d, strict) && d.log == db.log + es && UpLeaves(PendingOf(db, loaded), es, s)
  {
    hide InTime, Call, UpLocked, PendingOf;
    es := [];
    QuietCall(db, strict);
    var locked := Call(db, None).0;
    var inside := UpLockedLeaves(locked, loaded, strict);
    QuietCall(UpLocked(locked, loaded).0, strict);
    SamePending(db, locked, loaded);
    if Call(db, None).1.Ok? {
      es := inside;
    }
  }

  lemma SamePending(db: Db, d: Db, loaded: Option<seq<Migration>>)
    requires d.log == db.log
    ensures PendingOf(db, loaded) == PendingOf(d, loaded)
  {
  }

  /** Down leaves nothing or the revert of the latest success row by its down migration. */
  ghost predicate DownLeaves(db: Db, loaded: Option<seq<Migration>>, d: Db, s: Status) {
    var applied := Successes(LoadApplied(db));
    || (d.log == db.log && (s.Ok? ==> applied == []))
    || (&& loaded.Some? && applied != []
        && var down := Find(loaded.value, applied[|applied| - 1].version, "down");
           down.Some? && d.log == db.log + [Reverted(down.value)])
  }

  lemma DeleteRowAndCommitLeaves(db: Db, m: Migration, strict: bool)
    requires InTime(db, strict)
    ensures var (d, s) := DeleteRowAndCommit(db, m);
            InTime(d, strict) && ((d.log == db.log && !s.Ok?) || d.log == db.log + [Reverted(m)])
  {
    hide InTime;
    QuietCall(db, strict);
    var deleted := Call(db, None).0;
    QuietCall(deleted, strict);
    CallInTime(deleted, Some(Reverted(m)), strict);
  }

  lemma RevertOneLeaves(db: Db, m: Migration, strict: bool)
    requires InTime(db, strict)
    ensures var (d, s) := RevertOne(db, m);
            InTime(d, strict) && ((d.log == db.log && !s.Ok?) || d.log == db.log + [Reverted(m)])
  {
    hide InTime, Call, DeleteRowAndCommit;
    QuietCall(db, strict);
    var begun := Call(db, None).0;
    DeleteRowAndCommitLeaves(begun, m, strict);
    QuietCall(begun, strict);
    var executed := Call(begun, None).0;
    DeleteRowAndCommitLeaves(executed, m, strict);
    QuietCall(executed, strict);
  }

  lemma DownLockedLeaves(db: Db, loaded: Option<seq<Migration>>, strict: bool)
    requires InTime(db, strict)
    ensures InTime(DownLocked(db, loaded).0, strict)
    ensures DownLeaves(db, loaded, DownLocked(db, loaded).0, DownLocked(db, loaded).1)
  {
    hide InTime, Call, RevertOne, Find, Successes, OrderBy, RowsOf;
    QuietCall(db, strict);
    var ensured := Call(db, None).0;
    QuietCall(ensured, strict);
    var selected := Call(ensured, None).0;
    var applied := Successes(LoadApplied(db));
    if loaded.Some? && applied != [] {
      var down := Find(loaded.value, applied[|applied| - 1].version, "down");
      if down.Some? {
        RevertOneLeaves(selected, down.value, strict);
      }
    }
  }

  lemma DownLeft(db: Db, allowed: bool, loaded: Option<seq<Migration>>, strict: bool)
    requires InTime(db, strict)
    ensures InTime(Down(db, allowed, loaded).0, strict)
    ensures DownLeaves(db, loaded, Down(db, allowed, loaded).0, Down(db, allowed, loaded).1)
  {
    hide InTime, Call, DownLocked, Find, Successes, OrderBy, RowsOf;
    if allowed {
      QuietCall(db, strict);
      var locked := Call(db, None).0;
      DownLockedLeaves(locked, loaded, strict);
      QuietCall(DownLocked(locked, loaded).0, strict);
    }
  }
}
