/**
 What Up and Down do is decided by the answers of the database, call by call: which effect is there and
 what is returned, as an equivalence on the replies of the script.
 */
module LedgerReplies {
  import opened Common
  import opened Ledger
  import opened LedgerTable
  import opened LedgerLog
  import opened LedgerSteps
  import opened LedgerRuns

  /** The reply to the i-th of the next calls; a script that is over answers nothing. */
  function Answer(db: Db, i: nat): Reply {
    if i < |db.script| then db.script[i].reply else CrashBefore
  }

  /** The next n calls are all answered and work. */
  ghost predicate Work(db: Db, n: nat) {
    forall i | 0 <= i < n :: Answer(db, i).Done?
  }

  /** d is db after n more calls. */
  ghost predicate After(db: Db, d: Db, n: nat) {
    forall i: nat :: Answer(d, i) == Answer(db, i + n)
  }

  lemma OneCall(db: Db, e: Option<Effect>)
    ensures var (d, s) := Call(db, e);
            && d.log == (if e.Some? && Effective(Answer(db, 0)) then db.log + [e.value] else db.log)
            && s == Told(Answer(db, 0)) && After(db, d, 1)
  {
  }

  /** The call has its effect, whether or not its caller hears of it. */
  predicate Effective(r: Reply) {
    r.Done? || r.Lost? || r.CrashAfter?
  }

  /** The caller sees an error. */
  predicate Error(r: Reply) {
    r.Failed? || r.Lost?
  }

  /** The process dies in the call. */
  predicate Dead(r: Reply) {
    r.CrashBefore? || r.CrashAfter?
  }

  function If(b: bool, e: Effect): seq<Effect> {
    if b then [e] else []
  }

  // ------------------------------------------------------------------
  // One migration

  /** A failure row is written: after a script that failed and was rolled back, or a commit that failed. */
  predicate FailureRow(script: Reply, commit: Reply, record: Reply) {
    && Effective(record)
    && ((Error(script) && !Dead(commit)) || (script.Done? && Error(commit)))
  }

  lemma RecordExactly(db: Db, m: Migration, success: bool)
    ensures var (d, s) := Record(db, m, success);
            && d.log == db.log + If(Effective(Answer(db, 0)), Recorded(RowFor(m, d.now, success)))
            && s == Told(Answer(db, 0)) && After(db, d, 1)
  {
    OneCall(db, Some(Recorded(RowFor(m, db.now + Next(db).tick, success))));
  }

  /** What applying one migration leaves and returns, by the replies to its four calls. */
  lemma ApplyExactly(db: Db, m: Migration)
    ensures var (d, s) := ApplyOne(db, m);
            var begin, script, commit, record := Answer(db, 0), Answer(db, 1), Answer(db, 2), Answer(db, 3);
            && d.log == db.log
                        + If(begin.Done? && script.Done? && Effective(commit), Committed(m))
                        + If(Work(db, 3) && Effective(record), Recorded(Row(m.version, m.name, m.checksum, d.now, true)))
                        + If(begin.Done? && FailureRow(script, commit, record),
                             Recorded(Row(m.version, m.name, m.checksum, d.now, false)))
            && (s.Ok? <==> Work(db, 4)) && (s.Ok? ==> After(db, d, 4)) && !s.Panicked?
  {
    hide Answer, Call, Record;
    OneCall(db, None);
    var begun := Call(db, None).0;
    OneCall(begun, None);
    var executed := Call(begun, None).0;
    OneCall(executed, None);
    RecordExactly(Call(executed, None).0, m, false);
    OneCall(executed, Some(Committed(m)));
    var committed := Call(executed, Some(Committed(m))).0;
    RecordExactly(committed, m, true);
    RecordExactly(committed, m, false);
    assert Answer(begun, 0) == Answer(db, 1) && Answer(begun, 1) == Answer(db, 2) && Answer(begun, 2) == Answer(db, 3);
    assert Answer(executed, 0) == Answer(begun, 1) && Answer(executed, 1) == Answer(begun, 2);
    assert Answer(committed, 0) == Answer(executed, 1) && Answer(Call(executed, None).0, 0) == Answer(executed, 1);
  }

  // ------------------------------------------------------------------
  // Down

  /** The migration a Down would run: that of the top row, if there is one. */
  function Wanted(db: Db, loaded: Option<seq<Migration>>): Option<Migration> {
    var applied := Successes(LoadApplied(db));
    if loaded.None? || applied == [] then None else Find(loaded.value, applied[|applied| - 1].version, "down")
  }

  /** The calls of a revert before its commit: begin, the script unless it is blank, delete. */
  function BeforeCommit(m: Migration): nat {
    if TrimSpace(m.sql) == "" then 2 else 3
  }

  lemma DeleteExactly(db: Db, m: Migration)
    ensures var (d, s) := DeleteRowAndCommit(db, m);
            var one := CountVersion(RowsOf(db.log), m.version) == 1;
            && d.log == db.log + If(Work(db, 1) && one && Effective(Answer(db, 1)), Reverted(m))
            && (s.Ok? <==> Work(db, 2) && one) && (s.Ok? ==> After(db, d, 2))
  {
    hide Answer, CountVersion, RowsOf, Call;
    OneCall(db, None);
    var deleted := Call(db, None).0;
    OneCall(deleted, None);
    OneCall(deleted, Some(Reverted(m)));
    assert Answer(deleted, 0) == Answer(db, 1);
  }

  /** A revert has its effect exactly if every call before the commit worked and the delete met one row. */
  lemma RevertExactly(db: Db, m: Migration)
    ensures var (d, s) := RevertOne(db, m);
            var n, one := BeforeCommit(m), CountVersion(RowsOf(db.log), m.version) == 1;
            && d.log == db.log + If(Work(db, n) && one && Effective(Answer(db, n)), Reverted(m))
            && (s.Ok? <==> Work(db, n + 1) && one) && (s.Ok? ==> After(db, d, n + 1))
  {
    hide Answer, CountVersion, RowsOf, TrimSpace, DeleteRowAndCommit, Call;
    OneCall(db, None);
    var begun := Call(db, None).0;
    DeleteExactly(begun, m);
    OneCall(begun, None);
    var executed := Call(begun, None).0;
    DeleteExactly(executed, m);
    OneCall(executed, None);
    assert Answer(begun, 0) == Answer(db, 1) && Answer(begun, 1) == Answer(db, 2) && Answer(begun, 2) == Answer(db, 3);
    assert Answer(executed, 0) == Answer(begun, 1) && Answer(executed, 1) == Answer(begun, 2);
  }

  lemma LaterWork(db: Db, d: Db, k: nat, n: nat)
    requires After(db, d, k)
    ensures Work(db, k) ==> (Work(db, n + k) <==> Work(d, n))
    ensures Work(db, n + k) ==> Work(db, k)
  {
    if Work(db, k) && Work(d, n) {
      forall i | 0 <= i < n + k ensures Answer(db, i).Done? {
        assert i >= k ==> Answer(d, i - k) == Answer(db, i);
      }
    }
  }

  lemma LaterStill(db: Db, d: Db, e: Db, k: nat, n: nat)
    requires After(db, d, k) && After(d, e, n)
    ensures After(db, e, k + n)
  {
    forall i: nat ensures Answer(e, i) == Answer(db, i + (k + n)) {
      assert Answer(e, i) == Answer(d, i + n);
    }
  }

  /** Lock, ledger table and the read of its rows come first in Up and Down. */
  lemma Selected(db: Db) returns (locked: Db, ensured: Db, selected: Db)
    ensures locked == Call(db, None).0 && ensured == Call(locked, None).0 && selected == Call(ensured, None).0
    ensures Call(db, None).1 == Told(Answer(db, 0)) && Call(locked, None).1 == Told(Answer(db, 1))
    ensures Call(ensured, None).1 == Told(Answer(db, 2))
    ensures locked.log == ensured.log == selected.log == db.log
    ensures After(db, locked, 1) && After(db, ensured, 2) && After(db, selected, 3)
  {
    hide Answer, Call, After;
    OneCall(db, None);
    locked := Call(db, None).0;
    OneCall(locked, None);
    ensured := Call(locked, None).0;
    OneCall(ensured, None);
    selected := Call(ensured, None).0;
    LaterStill(db, locked, ensured, 1, 1);
    LaterStill(db, ensured, selected, 2, 1);
    AnswerLater(db, locked, 1);
    AnswerLater(db, ensured, 2);
  }

  lemma AnswerLater(db: Db, d: Db, n: nat)
    requires After(db, d, n)
    ensures Answer(d, 0) == Answer(db, n)
  {
  }

  /** The unlock changes no effect, and the result only if the process dies in it. */
  lemma UnlockExactly(db: Db, s: Status)
    ensures var (d, u) := Unlock(db, s);
            d.log == db.log && u == if s.Crashed? || Dead(Answer(db, 0)) then Crashed else s
  {
    OneCall(db, None);
  }

  /** The calls of a Down before the commit of its revert. */
  function CallsBefore(m: Migration): nat {
    3 + BeforeCommit(m)
  }

  /** Every call before the commit of the revert works, and the commit takes effect. */
  ghost predicate Reached(db: Db, m: Migration) {
    Work(db, CallsBefore(m)) && Effective(Answer(db, CallsBefore(m)))
  }

  ghost predicate OneRow(db: Db, m: Migration) {
    CountVersion(RowsOf(db.log), m.version) == 1
  }

  /** What a Down leaves: its revert, exactly if that was reached and the delete met one row. */
  ghost function RevertIf(db: Db, w: Option<Migration>): seq<Effect> {
    if w.None? then [] else If(Reached(db, w.value) && OneRow(db, w.value), Reverted(w.value))
  }

  /** n calls worked, and the process did not die in the unlock after them. */
  ghost predicate WorkThenUnlock(db: Db, n: nat) {
    Work(db, n) && !Dead(Answer(db, n))
  }

  /** A Down returns nil exactly if it had nothing to revert, or if its revert and all its calls worked. */
  ghost predicate DownReturnsNil(db: Db, loaded: Option<seq<Migration>>) {
    var w := Wanted(db, loaded);
    && loaded.Some?
    && if Successes(LoadApplied(db)) == [] then WorkThenUnlock(db, 3)
       else w.Some? && OneRow(db, w.value) && WorkThenUnlock(db, CallsBefore(w.value) + 1)
  }

  lemma DownExactly(db: Db, allowed: bool, loaded: Option<seq<Migration>>)
    ensures var (d, s) := Down(db, allowed, loaded);
            && d.log == db.log + (if allowed then RevertIf(db, Wanted(db, loaded)) else [])
            && (s.Ok? <==> allowed && DownReturnsNil(db, loaded))
  {
    hide Answer, CountVersion, RowsOf, Call, RevertOne, Find, OrderBy, Successes, BeforeCommit;
    var locked, ensured, selected := Selected(db);
    var w := Wanted(db, loaded);
    var (d, s) := DownLocked(locked, loaded);
    UnlockExactly(d, s);
    if w.Some? {
      RevertExactly(selected, w.value);
      LaterWork(db, selected, 3, BeforeCommit(w.value));
      LaterWork(db, selected, 3, BeforeCommit(w.value) + 1);
    }
  }

  /** In a reachable database the top row is the only one of its version, so the replies alone decide. */
  lemma DownDecided(db: Db, allowed: bool, loaded: Option<seq<Migration>>, strict: bool)
    requires Good(db, strict)
    ensures var d, w := Down(db, allowed, loaded).0, Wanted(db, loaded);
            d.log == if allowed && w.Some? && Reached(db, w.value) then db.log + [Reverted(w.value)] else db.log
    ensures Successes(LoadApplied(db)) == Stack(db.log)
    ensures var w := Wanted(db, loaded); w.Some? ==> OneRow(db, w.value)
  {
    hide Down, Good, Find, CountVersion, RowsOf, OrderBy, Successes, Stack, Answer;
    DownExactly(db, allowed, loaded);
    Reads(db, strict);
    var w := Wanted(db, loaded);
    if w.Some? {
      FindMeaning(loaded.value, Stack(db.log)[|Stack(db.log)| - 1].version, "down");
      GoodTable(db, strict);
      DeleteTop(RowsOf(db.log), Stack(db.log)[|Stack(db.log)| - 1].version);
    }
    assert db.log + [] == db.log;
  }

  lemma GoodTable(db: Db, strict: bool)
    requires Good(db, strict)
    ensures Successes(RowsOf(db.log)) == Stack(db.log) && Keyed(RowsOf(db.log))
  {
    TableIsStack(db.log);
    TableKeyed(db.log);
  }

  // ------------------------------------------------------------------
  // Up

  predicate At(log: seq<Effect>, i: nat, e: Effect) {
    i < |log| && log[i] == e
  }

  ghost predicate RecordAt(log: seq<Effect>, i: nat, m: Migration, success: bool) {
    i < |log| && IsRecord(log[i], m, success)
  }

  /**
   Migration m, whose four calls are those from c on, has left its effects from place i of the log on,
   exactly as far as the earlier calls worked and its own were answered. A failure row takes the place
   of the commit, or follows it if only its answer was lost.
   */
  ghost predicate AnswersOne(db: Db, c: nat, m: Migration, log: seq<Effect>, i: nat) {
    var script, commit, record := Answer(db, c + 1), Answer(db, c + 2), Answer(db, c + 3);
    && (At(log, i, Committed(m)) <==> Work(db, c + 2) && Effective(commit))
    && (RecordAt(log, i + 1, m, true) <==> Work(db, c + 3) && Effective(record))
    && (RecordAt(log, i, m, false) <==> Work(db, c + 1) && FailureRow(script, commit, record) && !(script.Done? && commit.Lost?))
    && (RecordAt(log, i + 1, m, false) <==> Work(db, c + 2) && commit.Lost? && Effective(record))
    && !RecordAt(log, i, m, true)
  }

  lemma OneAnswered(db: Db, m: Migration)
    ensures AnswersOne(db, 0, m, ApplyOne(db, m).0.log, |db.log|)
    ensures db.log <= ApplyOne(db, m).0.log && |ApplyOne(db, m).0.log| <= |db.log| + 2
    ensures ApplyOne(db, m).1.Ok? ==> |ApplyOne(db, m).0.log| == |db.log| + 2
  {
    hide Answer, ApplyOne;
    ApplyExactly(db, m);
  }

  lemma AnsweredLater(db: Db, d: Db, n: nat, c: nat, m: Migration, log: seq<Effect>, i: nat)
    requires After(db, d, n) && Work(db, n) && AnswersOne(d, c, m, log, i)
    ensures AnswersOne(db, c + n, m, log, i)
  {
    hide Answer, Work;
    LaterWork(db, d, n, c + 1);
    LaterWork(db, d, n, c + 2);
    LaterWork(db, d, n, c + 3);
    assert Answer(d, c + 1) == Answer(db, c + 1 + n) && Answer(d, c + 2) == Answer(db, c + 2 + n);
    assert Answer(d, c + 3) == Answer(db, c + 3 + n);
  }

  lemma NotReached(db: Db, n: nat, c: nat, m: Migration, log: seq<Effect>, i: nat)
    requires !Work(db, n) && c >= n && |log| <= i
    ensures AnswersOne(db, c, m, log, i)
  {
    assert forall k: nat | k >= n :: !Work(db, k);
  }

  /** What applying a list leaves for each migration of it. */
  lemma {:induction false} ApplyAllExactly(db: Db, p: seq<Migration>, k: nat)
    requires k < |p|
    ensures AnswersOne(db, 4 * k, p[k], ApplyAll(db, p).0.log, |db.log| + 2 * k)
    ensures db.log <= ApplyAll(db, p).0.log
    decreases |p|
  {
    hide Answer, ApplyOne, AnswersOne, Work, After;
    OneAnswered(db, p[0]);
    ApplyExactly(db, p[0]);
    var (d, s) := ApplyOne(db, p[0]);
    var log := ApplyAll(db, p).0.log;
    if s.Ok? {
      if |p| > 1 {
        ApplyAllExactly(d, p[1..], if k > 0 then k - 1 else 0);
      } else {
        assert ApplyAll(d, p[1..]) == (d, Ok);
      }
      if k > 0 {
        AnsweredLater(db, d, 4, 4 * (k - 1), p[k], log, |d.log| + 2 * (k - 1));
      } else {
        SamePlaces(db, p[0], d.log, log);
      }
    } else if k > 0 {
      NotReached(db, 4, 4 * k, p[k], log, |db.log| + 2 * k);
    }
  }

  lemma SamePlaces(db: Db, m: Migration, before: seq<Effect>, log: seq<Effect>)
    requires AnswersOne(db, 0, m, before, |db.log|) && before <= log && |before| == |db.log| + 2
    ensures AnswersOne(db, 0, m, log, |db.log|)
  {
    hide Work, Answer;
    assert log[|db.log|] == before[|db.log|] && log[|db.log| + 1] == before[|db.log| + 1];
  }

  lemma {:induction false} ApplyAllReturns(db: Db, p: seq<Migration>)
    ensures var (d, s) := ApplyAll(db, p);
            (s.Ok? <==> Work(db, 4 * |p|)) && (s.Ok? ==> After(db, d, 4 * |p|)) && !s.Panicked?
    decreases |p|
  {
    hide Answer, ApplyOne;
    if p != [] {
      ApplyExactly(db, p[0]);
      var (d, s) := ApplyOne(db, p[0]);
      if s.Ok? {
        ApplyAllReturns(d, p[1..]);
        LaterWork(db, d, 4, 4 * |p[1..]|);
        if ApplyAll(d, p[1..]).1.Ok? {
          LaterStill(db, d, ApplyAll(d, p[1..]).0, 4, 4 * |p[1..]|);
        }
      }
    }
  }

  /** What an Up leaves for each pending migration, and when it returns nil. */
  lemma UpExactly(db: Db, loaded: Option<seq<Migration>>)
    ensures var (d, s) := Up(db, loaded);
            match PendingOf(db, loaded)
            case None =>
              d.log == db.log && !s.Ok? && (s.Panicked? <==> loaded.Some? && WorkThenUnlock(db, 3))
            case Some(p) =>
              && !s.Panicked?
              && (s.Ok? <==> Work(db, 3 + 4 * |p|) && !Dead(Answer(db, 3 + 4 * |p|)))
              && forall k | 0 <= k < |p| :: AnswersOne(db, 3 + 4 * k, p[k], d.log, |db.log| + 2 * k)
  {
    hide Answer, Call, ApplyAll, PendingUp, AnswersOne;
    var locked, ensured, selected := Selected(db);
    var (d, s) := UpLocked(locked, loaded);
    UnlockExactly(d, s);
    if PendingOf(db, loaded).Some? {
      var p := PendingOf(db, loaded).value;
      ApplyAllReturns(selected, p);
      LaterWork(db, selected, 3, 4 * |p|);
      if s.Ok? {
        LaterStill(db, selected, d, 3, 4 * |p|);
        AnswerLater(db, d, 3 + 4 * |p|);
      }
      forall k | 0 <= k < |p| ensures AnswersOne(db, 3 + 4 * k, p[k], Up(db, loaded).0.log, |db.log| + 2 * k) {
        if Work(db, 3) {
          ApplyAllExactly(selected, p, k);
          AnsweredLater(db, selected, 3, 4 * k, p[k], Up(db, loaded).0.log, |db.log| + 2 * k);
        } else {
          NotReached(db, 3, 3 + 4 * k, p[k], Up(db, loaded).0.log, |db.log| + 2 * k);
        }
      }
    }
  }

  // ------------------------------------------------------------------
  // A dead process makes no more calls

  /** n calls lead from db to d and s: none but the last can have been the death of the process. */
  ghost predicate Made(db: Db, d: Db, s: Status, n: nat) {
    && After(db, d, n) && (forall i | 0 <= i < n - 1 :: !Dead(Answer(db, i)))
    && (s.Crashed? <==> n > 0 && Dead(Answer(db, n - 1)))
  }

  lemma NoneMade(db: Db, s: Status)
    requires !s.Crashed?
    ensures Made(db, db, s, 0)
  {
  }

  lemma OneMade(db: Db, e: Option<Effect>)
    ensures Made(db, Call(db, e).0, Call(db, e).1, 1)
    ensures Made(db, Call(db, e).0, NotOk(Call(db, e).1), 1)
    ensures !Call(db, e).1.Panicked?
  {
  }

  lemma MadeThen(db: Db, d: Db, s: Status, n: nat, e: Db, t: Status, m: nat)
    requires Made(db, d, s, n) && !s.Crashed? && Made(d, e, t, m)
    ensures Made(db, e, t, n + m)
  {
    hide Answer;
    LaterStill(db, d, e, n, m);
    forall i | n <= i < n + m ensures Answer(db, i) == Answer(d, i - n) {}
  }

  lemma ApplyMade(db: Db, m: Migration) returns (n: nat)
    ensures Made(db, ApplyOne(db, m).0, ApplyOne(db, m).1, n)
  {
    hide Call, Made;
    OneMade(db, None);
    var (begun, s0) := Call(db, None);
    n := 1;
    if s0.Ok? {
      OneMade(begun, None);
      var (executed, s1) := Call(begun, None);
      MadeThen(db, begun, s0, 1, executed, s1, 1);
      n := 2;
      if !s1.Crashed? {
        var e := if s1.Err? then None else Some(Committed(m));
        OneMade(executed, e);
        var (ended, s2) := Call(executed, e);
        var told := if s1.Err? then NotOk(s2) else s2;
        MadeThen(db, executed, s1, 2, ended, told, 1);
        n := 3;
        if !s2.Crashed? {
          var row := RowFor(m, ended.now + Next(ended).tick, s1.Ok? && s2.Ok?);
          OneMade(ended, Some(Recorded(row)));
          var (d, s3) := Call(ended, Some(Recorded(row)));
          MadeThen(db, ended, told, 3, d, s3, 1);
          MadeThen(db, ended, told, 3, d, NotOk(s3), 1);
          n := 4;
        }
      }
    }
  }

  lemma {:induction false} ApplyAllMade(db: Db, p: seq<Migration>) returns (n: nat)
    ensures Made(db, ApplyAll(db, p).0, ApplyAll(db, p).1, n)
    decreases |p|
  {
    hide ApplyOne, Made;
    n := 0;
    if p == [] {
      NoneMade(db, Ok);
    } else {
      n := ApplyMade(db, p[0]);
      var (d, s) := ApplyOne(db, p[0]);
      if s.Ok? {
        var m := ApplyAllMade(d, p[1..]);
        MadeThen(db, d, s, n, ApplyAll(d, p[1..]).0, ApplyAll(d, p[1..]).1, m);
        n := n + m;
      }
    }
  }

  lemma DeleteMade(db: Db, m: Migration) returns (n: nat)
    ensures Made(db, DeleteRowAndCommit(db, m).0, DeleteRowAndCommit(db, m).1, n)
  {
    hide Call, Made, CountVersion, RowsOf;
    OneMade(db, None);
    var (deleted, s0) := Call(db, None);
    n := 1;
    if !s0.Crashed? {
      OneMade(deleted, None);
      OneMade(deleted, Some(Reverted(m)));
      var (d, s) := DeleteRowAndCommit(db, m);
      MadeThen(db, deleted, s0, 1, d, s, 1);
      n := 2;
    }
  }

  lemma RevertMade(db: Db, m: Migration) returns (n: nat)
    ensures Made(db, RevertOne(db, m).0, RevertOne(db, m).1, n)
  {
    hide Call, Made, DeleteRowAndCommit, TrimSpace;
    OneMade(db, None);
    var (begun, s0) := Call(db, None);
    var (d, s) := RevertOne(db, m);
    n := 1;
    if s0.Ok? && TrimSpace(m.sql) == "" {
      var k := DeleteMade(begun, m);
      MadeThen(db, begun, s0, 1, d, s, k);
      n := 1 + k;
    } else if s0.Ok? {
      OneMade(begun, None);
      var (executed, s1) := Call(begun, None);
      MadeThen(db, begun, s0, 1, executed, s1, 1);
      n := 2;
      if s1.Err? {
        OneMade(executed, None);
        MadeThen(db, executed, s1, 2, d, s, 1);
        n := 3;
      } else if s1.Ok? {
        var k := DeleteMade(executed, m);
        MadeThen(db, executed, s1, 2, d, s, k);
        n := 2 + k;
      }
    }
  }

  lemma UnlockMade(db: Db, d: Db, s: Status, n: nat) returns (k: nat)
    requires Made(db, d, s, n)
    ensures Made(db, Unlock(d, s).0, Unlock(d, s).1, k)
  {
    hide Call, Made;
    k := n;
    if !s.Crashed? {
      OneMade(d, None);
      var (e, u) := Call(d, None);
      MadeThen(db, d, s, n, e, u, 1);
      k := n + 1;
      SameCrash(db, e, u, k);
    }
  }

  /** Whether the process has died is all that Made asks of a status. */
  lemma SameCrash(db: Db, d: Db, s: Status, n: nat)
    requires Made(db, d, s, n)
    ensures forall t: Status | t.Crashed? == s.Crashed? :: Made(db, d, t, n)
  {
  }

  lemma UpLockedMade(db: Db, loaded: Option<seq<Migration>>) returns (n: nat)
    ensures Made(db, UpLocked(db, loaded).0, UpLocked(db, loaded).1, n)
  {
    hide Call, Made, ApplyAll, PendingUp, LoadApplied;
    OneMade(db, None);
    var (ensured, s0) := Call(db, None);
    SameCrash(db, ensured, s0, 1);
    n := 1;
    if s0.Ok? && loaded.Some? {
      OneMade(ensured, None);
      var (selected, s1) := Call(ensured, None);
      MadeThen(db, ensured, s0, 1, selected, s1, 1);
      SameCrash(db, selected, s1, 2);
      n := 2;
      var p := PendingUp(loaded.value, LoadApplied(ensured));
      if s1.Ok? && p.Some? {
        var m := ApplyAllMade(selected, p.value);
        MadeThen(db, selected, s1, 2, ApplyAll(selected, p.value).0, ApplyAll(selected, p.value).1, m);
        n := 2 + m;
      }
    }
  }

  lemma DownLockedMade(db: Db, loaded: Option<seq<Migration>>) returns (n: nat)
    ensures Made(db, DownLocked(db, loaded).0, DownLocked(db, loaded).1, n)
  {
    hide Call, Made, RevertOne, LoadApplied, Successes, Find;
    OneMade(db, None);
    var (ensured, s0) := Call(db, None);
    SameCrash(db, ensured, s0, 1);
    n := 1;
    if s0.Ok? && loaded.Some? {
      OneMade(ensured, None);
      var (selected, s1) := Call(ensured, None);
      MadeThen(db, ensured, s0, 1, selected, s1, 1);
      SameCrash(db, selected, s1, 2);
      n := 2;
      var w := Wanted(ensured, loaded);
      if s1.Ok? && w.Some? {
        var m := RevertMade(selected, w.value);
        MadeThen(db, selected, s1, 2, RevertOne(selected, w.value).0, RevertOne(selected, w.value).1, m);
        n := 2 + m;
      }
    }
  }

  /** An Up makes one call after the other until it is done or its process dies, and none after that. */
  lemma UpStopsDead(db: Db, loaded: Option<seq<Migration>>) returns (n: nat)
    ensures Made(db, Up(db, loaded).0, Up(db, loaded).1, n)
  {
    hide Call, Made, UpLocked;
    OneMade(db, None);
    var (locked, s0) := Call(db, None);
    n := 1;
    if s0.Ok? {
      var m := UpLockedMade(locked, loaded);
      var (d, s) := UpLocked(locked, loaded);
      MadeThen(db, locked, s0, 1, d, s, m);
      n := UnlockMade(db, d, s, 1 + m);
    }
  }

  /** So does a Down. */
  lemma DownStopsDead(db: Db, allowed: bool, loaded: Option<seq<Migration>>) returns (n: nat)
    ensures Made(db, Down(db, allowed, loaded).0, Down(db, allowed, loaded).1, n)
  {
    hide Call, Made, DownLocked;
    n := 0;
    if !allowed {
      NoneMade(db, Err);
    } else {
      OneMade(db, None);
      var (locked, s0) := Call(db, None);
      n := 1;
      if s0.Ok? {
        var m := DownLockedMade(locked, loaded);
        var (d, s) := DownLocked(locked, loaded);
        MadeThen(db, locked, s0, 1, d, s, m);
        n := UnlockMade(db, d, s, 1 + m);
      }
    }
  }
}
