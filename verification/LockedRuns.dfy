/**
 The engine of Ledger inside the interleavings of AdvisoryLock: whatever the database answers an Up or a
 Down there, its effects are those of a path of one Runner here, from taking the lock to giving it back
 on the session that took it. So the interleavings leave nothing out that a single run can do.
 */
module LockedRuns {
  import opened Common
  import opened Ledger
  import opened LedgerTable
  import opened LedgerLog
  import opened LedgerSteps
  import opened AdvisoryLock

  /** What Runner i does to leave the trail es of its pending list. */
  function TrailActions(i: nat, p: seq<Migration>, es: seq<Effect>): seq<Action> {
    if es == [] then (if p == [] then [Finish(i)] else [Action.Fail(i)])
    else if |es| >= 2 && es[1].Recorded? && p != [] then
      if IsPush(es[1]) then
        [Action.Commit(i), Action.Record(i, es[1].row.appliedAt)] + TrailActions(i, p[1..], es[2..])
      else [Action.Commit(i), FailRecorded(i, es[1].row.appliedAt)]
    else if es[0].Recorded? then [FailRecorded(i, es[0].row.appliedAt)]
    else [Action.Commit(i), LoseRecord(i)]
  }

  lemma {:induction false} PlayConcat(setup: Setup, s: State, a: seq<Action>, b: seq<Action>)
    requires Fits(setup, s) && Play(setup, s, a).Some?
    ensures Play(setup, s, a + b) == Play(setup, Play(setup, s, a).value, b)
    decreases |a|
  {
    hide Act, Enabled;
    if a == [] {
      assert a + b == b;
    } else {
      PlayConcat(setup, Act(setup, s, a[0]), a[1..], b);
      assert (a + b)[1..] == a[1..] + b;
    }
  }

  lemma PlayOne(setup: Setup, s: State, a: Action)
    requires Fits(setup, s) && Enabled(setup, s, a)
    ensures Play(setup, s, [a]) == Some(Act(setup, s, a))
  {
    hide Act, Enabled;
    assert [a][1..] == [];
  }

  lemma PlayPair(setup: Setup, s: State, a: Action, b: Action)
    requires Fits(setup, s) && Enabled(setup, s, a) && Enabled(setup, Act(setup, s, a), b)
    ensures Play(setup, s, [a, b]) == Some(Act(setup, Act(setup, s, a), b))
  {
    hide Act, Enabled, Play;
    PlayTwo(setup, s, a, b, []);
    PlayNone(setup, Act(setup, Act(setup, s, a), b));
    assert [a, b] + [] == [a, b];
  }

  /** Commit the first pending migration and go on with an effect of another action, on time. */
  lemma CommitThen(setup: Setup, s: State, i: nat, p: seq<Migration>, b: Action, e: Effect)
    requires Fits(setup, s) && i < |s.phases| && s.phases[i] == Applying(p) && p != [] && b.i == i && e.Recorded?
    requires OnTime(setup, s.log, e.row.appliedAt)
    requires || (b == Action.Record(i, e.row.appliedAt) && e == Recorded(RowFor(p[0], e.row.appliedAt, true)))
             || (b == FailRecorded(i, e.row.appliedAt) && e == Recorded(RowFor(p[0], e.row.appliedAt, false)))
    ensures Play(setup, s, [Action.Commit(i), b])
            == Some(State(s.lock, s.phases[i := if b.Record? then Applying(p[1..]) else Leaving],
                          s.log + [Committed(p[0]), e]))
  {
    hide Latest, Play;
    LatestSnoc(s.log, Committed(p[0]));
    assert s.log + [Committed(p[0])] + [e] == s.log + [Committed(p[0]), e];
    assert s.phases[i := Unrecorded(p)][i := Applying(p[1..])] == s.phases[i := Applying(p[1..])];
    assert s.phases[i := Unrecorded(p)][i := Leaving] == s.phases[i := Leaving];
    PlayPair(setup, s, Action.Commit(i), b);
  }

  lemma NothingPlayed(setup: Setup, s: State, i: nat, p: seq<Migration>)
    requires Fits(setup, s) && i < |s.phases| && s.phases[i] == Applying(p)
    ensures Play(setup, s, TrailActions(i, p, [])) == Some(State(s.lock, s.phases[i := Leaving], s.log))
  {
    hide Play;
    PlayOne(setup, s, if p == [] then Finish(i) else Action.Fail(i));
  }

  /** One effect and no more. */
  lemma OnePlayed(setup: Setup, s: State, i: nat, p: seq<Migration>, e: Effect)
    requires Fits(setup, s) && i < |s.phases| && s.phases[i] == Applying(p) && p != []
    requires e == Committed(p[0]) || (IsRecord(e, p[0], false) && OnTime(setup, s.log, e.row.appliedAt))
    ensures Play(setup, s, TrailActions(i, p, [e])) == Some(State(s.lock, s.phases[i := Leaving], s.log + [e]))
  {
    hide Latest, Play;
    if e.Recorded? {
      PlayOne(setup, s, FailRecorded(i, e.row.appliedAt));
    } else {
      assert s.phases[i := Unrecorded(p)][i := Leaving] == s.phases[i := Leaving];
      PlayPair(setup, s, Action.Commit(i), LoseRecord(i));
    }
  }

  /** The clock condition on two effects and the rest. */
  lemma ClockedPair(log: seq<Effect>, es: seq<Effect>, strict: bool)
    requires |es| >= 2 && Clocked(log + es, strict) && es[0].Committed?
    ensures InClock(log, es[1], strict) && Clocked(log + [es[0], es[1]] + es[2..], strict)
  {
    assert log + es == log + [es[0]] + [es[1]] + es[2..];
    assert log + [es[0]] + [es[1]] == log + [es[0], es[1]];
    ClockedPrefix(log + [es[0]] + [es[1]], es[2..], strict);
    ClockedSnoc(log + [es[0]], es[1], strict);
    LatestSnoc(log, es[0]);
  }

  /** Every trail is played by the Runner that computed the pending list. */
  lemma {:induction false} TrailIsPlayed(setup: Setup, s: State, i: nat, p: seq<Migration>, es: seq<Effect>)
    requires Fits(setup, s) && i < |s.phases| && s.phases[i] == Applying(p)
    requires UpTrail(p, es) && Clocked(s.log + es, setup.moving)
    ensures Play(setup, s, TrailActions(i, p, es)) == Some(State(s.lock, s.phases[i := Leaving], s.log + es))
    decreases |p|
  {
    hide Play, Act, Enabled, UpTrail, TrailActions, Clocked, Latest;
    if es == [] {
      NothingPlayed(setup, s, i, p);
      assert s.log + es == s.log;
    } else {
      FirstPair(p, es);
      if |es| == 1 {
        ClockedSnoc(s.log, es[0], setup.moving);
        assert es == [es[0]];
        OnePlayed(setup, s, i, p, es[0]);
      } else {
        ClockedPair(s.log, es, setup.moving);
        var at := es[1].row.appliedAt;
        if IsPush(es[1]) {
          CommitThen(setup, s, i, p, Action.Record(i, at), es[1]);
          var s2 := State(s.lock, s.phases[i := Applying(p[1..])], s.log + [es[0], es[1]]);
          TrailIsPlayed(setup, s2, i, p[1..], es[2..]);
          PairThen(setup, s, s2, i, p, es);
        } else {
          CommitThen(setup, s, i, p, FailRecorded(i, at), es[1]);
          FailedPair(i, p, es);
        }
      }
    }
  }

  lemma FailedPair(i: nat, p: seq<Migration>, es: seq<Effect>)
    requires |es| == 2 && es[1].Recorded? && !IsPush(es[1]) && p != []
    ensures TrailActions(i, p, es) == [Action.Commit(i), FailRecorded(i, es[1].row.appliedAt)] && es == [es[0], es[1]]
  {
  }

  lemma PairThen(setup: Setup, s: State, s2: State, i: nat, p: seq<Migration>, es: seq<Effect>)
    requires Fits(setup, s) && i < |s.phases| && p != [] && |es| >= 2 && IsPush(es[1])
    requires s2 == State(s.lock, s.phases[i := Applying(p[1..])], s.log + [es[0], es[1]])
    requires Play(setup, s, [Action.Commit(i), Action.Record(i, es[1].row.appliedAt)]) == Some(s2)
    requires Play(setup, s2, TrailActions(i, p[1..], es[2..]))
             == Some(State(s2.lock, s2.phases[i := Leaving], s2.log + es[2..]))
    ensures Play(setup, s, TrailActions(i, p, es)) == Some(State(s.lock, s.phases[i := Leaving], s.log + es))
  {
    hide Play;
    var pair := [Action.Commit(i), Action.Record(i, es[1].row.appliedAt)];
    PlayConcat(setup, s, pair, TrailActions(i, p[1..], es[2..]));
    assert s2.phases[i := Leaving] == s.phases[i := Leaving];
    assert s.log + [es[0], es[1]] + es[2..] == s.log + es;
  }

  // ------------------------------------------------------------------
  // From lock to unlock

  function PassesThrough(pending: Option<seq<Migration>>, i: nat, es: seq<Effect>): seq<Action> {
    if pending.Some? then TrailActions(i, pending.value, es) else []
  }

  lemma LoadPlayed(setup: Setup, s: State, i: nat, x: nat) returns (loaded: State)
    requires Fits(setup, s) && i < |s.phases| && Enabled(setup, s, Acquire(i, x))
    ensures Play(setup, s, [Acquire(i, x), Load(i)]) == Some(loaded)
    ensures loaded == State(LockBy(s.lock, Session(setup.pools[i], x)),
                            s.phases[i := UpPhase(PendingUp(setup.sets[i], OrderBy(RowsOf(s.log))))], s.log)
  {
    hide PendingUp, OrderBy, RowsOf, Play;
    PlayPair(setup, s, Acquire(i, x), Load(i));
    loaded := Act(setup, Act(setup, s, Acquire(i, x)), Load(i));
    assert s.phases[i := Locked][i := loaded.phases[i]] == s.phases[i := loaded.phases[i]];
  }

  lemma MiddlePlayed(setup: Setup, s: State, i: nat, pending: Option<seq<Migration>>, es: seq<Effect>, st: Status)
    requires Fits(setup, s) && i < |s.phases| && UpLeaves(pending, es, st) && Clocked(s.log + es, setup.moving)
    requires s.phases[i] == UpPhase(pending)
    ensures Play(setup, s, PassesThrough(pending, i, es)) == Some(State(s.lock, s.phases[i := Leaving], s.log + es))
  {
    hide Play;
    if pending.Some? {
      TrailIsPlayed(setup, s, i, pending.value, es);
    } else {
      PlayNone(setup, s);
      assert s.log + es == s.log && s.phases[i := Leaving] == s.phases;
    }
  }

  /** Unlocking on the session that locked. */
  lemma Released(setup: Setup, s: State, finished: State, i: nat, x: nat)
    requires Fits(setup, s) && Fits(setup, finished) && i < |s.phases|
    requires LockHeld(setup, s) && Enabled(setup, s, Acquire(i, x))
    requires finished.lock == LockBy(s.lock, Session(setup.pools[i], x))
    requires finished.phases[i] == Leaving && finished.phases[i := Idle] == s.phases
    ensures Play(setup, finished, [Release(i, x)]) == Some(s.(log := finished.log))
  {
    hide Play;
    PlayOne(setup, finished, Release(i, x));
    LockRestoredExactly(setup, s, i, x, x);
  }

  /**
   Whatever the database answers an Up, its effects are those of one Runner going through the lock and
   leaving it as it was.
   */
  lemma UpIsPlayed(setup: Setup, db: Db, s: State, i: nat, x: nat) returns (actions: seq<Action>)
    requires Fits(setup, s) && i < |s.phases| && s.log == db.log && InTime(db, setup.moving)
    requires LockHeld(setup, s) && Enabled(setup, s, Acquire(i, x))
    ensures Play(setup, s, actions) == Some(s.(log := Up(db, Some(setup.sets[i])).0.log))
  {
    hide Up, UpTrail, PendingUp, Play, UpLeaves, TrailActions, Clocked, Timely, Latest, LockHeld, Enabled;
    var es := UpLeft(db, Some(setup.sets[i]), setup.moving);
    var pending := PendingOf(db, Some(setup.sets[i]));
    var middle := PassesThrough(pending, i, es);
    var loaded := LoadPlayed(setup, s, i, x);
    MiddlePlayed(setup, loaded, i, pending, es, Up(db, Some(setup.sets[i])).1);
    var enter, leave := [Acquire(i, x), Load(i)], [Release(i, x)];
    var finished := Play(setup, loaded, middle).value;
    WasIdle(setup, s, i, x, UpPhase(pending));
    actions := enter + middle + leave;
    PlayConcat(setup, s, enter, middle);
    PlayConcat(setup, s, enter + middle, leave);
    Released(setup, s, finished, i, x);
  }

  lemma WasIdle(setup: Setup, s: State, i: nat, x: nat, p: Phase)
    requires Fits(setup, s) && i < |s.phases| && Enabled(setup, s, Acquire(i, x))
    ensures s.phases[i] == Idle && s.phases[i := p][i := Leaving][i := Idle] == s.phases
  {
  }

  /** What a Down does between lock and unlock. */
  function DownActions(i: nat, x: nat, reverts: bool): seq<Action> {
    [Acquire(i, x)] + (if reverts then [LoadDown(i), Revert(i)] else [Action.Fail(i)]) + [Release(i, x)]
  }

  /** The same for a Down. */
  lemma DownIsPlayed(setup: Setup, db: Db, s: State, i: nat, x: nat, allowed: bool)
    requires Fits(setup, s) && i < |s.phases| && s.log == db.log && InTime(db, setup.moving)
    requires LockHeld(setup, s) && Enabled(setup, s, Acquire(i, x))
    ensures var log := Down(db, allowed, Some(setup.sets[i])).0.log;
            Play(setup, s, DownActions(i, x, log != s.log)) == Some(s.(log := log))
  {
    hide Down, Play, Clocked, Timely, Latest, LockHeld, Find, Successes, OrderBy, RowsOf, Act, Enabled;
    DownLeft(db, allowed, Some(setup.sets[i]), setup.moving);
    var log := Down(db, allowed, Some(setup.sets[i])).0.log;
    EnterPlayed(setup, s, i, x);
    WasIdle(setup, s, i, x, Locked);
    var locked := Act(setup, s, Acquire(i, x));
    var middle := if log != s.log then [LoadDown(i), Revert(i)] else [Action.Fail(i)];
    if log != s.log {
      RevertPlayed(setup, locked, i);
    } else {
      FailPlayed(setup, locked, i);
    }
    PlayConcat(setup, s, [Acquire(i, x)], middle);
    PlayConcat(setup, s, [Acquire(i, x)] + middle, [Release(i, x)]);
    Released(setup, s, Play(setup, locked, middle).value, i, x);
  }

  lemma EnterPlayed(setup: Setup, s: State, i: nat, x: nat)
    requires Fits(setup, s) && i < |s.phases| && Enabled(setup, s, Acquire(i, x))
    ensures Play(setup, s, [Acquire(i, x)]) == Some(Act(setup, s, Acquire(i, x)))
    ensures Act(setup, s, Acquire(i, x))
            == State(LockBy(s.lock, Session(setup.pools[i], x)), s.phases[i := Locked], s.log)
  {
    hide Play;
    PlayOne(setup, s, Acquire(i, x));
  }

  lemma FailPlayed(setup: Setup, s: State, i: nat)
    requires Fits(setup, s) && i < |s.phases| && s.phases[i] == Locked
    ensures Play(setup, s, [Action.Fail(i)]) == Some(State(s.lock, s.phases[i := Leaving], s.log))
  {
    hide Play;
    PlayOne(setup, s, Action.Fail(i));
  }

  lemma RevertPlayed(setup: Setup, s: State, i: nat)
    requires Fits(setup, s) && i < |s.phases| && s.phases[i] == Locked && DownOf(setup.sets[i], s.log).Some?
    ensures Play(setup, s, [LoadDown(i), Revert(i)])
            == Some(State(s.lock, s.phases[i := Leaving], s.log + [Reverted(DownOf(setup.sets[i], s.log).value)]))
  {
    hide Play, DownOf;
    PlayPair(setup, s, LoadDown(i), Revert(i));
    var down := DownOf(setup.sets[i], s.log).value;
    assert s.phases[i := Reverting(down)][i := Leaving] == s.phases[i := Leaving];
  }
}
