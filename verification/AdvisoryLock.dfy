/**
 Several Runners doing Ups and Downs at once. The advisory lock belongs to a session of a pool, and
 locking and unlocking may land on different sessions.
 */
module AdvisoryLock {
  import opened Common
  import opened Ledger
  import opened LedgerTable
  import opened LedgerLog
  import opened LedgerUndo
  import opened LedgerCounts

  datatype Session = Session(pool: nat, id: nat)

  /** A session-level advisory lock can be taken again by the session that has it. */
  datatype Hold = Hold(owner: Session, count: nat)

  /** Where a Runner's Up or Down is: before the lock, inside it, or about to unlock. */
  datatype Phase =
    | Idle
    | Locked
    | Applying(pending: seq<Migration>)
    | Unrecorded(pending: seq<Migration>)
    | Reverting(down: Migration)
    | Leaving

  datatype State = State(lock: Option<Hold>, phases: seq<Phase>, log: seq<Effect>)

  /** The pool and the migrations of each Runner; moving says that the clock moves between records. */
  datatype Setup = Setup(pools: seq<nat>, sets: seq<seq<Migration>>, moving: bool)

  /**
   A database call of one Runner, or its death: every interleaving is a sequence of actions. i is the
   Runner; session the id of a session of its pool; at the database's time. FailRecorded is a
   failure row after a failed or unanswered commit, LoseRecord a record that fails, RecordLost one that
   takes effect unanswered, Fail any other failing call. A process dies with all sessions of its pool.
   */
  datatype Action =
    | Acquire(i: nat, session: nat)
    | Load(i: nat)
    | LoadDown(i: nat)
    | Fail(i: nat)
    | FailRecorded(i: nat, at: int)
    | Commit(i: nat)
    | Record(i: nat, at: int)
    | RecordLost(i: nat, at: int)
    | LoseRecord(i: nat)
    | Revert(i: nat)
    | Finish(i: nat)
    | Release(i: nat, session: nat)
    | Die(i: nat)

  predicate Fits(setup: Setup, s: State) {
    |setup.pools| == |setup.sets| == |s.phases|
  }

  /** Everybody outside, nothing done yet. */
  function Outside(setup: Setup): State {
    State(None, seq(|setup.sets|, i requires 0 <= i < |setup.sets| => Idle), [])
  }

  function LockBy(lock: Option<Hold>, x: Session): Option<Hold> {
    Some(Hold(x, if lock.Some? then lock.value.count + 1 else 1))
  }

  /** Unlocking on a session that does not hold the lock only warns. */
  function UnlockBy(lock: Option<Hold>, x: Session): Option<Hold> {
    if lock.None? || lock.value.owner != x then lock
    else if lock.value.count > 1 then Some(Hold(x, lock.value.count - 1))
    else None
  }

  /** The database's clock has not gone back. */
  predicate OnTime(setup: Setup, log: seq<Effect>, at: int) {
    at >= Latest(log) && (setup.moving ==> at > Latest(log))
  }

  predicate Enabled(setup: Setup, s: State, a: Action)
    requires Fits(setup, s)
  {
    && a.i < |s.phases|
    && var p := s.phases[a.i];
       match a
       case Acquire(i, x) => p.Idle? && (s.lock.None? || s.lock.value.owner == Session(setup.pools[i], x))
       case Load(_) => p.Locked?
       case LoadDown(_) => p.Locked?
       case Fail(_) => p.Locked? || p.Applying? || p.Reverting?
       case FailRecorded(_, at) => (p.Applying? || p.Unrecorded?) && p.pending != [] && OnTime(setup, s.log, at)
       case Commit(_) => p.Applying? && p.pending != []
       case Record(_, at) => p.Unrecorded? && p.pending != [] && OnTime(setup, s.log, at)
       case RecordLost(_, at) => p.Unrecorded? && p.pending != [] && OnTime(setup, s.log, at)
       case LoseRecord(_) => p.Unrecorded?
       case Revert(_) => p.Reverting?
       case Finish(_) => p.Applying? && p.pending == []
       case Release(_, _) => p.Leaving?
       case Die(_) => true
  }

  /** What a Down finds to do after it has read the rows. */
  function DownOf(ms: seq<Migration>, log: seq<Effect>): Option<Migration> {
    var applied := Successes(OrderBy(RowsOf(log)));
    if applied == [] then None else Find(ms, applied[|applied| - 1].version, "down")
  }

  function UpPhase(pending: Option<seq<Migration>>): Phase {
    if pending.Some? then Applying(pending.value) else Leaving
  }

  function DownPhase(down: Option<Migration>): Phase {
    if down.Some? then Reverting(down.value) else Leaving
  }

  function NextPhase(setup: Setup, s: State, a: Action): Phase
    requires Fits(setup, s) && Enabled(setup, s, a)
  {
    var p := s.phases[a.i];
    match a
    case Acquire(_, _) => Locked
    case Load(_) => UpPhase(PendingUp(setup.sets[a.i], OrderBy(RowsOf(s.log))))
    case LoadDown(_) => DownPhase(DownOf(setup.sets[a.i], s.log))
    case Commit(_) => Unrecorded(p.pending)
    case Record(_, _) => Applying(p.pending[1..])
    case Release(_, _) => Idle
    case Die(_) => Idle
    case _ => Leaving
  }

  /** A death takes every Runner on the same pool with it. */
  function NextPhases(setup: Setup, s: State, a: Action): (phases: seq<Phase>)
    requires Fits(setup, s) && Enabled(setup, s, a)
    ensures |phases| == |s.phases|
  {
    if a.Die? then
      seq(|s.phases|, j requires 0 <= j < |s.phases| => if setup.pools[j] == setup.pools[a.i] then Idle else s.phases[j])
    else s.phases[a.i := NextPhase(setup, s, a)]
  }

  /** The effect of an action, if it has one. */
  function EffectOf(s: State, a: Action): Option<Effect>
    requires a.i < |s.phases|
  {
    var p := s.phases[a.i];
    match a
    case FailRecorded(_, at) =>
      if (p.Applying? || p.Unrecorded?) && p.pending != [] then Some(Recorded(RowFor(p.pending[0], at, false))) else None
    case Commit(_) => if p.Applying? && p.pending != [] then Some(Committed(p.pending[0])) else None
    case Record(_, at) => if p.Unrecorded? && p.pending != [] then Some(Recorded(RowFor(p.pending[0], at, true))) else None
    case RecordLost(_, at) => if p.Unrecorded? && p.pending != [] then Some(Recorded(RowFor(p.pending[0], at, true))) else None
    case Revert(_) => if p.Reverting? then Some(Reverted(p.down)) else None
    case _ => None
  }

  function Extended(log: seq<Effect>, e: Option<Effect>): seq<Effect> {
    if e.Some? then log + [e.value] else log
  }

  function NextLock(setup: Setup, s: State, a: Action): Option<Hold>
    requires Fits(setup, s) && Enabled(setup, s, a)
  {
    match a
    case Acquire(i, x) => LockBy(s.lock, Session(setup.pools[i], x))
    case Release(i, x) => UnlockBy(s.lock, Session(setup.pools[i], x))
    case Die(i) => if s.lock.Some? && s.lock.value.owner.pool == setup.pools[i] then None else s.lock
    case _ => s.lock
  }

  function Act(setup: Setup, s: State, a: Action): (s': State)
    requires Fits(setup, s) && Enabled(setup, s, a)
    ensures Fits(setup, s')
  {
    State(NextLock(setup, s, a), NextPhases(setup, s, a), Extended(s.log, EffectOf(s, a)))
  }

  /** The state after some actions, None if one could not happen. */
  function Play(setup: Setup, s: State, actions: seq<Action>): (r: Option<State>)
    requires Fits(setup, s)
    ensures r.Some? ==> Fits(setup, r.value)
    decreases |actions|
  {
    if actions == [] then Some(s)
    else if !Enabled(setup, s, actions[0]) then None
    else Play(setup, Act(setup, s, actions[0]), actions[1..])
  }

  predicate Proper(setup: Setup) {
    |setup.pools| == |setup.sets|
  }

  function PlayAll(setup: Setup, actions: seq<Action>): (r: Option<State>)
    requires Proper(setup)
    ensures r.Some? ==> Fits(setup, r.value)
  {
    Play(setup, Outside(setup), actions)
  }

  // ------------------------------------------------------------------
  // Mutual exclusion

  /** Whoever is past the lock has it in a session of its own pool. */
  ghost predicate LockHeld(setup: Setup, s: State)
    requires Fits(setup, s)
  {
    && (s.lock.Some? ==> s.lock.value.count > 0)
    && forall i | 0 <= i < |s.phases| && !s.phases[i].Idle? :: s.lock.Some? && s.lock.value.owner.pool == setup.pools[i]
  }

  lemma LockStep(setup: Setup, s: State, a: Action)
    requires Fits(setup, s) && Distinct(setup.pools) && LockHeld(setup, s) && Enabled(setup, s, a)
    ensures LockHeld(setup, Act(setup, s, a))
  {
    hide PendingUp, DownOf, OnTime, EffectOf;
  }

  lemma {:induction false} LockAlwaysHeld(setup: Setup, s: State, actions: seq<Action>)
    requires Fits(setup, s) && Distinct(setup.pools) && LockHeld(setup, s) && Play(setup, s, actions).Some?
    ensures LockHeld(setup, Play(setup, s, actions).value)
    decreases |actions|
  {
    hide Enabled, Act, LockHeld, Distinct;
    if actions != [] {
      LockStep(setup, s, actions[0]);
      LockAlwaysHeld(setup, Act(setup, s, actions[0]), actions[1..]);
    }
  }

  /** On no interleaving are two Runners of distinct pools between lock and unlock together. */
  lemma MutualExclusion(setup: Setup, actions: seq<Action>, i: nat, j: nat)
    requires Proper(setup) && Distinct(setup.pools) && PlayAll(setup, actions).Some? && i < |setup.sets| && j < |setup.sets|
    requires !PlayAll(setup, actions).value.phases[i].Idle? && !PlayAll(setup, actions).value.phases[j].Idle?
    ensures i == j
  {
    hide Play;
    LockAlwaysHeld(setup, Outside(setup), actions);
  }

  /** Two different Runners are inside after some actions. */
  ghost predicate TwoInside(setup: Setup, actions: seq<Action>)
    requires Proper(setup)
  {
    && PlayAll(setup, actions).Some?
    && exists i, j :: 0 <= i < j < |setup.sets| && !PlayAll(setup, actions).value.phases[i].Idle?
                      && !PlayAll(setup, actions).value.phases[j].Idle?
  }

  /** Two Runners of one pool can both be inside: the lock can be taken again by the session that has it. */
  lemma SharedPoolLetsTwoIn(setup: Setup, i: nat, j: nat)
    requires Proper(setup) && i < j < |setup.pools| && setup.pools[i] == setup.pools[j]
    ensures TwoInside(setup, [Acquire(i, 0), Acquire(j, 0)])
  {
    var actions := [Acquire(i, 0), Acquire(j, 0)];
    PlayTwo(setup, Outside(setup), Acquire(i, 0), Acquire(j, 0), []);
    assert actions + [] == actions;
    assert !PlayAll(setup, actions).value.phases[i].Idle? && !PlayAll(setup, actions).value.phases[j].Idle?;
  }

  lemma PlayTwo(setup: Setup, s: State, a: Action, b: Action, rest: seq<Action>)
    requires Fits(setup, s) && Enabled(setup, s, a) && Enabled(setup, Act(setup, s, a), b)
    ensures Play(setup, s, [a, b] + rest) == Play(setup, Act(setup, Act(setup, s, a), b), rest)
  {
    var all := [a, b] + rest;
    assert all[1..] == [b] + rest && all[1..][1..] == rest;
    hide Enabled, Act;
  }

  /** The lock excludes on every interleaving if and only if no two Runners share a pool. */
  lemma ExclusionExactly(setup: Setup)
    requires Proper(setup)
    ensures (forall actions :: !TwoInside(setup, actions)) <==> Distinct(setup.pools)
  {
    hide PlayAll;
    if Distinct(setup.pools) {
      forall actions ensures !TwoInside(setup, actions) {
        if TwoInside(setup, actions) {
          var i, j :| 0 <= i < j < |setup.sets| && !PlayAll(setup, actions).value.phases[i].Idle?
                      && !PlayAll(setup, actions).value.phases[j].Idle?;
          MutualExclusion(setup, actions, i, j);
        }
      }
    } else {
      var i, j :| 0 <= i < j < |setup.pools| && setup.pools[i] == setup.pools[j];
      SharedPoolLetsTwoIn(setup, i, j);
    }
  }

  /** A call leaves the lock as it found it exactly if it unlocks on the session that locked. */
  lemma LockRestoredExactly(setup: Setup, s: State, i: nat, x: nat, y: nat)
    requires Fits(setup, s) && LockHeld(setup, s) && Enabled(setup, s, Acquire(i, x))
    ensures UnlockBy(LockBy(s.lock, Session(setup.pools[i], x)), Session(setup.pools[i], y)) == s.lock <==> x == y
  {
  }

  /** The lock belongs to the pool of Runner i, and nobody is inside. */
  ghost predicate Leaked(setup: Setup, s: State, i: nat)
    requires Fits(setup, s) && i < |s.phases|
  {
    && s.lock.Some? && s.lock.value.owner.pool == setup.pools[i]
    && forall j | 0 <= j < |s.phases| :: s.phases[j].Idle?
  }

  /** Otherwise the lock leaks to an idle Runner. */
  lemma MisplacedUnlockLeaks(setup: Setup, s: State, i: nat, x: nat)
    requires Fits(setup, s) && Distinct(setup.pools) && LockHeld(setup, s) && i < |s.phases| && s.phases[i].Leaving?
    requires s.lock.value.owner != Session(setup.pools[i], x)
    ensures Leaked(setup, Act(setup, s, Release(i, x)), i)
  {
    forall j | 0 <= j < |s.phases| && j != i ensures s.phases[j].Idle? {}
  }

  /** While it is leaked, no other Runner enters on any continuation, until Runner i acts again. */
  lemma {:induction false} LeakShutsOthersOut(setup: Setup, s: State, i: nat, actions: seq<Action>)
    requires Fits(setup, s) && Distinct(setup.pools) && i < |s.phases| && Leaked(setup, s, i)
    requires Play(setup, s, actions).Some? && forall a | a in actions :: a.i != i
    ensures Play(setup, s, actions) == Some(s)
    decreases |actions|
  {
    if actions != [] {
      assert actions[0] in actions;
      LeakedStays(setup, s, i, actions[0]);
      hide Enabled, Act;
      LeakShutsOthersOut(setup, s, i, actions[1..]);
    }
  }

  lemma LeakedStays(setup: Setup, s: State, i: nat, a: Action)
    requires Fits(setup, s) && Distinct(setup.pools) && i < |s.phases| && Leaked(setup, s, i)
    requires Enabled(setup, s, a) && a.i != i
    ensures Act(setup, s, a) == s
  {
    assert s.phases[a.i].Idle?;
    assert a.Die?;
    assert NextPhases(setup, s, a) == s.phases;
  }

  /**
   A process may die at any time. Its Runners are gone, the others stay where they are, nothing is undone,
   and if one of its Runners was inside, the lock is free and anyone outside can take it.
   */
  lemma DeathExactly(setup: Setup, s: State, i: nat, j: nat, x: nat)
    requires Fits(setup, s) && LockHeld(setup, s) && i < |s.phases| && j < |s.phases|
    ensures Enabled(setup, s, Die(i))
    ensures var s' := Act(setup, s, Die(i));
            && s'.log == s.log && s'.phases[j] == (if setup.pools[j] == setup.pools[i] then Idle else s.phases[j])
            && (!s.phases[i].Idle? ==> s'.lock.None? && (s'.phases[j].Idle? ==> Enabled(setup, s', Acquire(j, x))))
            && (s.lock.Some? && s.lock.value.owner.pool != setup.pools[i] ==> s'.lock == s.lock)
  {
  }

  // ------------------------------------------------------------------
  // How often a version is committed

  /** Version v is committed and some Runner is about to record it. */
  ghost predicate InGap(s: State, v: int) {
    exists i :: 0 <= i < |s.phases| && Gap(s.phases[i], v)
  }

  predicate Gap(p: Phase, v: int) {
    p.Unrecorded? && p.pending != [] && p.pending[0].version == v
  }

  /** The action leaves the gap of version v without a success record. */
  predicate Abandons(s: State, a: Action, v: int) {
    a.i < |s.phases| && Gap(s.phases[a.i], v) && (a.FailRecorded? || a.LoseRecord? || a.Die?)
  }

  function Abandoned(setup: Setup, s: State, actions: seq<Action>, v: int): nat
    requires Fits(setup, s)
    decreases |actions|
  {
    if actions == [] || !Enabled(setup, s, actions[0]) then 0
    else Bit(Abandons(s, actions[0], v)) + Abandoned(setup, Act(setup, s, actions[0]), actions[1..], v)
  }

  ghost predicate PhaseOk(log: seq<Effect>, p: Phase) {
    match p
    case Applying(pending) => Increasing(pending) && forall m | m in pending :: !OnStack(log, m.version)
    case Unrecorded(pending) =>
      && pending != [] && log != [] && log[|log| - 1] == Committed(pending[0])
      && Increasing(pending) && forall m | m in pending :: !OnStack(log, m.version)
    case Reverting(down) => Stack(log) != [] && Stack(log)[|Stack(log)| - 1].version == down.version
    case _ => true
  }

  ghost predicate Consistent(setup: Setup, s: State)
    requires Fits(setup, s)
  {
    && LockHeld(setup, s) && Disciplined(s.log) && Paired(s.log) && Timely(s.log, setup.moving)
    && forall i | 0 <= i < |s.phases| :: PhaseOk(s.log, s.phases[i])
  }

  ghost predicate OnlyInside(s: State, i: nat) {
    forall j | 0 <= j < |s.phases| && j != i :: s.phases[j].Idle?
  }

  lemma Alone(setup: Setup, s: State, i: nat)
    requires Fits(setup, s) && Distinct(setup.pools) && LockHeld(setup, s) && i < |s.phases| && !s.phases[i].Idle?
    ensures OnlyInside(s, i)
  {
  }

  /** What a Runner reads inside the lock is not yet on the stack. */
  lemma LoadedIsPending(ms: seq<Migration>, log: seq<Effect>)
    requires UniqueSet(ms) && Disciplined(log) && PendingUp(ms, OrderBy(RowsOf(log))).Some?
    ensures Increasing(PendingUp(ms, OrderBy(RowsOf(log))).value)
    ensures forall m | m in PendingUp(ms, OrderBy(RowsOf(log))).value :: !OnStack(log, m.version)
  {
    var rows := OrderBy(RowsOf(log));
    PendingExact(ms, rows);
    TableIsStack(log);
    OrderBySorts(RowsOf(log));
    SuccessesMembers(rows);
    SuccessesMembers(RowsOf(log));
    forall v | v in Versions(Stack(log)) ensures v in Versions(Successes(rows)) {
      var i :| 0 <= i < |Stack(log)| && Versions(Stack(log))[i] == v;
      assert Stack(log)[i] in Successes(rows);
      var k :| 0 <= k < |Successes(rows)| && Successes(rows)[k] == Stack(log)[i];
      assert Versions(Successes(rows))[k] == v;
    }
  }

  /** With a moving clock a Down finds the down migration of the top. */
  lemma LoadedIsTop(ms: seq<Migration>, log: seq<Effect>)
    requires Disciplined(log) && Timely(log, true)
    ensures DownOf(ms, log).Some? ==> Stack(log) != [] && Stack(log)[|Stack(log)| - 1].version == DownOf(ms, log).value.version
  {
    ReadsStack(log, true);
    hide Stack, Successes, OrderBy, RowsOf, Find;
    if Stack(log) != [] {
      FindMeaning(ms, Stack(log)[|Stack(log)| - 1].version, "down");
    }
  }

  /** The effect that a Runner in phase p may have next, and its phase afterwards. */
  ghost predicate EffectFits(log: seq<Effect>, p: Phase, e: Effect, p': Phase) {
    || (p.Applying? && p.pending != [] && e == Committed(p.pending[0]) && p' == Unrecorded(p.pending))
    || (p.Unrecorded? && p.pending != [] && IsRecord(e, p.pending[0], true)
        && (p' == Applying(p.pending[1..]) || p' == Leaving))
    || ((p.Applying? || p.Unrecorded?) && p.pending != [] && IsRecord(e, p.pending[0], false) && p' == Leaving)
    || (p.Reverting? && e == Reverted(p.down) && p' == Leaving)
  }

  lemma PairedSnoc(log: seq<Effect>, e: Effect)
    requires Paired(log)
    requires IsPush(e) ==> log != [] && CommitsVersion(log[|log| - 1], e.row.version)
    ensures Paired(log + [e])
  {
    var all := log + [e];
    forall i | 0 <= i < |all| && IsPush(all[i])
      ensures i > 0 && all[i - 1].Committed? && all[i - 1].m.version == all[i].row.version
    {
      if i < |log| { assert all[i] == log[i] && (i > 0 ==> all[i - 1] == log[i - 1]); }
    }
  }

  /** The log and the phase of the Runner inside after its next effect. */
  lemma EffectStep(log: seq<Effect>, p: Phase, e: Effect, p': Phase)
    requires Disciplined(log) && Paired(log) && PhaseOk(log, p) && EffectFits(log, p, e, p')
    ensures Disciplined(log + [e]) && Paired(log + [e]) && PhaseOk(log + [e], p')
  {
    hide Stack, Disciplined, Paired;
    Snoc(log, e);
    assert (log + [e])[|log|] == e;
    if !e.Reverted? {
      assert p.pending[0] in p.pending;
    }
    PairedSnoc(log, e);
    if p'.Applying? {
      StillPending(log, log + [e], p.pending, e.row);
    } else if p'.Unrecorded? {
      SameStack(log, log + [e]);
    }
  }

  lemma SameStack(log: seq<Effect>, log': seq<Effect>)
    requires Stack(log') == Stack(log)
    ensures forall v :: OnStack(log', v) <==> OnStack(log, v)
  {
  }

  /** A step of the Runner inside the lock that has an effect. */
  lemma LogStep(setup: Setup, s: State, a: Action)
    requires Fits(setup, s) && Distinct(setup.pools) && Consistent(setup, s) && Enabled(setup, s, a) && EffectOf(s, a).Some?
    ensures Consistent(setup, Act(setup, s, a))
  {
    hide Stack, Disciplined, Paired, Timely, LockHeld, PhaseOk, Latest, Distinct;
    LockStep(setup, s, a);
    Inside(setup, s, a);
    var e, s' := EffectOf(s, a).value, Act(setup, s, a);
    EffectStep(s.log, s.phases[a.i], e, s'.phases[a.i]);
    TimelySnoc(s.log, e, setup.moving);
    forall j | 0 <= j < |s'.phases| && j != a.i ensures PhaseOk(s'.log, s'.phases[j]) {
      IdleIsOk(s'.log);
    }
  }

  lemma Inside(setup: Setup, s: State, a: Action)
    requires Fits(setup, s) && Distinct(setup.pools) && LockHeld(setup, s) && Enabled(setup, s, a) && EffectOf(s, a).Some?
    ensures OnlyInside(s, a.i) && OnlyInside(Act(setup, s, a), a.i)
    ensures EffectFits(s.log, s.phases[a.i], EffectOf(s, a).value, Act(setup, s, a).phases[a.i])
    ensures EffectOf(s, a).value.Recorded? ==> OnTime(setup, s.log, EffectOf(s, a).value.row.appliedAt)
  {
    hide Distinct, Latest;
    Alone(setup, s, a.i);
  }

  lemma IdleIsOk(log: seq<Effect>)
    ensures PhaseOk(log, Idle) && PhaseOk(log, Locked) && PhaseOk(log, Leaving)
  {
  }

  /** Any other step. */
  lemma QuietStep(setup: Setup, s: State, a: Action)
    requires Fits(setup, s) && Distinct(setup.pools) && Consistent(setup, s) && Enabled(setup, s, a)
    requires EffectOf(s, a).None? && UniqueSet(setup.sets[a.i]) && (a.LoadDown? ==> setup.moving)
    ensures Consistent(setup, Act(setup, s, a))
  {
    hide Stack, Disciplined, Paired, Timely, LockHeld, PhaseOk, Latest, Distinct, UniqueSet, PendingUp, DownOf;
    LockStep(setup, s, a);
    var s' := Act(setup, s, a);
    assert s'.log == s.log;
    IdleIsOk(s.log);
    if a.Load? && PendingUp(setup.sets[a.i], OrderBy(RowsOf(s.log))).Some? {
      LoadedIsPending(setup.sets[a.i], s.log);
      ApplyingIsOk(s.log, PendingUp(setup.sets[a.i], OrderBy(RowsOf(s.log))).value);
    }
    if a.LoadDown? && DownOf(setup.sets[a.i], s.log).Some? {
      LoadedIsTop(setup.sets[a.i], s.log);
      RevertingIsOk(s.log, DownOf(setup.sets[a.i], s.log).value);
    }
  }

  lemma ApplyingIsOk(log: seq<Effect>, p: seq<Migration>)
    requires Increasing(p) && forall m | m in p :: !OnStack(log, m.version)
    ensures PhaseOk(log, Applying(p))
  {
  }

  lemma RevertingIsOk(log: seq<Effect>, down: Migration)
    requires Stack(log) != [] && Stack(log)[|Stack(log)| - 1].version == down.version
    ensures PhaseOk(log, Reverting(down))
  {
  }

  /** Gaps of the log that no Runner is about to close: each step adds those it abandons. */
  lemma GapStep(setup: Setup, s: State, a: Action, v: int)
    requires Fits(setup, s) && Distinct(setup.pools) && Consistent(setup, s) && Enabled(setup, s, a)
    ensures var s' := Act(setup, s, a);
            Gaps(s'.log, v) + Bit(InGap(s, v)) == Gaps(s.log, v) + Bit(InGap(s', v)) + Bit(Abandons(s, a, v))
  {
    hide Disciplined, Paired, Timely, Distinct, Latest, Gaps;
    if EffectOf(s, a).Some? {
      GapEffect(setup, s, a, v);
    } else {
      GapQuiet(setup, s, a, v);
    }
  }

  lemma GapOf(s: State, i: nat, v: int)
    requires i < |s.phases| && OnlyInside(s, i)
    ensures InGap(s, v) <==> Gap(s.phases[i], v)
  {
  }

  lemma GapEffect(setup: Setup, s: State, a: Action, v: int)
    requires Fits(setup, s) && Distinct(setup.pools) && Consistent(setup, s) && Enabled(setup, s, a) && EffectOf(s, a).Some?
    ensures var s' := Act(setup, s, a);
            Gaps(s'.log, v) + Bit(InGap(s, v)) == Gaps(s.log, v) + Bit(InGap(s', v)) + Bit(Abandons(s, a, v))
  {
    hide Disciplined, Paired, Timely, Distinct, Latest, Gaps, LockHeld, InGap;
    Inside(setup, s, a);
    GapOf(s, a.i, v);
    GapOf(Act(setup, s, a), a.i, v);
    GapsSnoc(s.log, EffectOf(s, a).value, v);
    assert PhaseOk(s.log, s.phases[a.i]);
  }

  lemma GapQuiet(setup: Setup, s: State, a: Action, v: int)
    requires Fits(setup, s) && Distinct(setup.pools) && LockHeld(setup, s) && Enabled(setup, s, a) && EffectOf(s, a).None?
    ensures var s' := Act(setup, s, a); Bit(InGap(s, v)) == Bit(InGap(s', v)) + Bit(Abandons(s, a, v))
  {
    hide Latest;
    var s' := Act(setup, s, a);
    if s.phases[a.i].Idle? {
      IdleSteps(setup, s, a);
      if a.Acquire? {
        NobodyElse(setup, s, a);
        GapOf(s, a.i, v);
        GapOf(s', a.i, v);
      } else {
        assert s'.phases == s.phases;
      }
    } else {
      Alone(setup, s, a.i);
      GapOf(s, a.i, v);
      GapOf(s', a.i, v);
    }
  }

  lemma IdleSteps(setup: Setup, s: State, a: Action)
    requires Fits(setup, s) && Distinct(setup.pools) && Enabled(setup, s, a) && s.phases[a.i].Idle?
    ensures a.Acquire? || (a.Die? && Act(setup, s, a).phases == s.phases)
  {
    hide Latest;
  }

  /** Whoever takes the lock finds the others outside. */
  lemma NobodyElse(setup: Setup, s: State, a: Action)
    requires Fits(setup, s) && Distinct(setup.pools) && LockHeld(setup, s) && Enabled(setup, s, a) && a.Acquire?
    ensures OnlyInside(s, a.i)
  {
    forall j | 0 <= j < |s.phases| && j != a.i ensures s.phases[j].Idle? {
      assert setup.pools[j] != setup.pools[a.i];
    }
  }

  ghost predicate UniqueSets(setup: Setup) {
    forall i | 0 <= i < |setup.sets| :: UniqueSet(setup.sets[i])
  }

  predicate UpsOnly(actions: seq<Action>) {
    forall a | a in actions :: !a.LoadDown?
  }

  lemma {:induction false} AlwaysCounted(setup: Setup, s: State, actions: seq<Action>, v: int)
    requires Fits(setup, s) && Distinct(setup.pools) && UniqueSets(setup) && Consistent(setup, s)
    requires (setup.moving || UpsOnly(actions)) && Play(setup, s, actions).Some?
    ensures var s' := Play(setup, s, actions).value;
            && Consistent(setup, s')
            && Gaps(s'.log, v) + Bit(InGap(s, v)) == Gaps(s.log, v) + Bit(InGap(s', v)) + Abandoned(setup, s, actions, v)
    decreases |actions|
  {
    hide Consistent, Distinct, UniqueSet, Act, Enabled, Gaps, InGap, Abandons;
    if actions != [] {
      var a := actions[0];
      assert a in actions;
      Steps(setup, s, a);
      GapStep(setup, s, a, v);
      AlwaysCounted(setup, Act(setup, s, a), actions[1..], v);
    }
  }

  lemma Steps(setup: Setup, s: State, a: Action)
    requires Fits(setup, s) && Distinct(setup.pools) && UniqueSets(setup) && Consistent(setup, s) && Enabled(setup, s, a)
    requires a.LoadDown? ==> setup.moving
    ensures Consistent(setup, Act(setup, s, a))
  {
    hide Consistent, Distinct, UniqueSet, Act;
    EnabledIndex(setup, s, a);
    hide Enabled;
    if EffectOf(s, a).Some? {
      LogStep(setup, s, a);
    } else {
      QuietStep(setup, s, a);
    }
  }

  lemma EnabledIndex(setup: Setup, s: State, a: Action)
    requires Fits(setup, s) && Enabled(setup, s, a)
    ensures a.i < |s.phases|
  {
  }

  lemma OutsideIsConsistent(setup: Setup, v: int)
    requires Proper(setup)
    ensures Consistent(setup, Outside(setup)) && Gaps([], v) == 0 && !InGap(Outside(setup), v)
  {
  }

  /**
   On every interleaving of Ups and Downs, with failures, lost answers and deaths: a version has been
   committed once if its row is there, once for each time it was reverted, once if a Runner is about to
   record it, and once for each time its record was given up.
   */
  lemma CommitsCounted(setup: Setup, actions: seq<Action>, v: int)
    requires Proper(setup) && Distinct(setup.pools) && UniqueSets(setup) && PlayAll(setup, actions).Some?
    requires setup.moving || UpsOnly(actions)
    ensures var s := PlayAll(setup, actions).value;
            Commits(s.log, v) == Bit(OnStack(s.log, v)) + Reverts(s.log, v) + Bit(InGap(s, v))
                                 + Abandoned(setup, Outside(setup), actions, v)
  {
    hide Play, Gaps, InGap, Abandoned, Disciplined, Paired, Stack, Distinct, UniqueSet, Timely;
    OutsideIsConsistent(setup, v);
    AlwaysCounted(setup, Outside(setup), actions, v);
    CommitCount(PlayAll(setup, actions).value.log, v);
  }

  /** So without deaths, lost answers and failed records concurrent Ups commit each version at most once. */
  lemma CommittedOnce(setup: Setup, actions: seq<Action>, v: int)
    requires Proper(setup) && Distinct(setup.pools) && UniqueSets(setup) && PlayAll(setup, actions).Some?
    requires UpsOnly(actions) && Abandoned(setup, Outside(setup), actions, v) == 0
    ensures var s := PlayAll(setup, actions).value;
            Commits(s.log, v) <= 1 && (OnStack(s.log, v) ==> Commits(s.log, v) == 1)
  {
    hide Play, Abandoned, Distinct, UniqueSet, Consistent, Commits, Stack;
    OutsideIsConsistent(setup, v);
    AlwaysCounted(setup, Outside(setup), actions, v);
    CommitsCounted(setup, actions, v);
    NothingCounted(v);
    NothingReverted(setup, Outside(setup), actions, v);
    var s := PlayAll(setup, actions).value;
    NotBoth(setup, s, v);
  }

  /** A version about to be recorded has no row. */
  lemma NotBoth(setup: Setup, s: State, v: int)
    requires Fits(setup, s) && Consistent(setup, s)
    ensures !(InGap(s, v) && OnStack(s.log, v))
  {
    hide Stack, Disciplined, Paired, Timely, LockHeld;
    if InGap(s, v) {
      var i :| 0 <= i < |s.phases| && Gap(s.phases[i], v);
      assert PhaseOk(s.log, s.phases[i]);
      assert s.phases[i].pending[0] in s.phases[i].pending;
    }
  }

  ghost predicate NobodyReverts(s: State) {
    forall i | 0 <= i < |s.phases| :: !s.phases[i].Reverting?
  }

  lemma {:induction false} NothingReverted(setup: Setup, s: State, actions: seq<Action>, v: int)
    requires Fits(setup, s) && UpsOnly(actions) && NobodyReverts(s) && Play(setup, s, actions).Some?
    ensures Reverts(Play(setup, s, actions).value.log, v) == Reverts(s.log, v)
    decreases |actions|
  {
    hide Enabled, Act, Reverts, NobodyReverts;
    if actions != [] {
      var a := actions[0];
      assert a in actions;
      NoRevertStep(setup, s, a, v);
      NothingReverted(setup, Act(setup, s, a), actions[1..], v);
    }
  }

  lemma NoRevertStep(setup: Setup, s: State, a: Action, v: int)
    requires Fits(setup, s) && !a.LoadDown? && NobodyReverts(s) && Enabled(setup, s, a)
    ensures NobodyReverts(Act(setup, s, a)) && Reverts(Act(setup, s, a).log, v) == Reverts(s.log, v)
  {
    hide Reverts, Latest, PendingUp;
    if EffectOf(s, a).Some? {
      CommitsSnoc(s.log, EffectOf(s, a).value, v);
    }
  }

  // ------------------------------------------------------------------
  // A Runner can run through

  /** Commit and record each pending migration at some time, finish, unlock. */
  function Rest(i: nat, x: nat, p: seq<Migration>, at: int): seq<Action> {
    if p == [] then [Finish(i), Release(i, x)] else [Commit(i), Record(i, at)] + Rest(i, x, p[1..], at + 1)
  }

  lemma {:induction false} RestRuns(setup: Setup, s: State, i: nat, x: nat, p: seq<Migration>, at: int)
    requires Fits(setup, s) && i < |s.phases| && s.phases[i] == Applying(p) && at > Latest(s.log)
    ensures var r := Play(setup, s, Rest(i, x, p, at));
            && r.Some? && r.value.phases == s.phases[i := Idle]
            && r.value.lock == UnlockBy(s.lock, Session(setup.pools[i], x))
            && (forall v | OnStack(s.log, v) :: OnStack(r.value.log, v))
            && forall m | m in p :: OnStack(r.value.log, m.version)
    decreases |p|
  {
    hide Stack, Play, Latest;
    if p == [] {
      PlayTwo(setup, s, Finish(i), Release(i, x), []);
      PlayNone(setup, Act(setup, Act(setup, s, Finish(i)), Release(i, x)));
      assert [Finish(i), Release(i, x)] + [] == Rest(i, x, p, at);
    } else {
      var s2 := PairRuns(setup, s, i, p, at);
      var rest := Rest(i, x, p[1..], at + 1);
      PlayTwo(setup, s, Commit(i), Record(i, at), rest);
      assert Rest(i, x, p, at) == [Commit(i), Record(i, at)] + rest;
      RestRuns(setup, s2, i, x, p[1..], at + 1);
      assert p == [p[0]] + p[1..];
    }
  }

  lemma PlayNone(setup: Setup, s: State)
    requires Fits(setup, s)
    ensures Play(setup, s, []) == Some(s)
  {
  }

  lemma PairRuns(setup: Setup, s: State, i: nat, p: seq<Migration>, at: int) returns (s2: State)
    requires Fits(setup, s) && i < |s.phases| && s.phases[i] == Applying(p) && p != [] && at > Latest(s.log)
    ensures Enabled(setup, s, Commit(i)) && Enabled(setup, Act(setup, s, Commit(i)), Record(i, at))
    ensures s2 == Act(setup, Act(setup, s, Commit(i)), Record(i, at))
    ensures s2.phases == s.phases[i := Applying(p[1..])] && s2.lock == s.lock && Latest(s2.log) == at
    ensures forall v :: OnStack(s2.log, v) <==> OnStack(s.log, v) || v == p[0].version
  {
    hide Stack, Latest;
    var e := Recorded(RowFor(p[0], at, true));
    LatestSnoc(s.log, Committed(p[0]));
    var c := Act(setup, s, Commit(i));
    assert c.log == s.log + [Committed(p[0])];
    LatestSnoc(c.log, e);
    s2 := Act(setup, c, Record(i, at));
    assert s2.log == c.log + [e];
    Snoc(s.log, Committed(p[0]));
    Snoc(c.log, e);
    assert Versions(Stack(s2.log)) == Versions(Stack(s.log)) + [p[0].version];
  }

  /**
   A Runner that can take the lock and sees no changed checksum can run through on one session:
   every pending migration ends up recorded, and the lock is as it was.
   */
  lemma RunsThrough(setup: Setup, s: State, i: nat, x: nat)
    requires Fits(setup, s) && LockHeld(setup, s) && i < |s.phases| && Enabled(setup, s, Acquire(i, x))
    requires PendingUp(setup.sets[i], OrderBy(RowsOf(s.log))).Some?
    ensures var p := PendingUp(setup.sets[i], OrderBy(RowsOf(s.log))).value;
            var r := Play(setup, s, [Acquire(i, x), Load(i)] + Rest(i, x, p, Latest(s.log) + 1));
            && r.Some? && r.value.lock == s.lock && r.value.phases == s.phases
            && forall m | m in p :: OnStack(r.value.log, m.version)
  {
    hide PendingUp, OrderBy, RowsOf, Stack, Rest, Play, Latest;
    var p := PendingUp(setup.sets[i], OrderBy(RowsOf(s.log))).value;
    var locked := Act(setup, s, Acquire(i, x));
    var loaded := Act(setup, locked, Load(i));
    PlayTwo(setup, s, Acquire(i, x), Load(i), Rest(i, x, p, Latest(s.log) + 1));
    LockRestoredExactly(setup, s, i, x, x);
    RestRuns(setup, loaded, i, x, p, Latest(s.log) + 1);
  }
}
