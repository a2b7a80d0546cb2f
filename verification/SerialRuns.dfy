/**
 Every interleaving is serial: whatever Runners of distinct pools do at once, the log they leave is the
 log of a history in which their Ups and Downs run one after the other. What each Runner does between
 lock and unlock is a section, and the sections in the order of their locks make up the log. What
 histories keep, interleavings keep.
 */
module SerialRuns {
  import opened Common
  import opened Ledger
  import opened LedgerTable
  import opened LedgerLog
  import opened LedgerSteps
  import opened LedgerRuns
  import opened AdvisoryLock
  import LedgerHistory

  // ------------------------------------------------------------------
  // Sections: what each Runner did between lock and unlock

  datatype Section = Section(i: nat, down: bool, es: seq<Effect>)

  function LogOf(secs: seq<Section>): seq<Effect> {
    if secs == [] then [] else LogOf(secs[..|secs| - 1]) + secs[|secs| - 1].es
  }

  /** What an Up or a Down can leave, given what it finds. */
  ghost predicate Leaves(ms: seq<Migration>, log: seq<Effect>, down: bool, es: seq<Effect>) {
    || es == []
    || (!down && PendingUp(ms, OrderBy(RowsOf(log))).Some? && UpTrail(PendingUp(ms, OrderBy(RowsOf(log))).value, es))
    || (down && DownOf(ms, log).Some? && es == [Reverted(DownOf(ms, log).value)])
  }

  ghost predicate Chain(setup: Setup, secs: seq<Section>) {
    secs == [] ||
    (var init, last := secs[..|secs| - 1], secs[|secs| - 1];
     Chain(setup, init) && last.i < |setup.sets| && Leaves(setup.sets[last.i], LogOf(init), last.down, last.es))
  }

  lemma ChainSnoc(setup: Setup, secs: seq<Section>, sec: Section)
    requires Chain(setup, secs) && sec.i < |setup.sets| && Leaves(setup.sets[sec.i], LogOf(secs), sec.down, sec.es)
    ensures Chain(setup, secs + [sec]) && LogOf(secs + [sec]) == LogOf(secs) + sec.es
  {
    assert (secs + [sec])[..|secs|] == secs;
  }

  /** The first k migrations of p committed and recorded. */
  ghost predicate Pairs(p: seq<Migration>, k: nat, es: seq<Effect>)
    decreases k
  {
    if k == 0 then es == []
    else |p| > 0 && |es| >= 2 && es[0] == Committed(p[0]) && IsRecord(es[1], p[0], true) && Pairs(p[1..], k - 1, es[2..])
  }

  lemma {:induction false} PairsThenTrail(p: seq<Migration>, k: nat, es: seq<Effect>, tail: seq<Effect>)
    requires k <= |p| && Pairs(p, k, es) && UpTrail(p[k..], tail)
    ensures UpTrail(p, es + tail)
    decreases k
  {
    if k == 0 {
      assert p[0..] == p && es + tail == tail;
    } else {
      assert p[1..][k - 1..] == p[k..];
      PairsThenTrail(p[1..], k - 1, es[2..], tail);
      assert (es + tail)[2..] == es[2..] + tail;
    }
  }

  lemma {:induction false} PairsThenPair(p: seq<Migration>, k: nat, es: seq<Effect>, e: Effect)
    requires k < |p| && Pairs(p, k, es) && IsRecord(e, p[k], true)
    ensures Pairs(p, k + 1, es + [Committed(p[k]), e])
    decreases k
  {
    if k == 0 {
      assert es + [Committed(p[k]), e] == [Committed(p[k]), e];
      assert [Committed(p[k]), e][2..] == [];
    } else {
      PairsThenPair(p[1..], k - 1, es[2..], e);
      assert (es + [Committed(p[k]), e])[2..] == es[2..] + [Committed(p[k]), e];
    }
  }

  /** q is what is left of p after the pairs es. */
  ghost predicate SoFar(p: seq<Migration>, q: seq<Migration>, es: seq<Effect>) {
    |q| <= |p| && q == p[|p| - |q|..] && Pairs(p, |p| - |q|, es)
  }

  lemma SoFarTrail(p: seq<Migration>, q: seq<Migration>, es: seq<Effect>, tail: seq<Effect>)
    requires SoFar(p, q, es) && UpTrail(q, tail)
    ensures UpTrail(p, es + tail)
  {
    PairsThenTrail(p, |p| - |q|, es, tail);
  }

  lemma SoFarMore(p: seq<Migration>, q: seq<Migration>, es: seq<Effect>, e: Effect)
    requires SoFar(p, q, es) && q != [] && IsRecord(e, q[0], true)
    ensures SoFar(p, q[1..], es + [Committed(q[0]), e])
  {
    PairsThenPair(p, |p| - |q|, es, e);
    assert q[1..] == p[|p| - |q| + 1..];
  }

  function Found(ms: seq<Migration>, log: seq<Effect>): Option<seq<Migration>> {
    PendingUp(ms, OrderBy(RowsOf(log)))
  }

  /** What the Runner inside has left since it locked, in phase p; ups says that nobody does a Down. */
  ghost predicate Current(ms: seq<Migration>, log: seq<Effect>, p: Phase, es: seq<Effect>, ups: bool) {
    match p
    case Idle => true
    case Locked => es == []
    case Applying(q) => Found(ms, log).Some? && SoFar(Found(ms, log).value, q, es)
    case Unrecorded(q) =>
      && q != [] && es != [] && es[|es| - 1] == Committed(q[0])
      && Found(ms, log).Some? && SoFar(Found(ms, log).value, q, es[..|es| - 1])
    case Reverting(d) => !ups && es == [] && DownOf(ms, log) == Some(d)
    case Leaving => Leaves(ms, log, false, es) || (!ups && Leaves(ms, log, true, es))
  }

  /** Wherever the Runner inside stops, what it has left is what an Up or a Down can leave. */
  lemma CurrentLeaves(ms: seq<Migration>, log: seq<Effect>, p: Phase, es: seq<Effect>, ups: bool)
    requires Current(ms, log, p, es, ups) && !p.Idle?
    ensures Leaves(ms, log, false, es) || (!ups && Leaves(ms, log, true, es))
  {
    hide PendingUp, OrderBy, RowsOf, DownOf;
    match p
    case Applying(q) =>
      SoFarTrail(Found(ms, log).value, q, es, []);
      assert es + [] == es;
    case Unrecorded(q) =>
      var init, c := es[..|es| - 1], es[|es| - 1];
      SoFarTrail(Found(ms, log).value, q, init, [c]);
      assert es == init + [c];
    case _ =>
  }

  /** One more effect of the Runner inside. */
  lemma CurrentEffect(ms: seq<Migration>, log: seq<Effect>, p: Phase, es: seq<Effect>, ups: bool, e: Effect, p': Phase)
    requires Current(ms, log, p, es, ups) && EffectFits(log + es, p, e, p')
    ensures Current(ms, log, p', es + [e], ups)
  {
    hide PendingUp, OrderBy, RowsOf, DownOf, Pairs;
    if p.Applying? {
      if p'.Unrecorded? {
        assert (es + [e])[..|es|] == es;
      } else {
        SoFarTrail(Found(ms, log).value, p.pending, es, [e]);
      }
    } else if p.Unrecorded? {
      var init, c := es[..|es| - 1], es[|es| - 1];
      assert es + [e] == init + [c, e];
      if IsRecord(e, p.pending[0], true) {
        SoFarMore(Found(ms, log).value, p.pending, init, e);
        if p' == Leaving {
          SoFarTrail(Found(ms, log).value, p.pending[1..], init + [c, e], []);
          assert init + [c, e] + [] == init + [c, e];
        }
      } else {
        SoFarTrail(Found(ms, log).value, p.pending, init, [c, e]);
      }
    } else {
      assert es + [e] == [e];
    }
  }

  /** The state as a chain of finished sections and what the Runner inside, if any, has left so far. */
  ghost predicate Serial(setup: Setup, s: State, secs: seq<Section>, es: seq<Effect>, ups: bool)
    requires Fits(setup, s)
  {
    && LockHeld(setup, s) && Chain(setup, secs) && s.log == LogOf(secs) + es && Clocked(s.log, false)
    && (forall i | 0 <= i < |s.phases| :: Current(setup.sets[i], LogOf(secs), s.phases[i], es, ups))
    && ((forall i | 0 <= i < |s.phases| :: s.phases[i].Idle?) ==> es == [])
    && (forall sec | sec in secs && ups :: !sec.down)
  }

  lemma SerialEffect(setup: Setup, s: State, a: Action, secs: seq<Section>, es: seq<Effect>, ups: bool)
    requires Fits(setup, s) && Distinct(setup.pools) && Serial(setup, s, secs, es, ups) && Enabled(setup, s, a)
    requires EffectOf(s, a).Some?
    ensures Serial(setup, Act(setup, s, a), secs, es + [EffectOf(s, a).value], ups)
  {
    hide Clocked, Latest, Chain, LogOf, Current, LockHeld, Distinct;
    var e, s' := EffectOf(s, a).value, Act(setup, s, a);
    LockStep(setup, s, a);
    Inside(setup, s, a);
    CurrentEffect(setup.sets[a.i], LogOf(secs), s.phases[a.i], es, ups, e, s'.phases[a.i]);
    ClockedSnoc(s.log, e, false);
    assert s'.log == LogOf(secs) + (es + [e]);
    forall j | 0 <= j < |s'.phases| && j != a.i ensures Current(setup.sets[j], LogOf(secs), s'.phases[j], es + [e], ups) {
      IdleCurrent(setup.sets[j], LogOf(secs), es + [e], ups);
    }
    StillInside(s.log, s.phases[a.i], e, s'.phases[a.i]);
  }

  lemma IdleCurrent(ms: seq<Migration>, log: seq<Effect>, es: seq<Effect>, ups: bool)
    ensures Current(ms, log, Idle, es, ups)
  {
  }

  lemma StillInside(log: seq<Effect>, p: Phase, e: Effect, p': Phase)
    requires EffectFits(log, p, e, p')
    ensures !p'.Idle?
  {
  }

  /** A step within the section that has no effect. */
  predicate Goes(a: Action) {
    a.Load? || a.LoadDown? || a.Fail? || a.LoseRecord? || a.Finish?
  }

  lemma CurrentGoes(setup: Setup, s: State, a: Action, secs: seq<Section>, es: seq<Effect>, ups: bool)
    requires Fits(setup, s) && Serial(setup, s, secs, es, ups) && Enabled(setup, s, a) && Goes(a) && (ups ==> !a.LoadDown?)
    ensures var p := s.phases[a.i];
            !p.Idle? && Current(setup.sets[a.i], LogOf(secs), Act(setup, s, a).phases[a.i], es, ups)
  {
    hide Clocked, Latest, Chain, LockHeld, PendingUp, OrderBy, RowsOf, DownOf, LogOf, Pairs;
    var ms, log, p := setup.sets[a.i], LogOf(secs), s.phases[a.i];
    if a.Load? || a.LoadDown? {
      assert s.log == log by { assert es == [] && log + [] == log; }
      NothingYet(ms, log);
    } else {
      CurrentLeaves(ms, log, p, es, ups);
    }
  }

  lemma NothingYet(ms: seq<Migration>, log: seq<Effect>)
    ensures Found(ms, log).Some? ==> SoFar(Found(ms, log).value, Found(ms, log).value, [])
  {
    hide PendingUp;
  }

  lemma SerialGoes(setup: Setup, s: State, a: Action, secs: seq<Section>, es: seq<Effect>, ups: bool)
    requires Fits(setup, s) && Distinct(setup.pools) && Serial(setup, s, secs, es, ups) && Enabled(setup, s, a)
    requires Goes(a) && (ups ==> !a.LoadDown?)
    ensures Serial(setup, Act(setup, s, a), secs, es, ups)
  {
    hide Clocked, Latest, Chain, LogOf, LockHeld, Distinct, PendingUp, DownOf;
    LockStep(setup, s, a);
    CurrentGoes(setup, s, a, secs, es, ups);
    hide Current;
    assert !Act(setup, s, a).phases[a.i].Idle?;
  }

  lemma SerialAcquire(setup: Setup, s: State, a: Action, secs: seq<Section>, es: seq<Effect>, ups: bool)
    requires Fits(setup, s) && Distinct(setup.pools) && Serial(setup, s, secs, es, ups) && Enabled(setup, s, a) && a.Acquire?
    ensures Serial(setup, Act(setup, s, a), secs, es, ups)
  {
    hide Clocked, Latest, Chain, LogOf;
    LockStep(setup, s, a);
    NobodyElse(setup, s, a);
    assert forall i | 0 <= i < |s.phases| :: s.phases[i].Idle?;
  }

  /** The section of the Runner inside ends: it unlocks or dies. */
  lemma SerialEnds(setup: Setup, s: State, a: Action, secs: seq<Section>, es: seq<Effect>, ups: bool)
    returns (secs': seq<Section>)
    requires Fits(setup, s) && Distinct(setup.pools) && Serial(setup, s, secs, es, ups) && Enabled(setup, s, a)
    requires (a.Release? || a.Die?) && !s.phases[a.i].Idle?
    ensures Serial(setup, Act(setup, s, a), secs', [], ups)
  {
    hide Clocked, Latest, Chain, LogOf, Distinct, Leaves;
    LockStep(setup, s, a);
    Alone(setup, s, a.i);
    secs' := Closed(setup, s, a.i, secs, es, ups);
    var s' := Act(setup, s, a);
    EveryoneOut(setup, s, a);
    assert s'.log + [] == s'.log;
  }

  lemma EveryoneOut(setup: Setup, s: State, a: Action)
    requires Fits(setup, s) && Distinct(setup.pools) && OnlyInside(s, a.i) && Enabled(setup, s, a) && (a.Release? || a.Die?)
    ensures forall j | 0 <= j < |s.phases| :: Act(setup, s, a).phases[j] == Idle
    ensures Act(setup, s, a).log == s.log
  {
    forall j | 0 <= j < |s.phases| ensures Act(setup, s, a).phases[j] == Idle {
      assert j != a.i ==> s.phases[j].Idle?;
    }
  }

  /** The chain with the section of the Runner inside at its end. */
  lemma Closed(setup: Setup, s: State, i: nat, secs: seq<Section>, es: seq<Effect>, ups: bool)
    returns (secs': seq<Section>)
    requires Fits(setup, s) && Serial(setup, s, secs, es, ups) && i < |s.phases| && !s.phases[i].Idle?
    ensures Chain(setup, secs') && LogOf(secs') == s.log && forall sec | sec in secs' && ups :: !sec.down
  {
    hide Clocked, Latest, Chain, LogOf, LockHeld, Leaves;
    CurrentLeaves(setup.sets[i], LogOf(secs), s.phases[i], es, ups);
    hide Current;
    var sec := Section(i, !Leaves(setup.sets[i], LogOf(secs), false, es), es);
    ChainSnoc(setup, secs, sec);
    secs' := secs + [sec];
  }

  lemma SerialStep(setup: Setup, s: State, a: Action, secs: seq<Section>, es: seq<Effect>, ups: bool)
    returns (secs': seq<Section>, es': seq<Effect>)
    requires Fits(setup, s) && Distinct(setup.pools) && Serial(setup, s, secs, es, ups) && Enabled(setup, s, a)
    requires ups ==> !a.LoadDown?
    ensures Serial(setup, Act(setup, s, a), secs', es', ups)
  {
    hide Serial, Distinct, Latest;
    EnabledIndex(setup, s, a);
    secs', es' := secs, es;
    if EffectOf(s, a).Some? {
      SerialEffect(setup, s, a, secs, es, ups);
      es' := es + [EffectOf(s, a).value];
    } else if a.Acquire? {
      SerialAcquire(setup, s, a, secs, es, ups);
    } else if Goes(a) {
      SerialGoes(setup, s, a, secs, es, ups);
    } else if s.phases[a.i].Idle? {
      DeathOutside(setup, s, a, secs, es, ups);
    } else {
      secs' := SerialEnds(setup, s, a, secs, es, ups);
      es' := [];
    }
  }

  lemma DeathOutside(setup: Setup, s: State, a: Action, secs: seq<Section>, es: seq<Effect>, ups: bool)
    requires Fits(setup, s) && Distinct(setup.pools) && Serial(setup, s, secs, es, ups) && Enabled(setup, s, a)
    requires s.phases[a.i].Idle? && !a.Acquire?
    ensures Serial(setup, Act(setup, s, a), secs, es, ups)
  {
    hide Clocked, Latest, Chain, LogOf, Current;
    LockStep(setup, s, a);
    IdleSteps(setup, s, a);
  }

  lemma {:induction false} AlwaysSerial(setup: Setup, s: State, actions: seq<Action>, secs: seq<Section>, es: seq<Effect>,
                                        ups: bool) returns (secs': seq<Section>, es': seq<Effect>)
    requires Fits(setup, s) && Distinct(setup.pools) && Serial(setup, s, secs, es, ups)
    requires Play(setup, s, actions).Some? && (ups ==> UpsOnly(actions))
    ensures Serial(setup, Play(setup, s, actions).value, secs', es', ups)
    decreases |actions|
  {
    hide Serial, Distinct, Act, Enabled;
    secs', es' := secs, es;
    if actions != [] {
      assert actions[0] in actions;
      secs', es' := SerialStep(setup, s, actions[0], secs, es, ups);
      secs', es' := AlwaysSerial(setup, Act(setup, s, actions[0]), actions[1..], secs', es', ups);
    }
  }

  /** The log of an interleaving as a chain of sections. */
  lemma Sections(setup: Setup, actions: seq<Action>, ups: bool) returns (secs: seq<Section>)
    requires Proper(setup) && Distinct(setup.pools) && PlayAll(setup, actions).Some? && (ups ==> UpsOnly(actions))
    ensures Chain(setup, secs) && LogOf(secs) == PlayAll(setup, actions).value.log
    ensures Clocked(LogOf(secs), false) && forall sec | sec in secs && ups :: !sec.down
  {
    hide Play, Distinct, Chain, Clocked, Current, LogOf;
    StartIsSerial(setup, ups);
    var es;
    secs, es := AlwaysSerial(setup, Outside(setup), actions, [], [], ups);
    var s := PlayAll(setup, actions).value;
    if i :| 0 <= i < |s.phases| && !s.phases[i].Idle? {
      secs := Closed(setup, s, i, secs, es, ups);
    } else {
      assert LogOf(secs) + [] == LogOf(secs);
    }
  }

  lemma StartIsSerial(setup: Setup, ups: bool)
    requires Proper(setup)
    ensures Serial(setup, Outside(setup), [], [], ups)
  {
  }
}
