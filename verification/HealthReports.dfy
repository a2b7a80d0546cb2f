/** The reports of the health manager: several checks under one status, and all of them with counters. */
module HealthReports {
  import opened Common
  import opened Texts
  import opened HealthStatus
  import opened HealthCache

  function Outcomes(rs: seq<Result>): (os: seq<Outcome>)
    ensures |os| == |rs| && forall i | 0 <= i < |rs| :: os[i] == rs[i].outcome
  {
    seq(|rs|, i requires 0 <= i < |rs| => rs[i].outcome)
  }

  lemma OutcomesSnoc(rs: seq<Result>, r: Result)
    ensures Outcomes(rs + [r]) == Outcomes(rs) + [r.outcome]
  {
  }

  // ------------------------------------------------------------------
  // performChecks

  /** The checks made one after the other, until one is unhealthy. */
  function AskAll(cfg: Config, st: State, names: seq<string>, ts: seq<Times>): (r: (State, seq<Result>))
    requires |ts| == |names|
    ensures names != [] ==> r.1 != []
    decreases |names|
  {
    if names == [] then (st, [])
    else
      var (st1, result) := PerformCheck(cfg, st, names[0], ts[0]);
      if result.outcome.status.Unhealthy? then (st1, [result])
      else
        var (st2, rest) := AskAll(cfg, st1, names[1..], ts[1..]);
        (st2, [result] + rest)
  }

  function Prepended(before: seq<Result>, r: (State, seq<Result>)): (State, seq<Result>) {
    (r.0, before + r.1)
  }

  lemma AskNone(cfg: Config, st: State, names: seq<string>, ts: seq<Times>)
    requires |ts| == |names|
    ensures AskAll(cfg, st, names, ts) == Prepended([], AskAll(cfg, st, names[0..], ts[0..]))
    ensures AskAll(cfg, st, [], []) == (st, [])
    ensures names[|names|..] == [] && ts[|names|..] == []
  {
    assert names[0..] == names && ts[0..] == ts;
    assert [] + AskAll(cfg, st, names, ts).1 == AskAll(cfg, st, names, ts).1;
  }

  lemma AskNext(cfg: Config, st: State, before: seq<Result>, names: seq<string>, ts: seq<Times>, i: nat)
    requires i < |names| == |ts|
    ensures var (st1, r) := PerformCheck(cfg, st, names[i], ts[i]);
            Prepended(before, AskAll(cfg, st, names[i..], ts[i..]))
            == if r.outcome.status.Unhealthy? then (st1, before + [r])
               else Prepended(before + [r], AskAll(cfg, st1, names[i + 1..], ts[i + 1..]))
  {
    assert names[i..][1..] == names[i + 1..] && ts[i..][1..] == ts[i + 1..];
    var (st1, r) := PerformCheck(cfg, st, names[i], ts[i]);
    var rest := AskAll(cfg, st1, names[i + 1..], ts[i + 1..]).1;
    assert before + ([r] + rest) == before + [r] + rest;
  }

  /**
   performChecks asks in order and stops after the first unhealthy result: no later checker is called and
   no cache entry but those of the names asked changes.
   */
  lemma {:induction false} AskAllStops(cfg: Config, st: State, names: seq<string>, ts: seq<Times>)
    requires |ts| == |names|
    ensures var (st', rs) := AskAll(cfg, st, names, ts);
            && |rs| <= |names| && st'.checkers == st.checkers
            && (forall i | 0 <= i < |rs| - 1 :: !rs[i].outcome.status.Unhealthy?)
            && (|rs| < |names| ==> rs != [] && rs[|rs| - 1].outcome.status.Unhealthy?)
            && (forall n | n !in names[..|rs|] ::
                  (n in st'.cache <==> n in st.cache) && (n in st.cache ==> st'.cache[n] == st.cache[n]))
            && (rs != [] ==> rs[0] == PerformCheck(cfg, st, names[0], ts[0]).1)
    decreases |names|
  {
    if names != [] {
      var (st1, r) := PerformCheck(cfg, st, names[0], ts[0]);
      AskAllStops(cfg, st1, names[1..], ts[1..]);
      var rest := AskAll(cfg, st1, names[1..], ts[1..]).1;
      if !r.outcome.status.Unhealthy? {
        assert names[..1 + |rest|] == [names[0]] + names[1..][..|rest|];
      }
    }
  }

  /** The outcome of performChecks on the results it has got. */
  function Overall(os: seq<Outcome>): Outcome {
    if os == [] then Outcome(Healthy, "No checks configured") else
    match FirstUnhealthy(os)
    case Some(o) => o
    case None =>
      var (overall, messages) := Fold(os);
      Outcome(overall, if messages != [] then "Issues: " + Listed(messages) else "")
  }

  function PerformChecks(cfg: Config, st: State, names: seq<string>, ts: seq<Times>): (State, Outcome)
    requires |ts| == |names|
  {
    var (st', rs) := AskAll(cfg, st, names, ts);
    (st', Overall(Outcomes(rs)))
  }

  /** performChecks and a composite agree on every non-empty list; on the empty one they do not. */
  lemma OverallIsWorst(os: seq<Outcome>)
    ensures os != [] ==> Overall(os).status == Combined(os).status == Worst(os)
    ensures os == [] ==> Overall(os).status.Healthy? && Combined(os).status.Unknown?
  {
    FirstUnhealthyExact(os);
    FoldIsWorst(os);
    CombinedIsWorst(os);
  }

  /** What performChecks answers: the first unhealthy result as it is, or the degraded messages, spaced. */
  lemma OverallExact(os: seq<Outcome>)
    ensures os == [] ==> Overall(os) == Outcome(Healthy, "No checks configured")
    ensures forall i: nat | IsFirstUnhealthy(os, i) :: Overall(os) == os[i]
    ensures os != [] && !HealthStatus.Reports(os, Unhealthy) ==>
              && Overall(os).status == Worst(os)
              && Overall(os).message == if DegradedMessages(os) == [] then ""
                                        else "Issues: [" + Join(DegradedMessages(os), ' ') + "]"
  {
    hide Fold, DegradedMessages, HealthStatus.Reports, FirstUnhealthy, Join;
    FirstUnhealthyExact(os);
    forall i: nat | IsFirstUnhealthy(os, i) ensures Overall(os) == os[i] {
      FirstUnhealthyAt(os, i);
    }
    if FirstUnhealthy(os).None? {
      FoldMessages(os);
      FoldIsWorst(os);
      assert "Issues: " + ("[" + Join(DegradedMessages(os), ' ') + "]")
             == "Issues: [" + Join(DegradedMessages(os), ' ') + "]";
    }
  }

  // ------------------------------------------------------------------
  // Unregistered names

  /** The names with a checker, each with its clock readings. */
  function Kept(st: State, names: seq<string>, ts: seq<Times>): (r: (seq<string>, seq<Times>))
    requires |ts| == |names|
    ensures |r.0| == |r.1| && forall n :: n in r.0 <==> n in names && n in st.checkers
  {
    if names == [] then ([], [])
    else
      var (rest, restTs) := Kept(st, names[1..], ts[1..]);
      if names[0] in st.checkers then ([names[0]] + rest, [ts[0]] + restTs) else (rest, restTs)
  }

  ghost predicate CachesRegistered(st: State) {
    forall n | n in st.cache :: n in st.checkers
  }

  lemma {:induction false} RunsCacheRegistered(cfg: Config, steps: seq<Step>)
    ensures CachesRegistered(After(cfg, steps))
  {
    if steps != [] {
      RunsCacheRegistered(cfg, steps[..|steps| - 1]);
    }
  }

  /** Two lists of results that a report cannot tell apart. */
  ghost predicate Alike(a: seq<Outcome>, b: seq<Outcome>) {
    FirstUnhealthy(a) == FirstUnhealthy(b) && Worst(a) == Worst(b) && DegradedMessages(a) == DegradedMessages(b)
  }

  lemma {:induction false} DegradedConcat(a: seq<Outcome>, b: seq<Outcome>)
    ensures DegradedMessages(a + b) == DegradedMessages(a) + DegradedMessages(b)
  {
    if b == [] {
      assert a + b == a;
    } else {
      DegradedConcat(a, b[..|b| - 1]);
      assert (a + b)[..|a + b| - 1] == a + b[..|b| - 1];
    }
  }

  lemma AlikeAfter(o: Outcome, a: seq<Outcome>, b: seq<Outcome>)
    requires Alike(a, b)
    ensures Alike([o] + a, [o] + b)
    ensures o.status.Unknown? ==> Alike([o] + a, b)
  {
    hide DegradedMessages, Worst;
    DegradedConcat([o], a);
    DegradedConcat([o], b);
    WorstConcat([o], a);
    WorstConcat([o], b);
    OneReports(o);
    WorstConcat([], b);
    assert [] + b == b && ([o] + a)[1..] == a && ([o] + b)[1..] == b;
    OneDegraded(o);
    AnswersOfWorst(b);
  }

  lemma OneDegraded(o: Outcome)
    ensures o.status.Unknown? ==> DegradedMessages([o]) == []
  {
    assert [o][..0] == [];
  }

  lemma AnswersOfWorst(b: seq<Outcome>)
    ensures Worse(Empty, Worst(b)) == Worst(b)
  {
  }

  lemma {:induction false} AskAllKept(cfg: Config, st: State, names: seq<string>, ts: seq<Times>)
    requires |ts| == |names| && CachesRegistered(st)
    ensures var (kept, keptTs) := Kept(st, names, ts);
            var (st1, all), (st2, known) := AskAll(cfg, st, names, ts), AskAll(cfg, st, kept, keptTs);
            && st1 == st2 && Alike(Outcomes(all), Outcomes(known))
            && (kept == [] ==> st1 == st && forall o | o in Outcomes(all) :: o.status.Unknown?)
    decreases |names|
  {
    hide Alike, PerformCheck;
    if names == [] {
      AlikeSelf(Outcomes([]));
    } else {
      var (st1, r) := PerformCheck(cfg, st, names[0], ts[0]);
      AskedName(cfg, st, names[0], ts[0]);
      var (kept, keptTs) := Kept(st, names[1..], ts[1..]);
      AskAllKept(cfg, st1, names[1..], ts[1..]);
      KeptSame(st, st1, names[1..], ts[1..]);
      var all, known := AskAll(cfg, st1, names[1..], ts[1..]).1, AskAll(cfg, st1, kept, keptTs).1;
      assert Outcomes([r] + all) == [r.outcome] + Outcomes(all);
      assert Outcomes([r] + known) == [r.outcome] + Outcomes(known);
      AlikeAfter(r.outcome, Outcomes(all), Outcomes(known));
      AlikeSelf(Outcomes([r]));
      assert ([names[0]] + kept)[1..] == kept && ([ts[0]] + keptTs)[1..] == keptTs;
    }
  }

  lemma AlikeSelf(a: seq<Outcome>)
    ensures Alike(a, a)
  {
  }

  lemma AskedName(cfg: Config, st: State, name: string, t: Times)
    requires CachesRegistered(st)
    ensures var (st1, r) := PerformCheck(cfg, st, name, t);
            CachesRegistered(st1) && st1.checkers == st.checkers
            && (name !in st.checkers ==> st1 == st && r.outcome.status.Unknown?)
  {
  }

  lemma {:induction false} KeptSame(st: State, st1: State, names: seq<string>, ts: seq<Times>)
    requires |ts| == |names| && st1.checkers == st.checkers
    ensures Kept(st1, names, ts) == Kept(st, names, ts)
  {
    if names != [] {
      KeptSame(st, st1, names[1..], ts[1..]);
    }
  }

  /**
   After any run, names without a checker make no difference to a report: it is that of the others, and
   has no status and no message if there are none.
   */
  lemma UnregisteredIgnored(cfg: Config, steps: seq<Step>, names: seq<string>, ts: seq<Times>)
    requires |ts| == |names| && names != []
    ensures var st := After(cfg, steps);
            var (kept, keptTs) := Kept(st, names, ts);
            PerformChecks(cfg, st, names, ts)
            == if kept == [] then (st, Outcome(Empty, "")) else PerformChecks(cfg, st, kept, keptTs)
  {
    hide After, Kept, AskAll, Overall, Worst, DegradedMessages;
    var st := After(cfg, steps);
    RunsCacheRegistered(cfg, steps);
    AskAllKept(cfg, st, names, ts);
    var (kept, keptTs) := Kept(st, names, ts);
    var all, known := Outcomes(AskAll(cfg, st, names, ts).1), Outcomes(AskAll(cfg, st, kept, keptTs).1);
    if kept == [] {
      OnlyUnknown(all);
    } else {
      SameReport(all, known);
    }
  }

  lemma SameReport(a: seq<Outcome>, b: seq<Outcome>)
    requires a != [] && b != [] && Alike(a, b)
    ensures Overall(a) == Overall(b)
  {
    hide Fold, DegradedMessages;
    FoldIsWorst(a);
    FoldIsWorst(b);
    if FirstUnhealthy(a).None? {
      FoldMessages(a);
      FoldMessages(b);
    }
  }

  lemma {:induction false} OnlyUnknown(a: seq<Outcome>)
    requires a != [] && forall o | o in a :: o.status.Unknown?
    ensures Overall(a) == Outcome(Empty, "")
  {
    FirstUnhealthyExact(a);
    FoldUnknown(a);
  }

  lemma {:induction false} FoldUnknown(a: seq<Outcome>)
    requires forall o | o in a :: o.status.Unknown?
    ensures Fold(a) == (Empty, [])
  {
    if a != [] {
      FoldUnknown(a[..|a| - 1]);
    }
  }

  /** What the early exit leaves out does not matter. */
  lemma {:induction false} OverallOfPrefix(a: seq<Outcome>, b: seq<Outcome>)
    requires FirstUnhealthy(a).Some?
    ensures Overall(a + b) == Overall(a)
  {
    FirstUnhealthyPrefix(a, b);
  }

  /** The manager's checkers always answer the same, and so does its cache. */
  ghost predicate FixedState(fixed: Fixed, st: State) {
    && (forall name, t | name in st.checkers :: st.checkers[name](t) == fixed(name))
    && (forall name | name in st.cache :: name in st.checkers && st.cache[name].outcome == fixed(name))
  }

  lemma PerformFixed(cfg: Config, fixed: Fixed, st: State, name: string, t: Times)
    requires FixedState(fixed, st)
    ensures var (st', r) := PerformCheck(cfg, st, name, t);
            FixedState(fixed, st') && st'.checkers == st.checkers && r.outcome == FixedAnswer(fixed, st.checkers, name)
  {
  }

  /** Every run of fixed checkers gets the manager into such a state. */
  lemma {:induction false} RunsAreFixed(cfg: Config, fixed: Fixed, steps: seq<Step>)
    requires FixedCheckers(fixed, steps)
    ensures FixedState(fixed, After(cfg, steps))
  {
    if steps != [] {
      var n := |steps| - 1;
      var init := steps[..n];
      assert forall i | 0 <= i < n :: init[i] == steps[i];
      RunsAreFixed(cfg, fixed, init);
      if steps[n].Ask? {
        PerformFixed(cfg, fixed, After(cfg, init), steps[n].name, steps[n].t);
      }
    }
  }

  function FixedAnswers(fixed: Fixed, checkers: map<string, Checker>, names: seq<string>): (os: seq<Outcome>)
    ensures |os| == |names|
  {
    seq(|names|, i requires 0 <= i < |names| => FixedAnswer(fixed, checkers, names[i]))
  }

  lemma {:induction false} AskAllFixed(cfg: Config, fixed: Fixed, st: State, names: seq<string>, ts: seq<Times>)
    requires FixedState(fixed, st) && |ts| == |names|
    ensures Overall(Outcomes(AskAll(cfg, st, names, ts).1)) == Overall(FixedAnswers(fixed, st.checkers, names))
    ensures FirstUnhealthy(Outcomes(AskAll(cfg, st, names, ts).1))
            == FirstUnhealthy(FixedAnswers(fixed, st.checkers, names))
    ensures FirstUnhealthy(FixedAnswers(fixed, st.checkers, names)).None? ==>
              Outcomes(AskAll(cfg, st, names, ts).1) == FixedAnswers(fixed, st.checkers, names)
    decreases |names|
  {
    hide FixedState, Overall, PerformCheck;
    var all := FixedAnswers(fixed, st.checkers, names);
    if names == [] {
      assert all == [] == Outcomes([]);
    } else {
      PerformFixed(cfg, fixed, st, names[0], ts[0]);
      var (st1, r) := PerformCheck(cfg, st, names[0], ts[0]);
      assert all == [r.outcome] + FixedAnswers(fixed, st.checkers, names[1..]);
      if r.outcome.status.Unhealthy? {
        assert Outcomes([r]) == [r.outcome];
        OverallOfPrefix([r.outcome], FixedAnswers(fixed, st.checkers, names[1..]));
      } else {
        AskAllFixed(cfg, fixed, st1, names[1..], ts[1..]);
        var rest := AskAll(cfg, st1, names[1..], ts[1..]).1;
        assert Outcomes([r] + rest) == [r.outcome] + Outcomes(rest);
        SameOverall([r.outcome] + Outcomes(rest), all);
      }
    }
  }

  lemma SameOverall(a: seq<Outcome>, b: seq<Outcome>)
    requires a != [] && b != [] && FirstUnhealthy(a) == FirstUnhealthy(b)
    requires FirstUnhealthy(b).None? ==> a == b
    ensures Overall(a) == Overall(b)
  {
  }

  /**
   After any history of fixed checkers, with the cache on or off, a report of several checks is that
   of all their answers, and its status the worst of them.
   */
  lemma ReportsAreFixed(cfg: Config, fixed: Fixed, steps: seq<Step>, names: seq<string>, ts: seq<Times>)
    requires FixedCheckers(fixed, steps) && |ts| == |names|
    ensures var answers := FixedAnswers(fixed, Registered(steps), names);
            var o := PerformChecks(cfg, After(cfg, steps), names, ts).1;
            o == Overall(answers) && o.status == if names == [] then Healthy else Worst(answers)
  {
    hide After, FixedState, Worst, Fold, FirstUnhealthy, Combined;
    RunsAreFixed(cfg, fixed, steps);
    CheckersAreRegistered(cfg, steps);
    AskAllFixed(cfg, fixed, After(cfg, steps), names, ts);
    OverallIsWorst(FixedAnswers(fixed, Registered(steps), names));
  }

  // ------------------------------------------------------------------
  // GetDetailedHealth

  datatype Detailed = Detailed(status: Status, checks: map<string, Result>, summary: Summary)

  /** All checks in the order of names, none left out; ts holds the clock readings of each. */
  function AskEach(cfg: Config, st: State, names: seq<string>, ts: seq<Times>): (r: (State, seq<Result>))
    requires |ts| == |names|
    ensures |r.1| == |names|
  {
    if names == [] then (st, [])
    else
      var last := names[|names| - 1];
      var (st1, before) := AskEach(cfg, st, names[..|names| - 1], ts[..|ts| - 1]);
      var (st2, result) := PerformCheck(cfg, st1, last, ts[|ts| - 1]);
      (st2, before + [result])
  }

  function ByName(names: seq<string>, rs: seq<Result>): map<string, Result>
    requires |rs| == |names|
  {
    if names == [] then map[]
    else ByName(names[..|names| - 1], rs[..|rs| - 1])[names[|names| - 1] := rs[|rs| - 1]]
  }

  lemma NoResults(cfg: Config, st: State, total: nat)
    ensures AskEach(cfg, st, [], []) == (st, []) && ByName([], []) == map[]
    ensures Counted(total, Outcomes([])) == Summary(total, 0, 0, 0, 0)
  {
  }

  lemma OneMoreCheck(cfg: Config, st: State, names: seq<string>, ts: seq<Times>, i: nat)
    requires i < |names| == |ts|
    ensures var (st1, before) := AskEach(cfg, st, names[..i], ts[..i]);
            var (st2, result) := PerformCheck(cfg, st1, names[i], ts[i]);
            AskEach(cfg, st, names[..i + 1], ts[..i + 1]) == (st2, before + [result])
  {
    assert names[..i + 1][..i] == names[..i] && ts[..i + 1][..i] == ts[..i];
  }

  lemma OneMoreResult(total: nat, names: seq<string>, i: nat, rs: seq<Result>, r: Result)
    requires i < |names| && |rs| == i
    ensures Counted(total, Outcomes(rs + [r])) == CountStep(Counted(total, Outcomes(rs)), r.outcome)
    ensures ByName(names[..i + 1], rs + [r]) == ByName(names[..i], rs)[names[i] := r]
  {
    assert names[..i + 1][..i] == names[..i] && (rs + [r])[..i] == rs;
    assert Outcomes(rs + [r])[..i] == Outcomes(rs);
  }

  function DetailedHealth(cfg: Config, st: State, names: seq<string>, ts: seq<Times>): (State, Detailed)
    requires |ts| == |names|
  {
    var (st', rs) := AskEach(cfg, st, names, ts);
    var summary := Counted(|names|, Outcomes(rs));
    (st', Detailed(CounterStatus(summary), ByName(names, rs), summary))
  }

  function Alone(cfg: Config, st: State, name: string, t: Times): Result {
    PerformCheck(cfg, st, name, t).1
  }

  lemma DistinctInit(names: seq<string>)
    requires Distinct(names) && names != []
    ensures Distinct(names[..|names| - 1]) && names[|names| - 1] !in names[..|names| - 1]
  {
    var init := names[..|names| - 1];
    forall i | 0 <= i < |init| ensures init[i] == names[i] {}
  }

  /** A check touches no other checker's cache entry, so each answers as if it were asked alone. */
  lemma {:induction false} AskedAlone(cfg: Config, st: State, names: seq<string>, ts: seq<Times>)
    requires Distinct(names) && |ts| == |names|
    ensures var (st', rs) := AskEach(cfg, st, names, ts);
            && st'.checkers == st.checkers
            && (forall i | 0 <= i < |names| :: rs[i] == Alone(cfg, st, names[i], ts[i]))
            && (forall n | n !in names :: (n in st'.cache <==> n in st.cache) && (n in st.cache ==> st'.cache[n] == st.cache[n]))
  {
    if names != [] {
      DistinctInit(names);
      AskedAlone(cfg, st, names[..|names| - 1], ts[..|ts| - 1]);
    }
  }

  lemma {:induction false} ByNameExact(names: seq<string>, rs: seq<Result>)
    requires |rs| == |names| && Distinct(names)
    ensures ByName(names, rs).Keys == set n | n in names
    ensures forall i | 0 <= i < |names| :: names[i] in ByName(names, rs) && ByName(names, rs)[names[i]] == rs[i]
  {
    if names != [] {
      DistinctInit(names);
      ByNameExact(names[..|names| - 1], rs[..|rs| - 1]);
      assert names == names[..|names| - 1] + [names[|names| - 1]];
    }
  }

  ghost function Having(checks: map<string, Result>, s: Status): set<string> {
    set n | n in checks && checks[n].outcome.status == s
  }

  lemma HavingSnoc(checks: map<string, Result>, n: string, r: Result, s: Status)
    requires n !in checks
    ensures |Having(checks[n := r], s)| == |Having(checks, s)| + if r.outcome.status == s then 1 else 0
  {
    assert Having(checks[n := r], s) == Having(checks, s) + if r.outcome.status == s then {n} else {};
  }

  /** The counters are the numbers of entries with each status. */
  lemma {:induction false} CountersOfChecks(total: nat, names: seq<string>, rs: seq<Result>)
    requires |rs| == |names| && Distinct(names)
    ensures var s, checks := Counted(total, Outcomes(rs)), ByName(names, rs);
            && s.total == total
            && s.healthy == |Having(checks, Healthy)| && s.unhealthy == |Having(checks, Unhealthy)|
            && s.degraded == |Having(checks, Degraded)| && s.unknown == |Having(checks, Unknown)|
  {
    if names == [] {
      assert forall s :: Having(map[], s) == {};
    } else {
      hide Having;
      var k := |names| - 1;
      DistinctInit(names);
      CountersOfChecks(total, names[..k], rs[..k]);
      ByNameExact(names[..k], rs[..k]);
      assert Outcomes(rs)[..k] == Outcomes(rs[..k]);
      var checks := ByName(names[..k], rs[..k]);
      HavingSnoc(checks, names[k], rs[k], Healthy);
      HavingSnoc(checks, names[k], rs[k], Unhealthy);
      HavingSnoc(checks, names[k], rs[k], Degraded);
      HavingSnoc(checks, names[k], rs[k], Unknown);
    }
  }

  /** An order in which the map of checkers is walked, with the clock readings of each check. */
  ghost predicate Walk(st: State, names: seq<string>, ts: seq<Times>) {
    Distinct(names) && (set n | n in names) == st.checkers.Keys && |ts| == |names|
  }

  /**
   Whatever order the map of checkers is walked in, the detailed report has one entry for each,
   answering as if asked alone when its turn comes, and counters that count those entries.
   */
  lemma DetailedExact(cfg: Config, st: State, names: seq<string>, ts: seq<Times>)
    requires Walk(st, names, ts)
    ensures var d := DetailedHealth(cfg, st, names, ts).1;
            && d.checks.Keys == st.checkers.Keys
            && (forall i | 0 <= i < |names| :: names[i] in d.checks && d.checks[names[i]] == Alone(cfg, st, names[i], ts[i]))
            && d.summary == Summary(|st.checkers|, |Having(d.checks, Healthy)|, |Having(d.checks, Unhealthy)|,
                                    |Having(d.checks, Degraded)|, |Having(d.checks, Unknown)|)
            && d.status == CounterStatus(d.summary)
  {
    hide Having, CounterStatus;
    var (st', rs) := AskEach(cfg, st, names, ts);
    AskedAlone(cfg, st, names, ts);
    ByNameExact(names, rs);
    CountersOfChecks(|names|, names, rs);
    DistinctCount(names);
  }

  lemma {:induction false} DistinctCount(names: seq<string>)
    requires Distinct(names)
    ensures |set n | n in names| == |names|
  {
    if names != [] {
      DistinctInit(names);
      var init := names[..|names| - 1];
      DistinctCount(init);
      assert (set n | n in names) == (set n | n in init) + {names[|names| - 1]};
    }
  }

  /** What the entries of a report say. */
  function Shown(checks: map<string, Result>): map<string, Outcome> {
    map n | n in checks :: checks[n].outcome
  }

  ghost function Showing(shown: map<string, Outcome>, s: Status): set<string> {
    set n | n in shown && shown[n].status == s
  }

  lemma HavingIsShowing(checks: map<string, Result>, s: Status)
    ensures Having(checks, s) == Showing(Shown(checks), s)
  {
  }

  /** What the report of fixed checkers shows, whenever they are asked and whatever is cached. */
  lemma FixedShown(cfg: Config, fixed: Fixed, st: State, names: seq<string>, ts: seq<Times>)
    requires FixedState(fixed, st) && Walk(st, names, ts)
    ensures Shown(DetailedHealth(cfg, st, names, ts).1.checks) == map n | n in st.checkers :: fixed(n)
  {
    hide DetailedHealth, CounterStatus, Having, FixedState, Distinct;
    DetailedExact(cfg, st, names, ts);
    var d := DetailedHealth(cfg, st, names, ts).1;
    forall n | n in st.checkers ensures d.checks[n].outcome == fixed(n) {
      assert n in set n | n in names;
      var i :| 0 <= i < |names| && names[i] == n;
      PerformFixed(cfg, fixed, st, names[i], ts[i]);
    }
  }

  /**
   For checkers that always answer the same, the statuses, messages and counters of the report do not
   depend on the order of the walk, nor on the clock during it.
   */
  lemma DetailedOrderIsFree(cfg: Config, fixed: Fixed, st: State, a: seq<string>, at: seq<Times>, b: seq<string>,
                            bt: seq<Times>)
    requires FixedState(fixed, st) && Walk(st, a, at) && Walk(st, b, bt)
    ensures var d, e := DetailedHealth(cfg, st, a, at).1, DetailedHealth(cfg, st, b, bt).1;
            d.status == e.status && d.summary == e.summary && Shown(d.checks) == Shown(e.checks)
  {
    hide Having, CounterStatus, DetailedHealth, Alone, Shown, FixedState;
    FixedShown(cfg, fixed, st, a, at);
    FixedShown(cfg, fixed, st, b, bt);
    DetailedExact(cfg, st, a, at);
    DetailedExact(cfg, st, b, bt);
    forall s ensures Having(DetailedHealth(cfg, st, a, at).1.checks, s) == Having(DetailedHealth(cfg, st, b, bt).1.checks, s) {
      HavingIsShowing(DetailedHealth(cfg, st, a, at).1.checks, s);
      HavingIsShowing(DetailedHealth(cfg, st, b, bt).1.checks, s);
    }
  }
}
