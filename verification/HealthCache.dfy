/**
 The health manager of health/health.go over whole runs of registrations and checks, one at a time:
 which calls its cache lets through and what it answers.
 */
module HealthCache {
  import opened Common
  import opened HealthStatus

  /** What a checker answers depends on when it is called. */
  type Checker = int -> Outcome

  datatype Result = Result(outcome: Outcome, timestamp: int)

  datatype Config = Config(enableCaching: bool, cacheDuration: int)

  /** The clock readings of one performCheck: at the cache, before Check, and after it. */
  datatype Times = Times(asked: int, started: int, finished: int)

  datatype State = State(checkers: map<string, Checker>, cache: map<string, Result>)

  predicate Cached(cfg: Config, st: State, name: string, asked: int) {
    cfg.enableCaching && name in st.cache && asked - st.cache[name].timestamp < cfg.cacheDuration
  }

  function NotFound(name: string): Outcome {
    Outcome(Unknown, "Checker '" + name + "' not found")
  }

  function PerformCheck(cfg: Config, st: State, name: string, t: Times): (State, Result) {
    if Cached(cfg, st, name, t.asked) then (st, st.cache[name])
    else if name !in st.checkers then (st, Result(NotFound(name), t.finished))
    else
      var r := Result(st.checkers[name](t.started), t.finished);
      (if cfg.enableCaching then st.(cache := st.cache[name := r]) else st, r)
  }

  // ------------------------------------------------------------------
  // Runs

  datatype Step = Register(name: string, checker: Checker) | Ask(name: string, t: Times)

  function TakeStep(cfg: Config, st: State, s: Step): State {
    match s
    case Register(name, checker) => st.(checkers := st.checkers[name := checker])
    case Ask(name, t) => PerformCheck(cfg, st, name, t).0
  }

  function After(cfg: Config, steps: seq<Step>): State {
    if steps == [] then State(map[], map[]) else TakeStep(cfg, After(cfg, steps[..|steps| - 1]), steps[|steps| - 1])
  }

  /** What the k-th step, a check, returned. */
  function Answer(cfg: Config, steps: seq<Step>, k: nat): Result
    requires k < |steps| && steps[k].Ask?
  {
    PerformCheck(cfg, After(cfg, steps[..k]), steps[k].name, steps[k].t).1
  }

  /** The checkers registered by a run: the last registration of a name counts. */
  function Registered(steps: seq<Step>): map<string, Checker> {
    if steps == [] then map[]
    else
      var before, s := Registered(steps[..|steps| - 1]), steps[|steps| - 1];
      if s.Register? then before[s.name := s.checker] else before
  }

  /** The k-th step calls the checker registered as name. */
  predicate Calls(cfg: Config, steps: seq<Step>, k: nat, name: string)
    requires k < |steps|
  {
    && steps[k].Ask? && steps[k].name == name && name in Registered(steps[..k])
    && !Cached(cfg, After(cfg, steps[..k]), name, steps[k].t.asked)
  }

  /** The clock never goes back. */
  ghost predicate InOrder(steps: seq<Step>) {
    && (forall i | 0 <= i < |steps| && steps[i].Ask? ::
          steps[i].t.asked <= steps[i].t.started <= steps[i].t.finished)
    && (forall i, j | 0 <= i < j < |steps| && steps[i].Ask? && steps[j].Ask? ::
          steps[i].t.finished <= steps[j].t.asked)
  }

  lemma {:induction false} CheckersAreRegistered(cfg: Config, steps: seq<Step>)
    ensures After(cfg, steps).checkers == Registered(steps)
  {
    if steps != [] {
      CheckersAreRegistered(cfg, steps[..|steps| - 1]);
    }
  }

  lemma StepSnoc(cfg: Config, steps: seq<Step>, n: nat)
    requires n < |steps|
    ensures After(cfg, steps[..n + 1]) == TakeStep(cfg, After(cfg, steps[..n]), steps[n])
  {
    assert steps[..n + 1][..n] == steps[..n];
  }

  lemma CheckChangesCache(cfg: Config, steps: seq<Step>, n: nat, name: string)
    requires n < |steps|
    ensures var before, after := After(cfg, steps[..n]).cache, After(cfg, steps[..n + 1]).cache;
            if cfg.enableCaching && Calls(cfg, steps, n, name) then name in after && after[name] == Answer(cfg, steps, n)
            else (name in after <==> name in before) && (name in before ==> after[name] == before[name])
  {
    hide After;
    StepSnoc(cfg, steps, n);
    CheckersAreRegistered(cfg, steps[..n]);
  }

  /** The cache holds the answer of the latest call of each checker name. */
  lemma {:induction false} CacheIsLatestCall(cfg: Config, steps: seq<Step>, n: nat, name: string) returns (j: nat)
    requires n <= |steps|
    ensures name in After(cfg, steps[..n]).cache <==> cfg.enableCaching && exists k | 0 <= k < n :: Calls(cfg, steps, k, name)
    ensures name in After(cfg, steps[..n]).cache ==>
              && j < n && Calls(cfg, steps, j, name) && After(cfg, steps[..n]).cache[name] == Answer(cfg, steps, j)
              && forall k | j < k < n :: !Calls(cfg, steps, k, name)
    decreases n
  {
    hide After, Calls, Answer;
    j := 0;
    if n == 0 {
      NothingCached(cfg, steps);
    } else {
      j := CacheIsLatestCall(cfg, steps, n - 1, name);
      CheckChangesCache(cfg, steps, n - 1, name);
      if cfg.enableCaching && Calls(cfg, steps, n - 1, name) {
        j := n - 1;
      }
    }
  }

  lemma NothingCached(cfg: Config, steps: seq<Step>)
    ensures After(cfg, steps[..0]).cache == map[]
  {
  }

  /**
   Every answer for a registered name is what the checker registered at some step j answered then:
   step j is the check itself, or a call less than the cache duration old and the latest one.
   */
  lemma AnswersComeFromCalls(cfg: Config, steps: seq<Step>, k: nat) returns (j: nat)
    requires k < |steps| && steps[k].Ask? && steps[k].name in Registered(steps[..k])
    ensures j <= k && Calls(cfg, steps, j, steps[k].name)
    ensures var checker := Registered(steps[..j])[steps[k].name];
            Answer(cfg, steps, k) == Result(checker(steps[j].t.started), steps[j].t.finished)
    ensures j < k ==>
              && cfg.enableCaching && steps[k].t.asked - steps[j].t.finished < cfg.cacheDuration
              && forall i | j < i <= k :: !Calls(cfg, steps, i, steps[k].name)
  {
    hide After;
    var name := steps[k].name;
    var latest := CacheIsLatestCall(cfg, steps, k, name);
    CheckersAreRegistered(cfg, steps[..k]);
    if Calls(cfg, steps, k, name) {
      j := k;
    } else {
      j := latest;
      CheckersAreRegistered(cfg, steps[..j]);
    }
  }

  /** An unregistered name is answered with unknown; nothing is cached for it. */
  lemma UnregisteredIsUnknown(cfg: Config, steps: seq<Step>, k: nat)
    requires k < |steps| && steps[k].Ask? && steps[k].name !in Registered(steps[..k])
    ensures Answer(cfg, steps, k)
            == Result(Outcome(Unknown, "Checker '" + steps[k].name + "' not found"), steps[k].t.finished)
    ensures After(cfg, steps[..k + 1]) == After(cfg, steps[..k])
  {
    hide After;
    var j := CacheIsLatestCall(cfg, steps, k, steps[k].name);
    CheckersAreRegistered(cfg, steps[..k]);
    StepSnoc(cfg, steps, k);
    if steps[k].name in After(cfg, steps[..k]).cache {
      StaysRegistered(steps, j, k, steps[k].name);
    }
  }

  lemma {:induction false} StaysRegistered(steps: seq<Step>, i: nat, k: nat, name: string)
    requires i <= k <= |steps| && name in Registered(steps[..i])
    ensures name in Registered(steps[..k])
    decreases k
  {
    if i < k {
      StaysRegistered(steps, i, k - 1, name);
      assert steps[..k][..k - 1] == steps[..k - 1];
    }
  }

  /** With the cache on, a checker is next called at least the cache duration after it last answered. */
  lemma CallsAreSpaced(cfg: Config, steps: seq<Step>, i: nat, j: nat, name: string)
    requires cfg.enableCaching && InOrder(steps) && i < j < |steps|
    requires Calls(cfg, steps, i, name) && Calls(cfg, steps, j, name)
    ensures steps[j].t.asked >= steps[i].t.finished + cfg.cacheDuration
  {
    hide After;
    var latest := CacheIsLatestCall(cfg, steps, j, name);
  }

  /** A registered checker is called exactly when all its earlier answers are too old. */
  lemma CalledWhenStale(cfg: Config, steps: seq<Step>, k: nat, name: string)
    requires cfg.enableCaching && InOrder(steps) && k < |steps|
    requires steps[k].Ask? && steps[k].name == name && name in Registered(steps[..k])
    ensures Calls(cfg, steps, k, name) <==>
            forall i | 0 <= i < k && Calls(cfg, steps, i, name) ::
              steps[k].t.asked >= steps[i].t.finished + cfg.cacheDuration
  {
    hide After;
    var latest := CacheIsLatestCall(cfg, steps, k, name);
    if Calls(cfg, steps, k, name) {
      forall i | 0 <= i < k && Calls(cfg, steps, i, name)
        ensures steps[k].t.asked >= steps[i].t.finished + cfg.cacheDuration
      {
        CallsAreSpaced(cfg, steps, i, k, name);
      }
    }
  }

  /** Step i calls the checker and starts it within [a, b]. */
  predicate CallsIn(cfg: Config, steps: seq<Step>, name: string, a: int, b: int, i: int) {
    0 <= i < |steps| && Calls(cfg, steps, i, name) && a <= steps[i].t.started <= b
  }

  /** How many of the first n steps do. */
  function CallsWithin(cfg: Config, steps: seq<Step>, name: string, a: int, b: int, n: nat): nat
    requires n <= |steps|
  {
    if n == 0 then 0
    else
      CallsWithin(cfg, steps, name, a, b, n - 1)
      + if CallsIn(cfg, steps, name, a, b, n - 1) then 1 else 0
  }

  lemma {:induction false} CallsWithinIsCount(cfg: Config, steps: seq<Step>, name: string, a: int, b: int, n: nat)
    requires n <= |steps|
    ensures CallsWithin(cfg, steps, name, a, b, n)
            == |set i | 0 <= i < n && CallsIn(cfg, steps, name, a, b, i)|
  {
    hide CallsIn;
    if n > 0 {
      CallsWithinIsCount(cfg, steps, name, a, b, n - 1);
      var before := set i | 0 <= i < n - 1 && CallsIn(cfg, steps, name, a, b, i);
      var all := set i | 0 <= i < n && CallsIn(cfg, steps, name, a, b, i);
      assert all == before + if n - 1 in all then {n - 1} else {};
    }
  }

  lemma {:induction false} LatestWithin(cfg: Config, steps: seq<Step>, name: string, a: int, b: int, n: nat)
    returns (l: nat)
    requires cfg.enableCaching && InOrder(steps) && n <= |steps|
    ensures var c := CallsWithin(cfg, steps, name, a, b, n);
            c > 0 ==> l < n && Calls(cfg, steps, l, name) && steps[l].t.started <= b
                      && (c - 1) * cfg.cacheDuration <= steps[l].t.started - a
    decreases n
  {
    hide Calls;
    l := 0;
    if n > 0 {
      l := LatestWithin(cfg, steps, name, a, b, n - 1);
      if Calls(cfg, steps, n - 1, name) {
        CalledStep(cfg, steps, n - 1, name);
        if a <= steps[n - 1].t.started <= b {
          var c := CallsWithin(cfg, steps, name, a, b, n - 1);
          if c > 0 {
            CallsAreSpaced(cfg, steps, l, n - 1, name);
            CalledStep(cfg, steps, l, name);
            assert c * cfg.cacheDuration == (c - 1) * cfg.cacheDuration + cfg.cacheDuration;
          }
          l := n - 1;
        }
      }
    }
  }

  lemma CalledStep(cfg: Config, steps: seq<Step>, k: nat, name: string)
    requires k < |steps| && Calls(cfg, steps, k, name)
    ensures steps[k].Ask?
  {
  }

  /** Any window of length b - a sees at most (b - a) / duration + 1 calls of a checker. */
  lemma WindowBound(cfg: Config, steps: seq<Step>, name: string, a: int, b: int)
    requires cfg.enableCaching && cfg.cacheDuration > 0 && InOrder(steps) && a <= b
    ensures |set i | 0 <= i < |steps| && CallsIn(cfg, steps, name, a, b, i)|
            <= (b - a) / cfg.cacheDuration + 1
  {
    CallsWithinIsCount(cfg, steps, name, a, b, |steps|);
    var l := LatestWithin(cfg, steps, name, a, b, |steps|);
    var c := CallsWithin(cfg, steps, name, a, b, |steps|);
    if c > 0 {
      Quotient(c - 1, cfg.cacheDuration, b - a);
    }
  }

  lemma Quotient(k: nat, d: int, w: int)
    requires d > 0 && k * d <= w
    ensures k <= w / d
  {
    var q := w / d;
    assert w == q * d + w % d;
    Sign(k - q - 1, d);
    assert (k - q - 1) * d == k * d - q * d - d;
  }

  lemma Sign(x: int, d: int)
    requires d > 0
    ensures x >= 0 ==> x * d >= 0
  {
  }

  // ------------------------------------------------------------------
  // Checkers that always answer the same

  type Fixed = string -> Outcome

  ghost predicate FixedCheckers(fixed: Fixed, steps: seq<Step>) {
    forall i, t | 0 <= i < |steps| && steps[i].Register? :: steps[i].checker(t) == fixed(steps[i].name)
  }

  /** What a manager answers that has seen steps. */
  function FixedAnswer(fixed: Fixed, checkers: map<string, Checker>, name: string): Outcome {
    if name in checkers then fixed(name) else NotFound(name)
  }

  lemma {:induction false} RegisteredFixed(fixed: Fixed, steps: seq<Step>, n: nat, name: string, t: int)
    requires FixedCheckers(fixed, steps) && n <= |steps| && name in Registered(steps[..n])
    ensures Registered(steps[..n])[name](t) == fixed(name)
    decreases n
  {
    if n > 0 {
      assert steps[..n][..n - 1] == steps[..n - 1];
      if !(steps[n - 1].Register? && steps[n - 1].name == name) {
        RegisteredFixed(fixed, steps, n - 1, name, t);
      }
    }
  }

  /** If checkers always answer the same, caching changes no status and no message. */
  lemma CachingIsInvisible(cfg: Config, cfg': Config, fixed: Fixed, steps: seq<Step>, k: nat)
    requires FixedCheckers(fixed, steps) && k < |steps| && steps[k].Ask?
    ensures Answer(cfg, steps, k).outcome == Answer(cfg', steps, k).outcome
            == FixedAnswer(fixed, Registered(steps[..k]), steps[k].name)
  {
    FixedAnswered(cfg, fixed, steps, k);
    FixedAnswered(cfg', fixed, steps, k);
  }

  lemma FixedAnswered(cfg: Config, fixed: Fixed, steps: seq<Step>, k: nat)
    requires FixedCheckers(fixed, steps) && k < |steps| && steps[k].Ask?
    ensures Answer(cfg, steps, k).outcome == FixedAnswer(fixed, Registered(steps[..k]), steps[k].name)
  {
    hide After, Answer, Calls, FixedCheckers, Registered;
    var name := steps[k].name;
    if name in Registered(steps[..k]) {
      var j := AnswersComeFromCalls(cfg, steps, k);
      CalledRegistered(cfg, steps, j, name);
      RegisteredFixed(fixed, steps, j, name, steps[j].t.started);
    } else {
      UnregisteredIsUnknown(cfg, steps, k);
    }
  }

  lemma CalledRegistered(cfg: Config, steps: seq<Step>, k: nat, name: string)
    requires k < |steps| && Calls(cfg, steps, k, name)
    ensures steps[k].Ask? && name in Registered(steps[..k])
  {
  }
}
