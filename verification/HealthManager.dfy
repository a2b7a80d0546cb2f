/** Manager of health/health.go: the maps of checkers and cached results, and the methods that change them. */
module HealthManager {
  import opened Common
  import opened HealthStatus
  import Cache = HealthCache
  import Reports = HealthReports

  class Manager {
    const cfg: Cache.Config
    var checkers: map<string, Cache.Checker>
    var cache: map<string, Cache.Result>

    constructor (cfg: Cache.Config)
      ensures this.cfg == cfg && State() == Cache.State(map[], map[])
    {
      this.cfg := cfg;
      checkers, cache := map[], map[];
    }

    ghost function State(): Cache.State
      reads this
    {
      Cache.State(checkers, cache)
    }

    method RegisterChecker(name: string, checker: Cache.Checker)
      modifies `checkers
      ensures State() == Cache.TakeStep(cfg, old(State()), Cache.Register(name, checker))
    {
      checkers := checkers[name := checker];
    }

    method PerformCheck(name: string, t: Cache.Times) returns (result: Cache.Result)
      modifies `cache
      ensures (State(), result) == Cache.PerformCheck(cfg, old(State()), name, t)
    {
      if cfg.enableCaching && name in cache {
        var cached := cache[name];
        if t.asked - cached.timestamp < cfg.cacheDuration {
          return cached;
        }
      }
      if name !in checkers {
        return Cache.Result(Cache.NotFound(name), t.finished);
      }
      var checker := checkers[name];
      result := Cache.Result(checker(t.started), t.finished);
      if cfg.enableCaching {
        cache := cache[name := result];
      }
    }

    method PerformChecks(names: seq<string>, ts: seq<Cache.Times>) returns (overall: Outcome)
      requires |ts| == |names|
      modifies `cache
      ensures (State(), overall) == Reports.PerformChecks(cfg, old(State()), names, ts)
    {
      hide Reports.AskAll, Fold, Cache.PerformCheck;
      Reports.AskNone(cfg, State(), names, ts);
      if names == [] {
        return Outcome(Healthy, "No checks configured");
      }
      var results: seq<Cache.Result> := [];
      for i := 0 to |names|
        invariant FirstUnhealthy(Reports.Outcomes(results)).None? && |results| == i
        invariant Reports.AskAll(cfg, old(State()), names, ts)
                  == Reports.Prepended(results, Reports.AskAll(cfg, State(), names[i..], ts[i..]))
      {
        Reports.AskNext(cfg, State(), results, names, ts, i);
        var result := PerformCheck(names[i], ts[i]);
        FirstUnhealthySnoc(Reports.Outcomes(results), result.outcome);
        Reports.OutcomesSnoc(results, result);
        results := results + [result];
        if result.outcome.status.Unhealthy? {
          return result.outcome;
        }
      }
      Reports.AskNone(cfg, State(), [], []);
      assert results + [] == results;
      var status, messages := FoldResults(Reports.Outcomes(results));
      overall := Outcome(status, if messages != [] then "Issues: " + Listed(messages) else "");
    }

    /** names are the keys of the map of checkers in the order in which they are walked. */
    method GetDetailedHealth(names: seq<string>, ts: seq<Cache.Times>) returns (d: Reports.Detailed)
      requires Reports.Walk(State(), names, ts)
      modifies `cache
      ensures (State(), d) == Reports.DetailedHealth(cfg, old(State()), names, ts)
    {
      hide Reports.AskEach, Reports.ByName, Counted, Cache.PerformCheck;
      Reports.NoResults(cfg, State(), |names|);
      var checks: map<string, Cache.Result> := map[];
      var summary := Summary(|names|, 0, 0, 0, 0);
      ghost var results: seq<Cache.Result> := [];
      for i := 0 to |names|
        invariant Reports.AskEach(cfg, old(State()), names[..i], ts[..i]) == (State(), results)
        invariant checks == Reports.ByName(names[..i], results)
        invariant summary == Counted(|names|, Reports.Outcomes(results))
      {
        var result := PerformCheck(names[i], ts[i]);
        Reports.OneMoreCheck(cfg, old(State()), names, ts, i);
        Reports.OneMoreResult(|names|, names, i, results, result);
        checks := checks[names[i] := result];
        match result.outcome.status {
          case Healthy => summary := summary.(healthy := summary.healthy + 1);
          case Unhealthy => summary := summary.(unhealthy := summary.unhealthy + 1);
          case Degraded => summary := summary.(degraded := summary.degraded + 1);
          case Unknown => summary := summary.(unknown := summary.unknown + 1);
          case Empty =>
          case Other(_) =>
        }
        results := results + [result];
      }
      assert names[..|names|] == names && ts[..|names|] == ts;
      var overall: Status;
      if summary.unhealthy > 0 {
        overall := Unhealthy;
      } else if summary.degraded > 0 {
        overall := Degraded;
      } else if summary.healthy > 0 {
        overall := Healthy;
      } else {
        overall := Unknown;
      }
      d := Reports.Detailed(overall, checks, summary);
    }
  }
}
