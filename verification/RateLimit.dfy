/**
 The in-memory token bucket of middleware/ratelimit/ratelimit.go as functions on values: one step per
 request, in the order in which requests take the mutex.
 */
module RateLimit {
  import opened Common

  /** RetryAfter is a duration in nanoseconds. */
  datatype Options = Options(capacity: real, refillRate: real, retryAfter: int)

  datatype Level = Level(tokens: real, lastSeen: real)

  /** The clock is read before the mutex is taken, so the times of a trace are in no particular order. */
  datatype Request = Request(key: string, now: real)

  type Table = map<string, Level>

  /** The options as New stores them. */
  function Normalize(opts: Options): (r: Options)
    ensures Valid(r) && r.retryAfter == opts.retryAfter
    ensures if opts.capacity > 0.0 then r.capacity == opts.capacity else r.capacity == 20.0
    ensures if opts.refillRate > 0.0 then r.refillRate == opts.refillRate else r.refillRate == 10.0
  {
    opts.(capacity := if opts.capacity <= 0.0 then 20.0 else opts.capacity,
          refillRate := if opts.refillRate <= 0.0 then 10.0 else opts.refillRate)
  }

  predicate Valid(opts: Options) {
    opts.capacity > 0.0 && opts.refillRate > 0.0
  }

  function Min(x: real, y: real): real {
    if x <= y then x else y
  }

  /** Tokens that return between two times. */
  function Returned(o: Options, from: real, to: real): real {
    o.refillRate * (to - from)
  }

  /** Tokens that return between time 0 and t. */
  ghost function ReturnedBy(o: Options, t: real): real {
    o.refillRate * t
  }

  /** The tokens a request finds: refilled since lastSeen and cut at the capacity. */
  function Refill(o: Options, b: Level, now: real): real {
    Min(o.capacity, b.tokens + Returned(o, b.lastSeen, now))
  }

  /** Refill, then take a token if there is a whole one. */
  function Decide(o: Options, b: Level, now: real): (Level, bool) {
    var x := Refill(o, b, now);
    if x < 1.0 then (Level(x, now), false) else (Level(x - 1.0, now), true)
  }

  /** The level under a key, where an unknown key gets a full bucket. */
  function BucketOf(o: Options, m: Table, q: Request): Level {
    if q.key in m then m[q.key] else Level(o.capacity, q.now)
  }

  /** The tokens a request finds under its key. */
  function Found(o: Options, m: Table, q: Request): real {
    Refill(o, BucketOf(o, m, q), q.now)
  }

  function Handle(o: Options, m: Table, q: Request): (Table, bool) {
    var (after, admitted) := Decide(o, BucketOf(o, m, q), q.now);
    (m[q.key := after], admitted)
  }

  /** The table a fresh limiter holds after a trace. */
  function TableAfter(o: Options, qs: seq<Request>): Table {
    if qs == [] then map[]
    else Handle(o, TableAfter(o, qs[..|qs| - 1]), qs[|qs| - 1]).0
  }

  /** What a fresh limiter decides about every request of a trace. */
  function Decisions(o: Options, qs: seq<Request>): (d: seq<bool>)
    ensures |d| == |qs|
  {
    if qs == [] then []
    else Decisions(o, qs[..|qs| - 1]) + [Handle(o, TableAfter(o, qs[..|qs| - 1]), qs[|qs| - 1]).1]
  }

  lemma {:induction false} DecisionAt(o: Options, qs: seq<Request>, n: nat)
    requires n < |qs|
    ensures Decisions(o, qs)[n] == Handle(o, TableAfter(o, qs[..n]), qs[n]).1
    ensures Decisions(o, qs)[..n] == Decisions(o, qs[..n])
  {
    var k := |qs| - 1;
    if n < k {
      DecisionAt(o, qs[..k], n);
      assert qs[..k][..n] == qs[..n];
      assert Decisions(o, qs)[..n] == Decisions(o, qs[..k])[..n];
    }
  }

  // ------------------------------------------------------------------
  // Refill is linear in time and never negative forwards in time. The proofs below use these
  // two facts only.

  lemma Linear(o: Options)
    ensures forall a, b :: Returned(o, a, b) == ReturnedBy(o, b) - ReturnedBy(o, a)
  {
    forall a, b ensures Returned(o, a, b) == ReturnedBy(o, b) - ReturnedBy(o, a) {
      assert o.refillRate * (b - a) == o.refillRate * b - o.refillRate * a;
    }
  }

  lemma Growing(o: Options, a: real, b: real)
    requires Valid(o) && a <= b
    ensures ReturnedBy(o, a) <= ReturnedBy(o, b)
  {
    assert o.refillRate * (b - a) >= 0.0;
    assert o.refillRate * (b - a) == o.refillRate * b - o.refillRate * a;
  }

  // ------------------------------------------------------------------
  // The limiter that remembers everything

  /** Requests on key among qs[lo..hi] that were admitted. */
  function Admitted(qs: seq<Request>, d: seq<bool>, key: string, lo: nat, hi: nat): (c: nat)
    requires lo <= hi <= |qs| && |d| >= hi
    ensures c <= hi - lo
  {
    if lo == hi then 0
    else Admitted(qs, d, key, lo, hi - 1) + (if qs[hi - 1].key == key && d[hi - 1] then 1 else 0)
  }

  /** Every stretch of the key's history ending in request n leaves x tokens of its budget. */
  ghost predicate Leaves(o: Options, qs: seq<Request>, d: seq<bool>, n: nat, x: real)
    requires n < |qs| && |d| >= n
  {
    forall j | 0 <= j <= n && qs[j].key == qs[n].key ::
      Admitted(qs, d, qs[n].key, j, n) as real + x <= o.capacity + Returned(o, qs[j].now, qs[n].now)
  }

  /** Request n fits: no stretch of the key's history ending in it holds more than the budget. */
  ghost predicate Permitted(o: Options, qs: seq<Request>, d: seq<bool>, n: nat)
    requires n < |qs| && |d| >= n
  {
    Leaves(o, qs, d, n, 1.0)
  }

  /** The level after a decision imposed on a request. */
  function Impose(o: Options, b: Level, now: real, admit: bool): Level {
    Level(if admit then Refill(o, b, now) - 1.0 else Refill(o, b, now), now)
  }

  /** The level of one key's bucket when the decisions d are imposed from outside. */
  ghost function Replay(o: Options, qs: seq<Request>, d: seq<bool>, key: string): Option<Level>
    requires |d| >= |qs|
    decreases |qs|
  {
    if qs == [] then None
    else
      var n := |qs| - 1;
      var before := Replay(o, qs[..n], d, key);
      if qs[n].key != key then before
      else
        Some(Impose(o, before.GetOr(Level(o.capacity, qs[n].now)), qs[n].now, d[n]))
  }

  /** Where the bucket's line tokens + rate * (t - lastSeen) cuts t = 0. */
  ghost function Intercept(o: Options, b: Level): real {
    b.tokens - ReturnedBy(o, b.lastSeen)
  }

  /** The line that request j alone would leave behind after the first n requests. */
  ghost function LineFrom(o: Options, qs: seq<Request>, d: seq<bool>, key: string, j: nat, n: nat): real
    requires j < n <= |qs| && |d| >= n
  {
    o.capacity - ReturnedBy(o, qs[j].now) - Admitted(qs, d, key, j, n) as real
  }

  lemma {:induction false} AdmittedPrefix(qs: seq<Request>, d: seq<bool>, key: string, lo: nat, hi: nat, n: nat)
    requires lo <= hi <= n <= |qs| && |d| >= n
    ensures Admitted(qs[..n], d, key, lo, hi) == Admitted(qs, d, key, lo, hi)
  {
    if lo < hi {
      AdmittedPrefix(qs, d, key, lo, hi - 1, n);
    }
  }

  /** A bucket's line is the lowest of the lines of the key's earlier requests. */
  lemma {:induction false} LineIsMinimum(o: Options, qs: seq<Request>, d: seq<bool>, key: string) returns (j: nat)
    requires |d| >= |qs|
    ensures Replay(o, qs, d, key).None? <==> forall i | 0 <= i < |qs| :: qs[i].key != key
    ensures Replay(o, qs, d, key).Some? ==>
              && j < |qs| && qs[j].key == key
              && Intercept(o, Replay(o, qs, d, key).value) == LineFrom(o, qs, d, key, j, |qs|)
              && forall i | 0 <= i < |qs| && qs[i].key == key ::
                Intercept(o, Replay(o, qs, d, key).value) <= LineFrom(o, qs, d, key, i, |qs|)
    decreases |qs|
  {
    hide Returned, ReturnedBy;
    Linear(o);
    j := 0;
    if qs != [] {
      var n := |qs| - 1;
      j := LineIsMinimum(o, qs[..n], d, key);
      forall i | 0 <= i < n
        ensures Admitted(qs[..n], d, key, i, n) == Admitted(qs, d, key, i, n)
        ensures qs[..n][i] == qs[i]
      {
        AdmittedPrefix(qs, d, key, i, n, n);
      }
      if qs[n].key == key {
        assert Admitted(qs, d, key, n, n + 1) == if d[n] then 1 else 0;
        match Replay(o, qs[..n], d, key)
        case None =>
          j := n;
        case Some(b) =>
          if b.tokens + Returned(o, b.lastSeen, qs[n].now) > o.capacity {
            j := n;
          }
      }
    }
  }

  /** Imposing the limiter's own decisions replays the limiter. */
  lemma {:induction false} ReplayIsTable(o: Options, qs: seq<Request>, d: seq<bool>, key: string)
    requires |d| >= |qs| && d[..|qs|] == Decisions(o, qs)
    ensures key in TableAfter(o, qs) <==> Replay(o, qs, d, key).Some?
    ensures key in TableAfter(o, qs) ==> TableAfter(o, qs)[key] == Replay(o, qs, d, key).value
    decreases |qs|
  {
    if qs != [] {
      var n := |qs| - 1;
      assert d[n] == Decisions(o, qs)[n];
      assert d[..n] == Decisions(o, qs[..n]) by {
        assert d[..n] == d[..n + 1][..n] == Decisions(o, qs)[..n];
      }
      ReplayIsTable(o, qs[..n], d, key);
    }
  }

  /** The tokens an imposed history leaves for request n reach x exactly when every stretch leaves x. */
  lemma FoundAtLeast(o: Options, qs: seq<Request>, d: seq<bool>, n: nat, x: real)
    requires n < |qs| && |d| >= n
    ensures Refill(o, Replay(o, qs[..n], d, qs[n].key).GetOr(Level(o.capacity, qs[n].now)), qs[n].now) >= x
            <==> Leaves(o, qs, d, n, x)
  {
    hide Returned, ReturnedBy;
    Linear(o);
    var key, now := qs[n].key, qs[n].now;
    var j := LineIsMinimum(o, qs[..n], d, key);
    forall i | 0 <= i < n
      ensures Admitted(qs[..n], d, key, i, n) == Admitted(qs, d, key, i, n)
      ensures qs[..n][i] == qs[i]
    {
      AdmittedPrefix(qs, d, key, i, n, n);
    }
    assert Admitted(qs, d, key, n, n) == 0;
    match Replay(o, qs[..n], d, key)
    case None =>
    case Some(b) =>
      var found := b.tokens + Returned(o, b.lastSeen, now);
      assert found == Intercept(o, b) + ReturnedBy(o, now);
      forall i | 0 <= i < n && qs[i].key == key
        ensures found <= o.capacity + Returned(o, qs[i].now, now) - Admitted(qs, d, key, i, n) as real
      {
        assert Intercept(o, b) <= LineFrom(o, qs[..n], d, key, i, n);
      }
      assert found == o.capacity + Returned(o, qs[j].now, now) - Admitted(qs, d, key, j, n) as real;
  }

  /** In particular they reach 1 exactly when n is permitted. */
  lemma FoundVersusPermitted(o: Options, qs: seq<Request>, d: seq<bool>, n: nat)
    requires n < |qs| && |d| >= n
    ensures Refill(o, Replay(o, qs[..n], d, qs[n].key).GetOr(Level(o.capacity, qs[n].now)), qs[n].now) >= 1.0
            <==> Permitted(o, qs, d, n)
  {
    hide Leaves, Refill, Replay;
    FoundAtLeast(o, qs, d, n, 1.0);
  }

  /**
   One number per key refines the limiter that remembers all history: whatever the timestamps,
   a request is admitted exactly when every stretch of its key's history that ends in it stays
   within capacity plus refill.
   */
  lemma AdmissionCharacterised(o: Options, qs: seq<Request>, n: nat)
    requires n < |qs|
    ensures Decisions(o, qs)[n] <==> Permitted(o, qs, Decisions(o, qs), n)
  {
    var d := Decisions(o, qs);
    DecisionAt(o, qs, n);
    ReplayIsTable(o, qs[..n], d, qs[n].key);
    FoundVersusPermitted(o, qs, d, n);
  }

  // ------------------------------------------------------------------
  // Windows

  /** Request i is on key, admitted and stamped inside [a, b]. */
  predicate InWindow(qs: seq<Request>, d: seq<bool>, key: string, a: real, b: real, i: int) {
    0 <= i < |qs| && i < |d| && qs[i].key == key && d[i] && a <= qs[i].now <= b
  }

  /** How many requests are. */
  function AdmittedWithin(qs: seq<Request>, d: seq<bool>, key: string, a: real, b: real, n: nat): nat
    requires n <= |qs| && |d| >= n
  {
    if n == 0 then 0
    else AdmittedWithin(qs, d, key, a, b, n - 1) +
         (if InWindow(qs, d, key, a, b, n - 1) then 1 else 0)
  }

  lemma {:induction false} AdmittedWithinIsCount(qs: seq<Request>, d: seq<bool>, key: string, a: real, b: real, n: nat)
    requires n <= |qs| && |d| >= n
    ensures AdmittedWithin(qs, d, key, a, b, n)
            == |set i | 0 <= i < n && InWindow(qs, d, key, a, b, i)|
  {
    hide InWindow;
    if n > 0 {
      AdmittedWithinIsCount(qs, d, key, a, b, n - 1);
      var before := set i | 0 <= i < n - 1 && InWindow(qs, d, key, a, b, i);
      var all := set i | 0 <= i < n && InWindow(qs, d, key, a, b, i);
      assert all == before + if n - 1 in all then {n - 1} else {};
    }
  }

  lemma {:induction false} AdmittedSplit(qs: seq<Request>, d: seq<bool>, key: string, lo: nat, mid: nat, hi: nat)
    requires lo <= mid <= hi <= |qs| && |d| >= hi
    ensures Admitted(qs, d, key, lo, hi) == Admitted(qs, d, key, lo, mid) + Admitted(qs, d, key, mid, hi)
  {
    if mid < hi {
      AdmittedSplit(qs, d, key, lo, mid, hi - 1);
    }
  }

  /** All admissions stamped in the window lie between the first and the last of them. */
  lemma {:induction false} WindowSpan(qs: seq<Request>, d: seq<bool>, key: string, a: real, b: real, n: nat)
    returns (first: nat, last: nat)
    requires n <= |qs| && |d| >= n && AdmittedWithin(qs, d, key, a, b, n) > 0
    ensures first <= last < n
    ensures forall i | i == first || i == last :: qs[i].key == key && d[i] && a <= qs[i].now <= b
    ensures AdmittedWithin(qs, d, key, a, b, n) <= Admitted(qs, d, key, first, last) + 1
  {
    if qs[n - 1].key == key && d[n - 1] && a <= qs[n - 1].now <= b {
      last := n - 1;
      if AdmittedWithin(qs, d, key, a, b, n - 1) == 0 {
        first := n - 1;
      } else {
        var before;
        first, before := WindowSpan(qs, d, key, a, b, n - 1);
        AdmittedSplit(qs, d, key, first, before + 1, n - 1);
      }
    } else {
      first, last := WindowSpan(qs, d, key, a, b, n - 1);
    }
  }

  /** Admissions stamped in any window never exceed capacity plus the refill of its length. */
  lemma WindowBound(o: Options, qs: seq<Request>, key: string, a: real, b: real)
    requires Valid(o) && a <= b
    ensures |set i | 0 <= i < |qs| && InWindow(qs, Decisions(o, qs), key, a, b, i)| as real
            <= o.capacity + Returned(o, a, b)
  {
    hide Returned, ReturnedBy;
    Linear(o);
    Growing(o, a, b);
    var d := Decisions(o, qs);
    AdmittedWithinIsCount(qs, d, key, a, b, |qs|);
    if AdmittedWithin(qs, d, key, a, b, |qs|) > 0 {
      var first, last := WindowSpan(qs, d, key, a, b, |qs|);
      AdmissionCharacterised(o, qs, last);
      Growing(o, a, qs[first].now);
      Growing(o, qs[last].now, b);
    }
  }

  // ------------------------------------------------------------------
  // Optimality

  /** Decisions that never admit a request that does not fit. */
  ghost predicate Conforming(o: Options, qs: seq<Request>, d: seq<bool>) {
    |d| == |qs| && forall n | 0 <= n < |qs| && d[n] :: Permitted(o, qs, d, n)
  }

  lemma ReplayStep(o: Options, qs: seq<Request>, d: seq<bool>, key: string, n: nat)
    requires 0 < n <= |qs| && |d| >= n
    ensures Replay(o, qs[..n], d, key) ==
            if qs[n - 1].key != key then Replay(o, qs[..n - 1], d, key)
            else Some(Impose(o, Replay(o, qs[..n - 1], d, key).GetOr(Level(o.capacity, qs[n - 1].now)),
                             qs[n - 1].now, d[n - 1]))
  {
    assert qs[..n][..n - 1] == qs[..n - 1];
  }

  /** One more request: the lead in admissions never falls below zero and pays for any debt in tokens. */
  lemma LeadStep(o: Options, mine: Level, theirs: Level, lead: nat, now: real, admits: bool)
    requires mine.lastSeen == theirs.lastSeen && mine.tokens >= theirs.tokens - lead as real
    requires admits ==> Refill(o, theirs, now) >= 1.0
    ensures var greedy := Refill(o, mine, now) >= 1.0;
            var lead' := lead + (if greedy then 1 else 0) - (if admits then 1 else 0);
            lead' >= 0 && Impose(o, mine, now, greedy).lastSeen == Impose(o, theirs, now, admits).lastSeen
            && Impose(o, mine, now, greedy).tokens >= Impose(o, theirs, now, admits).tokens - lead' as real
  {
    hide Returned;
  }

  /** What the limiter is ahead in admissions bounds what it can be behind in tokens. */
  lemma {:induction false} AheadOrRicher(o: Options, qs: seq<Request>, d: seq<bool>, key: string, n: nat)
    requires Valid(o) && Conforming(o, qs, d) && n <= |qs|
    ensures var g := Decisions(o, qs);
            var lead := Admitted(qs, g, key, 0, n) - Admitted(qs, d, key, 0, n);
            var mine, theirs := Replay(o, qs[..n], g, key), Replay(o, qs[..n], d, key);
            && lead >= 0 && mine.Some? == theirs.Some?
            && (mine.Some? ==> mine.value.lastSeen == theirs.value.lastSeen
                               && mine.value.tokens >= theirs.value.tokens - lead as real)
  {
    if n > 0 {
      hide Refill, Impose, Replay, Permitted, Decisions;
      var g := Decisions(o, qs);
      AheadOrRicher(o, qs, d, key, n - 1);
      ReplayStep(o, qs, g, key, n);
      ReplayStep(o, qs, d, key, n);
      if qs[n - 1].key == key {
        FoundVersusPermitted(o, qs, d, n - 1);
        FoundVersusPermitted(o, qs, g, n - 1);
        AdmissionCharacterised(o, qs, n - 1);
        var full := Level(o.capacity, qs[n - 1].now);
        var mine, theirs := Replay(o, qs[..n - 1], g, key).GetOr(full), Replay(o, qs[..n - 1], d, key).GetOr(full);
        var lead := Admitted(qs, g, key, 0, n - 1) - Admitted(qs, d, key, 0, n - 1);
        LeadStep(o, mine, theirs, lead, qs[n - 1].now, d[n - 1]);
      }
    }
  }

  /** No limiter that respects the budget has admitted more requests at any point of any trace. */
  lemma NoneAdmitsMore(o: Options, qs: seq<Request>, d: seq<bool>, key: string, n: nat)
    requires Valid(o) && Conforming(o, qs, d) && n <= |qs|
    ensures Conforming(o, qs, Decisions(o, qs))
    ensures Admitted(qs, d, key, 0, n) <= Admitted(qs, Decisions(o, qs), key, 0, n)
  {
    forall i | 0 <= i < |qs| && Decisions(o, qs)[i]
      ensures Permitted(o, qs, Decisions(o, qs), i)
    {
      AdmissionCharacterised(o, qs, i);
    }
    AheadOrRicher(o, qs, d, key, n);
  }

  // ------------------------------------------------------------------
  // Keys do not interfere

  function OnKey(qs: seq<Request>, key: string): seq<Request> {
    if qs == [] then []
    else OnKey(qs[..|qs| - 1], key) + (if qs[|qs| - 1].key == key then [qs[|qs| - 1]] else [])
  }

  function DecisionsOnKey(qs: seq<Request>, d: seq<bool>, key: string): seq<bool>
    requires |d| == |qs|
  {
    if qs == [] then []
    else DecisionsOnKey(qs[..|qs| - 1], d[..|qs| - 1], key)
         + (if qs[|qs| - 1].key == key then [d[|qs| - 1]] else [])
  }

  /** A key sees the decisions of a fresh limiter fed only that key's requests. */
  lemma {:induction false} KeyIndependence(o: Options, qs: seq<Request>, key: string)
    ensures DecisionsOnKey(qs, Decisions(o, qs), key) == Decisions(o, OnKey(qs, key))
    ensures key in TableAfter(o, qs) <==> key in TableAfter(o, OnKey(qs, key))
    ensures key in TableAfter(o, qs) ==> TableAfter(o, qs)[key] == TableAfter(o, OnKey(qs, key))[key]
  {
    if qs != [] {
      var n := |qs| - 1;
      KeyIndependence(o, qs[..n], key);
      assert Decisions(o, qs)[..n] == Decisions(o, qs[..n]);
      if qs[n].key == key {
        var own := OnKey(qs, key);
        assert own[..|own| - 1] == OnKey(qs[..n], key);
      } else {
        assert OnKey(qs, key) == OnKey(qs[..n], key);
      }
    }
  }

  // ------------------------------------------------------------------
  // Refusals cost nothing

  function Kept<T>(s: seq<T>, keep: seq<bool>): seq<T>
    requires |keep| == |s|
  {
    if s == [] then []
    else Kept(s[..|s| - 1], keep[..|s| - 1]) + (if keep[|s| - 1] then [s[|s| - 1]] else [])
  }

  /** Two tables that promise the same tokens to every key at every time. */
  ghost predicate SameLines(o: Options, m: Table, m': Table) {
    m.Keys == m'.Keys && forall k | k in m :: Intercept(o, m[k]) == Intercept(o, m'[k])
  }

  lemma {:induction false} TooSmallAdmitsNothing(o: Options, qs: seq<Request>, n: nat)
    requires o.capacity < 1.0 && n < |qs|
    ensures !Decisions(o, qs)[n]
  {
    DecisionAt(o, qs, n);
  }

  lemma SameLinesStep(o: Options, m: Table, m': Table, q: Request)
    requires SameLines(o, m, m')
    ensures Handle(o, m, q).1 == Handle(o, m', q).1
    ensures SameLines(o, Handle(o, m, q).0, Handle(o, m', q).0)
  {
    hide Returned, ReturnedBy;
    Linear(o);
    if q.key in m {
      assert Intercept(o, m[q.key]) + ReturnedBy(o, q.now) == Intercept(o, m'[q.key]) + ReturnedBy(o, q.now);
    }
    assert Found(o, m, q) == Found(o, m', q);
  }

  /** A refusal leaves every line where it was. */
  lemma RefusalKeepsLines(o: Options, m: Table, q: Request)
    requires o.capacity >= 1.0 && !Handle(o, m, q).1
    ensures SameLines(o, Handle(o, m, q).0, m)
  {
    hide Returned, ReturnedBy;
    Linear(o);
    assert q.key in m;
  }

  lemma {:induction false} KeptLines(o: Options, qs: seq<Request>, keep: seq<bool>)
    requires o.capacity >= 1.0 && |keep| == |qs|
    requires forall i | 0 <= i < |qs| && !keep[i] :: !Decisions(o, qs)[i]
    ensures SameLines(o, TableAfter(o, qs), TableAfter(o, Kept(qs, keep)))
    ensures Decisions(o, Kept(qs, keep)) == Kept(Decisions(o, qs), keep)
  {
    if qs != [] {
      hide Handle, Intercept;
      var n := |qs| - 1;
      var d, rest := Decisions(o, qs), Kept(qs[..n], keep[..n]);
      assert d[..n] == Decisions(o, qs[..n]);
      forall i | 0 <= i < n && !keep[..n][i]
        ensures !Decisions(o, qs[..n])[i]
      {
        assert !keep[i] && !d[i] && d[i] == d[..n][i];
      }
      KeptLines(o, qs[..n], keep[..n]);
      if keep[n] {
        var s := Kept(qs, keep);
        assert s[..|s| - 1] == rest && s[|s| - 1] == qs[n];
        SameLinesStep(o, TableAfter(o, qs[..n]), TableAfter(o, rest), qs[n]);
      } else {
        assert Kept(qs, keep) == rest;
        assert !d[n];
        RefusalKeepsLines(o, TableAfter(o, qs[..n]), qs[n]);
      }
    }
  }

  lemma {:induction false} KeptFalse(d: seq<bool>, keep: seq<bool>)
    requires |keep| == |d| && forall i | 0 <= i < |d| :: !d[i]
    ensures forall i | 0 <= i < |Kept(d, keep)| :: !Kept(d, keep)[i]
    ensures forall s: seq<Request> | |s| == |d| :: |Kept(s, keep)| == |Kept(d, keep)|
  {
    if d != [] {
      var n := |d| - 1;
      KeptFalse(d[..n], keep[..n]);
      forall s: seq<Request> | |s| == |d|
        ensures |Kept(s, keep)| == |Kept(d, keep)|
      {
        assert |s[..n]| == n;
      }
    }
  }

  /** Dropping any refused requests from a trace changes no other decision. */
  lemma RefusalsAreFree(o: Options, qs: seq<Request>, keep: seq<bool>)
    requires |keep| == |qs|
    requires forall i | 0 <= i < |qs| && !keep[i] :: !Decisions(o, qs)[i]
    ensures Decisions(o, Kept(qs, keep)) == Kept(Decisions(o, qs), keep)
  {
    if o.capacity >= 1.0 {
      KeptLines(o, qs, keep);
    } else {
      forall i | 0 <= i < |qs| ensures !Decisions(o, qs)[i] { TooSmallAdmitsNothing(o, qs, i); }
      KeptFalse(Decisions(o, qs), keep);
      forall i | 0 <= i < |Kept(qs, keep)| ensures !Decisions(o, Kept(qs, keep))[i] {
        TooSmallAdmitsNothing(o, Kept(qs, keep), i);
      }
    }
  }

  // ------------------------------------------------------------------
  // Waiting

  ghost predicate InOrder(qs: seq<Request>) {
    forall i, j | 0 <= i < j < |qs| :: qs[i].now <= qs[j].now
  }

  /** With ordered timestamps a bucket holds between 0 and capacity tokens. */
  lemma {:induction false} TokensInRange(o: Options, qs: seq<Request>)
    requires Valid(o) && o.capacity >= 1.0 && InOrder(qs)
    ensures forall k | k in TableAfter(o, qs) ::
              && 0.0 <= TableAfter(o, qs)[k].tokens <= o.capacity
              && qs != [] && TableAfter(o, qs)[k].lastSeen <= qs[|qs| - 1].now
  {
    if qs != [] {
      hide Returned, ReturnedBy;
      Linear(o);
      var n := |qs| - 1;
      TokensInRange(o, qs[..n]);
      var m := TableAfter(o, qs[..n]);
      assert forall k | k in m :: m[k].lastSeen <= qs[n - 1].now <= qs[n].now;
      if qs[n].key in m {
        Growing(o, m[qs[n].key].lastSeen, qs[n].now);
      }
    }
  }

  /** The level that request n finds and the one it leaves behind. */
  lemma LevelAfter(o: Options, qs: seq<Request>, n: nat)
    requires n < |qs|
    ensures qs[n].key in TableAfter(o, qs[..n + 1])
    ensures var found := Found(o, TableAfter(o, qs[..n]), qs[n]);
            TableAfter(o, qs[..n + 1])[qs[n].key] == Level(if found < 1.0 then found else found - 1.0, qs[n].now)
  {
    assert qs[..n + 1][..n] == qs[..n];
  }

  /**
   Without that order a bucket can go into debt. Request n leaves its bucket without debt exactly when
   no stretch of the key's history ending in it had admitted more than its budget already.
   */
  lemma DebtExactly(o: Options, qs: seq<Request>, n: nat)
    requires n < |qs|
    ensures qs[n].key in TableAfter(o, qs[..n + 1])
    ensures TableAfter(o, qs[..n + 1])[qs[n].key].tokens >= 0.0
            <==> forall j | 0 <= j <= n && qs[j].key == qs[n].key ::
                   Admitted(qs, Decisions(o, qs), qs[n].key, j, n) as real <= o.capacity + Returned(o, qs[j].now, qs[n].now)
  {
    hide Returned, Refill;
    var d := Decisions(o, qs);
    LevelAfter(o, qs, n);
    DecisionAt(o, qs, n);
    ReplayIsTable(o, qs[..n], d, qs[n].key);
    FoundAtLeast(o, qs, d, n, 0.0);
  }

  /** For instance when the second request was stamped before the first. */
  lemma LateStampLeavesDebt()
    ensures var m := TableAfter(Options(1.0, 5.0, 0), [Request("a", 1.0), Request("a", 0.0)]);
            "a" in m && m["a"].tokens == -5.0
  {
    var o, qs := Options(1.0, 5.0, 0), [Request("a", 1.0), Request("a", 0.0)];
    assert qs[..1] == [qs[0]] && qs[..1][..0] == [];
    assert TableAfter(o, qs[..1]) == map["a" := Level(0.0, 1.0)];
  }

  lemma NoDebt(o: Options, qs: seq<Request>, i: nat)
    requires Valid(o) && o.capacity >= 1.0 && InOrder(qs) && i < |qs|
    ensures Found(o, TableAfter(o, qs[..i]), qs[i]) >= 0.0
  {
    hide Returned, ReturnedBy;
    Linear(o);
    var m := TableAfter(o, qs[..i]);
    TokensInRange(o, qs[..i]);
    if qs[i].key in m {
      assert m[qs[i].key].lastSeen <= qs[i - 1].now <= qs[i].now;
      Growing(o, m[qs[i].key].lastSeen, qs[i].now);
    }
  }

  /** While a key is only refused, its line stays where the first refusal left it. */
  lemma {:induction false} RefusedLineStays(o: Options, qs: seq<Request>, i: nat, n: nat)
    requires o.capacity >= 1.0 && i < n <= |qs|
    requires forall k | i <= k < n && qs[k].key == qs[i].key :: !Decisions(o, qs)[k]
    ensures qs[i].key in TableAfter(o, qs[..n])
    ensures Intercept(o, TableAfter(o, qs[..n])[qs[i].key])
            == Found(o, TableAfter(o, qs[..i]), qs[i]) - ReturnedBy(o, qs[i].now)
  {
    hide Returned, ReturnedBy;
    Linear(o);
    assert qs[..n][..n - 1] == qs[..n - 1];
    DecisionAt(o, qs, n - 1);
    if i < n - 1 {
      RefusedLineStays(o, qs, i, n - 1);
    }
  }

  /** Request i was refused, and so were all on its key until n, which is the client's next try. */
  ghost predicate RefusedSince(o: Options, qs: seq<Request>, i: nat, n: nat) {
    && i < n < |qs| && qs[n].key == qs[i].key
    && forall k | i <= k < n && qs[k].key == qs[i].key :: !Decisions(o, qs)[k]
  }

  /**
   A client refused with x tokens at time t, and not admitted since, is admitted from
   t + (1 - x) / rate on and not before.
   */
  lemma AdmittedAfterWaiting(o: Options, qs: seq<Request>, i: nat, n: nat)
    requires Valid(o) && o.capacity >= 1.0 && RefusedSince(o, qs, i, n)
    ensures var x := Found(o, TableAfter(o, qs[..i]), qs[i]);
            Decisions(o, qs)[n] <==> qs[n].now >= qs[i].now + WaitTime(o, x)
  {
    hide Returned, ReturnedBy, WaitTime;
    Linear(o);
    var x := Found(o, TableAfter(o, qs[..i]), qs[i]);
    RefusedLineStays(o, qs, i, n);
    DecisionAt(o, qs, n);
    WaitForTokens(o, x, qs[i].now, qs[n].now);
  }

  /** How long a bucket with x tokens takes to hold one. */
  function WaitTime(o: Options, x: real): real
    requires Valid(o)
  {
    (1.0 - x) / o.refillRate
  }

  lemma WaitForTokens(o: Options, x: real, from: real, to: real)
    requires Valid(o)
    ensures x + Returned(o, from, to) >= 1.0 <==> to >= from + WaitTime(o, x)
  {
    var gap := to - from - WaitTime(o, x);
    assert x + Returned(o, from, to) == 1.0 + o.refillRate * gap;
    assert o.refillRate * gap >= 0.0 <==> gap >= 0.0;
  }

  /** What the Retry-After header says, in whole seconds. */
  function RetrySeconds(o: Options): (s: int)
    ensures o.retryAfter <= 0 ==> s == 1
    ensures 0 < o.retryAfter ==> s * 1_000_000_000 <= o.retryAfter < (s + 1) * 1_000_000_000
  {
    (if o.retryAfter <= 0 then 1_000_000_000 else o.retryAfter) / 1_000_000_000
  }

  /** With ordered timestamps, waiting w seconds is enough for every refused client if rate * w >= 1. */
  lemma WaitSuffices(o: Options, qs: seq<Request>, i: nat, n: nat, w: real)
    requires Valid(o) && o.capacity >= 1.0 && InOrder(qs) && RefusedSince(o, qs, i, n)
    requires ReturnedBy(o, w) >= 1.0 && qs[n].now >= qs[i].now + w
    ensures Decisions(o, qs)[n]
  {
    hide Returned, ReturnedBy, WaitTime;
    Linear(o);
    var x := Found(o, TableAfter(o, qs[..i]), qs[i]);
    NoDebt(o, qs, i);
    NothingReturnedYet(o);
    WaitForTokens(o, x, 0.0, w);
    AdmittedAfterWaiting(o, qs, i, n);
  }

  lemma NothingReturnedYet(o: Options)
    ensures ReturnedBy(o, 0.0) == 0.0
  {
  }

  /** On every ordered trace, every refused client that waits w seconds is admitted. */
  ghost predicate WaitIsEnough(o: Options, w: real) {
    forall qs: seq<Request>, i: nat, n: nat | InOrder(qs) && RefusedSince(o, qs, i, n) && qs[n].now >= qs[i].now + w :: Decisions(o, qs)[n]
  }

  /** k requests at time 0. */
  function Burst(k: nat): seq<Request> {
    seq(k, i requires 0 <= i < k => Request("a", 0.0))
  }

  lemma {:induction false} BurstDrains(o: Options, k: nat)
    requires Valid(o) && 1 <= k && k as real <= o.capacity
    ensures TableAfter(o, Burst(k)) == map["a" := Level(o.capacity - k as real, 0.0)]
  {
    assert Burst(k)[..k - 1] == Burst(k - 1) && Burst(k)[k - 1] == Request("a", 0.0);
    if k > 1 {
      BurstDrains(o, k - 1);
    }
  }

  /** When the fraction left by a burst has grown to a token. */
  function WholeAgain(o: Options): real
    requires Valid(o) && o.capacity >= 1.0
  {
    (1.0 - (o.capacity - o.capacity.Floor as real)) / o.refillRate
  }

  /** A burst that leaves less than a token, one request that takes the next one, a refusal, and a retry w later. */
  function Impatient(o: Options, w: real): seq<Request>
    requires Valid(o) && o.capacity >= 1.0
  {
    var t := WholeAgain(o);
    Burst(o.capacity.Floor) + [Request("a", t)] + [Request("a", t)] + [Request("a", t + AtLeastZero(w))]
  }

  lemma TableSnoc(o: Options, qs: seq<Request>, q: Request)
    ensures TableAfter(o, qs + [q]) == Handle(o, TableAfter(o, qs), q).0
  {
    assert (qs + [q])[..|qs|] == qs;
  }

  lemma ImpatientTable(o: Options)
    requires Valid(o) && o.capacity >= 1.0
    ensures var k, t := o.capacity.Floor, WholeAgain(o);
            var drained := map["a" := Level(0.0, t)];
            && t >= 0.0
            && TableAfter(o, Burst(k) + [Request("a", t)]) == drained
            && TableAfter(o, Burst(k) + [Request("a", t)] + [Request("a", t)]) == drained
  {
    hide TableAfter, Returned, WholeAgain;
    var k, t := o.capacity.Floor, WholeAgain(o);
    var q := Request("a", t);
    BurstDrains(o, k);
    WholeToken(o);
    TableSnoc(o, Burst(k), q);
    TableSnoc(o, Burst(k) + [q], q);
  }

  lemma WholeToken(o: Options)
    requires Valid(o) && o.capacity >= 1.0
    ensures var t := WholeAgain(o);
            && t >= 0.0 && Refill(o, Level(o.capacity - o.capacity.Floor as real, 0.0), t) == 1.0
            && Refill(o, Level(0.0, t), t) == 0.0
  {
    var f := o.capacity - o.capacity.Floor as real;
    Positive(1.0 - f, o.refillRate);
    assert WholeAgain(o) * o.refillRate == 1.0 - f;
  }

  lemma Positive(x: real, y: real)
    requires x > 0.0 && y > 0.0
    ensures x / y > 0.0
  {
  }

  lemma EmptyBucketRefills(o: Options, t: real, wait: real)
    requires Valid(o) && o.capacity >= 1.0 && ReturnedBy(o, wait) < 1.0
    ensures Refill(o, Level(0.0, t), t) == 0.0 && Refill(o, Level(0.0, t), t + wait) < 1.0
  {
    hide Returned, ReturnedBy;
    ReturnedOver(o, t, 0.0);
    ReturnedOver(o, t, wait);
    NothingReturnedYet(o);
    assert t + 0.0 == t;
  }

  lemma ReturnedOver(o: Options, from: real, wait: real)
    ensures Returned(o, from, from + wait) == ReturnedBy(o, wait)
  {
    var to := from + wait;
    assert to - from == wait;
  }

  function AtLeastZero(w: real): real {
    if w > 0.0 then w else 0.0
  }

  lemma NoTokenYet(o: Options, w: real)
    requires ReturnedBy(o, w) < 1.0
    ensures ReturnedBy(o, AtLeastZero(w)) < 1.0
  {
    hide ReturnedBy;
    NothingReturnedYet(o);
  }

  /** What the last two requests of the impatient client find. */
  lemma ImpatientFinds(o: Options, w: real)
    requires Valid(o) && o.capacity >= 1.0 && ReturnedBy(o, w) < 1.0
    ensures var qs, k := Impatient(o, w), o.capacity.Floor;
            && |qs| == k + 3 && qs[k + 1] == Request("a", WholeAgain(o))
            && !Decisions(o, qs)[k + 1] && !Decisions(o, qs)[k + 2]
  {
    hide TableAfter, Decisions, WholeAgain, Refill, ReturnedBy;
    var qs, k, t := Impatient(o, w), o.capacity.Floor, WholeAgain(o);
    var wait := AtLeastZero(w);
    ImpatientTable(o);
    DecisionAt(o, qs, k + 1);
    DecisionAt(o, qs, k + 2);
    assert qs[..k + 1] == Burst(k) + [Request("a", t)];
    assert qs[..k + 2] == Burst(k) + [Request("a", t)] + [Request("a", t)];
    NoTokenYet(o, w);
    EmptyBucketRefills(o, t, wait);
  }

  /** The impatient client is refused with an empty bucket and again after w seconds. */
  lemma ImpatientRefused(o: Options, w: real)
    requires Valid(o) && o.capacity >= 1.0 && ReturnedBy(o, w) < 1.0
    ensures var qs, i := Impatient(o, w), o.capacity.Floor + 1;
            InOrder(qs) && RefusedSince(o, qs, i, i + 1) && qs[i + 1].now >= qs[i].now + w && !Decisions(o, qs)[i + 1]
  {
    hide TableAfter, Decisions, WholeAgain, Refill, ReturnedBy;
    ImpatientTable(o);
    ImpatientFinds(o, w);
  }

  /** A bucket too small for a token refuses the patient, too. */
  lemma TooSmallRefuses(o: Options, w: real)
    requires o.capacity < 1.0
    ensures !WaitIsEnough(o, w)
  {
    hide Decisions;
    var qs := [Request("a", 0.0), Request("a", AtLeastZero(w))];
    TooSmallAdmitsNothing(o, qs, 0);
    TooSmallAdmitsNothing(o, qs, 1);
    assert InOrder(qs) && RefusedSince(o, qs, 0, 1) && qs[1].now >= qs[0].now + w;
  }

  /** A wait of w seconds is enough if and only if the bucket can hold a token and one returns in w. */
  lemma WaitExactly(o: Options, w: real)
    requires Valid(o)
    ensures WaitIsEnough(o, w) <==> o.capacity >= 1.0 && ReturnedBy(o, w) >= 1.0
  {
    hide InOrder, Decisions, ReturnedBy;
    if o.capacity < 1.0 {
      TooSmallRefuses(o, w);
    } else if ReturnedBy(o, w) >= 1.0 {
      forall qs: seq<Request>, i: nat, n: nat | InOrder(qs) && RefusedSince(o, qs, i, n) && qs[n].now >= qs[i].now + w
        ensures Decisions(o, qs)[n]
      {
        WaitSuffices(o, qs, i, n, w);
      }
    } else {
      ImpatientRefused(o, w);
    }
  }

  /**
   So the seconds that Retry-After says are enough if and only if a token returns in them: the default
   second exactly for a rate of at least 1, and a duration below one second, announced as 0, never.
   */
  lemma AdvertisedWaitExactly(o: Options)
    requires Valid(o) && o.capacity >= 1.0
    ensures WaitIsEnough(o, RetrySeconds(o) as real) <==> o.refillRate * RetrySeconds(o) as real >= 1.0
    ensures o.retryAfter <= 0 ==> (WaitIsEnough(o, RetrySeconds(o) as real) <==> o.refillRate >= 1.0)
    ensures 0 < o.retryAfter < 1_000_000_000 ==> RetrySeconds(o) == 0 && !WaitIsEnough(o, RetrySeconds(o) as real)
  {
    hide WaitIsEnough;
    WaitExactly(o, RetrySeconds(o) as real);
  }
}
