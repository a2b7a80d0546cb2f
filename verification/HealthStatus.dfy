/**
 The three ways health/health.go and health/checkers.go sum statuses up: early exit plus fold,
 summary counters, and composite checkers. They agree whenever some result counts.
 */
module HealthStatus {
  import opened Common
  import opened Texts

  /** The four constants, the empty string a status variable starts with, and any other string. */
  datatype Status = Healthy | Unhealthy | Degraded | Unknown | Empty | Other(text: string)

  datatype Outcome = Outcome(status: Status, message: string)

  // ------------------------------------------------------------------
  // Early exit and fold

  function FirstUnhealthy(os: seq<Outcome>): Option<Outcome> {
    if os == [] then None else if os[0].status.Unhealthy? then Some(os[0]) else FirstUnhealthy(os[1..])
  }

  function WithMessage(messages: seq<string>, o: Outcome): seq<string> {
    if o.message != "" then messages + [o.message] else messages
  }

  /** One turn of the loop over the results: the overall status so far and the messages so far. */
  function FoldStep(overall: Status, messages: seq<string>, o: Outcome): (Status, seq<string>) {
    match o.status
    case Unhealthy => (Unhealthy, WithMessage(messages, o))
    case Degraded => if !overall.Unhealthy? then (Degraded, WithMessage(messages, o)) else (overall, messages)
    case Healthy => (if overall.Empty? then Healthy else overall, messages)
    case _ => (overall, messages)
  }

  function Fold(os: seq<Outcome>): (Status, seq<string>) {
    if os == [] then (Empty, [])
    else
      var (overall, messages) := Fold(os[..|os| - 1]);
      FoldStep(overall, messages, os[|os| - 1])
  }

  /** The status that counts: unhealthy before degraded before healthy, and Empty without any of them. */
  ghost function Worst(os: seq<Outcome>): Status {
    if Reports(os, Unhealthy) then Unhealthy
    else if Reports(os, Degraded) then Degraded
    else if Reports(os, Healthy) then Healthy
    else Empty
  }

  ghost predicate Reports(os: seq<Outcome>, s: Status) {
    exists o | o in os :: o.status == s
  }

  lemma ReportsSnoc(os: seq<Outcome>, o: Outcome, s: Status)
    ensures Reports(os + [o], s) <==> Reports(os, s) || o.status == s
  {
    assert o in os + [o];
    if Reports(os, s) {
      var x :| x in os && x.status == s;
      assert x in os + [o];
    }
  }

  lemma WorstSnoc(os: seq<Outcome>, o: Outcome)
    ensures Worst(os + [o]) == FoldStep(Worst(os), [], o).0
  {
    ReportsSnoc(os, o, Unhealthy);
    ReportsSnoc(os, o, Degraded);
    ReportsSnoc(os, o, Healthy);
  }

  /** The fold computes the maximum, whatever the order of the results. */
  lemma {:induction false} FoldIsWorst(os: seq<Outcome>)
    ensures Fold(os).0 == Worst(os)
  {
    if os != [] {
      var init := os[..|os| - 1];
      FoldIsWorst(init);
      WorstSnoc(init, os[|os| - 1]);
      assert os == init + [os[|os| - 1]];
    }
  }

  /** The messages of the degraded results, in order. */
  function DegradedMessages(os: seq<Outcome>): seq<string> {
    if os == [] then []
    else
      var before, o := DegradedMessages(os[..|os| - 1]), os[|os| - 1];
      if o.status.Degraded? && o.message != "" then before + [o.message] else before
  }

  /** After the early exit only degraded results have a message that is reported. */
  lemma {:induction false} FoldMessages(os: seq<Outcome>)
    requires FirstUnhealthy(os).None?
    ensures Fold(os).1 == DegradedMessages(os) && !Fold(os).0.Unhealthy?
  {
    FirstUnhealthyExact(os);
    if os != [] {
      FirstUnhealthyExact(os[..|os| - 1]);
      FoldMessages(os[..|os| - 1]);
    }
  }

  /** The early exit is taken exactly when some result is unhealthy, and on the first of them. */
  lemma {:induction false} FirstUnhealthyExact(os: seq<Outcome>)
    ensures FirstUnhealthy(os).Some? <==> Reports(os, Unhealthy)
    ensures FirstUnhealthy(os).Some? ==>
              exists i :: 0 <= i < |os| && os[i] == FirstUnhealthy(os).value && os[i].status.Unhealthy?
                          && forall j | 0 <= j < i :: !os[j].status.Unhealthy?
  {
    if os != [] && !os[0].status.Unhealthy? {
      var rest := os[1..];
      FirstUnhealthyExact(rest);
      assert os == [os[0]] + rest;
      if FirstUnhealthy(rest).Some? {
        var i :| 0 <= i < |rest| && rest[i] == FirstUnhealthy(rest).value && rest[i].status.Unhealthy?
                 && forall j | 0 <= j < i :: !rest[j].status.Unhealthy?;
        assert os[i + 1] == rest[i];
        forall j | 0 <= j < i + 1 ensures !os[j].status.Unhealthy? {
          if j > 0 { assert os[j] == rest[j - 1]; }
        }
      }
    }
  }

  // ------------------------------------------------------------------
  // Counters

  datatype Summary = Summary(total: nat, healthy: nat, unhealthy: nat, degraded: nat, unknown: nat)

  function CountStep(s: Summary, o: Outcome): Summary {
    match o.status
    case Healthy => s.(healthy := s.healthy + 1)
    case Unhealthy => s.(unhealthy := s.unhealthy + 1)
    case Degraded => s.(degraded := s.degraded + 1)
    case Unknown => s.(unknown := s.unknown + 1)
    case _ => s
  }

  function Counted(total: nat, os: seq<Outcome>): Summary {
    if os == [] then Summary(total, 0, 0, 0, 0) else CountStep(Counted(total, os[..|os| - 1]), os[|os| - 1])
  }

  function CounterStatus(s: Summary): Status {
    if s.unhealthy > 0 then Unhealthy
    else if s.degraded > 0 then Degraded
    else if s.healthy > 0 then Healthy
    else Unknown
  }

  predicate IsConstant(s: Status) {
    s.Healthy? || s.Unhealthy? || s.Degraded? || s.Unknown?
  }

  /** How many results have a status that is none of the four constants. */
  function Uncounted(os: seq<Outcome>): nat {
    if os == [] then 0 else Uncounted(os[..|os| - 1]) + if IsConstant(os[|os| - 1].status) then 0 else 1
  }

  /** Each counter is positive exactly when its status was reported; together they miss the other statuses. */
  lemma {:induction false} CountersExact(total: nat, os: seq<Outcome>)
    ensures var s := Counted(total, os);
            && s.total == total
            && (s.healthy > 0 <==> Reports(os, Healthy)) && (s.unhealthy > 0 <==> Reports(os, Unhealthy))
            && (s.degraded > 0 <==> Reports(os, Degraded)) && (s.unknown > 0 <==> Reports(os, Unknown))
            && s.healthy + s.unhealthy + s.degraded + s.unknown + Uncounted(os) == |os|
  {
    if os == [] {
    } else {
      hide Reports;
      var init, o := os[..|os| - 1], os[|os| - 1];
      CountersExact(total, init);
      assert os == init + [o];
      ReportsSnoc(init, o, Healthy);
      ReportsSnoc(init, o, Unhealthy);
      ReportsSnoc(init, o, Degraded);
      ReportsSnoc(init, o, Unknown);
    }
  }

  /** The counter rule agrees with the fold, except that it says unknown where the fold says nothing. */
  lemma CountersAgree(total: nat, os: seq<Outcome>)
    ensures CounterStatus(Counted(total, os)) == if Fold(os).0.Empty? then Unknown else Fold(os).0
  {
    CountersExact(total, os);
    FoldIsWorst(os);
  }

  // ------------------------------------------------------------------
  // Composite checkers

  /** A checker whose result is given, or a composite of checkers. */
  datatype Tree = Leaf(outcome: Outcome) | Composite(children: seq<Tree>)

  /** Go's %v of a list of strings. */
  function Listed(messages: seq<string>): string {
    "[" + Join(messages, ' ') + "]"
  }

  /** CompositeChecker.Check on the results of the checkers in it. */
  function Combined(os: seq<Outcome>): Outcome {
    if os == [] then Outcome(Unknown, "No checkers configured") else
    match FirstUnhealthy(os)
    case Some(o) => Outcome(Unhealthy, "Composite check failed: " + o.message)
    case None =>
      var (overall, messages) := Fold(os);
      Outcome(overall, if messages != [] then "Composite check: " + Listed(messages) else "All composite checks passed")
  }

  function Check(t: Tree): Outcome
    decreases t, if t.Leaf? then 0 else |t.children| + 1
  {
    match t
    case Leaf(o) => o
    case Composite(children) => Combined(Results(t, |children|))
  }

  /** The results of the first n checkers of a composite. */
  function Results(t: Tree, n: nat): (os: seq<Outcome>)
    requires t.Composite? && n <= |t.children|
    ensures |os| == n
    decreases t, n
  {
    if n == 0 then [] else Results(t, n - 1) + [Check(t.children[n - 1])]
  }

  /** The results at the leaves, left to right. */
  function Leaves(t: Tree): seq<Outcome>
    decreases t, if t.Leaf? then 0 else |t.children| + 1
  {
    match t
    case Leaf(o) => [o]
    case Composite(children) => LeavesOf(t, |children|)
  }

  function LeavesOf(t: Tree, n: nat): seq<Outcome>
    requires t.Composite? && n <= |t.children|
    decreases t, n
  {
    if n == 0 then [] else LeavesOf(t, n - 1) + Leaves(t.children[n - 1])
  }

  function Flat(os: seq<Outcome>): Tree {
    Composite(seq(|os|, i requires 0 <= i < |os| => Leaf(os[i])))
  }

  /** The status of a non-empty composite is that of the fold: the early exit only saves calls. */
  lemma CombinedIsWorst(os: seq<Outcome>)
    ensures Combined(os).status == if os == [] then Unknown else Worst(os)
  {
    FirstUnhealthyExact(os);
    FoldIsWorst(os);
  }

  /** The first unhealthy result. */
  ghost predicate IsFirstUnhealthy(os: seq<Outcome>, i: nat) {
    i < |os| && os[i].status.Unhealthy? && forall j | 0 <= j < i :: !os[j].status.Unhealthy?
  }

  lemma FirstUnhealthyAt(os: seq<Outcome>, i: nat)
    requires IsFirstUnhealthy(os, i)
    ensures FirstUnhealthy(os) == Some(os[i])
  {
    FirstUnhealthyExact(os);
  }

  /** What a composite says: the first unhealthy message, or the messages of the degraded ones, spaced. */
  lemma CombinedMessage(os: seq<Outcome>)
    ensures os == [] ==> Combined(os).message == "No checkers configured"
    ensures forall i: nat | IsFirstUnhealthy(os, i) :: Combined(os).message == "Composite check failed: " + os[i].message
    ensures os != [] && !Reports(os, Unhealthy) ==>
              Combined(os).message == if DegradedMessages(os) == [] then "All composite checks passed"
                                      else "Composite check: [" + Join(DegradedMessages(os), ' ') + "]"
  {
    hide Fold, DegradedMessages, Reports, FirstUnhealthy, Join;
    FirstUnhealthyExact(os);
    forall i: nat | IsFirstUnhealthy(os, i) ensures Combined(os).message == "Composite check failed: " + os[i].message {
      FirstUnhealthyAt(os, i);
    }
    if FirstUnhealthy(os).None? {
      FoldMessages(os);
      assert "Composite check: " + ("[" + Join(DegradedMessages(os), ' ') + "]")
             == "Composite check: [" + Join(DegradedMessages(os), ' ') + "]";
    }
  }

  lemma ReportsConcat(a: seq<Outcome>, b: seq<Outcome>, s: Status)
    ensures Reports(a + b, s) <==> Reports(a, s) || Reports(b, s)
  {
    if Reports(a, s) {
      var x :| x in a && x.status == s;
      assert x in a + b;
    }
    if Reports(b, s) {
      var x :| x in b && x.status == s;
      assert x in a + b;
    }
  }

  /** A composite combines the results of its checkers, each in its place. */
  lemma {:induction false} ResultsExact(t: Tree, n: nat, i: nat)
    requires t.Composite? && i < n <= |t.children|
    ensures Results(t, n)[i] == Check(t.children[i])
    ensures Check(t) == Combined(Results(t, |t.children|))
    decreases n
  {
    if i < n - 1 {
      ResultsExact(t, n - 1, i);
    }
  }

  predicate Ranked(s: Status) {
    s.Healthy? || s.Unhealthy? || s.Degraded?
  }

  /** What a checker contributes to the status of a composite is the worst of its leaves. */
  lemma {:induction false} CheckIsWorst(t: Tree)
    ensures Worst([Check(t)]) == Worst(Leaves(t))
    ensures t.Composite? ==> Check(t).status == if t.children == [] then Unknown else Worst(Leaves(t))
    decreases t, if t.Leaf? then 0 else |t.children| + 1
  {
    match t
    case Leaf(o) =>
    case Composite(children) =>
      ResultsWorst(t, |children|);
      CombinedIsWorst(Results(t, |children|));
      OneReports(Check(t));
  }

  lemma OneReports(o: Outcome)
    ensures Worst([o]) == if Ranked(o.status) then o.status else Empty
  {
    assert [] + [o] == [o];
    WorstSnoc([], o);
  }

  lemma {:induction false} ResultsWorst(t: Tree, n: nat)
    requires t.Composite? && n <= |t.children|
    ensures Worst(Results(t, n)) == Worst(LeavesOf(t, n))
    decreases t, n
  {
    if n > 0 {
      var child := t.children[n - 1];
      ResultsWorst(t, n - 1);
      CheckIsWorst(child);
      WorstConcat(Results(t, n - 1), [Check(child)]);
      WorstConcat(LeavesOf(t, n - 1), Leaves(child));
    }
  }

  ghost function Worse(a: Status, b: Status): Status {
    if a.Unhealthy? || b.Unhealthy? then Unhealthy
    else if a.Degraded? || b.Degraded? then Degraded
    else if a.Healthy? || b.Healthy? then Healthy
    else Empty
  }

  lemma WorstConcat(a: seq<Outcome>, b: seq<Outcome>)
    ensures Worst(a + b) == Worse(Worst(a), Worst(b))
  {
    ReportsConcat(a, b, Unhealthy);
    ReportsConcat(a, b, Degraded);
    ReportsConcat(a, b, Healthy);
  }

  lemma {:induction false} FlatLeaves(os: seq<Outcome>, n: nat)
    requires n <= |os|
    ensures LeavesOf(Flat(os), n) == os[..n]
  {
    if n > 0 {
      FlatLeaves(os, n - 1);
      assert Flat(os).children[n - 1] == Leaf(os[n - 1]);
    }
  }

  /**
   A composite has the status of one flat composite over its leaves, exactly unless it is made of
   checkers without a single leaf.
   */
  lemma NestingIsFlat(t: Tree)
    requires t.Composite?
    ensures Check(t).status == Check(Flat(Leaves(t))).status <==> t.children == [] || Leaves(t) != []
  {
    var os := Leaves(t);
    CheckIsWorst(t);
    CheckIsWorst(Flat(os));
    FlatLeaves(os, |os|);
    assert os[..|os|] == os;
  }

  /** No composite is empty. */
  predicate NonEmpty(t: Tree)
    decreases t
  {
    t.Composite? ==> t.children != [] && forall c | c in t.children :: NonEmpty(c)
  }

  lemma {:induction false} NonEmptyHasLeaves(t: Tree)
    requires NonEmpty(t)
    ensures Leaves(t) != []
    decreases t
  {
    if t.Composite? {
      var last := t.children[|t.children| - 1];
      assert last in t.children;
      NonEmptyHasLeaves(last);
    }
  }

  /** Two trees of non-empty composites with the same leaf results, in any order, have the same status. */
  lemma LeafOrderIsFree(t: Tree, u: Tree)
    requires t.Composite? && u.Composite? && NonEmpty(t) && NonEmpty(u)
    requires forall o :: o in Leaves(t) <==> o in Leaves(u)
    ensures Check(t).status == Check(u).status == Check(Flat(Leaves(t))).status
  {
    NonEmptyHasLeaves(t);
    NonEmptyHasLeaves(u);
    NestingIsFlat(t);
    CheckIsWorst(t);
    CheckIsWorst(u);
    SameReports(Leaves(t), Leaves(u));
  }

  lemma SameReports(a: seq<Outcome>, b: seq<Outcome>)
    requires forall o :: o in a <==> o in b
    ensures Worst(a) == Worst(b)
  {
    assert forall s :: Reports(a, s) <==> Reports(b, s);
  }

  /** CompositeChecker.Check step by step. */
  method RunCheck(t: Tree) returns (o: Outcome)
    ensures o == Check(t)
    decreases t
  {
    if t.Leaf? {
      return t.outcome;
    }
    if t.children == [] {
      return Outcome(Unknown, "No checkers configured");
    }
    var results := [];
    for i := 0 to |t.children|
      invariant results == Results(t, i)
      invariant FirstUnhealthy(results).None?
    {
      var result := RunCheck(t.children[i]);
      FirstUnhealthySnoc(results, result);
      results := results + [result];
      if result.status.Unhealthy? {
        ResultsPrefix(t, i + 1, |t.children|);
        return Outcome(Unhealthy, "Composite check failed: " + result.message);
      }
    }
    var overall, messages := FoldResults(results);
    o := Outcome(overall, if messages != [] then "Composite check: " + Listed(messages) else "All composite checks passed");
  }

  /** The loop shared by performChecks and CompositeChecker.Check. */
  method FoldResults(results: seq<Outcome>) returns (overall: Status, messages: seq<string>)
    ensures (overall, messages) == Fold(results)
  {
    overall, messages := Empty, [];
    for i := 0 to |results|
      invariant (overall, messages) == Fold(results[..i])
    {
      assert results[..i + 1][..i] == results[..i];
      var result := results[i];
      match result.status
      case Unhealthy =>
        overall := Unhealthy;
        if result.message != "" { messages := messages + [result.message]; }
      case Degraded =>
        if !overall.Unhealthy? {
          overall := Degraded;
          if result.message != "" { messages := messages + [result.message]; }
        }
      case Healthy =>
        if overall.Empty? { overall := Healthy; }
      case Unknown =>
      case Empty =>
      case Other(_) =>
    }
    assert results[..|results|] == results;
  }

  lemma {:induction false} FirstUnhealthySnoc(os: seq<Outcome>, o: Outcome)
    ensures FirstUnhealthy(os + [o]) ==
            if FirstUnhealthy(os).Some? then FirstUnhealthy(os)
            else if o.status.Unhealthy? then Some(o) else None
  {
    if os == [] {
      assert [] + [o] == [o];
    } else {
      FirstUnhealthySnoc(os[1..], o);
      assert (os + [o])[1..] == os[1..] + [o];
    }
  }

  lemma {:induction false} FirstUnhealthyPrefix(a: seq<Outcome>, b: seq<Outcome>)
    requires FirstUnhealthy(a).Some?
    ensures FirstUnhealthy(a + b) == FirstUnhealthy(a)
  {
    if !a[0].status.Unhealthy? {
      FirstUnhealthyPrefix(a[1..], b);
      assert (a + b)[1..] == a[1..] + b;
    }
  }

  lemma {:induction false} ResultsPrefix(t: Tree, n: nat, m: nat)
    requires t.Composite? && n <= m <= |t.children| && FirstUnhealthy(Results(t, n)).Some?
    ensures FirstUnhealthy(Results(t, m)) == FirstUnhealthy(Results(t, n))
    decreases m
  {
    if n < m {
      ResultsPrefix(t, n, m - 1);
      FirstUnhealthyPrefix(Results(t, m - 1), [Check(t.children[m - 1])]);
    }
  }
}
