/**
 Steps of the transaction manager and of whole programs, for any world in good order: what each of them
 keeps of the connections in use, of what was sent and of what is visible. An open transaction is
 private, a closed one is visible as a whole or not at all, a handle keeps its connection until it gives
 it back, and no step ends a transaction that it did not begin. Each operation is a step, and a program
 is made of steps, so every program is one too.
 */
module TransactionSteps {
  import opened Common
  import opened Transactions

  /** What was sent on one connection. */
  function On(c: nat, s: seq<Sent>): seq<Sent> {
    if s == [] then [] else On(c, s[..|s| - 1]) + (if s[|s| - 1].conn == c then [s[|s| - 1]] else [])
  }

  lemma {:induction false} OnConcat(c: nat, a: seq<Sent>, b: seq<Sent>)
    ensures On(c, a + b) == On(c, a) + On(c, b)
  {
    if b == [] {
      assert a + b == a;
    } else {
      OnConcat(c, a, b[..|b| - 1]);
      assert (a + b)[..|a + b| - 1] == a + b[..|b| - 1];
    }
  }

  lemma {:induction false} OnAllSent(c: nat, d: nat, ws: seq<Write>)
    ensures On(c, AllSent(d, ws)) == if c == d then AllSent(d, ws) else []
  {
    var s := AllSent(d, ws);
    if ws != [] {
      var init := ws[..|ws| - 1];
      assert s[..|s| - 1] == AllSent(d, init);
      OnAllSent(c, d, init);
      assert AllSent(d, ws) == AllSent(d, init) + [Sent(d, ws[|ws| - 1])];
    }
  }

  lemma {:induction false} OnUnknown(c: nat, s: seq<Sent>)
    requires forall x | x in s :: x.conn != c
    ensures On(c, s) == []
  {
    if s != [] {
      OnUnknown(c, s[..|s| - 1]);
    }
  }

  ghost predicate InTx(w: World, c: nat) {
    c in w.open && w.open[c].Some?
  }

  /** What an open transaction holds is what was sent on it, and nobody sees it. */
  ghost predicate TxPrivate(w: World, c: nat)
    requires InTx(w, c)
  {
    On(c, w.sent) == AllSent(c, w.open[c].value) && On(c, w.visible) == []
  }

  /** All that was sent on a connection is visible, or nothing of it. */
  ghost predicate AllOrNothing(w: World, c: nat) {
    On(c, w.visible) == [] || On(c, w.visible) == On(c, w.sent)
  }

  ghost predicate ConnOk(w: World, c: nat) {
    if InTx(w, c) then TxPrivate(w, c) else AllOrNothing(w, c)
  }

  /** The connections that handles have got and not given back. */
  function Held(w: World): set<nat> {
    w.issued - w.returned
  }

  /** The connections in use that no handle has. */
  function Others(w: World): set<nat> {
    w.open.Keys - Held(w)
  }

  ghost predicate WellFormed(w: World) {
    && Sound(w)
    && w.returned <= w.issued && Held(w) <= w.open.Keys && w.returned !! w.open.Keys
    && (forall s | s in w.sent || s in w.visible :: s.conn < w.next)
    && (forall c: nat :: ConnOk(w, c))
  }

  /**
   What running a program may change: visible writes stay visible, only connections of handles go, no
   transaction that was open ends, connections outside a transaction carry nothing more, and no
   connection is released inside one.
   */
  ghost predicate Extends(w: World, w': World) {
    && w.visible <= w'.visible && w.sent <= w'.sent && w.next <= w'.next && w'.badReleases == w.badReleases
    && w.issued <= w'.issued && w.returned <= w'.returned
    && (forall c: nat | c < w.next :: (c in w'.issued <==> c in w.issued))
    && (forall c: nat | c < w.next && c !in w.issued :: (c in w'.open <==> c in w.open) && (InTx(w', c) <==> InTx(w, c)))
    && (forall c: nat | c < w.next && !InTx(w, c) ::
          On(c, w'.sent) == On(c, w.sent) && On(c, w'.visible) == On(c, w.visible))
  }

  lemma ExtendsSelf(w: World)
    ensures Extends(w, w)
  {
  }

  lemma ExtendsTransitive(a: World, b: World, c: World)
    requires WellFormed(a) && WellFormed(b) && WellFormed(c) && Extends(a, b) && Extends(b, c)
    ensures Extends(a, c)
  {
    hide On, ConnOk;
    forall d: nat | d < a.next && !InTx(a, d) ensures !InTx(b, d) {
      assert d in a.issued ==> d in b.issued;
    }
  }

  /** Afterwards the same connections are in use as before but for those of handles. */
  ghost predicate Result(w: World, w': World) {
    WellFormed(w') && Extends(w, w') && Others(w') == Others(w)
  }

  lemma ResultSelf(w: World)
    requires WellFormed(w)
    ensures Result(w, w)
  {
    hide WellFormed;
    ExtendsSelf(w);
  }

  lemma ResultTransitive(a: World, b: World, c: World)
    requires WellFormed(a) && Result(a, b) && Result(b, c)
    ensures Result(a, c)
  {
    hide WellFormed, Extends;
    ExtendsTransitive(a, b, c);
  }

  lemma Fresh(w: World)
    requires WellFormed(w)
    ensures w.next !in w.open && w.next !in w.issued && On(w.next, w.sent) == [] && On(w.next, w.visible) == []
  {
    OnUnknown(w.next, w.sent);
    OnUnknown(w.next, w.visible);
  }

  lemma IsSound(w: World)
    requires WellFormed(w)
    ensures Sound(w)
  {
  }

  // ------------------------------------------------------------------
  // Steps that leave the writes alone

  /** Two worlds that differ in their script only, or in a variable that holds a known connection or none. */
  lemma SameConns(w: World, w': World)
    requires WellFormed(w) && Sound(w')
    requires w' == w.(script := w'.script, handles := w'.handles)
    ensures Result(w, w')
  {
    hide On, AllSent;
    forall c: nat ensures ConnOk(w', c) {
      assert ConnOk(w, c);
    }
  }

  lemma AskedOk(w: World)
    requires WellFormed(w)
    ensures Result(w, Asked(w))
  {
    hide WellFormed, Result;
    IsSound(w);
    SameConns(w, Asked(w));
  }

  lemma BoundOk(w: World, h: string, v: Handle)
    requires WellFormed(w) && (HasConn(v) ==> v.conn in w.issued)
    ensures Result(w, Bound(w, h, v)) && Result(w, Unbound(w, h))
  {
    hide WellFormed, Result;
    IsSound(w);
    SameConns(w, Bound(w, h, v));
    SameConns(w, Unbound(w, h));
  }

  lemma AcquireOk(w: World)
    requires WellFormed(w)
    ensures var (a, o) := Acquire(w);
            && WellFormed(a) && Extends(w, a) && a.issued == w.issued && a.returned == w.returned
            && (o.Ok? ==> w.next in a.open && !InTx(a, w.next) && w.next < a.next)
            && a.open.Keys == if o.Ok? then w.open.Keys + {w.next} else w.open.Keys
  {
    Fresh(w);
    hide On, AllSent;
    var a := Acquire(w).0;
    forall c: nat ensures ConnOk(a, c) {
      assert ConnOk(w, c);
    }
  }

  /** Releasing a connection outside a transaction that no handle has. */
  lemma ReleaseOk(w: World, c: nat)
    requires WellFormed(w) && !InTx(w, c) && c !in w.issued
    ensures var r := Release(w, c);
            && WellFormed(r) && r == w.(open := r.open) && r.open.Keys == w.open.Keys - {c}
            && forall d: nat | d != c :: (d in r.open <==> d in w.open) && (InTx(r, d) <==> InTx(w, d))
  {
    hide On, AllSent;
    var r := Release(w, c);
    forall d: nat ensures ConnOk(r, d) {
      assert ConnOk(w, d);
    }
  }

  /** A connection acquired after w and given back outside a transaction leaves no trace in the pool. */
  /** A connection released inside its transaction is counted. */
  lemma BadReleaseCounted(w: World, c: nat)
    ensures Release(w, c).badReleases == w.badReleases + if InTx(w, c) then 1 else 0
  {
  }

  lemma BracketOk(w: World, w1: World)
    requires WellFormed(w) && WellFormed(w1) && Extends(w, w1) && !InTx(w1, w.next) && w.next !in w1.issued
    requires Others(w1) == Others(w) + {w.next}
    ensures Result(w, Release(w1, w.next))
  {
    hide On, ConnOk;
    Fresh(w);
    ReleaseOk(w1, w.next);
  }

  /** A handle gives its connection back, if it has not done so before. */
  lemma GiveBackOk(w: World, c: nat)
    requires WellFormed(w) && c in w.issued
    ensures Result(w, GiveBack(w, c))
  {
    hide On, AllSent;
    var w' := GiveBack(w, c);
    forall d: nat ensures ConnOk(w', d) {
      assert ConnOk(w, d);
    }
    assert Others(w') == Others(w);
  }

  // ------------------------------------------------------------------
  // Statements

  lemma OnAppend(s: seq<Sent>, c: nat, write: Write)
    ensures forall d: nat :: On(d, s + [Sent(c, write)]) == if d == c then On(d, s) + [Sent(c, write)] else On(d, s)
  {
    forall d: nat
      ensures On(d, s + [Sent(c, write)]) == if d == c then On(d, s) + [Sent(c, write)] else On(d, s)
    {
      assert (s + [Sent(c, write)])[..|s|] == s;
    }
  }

  lemma TxExecOk(w: World, c: nat, write: Write)
    requires WellFormed(w) && InTx(w, c)
    ensures Result(w, TxExec(w, c, write).0)
  {
    hide On, AllSent;
    AskedOk(w);
    if TakesEffect(NextReply(w)) {
      OnAppend(w.sent, c, write);
      MoreSent(c, w.open[c].value, write);
      assert ConnOk(w, c);
      TxSent(w, TxExec(w, c, write).0, c, write);
    }
  }

  lemma MoreSent(c: nat, ws: seq<Write>, write: Write)
    ensures AllSent(c, ws + [write]) == AllSent(c, ws) + [Sent(c, write)]
  {
  }

  lemma TxSent(w: World, w': World, c: nat, write: Write)
    requires WellFormed(w) && InTx(w, c) && w' == TxExec(w, c, write).0 && TakesEffect(NextReply(w))
    requires forall d: nat :: On(d, w'.sent) == if d == c then On(d, w.sent) + [Sent(c, write)] else On(d, w.sent)
    requires TxPrivate(w', c)
    ensures Result(w, w')
  {
    hide On, AllSent;
    forall d: nat ensures ConnOk(w', d) {
      assert ConnOk(w, d);
    }
    forall s | s in w'.sent ensures s.conn < w'.next {
      assert s in w.sent || s == Sent(c, write);
    }
    assert w'.open.Keys == w.open.Keys;
  }

  /** A statement on a plain connection on which everything so far is visible. */
  lemma ConnExecOk(w: World, c: nat, write: Write)
    requires WellFormed(w) && c in w.open && !InTx(w, c) && On(c, w.visible) == On(c, w.sent)
    ensures var w' := ConnExec(w, c, write).0;
            && WellFormed(w') && w' == w.(sent := w'.sent, visible := w'.visible, script := w'.script)
            && w.sent <= w'.sent && w.visible <= w'.visible
            && forall d: nat | d != c :: On(d, w'.sent) == On(d, w.sent) && On(d, w'.visible) == On(d, w.visible)
  {
    hide On, AllSent;
    var w' := ConnExec(w, c, write).0;
    AskedOk(w);
    if TakesEffect(NextReply(w)) {
      OnAppend(w.sent, c, write);
      OnAppend(w.visible, c, write);
      forall d: nat ensures ConnOk(w', d) {
        assert ConnOk(w, d);
      }
    }
  }

  lemma FacadeOk(w: World, write: Write)
    requires WellFormed(w)
    ensures Result(w, Facade(w, write).0)
  {
    hide WellFormed, Acquire, Release, On, ConnExec;
    Fresh(w);
    AcquireOk(w);
    var (acquired, o) := Acquire(w);
    if o.Ok? {
      StillNothing(w);
      ConnExecOk(acquired, w.next, write);
      var w1 := ConnExec(acquired, w.next, write).0;
      AfterStatement(w, acquired, w1);
      BracketOk(w, w1);
    }
  }

  /** Nothing was sent on a connection just acquired. */
  lemma StillNothing(w: World)
    requires WellFormed(w) && Acquire(w).1.Ok?
    ensures On(w.next, Acquire(w).0.sent) == [] && On(w.next, Acquire(w).0.visible) == []
  {
    hide On;
    Fresh(w);
  }

  lemma AfterStatement(w: World, a: World, w1: World)
    requires WellFormed(w) && Acquire(w) == (a, Ok) && w1 == a.(sent := w1.sent, visible := w1.visible, script := w1.script)
    requires a.sent <= w1.sent && a.visible <= w1.visible
    requires forall d: nat | d != w.next :: On(d, w1.sent) == On(d, a.sent) && On(d, w1.visible) == On(d, a.visible)
    ensures Extends(w, w1) && Others(w1) == Others(w) + {w.next} && !InTx(w1, w.next) && w.next !in w1.issued
  {
    hide On, ConnOk;
    Fresh(w);
    AcquireOk(w);
  }

  // ------------------------------------------------------------------
  // Handles

  lemma NotQueriedOk(w: World)
    requires WellFormed(w) && Acquire(w).1.Ok?
    ensures Result(w, Release(Asked(Acquire(w).0), w.next))
  {
    hide On, ConnOk;
    AcquireOk(w);
    Fresh(w);
    AskedOk(Acquire(w).0);
    BracketOk(w, Asked(Acquire(w).0));
  }

  /** A connection goes to a handle. */
  lemma IssuedOk(w: World, a: World, h: string, v: Handle)
    requires WellFormed(w) && WellFormed(a) && Extends(w, a) && HasConn(v) && v.conn == w.next
    requires w.next in a.open && !InTx(a, w.next) && w.next < a.next && a.issued == w.issued && a.returned == w.returned
    requires a.open.Keys == w.open.Keys + {w.next}
    ensures Result(w, Issued(a, h, v))
  {
    hide On, AllSent;
    Fresh(w);
    var w' := Issued(a, h, v);
    forall c: nat ensures ConnOk(w', c) {
      assert ConnOk(a, c);
    }
    assert Others(w') == Others(w);
  }

  lemma QueryOk(w: World, env: Env, up: nat, h: string)
    requires WellFormed(w)
    ensures Result(w, DoQuery(w, env, up, h).0)
  {
    hide WellFormed, Extends, Result, Acquire, Release, Asked;
    if FromCtx(env, up).Some? {
      AskedOk(w);
      ResultIsWellFormed(w, Asked(w));
      BoundOk(Asked(w), h, TxRows);
      ResultTransitive(w, Asked(w), DoQuery(w, env, up, h).0);
    } else {
      PooledQueryOk(w, h);
    }
  }

  lemma ResultIsWellFormed(w: World, w': World)
    requires Result(w, w')
    ensures WellFormed(w') && Extends(w, w')
  {
  }

  lemma PooledQueryOk(w: World, h: string)
    requires WellFormed(w)
    ensures Result(w, DoQuery(w, [], 0, h).0)
  {
    hide WellFormed, Extends, Result, Release;
    AcquireOk(w);
    var (acquired, o) := Acquire(w);
    if !o.Ok? {
      NotAcquiredOk(w);
      BoundOk(acquired, h, TxRows);
      ResultTransitive(w, acquired, Unbound(acquired, h));
    } else if Told(NextReply(acquired)).Ok? {
      AskedIssuedOk(w, h);
    } else {
      NotQueriedOk(w);
      var released := Release(Asked(acquired), w.next);
      ResultIsWellFormed(w, released);
      BoundOk(released, h, TxRows);
      ResultTransitive(w, released, Unbound(released, h));
    }
  }

  lemma NotAcquiredOk(w: World)
    requires WellFormed(w) && !Acquire(w).1.Ok?
    ensures Result(w, Acquire(w).0)
  {
    AskedOk(w);
  }

  lemma AskedIssuedOk(w: World, h: string)
    requires WellFormed(w) && Acquire(w).1.Ok?
    ensures Result(w, Issued(Asked(Acquire(w).0), h, PoolRows(w.next)))
  {
    hide WellFormed, Extends, Acquire;
    AcquireOk(w);
    var acquired := Acquire(w).0;
    AskedOk(acquired);
    ExtendsTransitive(w, acquired, Asked(acquired));
    IssuedOk(w, Asked(acquired), h, PoolRows(w.next));
  }

  lemma QueryRowOk(w: World, env: Env, up: nat, h: string)
    requires WellFormed(w)
    ensures Result(w, DoQueryRow(w, env, up, h).0)
  {
    hide WellFormed, Extends, Result, Acquire, Release;
    if FromCtx(env, up).Some? {
      BoundOk(w, h, TxRow);
    } else {
      AcquireOk(w);
      var (acquired, o) := Acquire(w);
      if o.Ok? {
        IssuedOk(w, acquired, h, PoolRow(w.next));
      } else {
        NotAcquiredOk(w);
        BoundOk(acquired, h, ErrRow);
        ResultTransitive(w, acquired, Bound(acquired, h, ErrRow));
      }
    }
  }

  lemma HandleIssued(w: World, h: string)
    requires WellFormed(w) && h in w.handles && HasConn(w.handles[h])
    ensures w.handles[h].conn in w.issued
  {
  }

  lemma CloseOk(w: World, h: string)
    requires WellFormed(w)
    ensures Result(w, DoClose(w, h).0)
  {
    hide WellFormed, Result, GiveBack;
    ResultSelf(w);
    if h in w.handles && w.handles[h].PoolRows? {
      HandleIssued(w, h);
      GiveBackOk(w, w.handles[h].conn);
    }
  }

  lemma ScanOk(w: World, h: string)
    requires WellFormed(w)
    ensures Result(w, DoScan(w, h).0)
  {
    hide WellFormed, Result, GiveBack;
    ResultSelf(w);
    AskedOk(w);
    if h in w.handles && w.handles[h].PoolRow? {
      HandleIssued(w, h);
      ResultIsWellFormed(w, Asked(w));
      GiveBackOk(Asked(w), w.handles[h].conn);
      ResultTransitive(w, Asked(w), GiveBack(Asked(w), w.handles[h].conn));
    }
  }

  // ------------------------------------------------------------------
  // Transactions

  lemma BeginOk(w: World, c: nat)
    requires WellFormed(w) && c in w.open && !InTx(w, c) && On(c, w.sent) == [] && On(c, w.visible) == [] && c !in w.issued
    ensures var (w', o) := Begin(w, c);
            && WellFormed(w') && w'.open.Keys == w.open.Keys && (InTx(w', c) <==> o.Ok?)
            && w' == w.(open := w'.open, script := w'.script)
            && forall d | d != c && d in w.open :: w'.open[d] == w.open[d]
  {
    hide On;
    var w' := Begin(w, c).0;
    assert AllSent(c, []) == [];
    forall d: nat ensures ConnOk(w', d) {
      assert ConnOk(w, d);
    }
  }

  lemma CommitOk(w: World, c: nat)
    requires WellFormed(w) && InTx(w, c)
    ensures var (w', o) := Commit(w, c);
            && WellFormed(w') && w'.open.Keys == w.open.Keys
            && w' == w.(open := w'.open, visible := w'.visible, script := w'.script) && w.visible <= w'.visible
            && (forall d: nat | d != c :: (InTx(w', d) <==> InTx(w, d)) && On(d, w'.visible) == On(d, w.visible))
            && (o.Ok? ==> !InTx(w', c) && On(c, w'.visible) == On(c, w'.sent))
  {
    hide On, AllSent;
    var w' := Commit(w, c).0;
    AskedOk(w);
    if TakesEffect(NextReply(w)) {
      OnAppendAll(w.visible, c, w.open[c].value);
      assert ConnOk(w, c);
      CommitSeen(w, w', c);
    }
  }

  lemma OnAppendAll(s: seq<Sent>, c: nat, ws: seq<Write>)
    ensures forall d: nat ::
              On(d, s + AllSent(c, ws)) == if d == c then On(d, s) + AllSent(c, ws) else On(d, s)
  {
    forall d: nat ensures On(d, s + AllSent(c, ws)) == if d == c then On(d, s) + AllSent(c, ws) else On(d, s) {
      OnConcat(d, s, AllSent(c, ws));
      OnAllSent(d, c, ws);
    }
  }

  lemma CommitSeen(w: World, w': World, c: nat)
    requires WellFormed(w) && InTx(w, c) && w' == Commit(w, c).0 && TakesEffect(NextReply(w))
    requires forall d: nat ::
               On(d, w'.visible) == if d == c then On(d, w.visible) + AllSent(c, w.open[c].value) else On(d, w.visible)
    ensures WellFormed(w')
  {
    hide On;
    forall d: nat ensures ConnOk(w', d) {
      assert ConnOk(w, d);
    }
    forall s | s in w'.visible ensures s.conn < w'.next {
      if s !in w.visible {
        assert s.conn == c;
      }
    }
  }

  /** Rolling back ends the transaction and shows nothing of it. */
  lemma RollbackOk(w: World, c: nat)
    requires WellFormed(w) && c in w.open
    ensures var w' := Rollback(w, c);
            && WellFormed(w') && !InTx(w', c) && w'.open.Keys == w.open.Keys && w' == w.(open := w'.open)
            && forall d: nat | d != c :: InTx(w', d) <==> InTx(w, d)
  {
    hide On, AllSent;
    var w' := Rollback(w, c);
    assert ConnOk(w, c);
    forall d: nat ensures ConnOk(w', d) {
      assert ConnOk(w, d);
    }
  }

  lemma TxNotIssued(w: World, c: nat)
    requires WellFormed(w) && InTx(w, c)
    ensures c !in w.issued && c < w.next
  {
  }

  lemma EndingOk(w: World, c: nat, o: Outcome)
    requires WellFormed(w) && InTx(w, c)
    ensures var (w', o') := Ending(w, c, o);
            && WellFormed(w') && w'.open.Keys == w.open.Keys - {c} && w'.badReleases == w.badReleases
            && w'.next == w.next && w'.sent == w.sent && w.visible <= w'.visible
            && w'.issued == w.issued && w'.returned == w.returned
            && (forall d: nat | d != c :: (InTx(w', d) <==> InTx(w, d)) && On(d, w'.visible) == On(d, w.visible))
            && (o'.Ok? ==> On(c, w'.visible) == On(c, w'.sent))
            && (!o.Ok? ==> o' == o && On(c, w'.visible) == [])
  {
    hide On, WellFormed, Commit, Rollback, Release;
    PrivateBefore(w, c);
    TxNotIssued(w, c);
    if o.Ok? {
      CommitOk(w, c);
    }
    var w2 := CommitIfOk(w, c, o).0;
    RollbackOk(w2, c);
    ReleaseOk(Rollback(w2, c), c);
  }

  lemma PrivateBefore(w: World, c: nat)
    requires WellFormed(w) && InTx(w, c)
    ensures TxPrivate(w, c)
  {
    assert ConnOk(w, c);
  }

  // ------------------------------------------------------------------
  // Programs

  lemma EnvStays(env: Env, w: World, w': World)
    requires EnvOk(env, w) && WellFormed(w) && Extends(w, w')
    ensures EnvOk(env, w')
  {
    hide On, ConnOk;
    forall i | 0 <= i < |env| ensures InTx(w', env[i]) {
      TxNotIssued(w, env[i]);
      assert InTx(w, env[i]);
    }
  }

  predicate Began(w: World) {
    Acquire(w).1.Ok? && Begin(Acquire(w).0, w.next).1.Ok?
  }

  function BegunWorld(w: World): World
    requires Began(w)
  {
    Begin(Acquire(w).0, w.next).0
  }

  /** The begun transaction of a WithinTx in a program. */
  lemma BegunOk(env: Env, w: World)
    requires EnvOk(env, w) && WellFormed(w) && Began(w)
    ensures var begun := BegunWorld(w);
            && WellFormed(begun) && Extends(w, begun) && InTx(begun, w.next) && EnvOk([w.next] + env, begun)
            && Others(begun) == Others(w) + {w.next} && w.next < begun.next
  {
    hide On, ConnOk;
    Fresh(w);
    AcquireOk(w);
    StillNothing(w);
    var acquired := Acquire(w).0;
    BeginOk(acquired, w.next);
    var begun := BegunWorld(w);
    forall i | 0 <= i < |[w.next] + env| ensures InTx(begun, ([w.next] + env)[i]) {
      if i > 0 {
        assert InTx(w, env[i - 1]);
      }
    }
  }

  lemma NotBegunOk(w: World)
    requires WellFormed(w) && Acquire(w).1.Ok? && !Begin(Acquire(w).0, w.next).1.Ok?
    ensures Result(w, Release(Begin(Acquire(w).0, w.next).0, w.next))
  {
    hide On, ConnOk;
    AcquireOk(w);
    Fresh(w);
    StillNothing(w);
    var acquired := Acquire(w).0;
    BeginOk(acquired, w.next);
    BracketOk(w, Begin(acquired, w.next).0);
  }

  lemma EndedOk(w: World, begun: World, w1: World, o: Outcome)
    requires WellFormed(w) && WellFormed(begun) && Extends(w, begun) && InTx(begun, w.next) && w.next < begun.next
    requires Others(begun) == Others(w) + {w.next} && Result(begun, w1)
    ensures InTx(w1, w.next) && Result(w, Ending(w1, w.next, o).0)
  {
    hide On, Ending, ConnOk;
    Fresh(w);
    ExtendsTransitive(w, begun, w1);
    TxNotIssued(begun, w.next);
    EndingOk(w1, w.next, o);
    TxNotIssued(w1, w.next);
  }

  lemma WithinTxOk(body: Prog, env: Env, w: World)
    requires EnvOk(env, w) && WellFormed(w)
    ensures Result(w, RunWithinTx(body, env, w).0)
    decreases body, 1
  {
    hide WellFormed, Extends, Acquire, Begin, On, Ending, Release, InTx, Result;
    AcquireOk(w);
    IsSound(w);
    var (acquired, o) := Acquire(w);
    if !o.Ok? {
      NotAcquiredOk(w);
    } else {
      var (begun, b) := Begin(acquired, w.next);
      if b.Ok? {
        BegunOk(env, w);
        IsSound(begun);
        RunOk(body, [w.next] + env, begun);
        var (w1, o1) := Run(body, [w.next] + env, begun);
        EndedOk(w, begun, w1, o1);
      } else {
        NotBegunOk(w);
      }
    }
  }

  /**
   After any program, whatever fails: the connections in use are those from before but for what handles
   got and gave back, no transaction of the caller has ended, and none was released inside its own.
   */
  lemma {:induction false} RunOk(p: Prog, env: Env, w: World)
    requires EnvOk(env, w) && WellFormed(w)
    ensures Result(w, Run(p, env, w).0)
    decreases p, 0
  {
    hide WellFormed, Extends, Result, DoQuery, DoQueryRow, DoClose, DoScan, Facade, TxExec;
    IsSound(w);
    match p
    case Exec(up, write) =>
      if up < |env| { TxExecOk(w, env[up], write); } else { FacadeOk(w, write); }
    case Query(up, h) => QueryOk(w, env, up, h);
    case QueryRow(up, h) => QueryRowOk(w, env, up, h);
    case Close(h) => CloseOk(w, h);
    case Scan(h) => ScanOk(w, h);
    case Fail => ResultSelf(w);
    case Panic => ResultSelf(w);
    case Skip => ResultSelf(w);
    case Then(first, second) =>
      RunOk(first, env, w);
      var (w1, o1) := Run(first, env, w);
      if o1.Ok? {
        NextOk(second, env, w, w1);
      }
    case Ignore(body) => RunOk(body, env, w);
    case Recover(body) => RunOk(body, env, w);
    case Defer(body, cleanup) =>
      RunOk(body, env, w);
      NextOk(cleanup, env, w, Run(body, env, w).0);
    case WithinTx(body) => WithinTxOk(body, env, w);
  }

  /** One program after another. */
  lemma NextOk(p: Prog, env: Env, w: World, w1: World)
    requires EnvOk(env, w) && WellFormed(w) && Result(w, w1)
    ensures EnvOk(env, w1) && Sound(w1) && Result(w, Run(p, env, w1).0)
    decreases p, 1
  {
    hide WellFormed, Extends, Result, Run;
    ResultIsWellFormed(w, w1);
    EnvStays(env, w, w1);
    IsSound(w1);
    RunOk(p, env, w1);
    ResultTransitive(w, w1, Run(p, env, w1).0);
  }

  lemma RunsWithinTx(body: Prog, env: Env, w: World)
    requires EnvOk(env, w) && Sound(w)
    ensures Run(WithinTx(body), env, w) == RunWithinTx(body, env, w)
  {
    hide RunWithinTx;
  }

  lemma WithinTxIs(body: Prog, env: Env, w: World)
    requires EnvOk(env, w) && Sound(w) && Began(w) && EnvOk([w.next] + env, BegunWorld(w)) && Sound(BegunWorld(w))
    requires InTx(Run(body, [w.next] + env, BegunWorld(w)).0, w.next)
    ensures var (w1, o1) := Run(body, [w.next] + env, BegunWorld(w));
            RunWithinTx(body, env, w) == Ending(w1, w.next, o1)
  {
    hide Run, Ending;
  }
}
