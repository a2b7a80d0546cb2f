/** Connections come back, and each transaction is visible as a whole or not at all. */
module TransactionFacts {
  import opened Common
  import opened Transactions
  import opened TransactionSteps

  // ------------------------------------------------------------------
  // Connections come back

  /**
   After any program, the connections in use are those from before that no handle had, and those that
   handles have got and not yet given back; so they are the same as before if and only if the same are
   with handles. None was released inside its transaction.
   */
  lemma ConnectionsExactly(p: Prog, env: Env, w: World)
    requires EnvOk(env, w) && WellFormed(w)
    ensures var w' := Run(p, env, w).0;
            && w'.open.Keys == (w.open.Keys - Held(w)) + Held(w') && (w.open.Keys - Held(w)) !! Held(w')
            && (w'.open.Keys == w.open.Keys <==> Held(w') == Held(w))
            && w'.badReleases == w.badReleases
  {
    hide On, ConnOk;
    IsSound(w);
    RunOk(p, env, w);
  }

  lemma StartOk(script: seq<Reply>)
    ensures WellFormed(Start(script))
  {
    forall c: nat ensures ConnOk(Start(script), c) {
      assert On(c, []) == [];
    }
  }

  /**
   A whole program, whatever fails in it: exactly the connections that handles have got and not given
   back stay in use, none was released inside its transaction, and of every connection all that was
   sent is visible or nothing.
   */
  lemma WholePrograms(p: Prog, script: seq<Reply>)
    ensures var w := Run(p, [], Start(script)).0;
            && w.open.Keys == Held(w) && (w.open == map[] <==> w.issued == w.returned)
            && |w.open.Keys| == |w.issued| - |w.returned|
            && w.badReleases == 0 && forall c: nat :: AllOrNothing(w, c)
  {
    hide On, Run;
    StartOk(script);
    RunOk(p, [], Start(script));
    var w := Run(p, [], Start(script)).0;
    assert Others(w) == {};
    forall c: nat ensures AllOrNothing(w, c) {
      assert ConnOk(w, c);
    }
    assert w.issued == w.returned + Held(w);
  }

  /** A connection with a handle stays in use exactly until the handle gives it back, whatever else runs. */
  lemma HandleKeepsConnection(c: nat, later: Prog, env: Env, w: World)
    requires EnvOk(env, w) && WellFormed(w) && c in Held(w)
    ensures var w' := Run(later, env, w).0; c in w'.open <==> c !in w'.returned
  {
    hide On, ConnOk, Run;
    RunOk(later, env, w);
  }

  // ------------------------------------------------------------------
  // Forgotten handles

  /** The program closes or scans the variable somewhere. */
  predicate Releases(p: Prog, h: string) {
    match p
    case Close(k) => k == h
    case Scan(k) => k == h
    case Then(first, second) => Releases(first, h) || Releases(second, h)
    case Ignore(body) => Releases(body, h)
    case Recover(body) => Releases(body, h)
    case Defer(body, cleanup) => Releases(body, h) || Releases(cleanup, h)
    case WithinTx(body) => Releases(body, h)
    case _ => false
  }

  /** The connection is in use by a handle, and no variable but h has it. */
  ghost predicate OnlyBy(w: World, h: string, c: nat) {
    c in Held(w) && forall k | k in w.handles && HasConn(w.handles[k]) && w.handles[k].conn == c :: k == h
  }

  lemma {:induction false} StaysHeld(p: Prog, h: string, c: nat, env: Env, w: World)
    requires EnvOk(env, w) && WellFormed(w) && OnlyBy(w, h, c) && !Releases(p, h)
    ensures OnlyBy(Run(p, env, w).0, h, c)
    decreases p
  {
    hide WellFormed, Result, Extends, DoQuery, DoQueryRow, TxExec, Facade;
    IsSound(w);
    match p
    case Exec(up, write) => ExecHandles(w, env, up, write);
    case Query(up, k) => QueryStaysHeld(w, env, up, k, h, c);
    case QueryRow(up, k) => QueryStaysHeld(w, env, up, k, h, c);
    case Close(k) => OtherConn(w, k, h, c);
    case Scan(k) => OtherConn(w, k, h, c);
    case Fail =>
    case Panic =>
    case Skip =>
    case Then(first, second) =>
      StaysHeld(first, h, c, env, w);
      var (w1, o1) := Run(first, env, w);
      if o1.Ok? {
        RunOk(first, env, w);
        ResultIsWellFormed(w, w1);
        EnvStays(env, w, w1);
        StaysHeld(second, h, c, env, w1);
      }
    case Ignore(body) => StaysHeld(body, h, c, env, w);
    case Recover(body) => StaysHeld(body, h, c, env, w);
    case Defer(body, cleanup) =>
      StaysHeld(body, h, c, env, w);
      RunOk(body, env, w);
      var w1 := Run(body, env, w).0;
      ResultIsWellFormed(w, w1);
      EnvStays(env, w, w1);
      StaysHeld(cleanup, h, c, env, w1);
    case WithinTx(body) =>
      if Began(w) {
        BegunOk(env, w);
        SameHandles(w);
        IsSound(BegunWorld(w));
        StaysHeld(body, h, c, [w.next] + env, BegunWorld(w));
      }
  }

  lemma SameHandles(w: World)
    requires Began(w)
    ensures BegunWorld(w).handles == w.handles && Held(BegunWorld(w)) == Held(w)
  {
  }

  lemma OtherConn(w: World, k: string, h: string, c: nat)
    requires OnlyBy(w, h, c) && k != h
    ensures k in w.handles && HasConn(w.handles[k]) ==> w.handles[k].conn != c
  {
  }

  ghost predicate SameHandle(w: World, w': World, h: string) {
    (h in w'.handles <==> h in w.handles) && (h in w.handles ==> w'.handles[h] == w.handles[h])
  }

  /** Only variable k changes, and a connection it may get is new. */
  ghost predicate OnlyChanges(w: World, w': World, k: string) {
    && (forall j | j != k :: SameHandle(w, w', j))
    && (k in w'.handles && HasConn(w'.handles[k]) ==> w'.handles[k].conn == w.next)
    && w.issued <= w'.issued && w'.returned == w.returned
  }

  lemma QueryChanges(w: World, env: Env, up: nat, k: string)
    ensures OnlyChanges(w, DoQuery(w, env, up, k).0, k)
  {
  }

  lemma QueryRowChanges(w: World, env: Env, up: nat, k: string)
    ensures OnlyChanges(w, DoQueryRow(w, env, up, k).0, k)
  {
  }

  lemma HeldIsOld(w: World, c: nat)
    requires WellFormed(w) && c in Held(w)
    ensures c < w.next
  {
  }

  lemma ChangeKeeps(w: World, w': World, k: string, h: string, c: nat)
    requires OnlyBy(w, h, c) && OnlyChanges(w, w', k) && c < w.next
    ensures OnlyBy(w', h, c)
  {
    forall j | j in w'.handles && HasConn(w'.handles[j]) && w'.handles[j].conn == c ensures j == h {
      assert j != k && SameHandle(w, w', j);
    }
  }

  lemma QueryStaysHeld(w: World, env: Env, up: nat, k: string, h: string, c: nat)
    requires WellFormed(w) && OnlyBy(w, h, c)
    ensures OnlyBy(DoQuery(w, env, up, k).0, h, c) && OnlyBy(DoQueryRow(w, env, up, k).0, h, c)
  {
    hide WellFormed, OnlyBy, OnlyChanges, DoQuery, DoQueryRow;
    HeldBy(w, h, c);
    HeldIsOld(w, c);
    QueryChanges(w, env, up, k);
    QueryRowChanges(w, env, up, k);
    ChangeKeeps(w, DoQuery(w, env, up, k).0, k, h, c);
    ChangeKeeps(w, DoQueryRow(w, env, up, k).0, k, h, c);
  }

  lemma HeldBy(w: World, h: string, c: nat)
    requires OnlyBy(w, h, c)
    ensures c in Held(w)
  {
  }

  /** Rows that are never closed and rows never scanned keep their connection, whatever runs afterwards. */
  lemma ForgottenHandleLeaks(later: Prog, h: string, env: Env, w: World)
    requires EnvOk(env, w) && WellFormed(w) && h in w.handles && HasConn(w.handles[h])
    requires OnlyBy(w, h, w.handles[h].conn) && !Releases(later, h)
    ensures w.handles[h].conn in Run(later, env, w).0.open
  {
    hide On, ConnOk, Run;
    IsSound(w);
    StaysHeld(later, h, w.handles[h].conn, env, w);
    HandleKeepsConnection(w.handles[h].conn, later, env, w);
  }

  // ------------------------------------------------------------------
  // Programs that give every connection back

  predicate Mentions(p: Prog, h: string) {
    match p
    case Query(_, k) => k == h
    case QueryRow(_, k) => k == h
    case Close(k) => k == h
    case Scan(k) => k == h
    case Then(first, second) => Mentions(first, h) || Mentions(second, h)
    case Ignore(body) => Mentions(body, h)
    case Recover(body) => Mentions(body, h)
    case Defer(body, cleanup) => Mentions(body, h) || Mentions(cleanup, h)
    case WithinTx(body) => Mentions(body, h)
    case _ => false
  }

  /** Rows closed by a deferred call, whatever happens while they are read. */
  predicate IsWithRows(p: Prog) {
    p.Then? && p.first.Query? && p.second.Defer? && p.second.cleanup == Close(p.first.h) && !Mentions(p.second.body, p.first.h)
  }

  predicate IsWithRow(p: Prog) {
    p.Then? && p.first.QueryRow? && p.second == Scan(p.first.h)
  }

  /** Rows are closed by a deferred call right after the query, and rows are scanned right after theirs. */
  predicate Disciplined(p: Prog) {
    if IsWithRows(p) then Disciplined(p.second.body)
    else if IsWithRow(p) then true
    else
      match p
      case Query(_, _) => false
      case QueryRow(_, _) => false
      case Close(_) => false
      case Scan(_) => false
      case Then(first, second) => Disciplined(first) && Disciplined(second)
      case Ignore(body) => Disciplined(body)
      case Recover(body) => Disciplined(body)
      case Defer(body, cleanup) => Disciplined(body) && Disciplined(cleanup)
      case WithinTx(body) => Disciplined(body)
      case _ => true
  }

  lemma ExecHandles(w: World, env: Env, up: nat, write: Write)
    requires EnvOk(env, w)
    ensures up < |env| ==> TxExec(w, env[up], write).0 == w.(open := TxExec(w, env[up], write).0.open,
                             sent := TxExec(w, env[up], write).0.sent, script := TxExec(w, env[up], write).0.script)
    ensures var w' := Facade(w, write).0;
            w'.handles == w.handles && w'.issued == w.issued && w'.returned == w.returned
  {
  }

  lemma CloseHandles(w: World, h: string)
    ensures DoClose(w, h).0.handles == w.handles && DoScan(w, h).0.handles == w.handles
  {
  }

  lemma {:induction false} UnmentionedStays(p: Prog, h: string, env: Env, w: World)
    requires EnvOk(env, w) && WellFormed(w) && !Mentions(p, h)
    ensures SameHandle(w, Run(p, env, w).0, h)
    decreases p
  {
    hide WellFormed, Result, Extends, DoQuery, DoQueryRow, DoClose, DoScan, TxExec, Facade;
    IsSound(w);
    match p
    case Exec(up, write) => ExecHandles(w, env, up, write);
    case Query(up, k) => QueryChanges(w, env, up, k);
    case QueryRow(up, k) => QueryRowChanges(w, env, up, k);
    case Close(k) => CloseHandles(w, k);
    case Scan(k) => CloseHandles(w, k);
    case Fail =>
    case Panic =>
    case Skip =>
    case Then(first, second) =>
      UnmentionedStays(first, h, env, w);
      var (w1, o1) := Run(first, env, w);
      if o1.Ok? {
        RunOk(first, env, w);
        ResultIsWellFormed(w, w1);
        EnvStays(env, w, w1);
        UnmentionedStays(second, h, env, w1);
      }
    case Ignore(body) => UnmentionedStays(body, h, env, w);
    case Recover(body) => UnmentionedStays(body, h, env, w);
    case Defer(body, cleanup) =>
      UnmentionedStays(body, h, env, w);
      RunOk(body, env, w);
      var w1 := Run(body, env, w).0;
      ResultIsWellFormed(w, w1);
      EnvStays(env, w, w1);
      UnmentionedStays(cleanup, h, env, w1);
    case WithinTx(body) =>
      if Began(w) {
        BegunOk(env, w);
        SameHandles(w);
        IsSound(BegunWorld(w));
        UnmentionedStays(body, h, [w.next] + env, BegunWorld(w));
      }
  }

  lemma QueryHolds(w: World, env: Env, up: nat, h: string)
    requires WellFormed(w)
    ensures var (w1, o) := DoQuery(w, env, up, h);
            && (!o.Ok? ==> Held(w1) == Held(w))
            && (o.Ok? ==> h in w1.handles)
            && (o.Ok? && FromCtx(env, up).Some? ==> w1.handles[h] == TxRows && Held(w1) == Held(w))
            && (o.Ok? && FromCtx(env, up).None? ==>
                  w1.handles[h] == PoolRows(w.next) && Held(w1) == Held(w) + {w.next} && w.next !in Held(w))
  {
    hide WellFormed;
    NeverReturned(w);
  }

  lemma NeverReturned(w: World)
    requires WellFormed(w)
    ensures w.next !in w.issued && w.next !in w.returned
  {
  }

  lemma RowHolds(w: World, env: Env, up: nat, h: string)
    requires WellFormed(w)
    ensures var w1 := DoQueryRow(w, env, up, h).0; Held(DoScan(w1, h).0) == Held(w)
  {
    hide WellFormed;
    NeverReturned(w);
  }

  lemma CloseHolds(w: World, h: string)
    requires h in w.handles
    ensures w.handles[h].PoolRows? ==> Held(DoClose(w, h).0) == Held(w) - {w.handles[h].conn}
    ensures !w.handles[h].PoolRows? ==> Held(DoClose(w, h).0) == Held(w)
  {
  }

  lemma WithRowsBalanced(p: Prog, env: Env, w: World)
    requires EnvOk(env, w) && WellFormed(w) && IsWithRows(p) && Disciplined(p.second.body)
    ensures Held(Run(p, env, w).0) == Held(w)
    decreases p, 0
  {
    hide WellFormed, Result, Extends, DoQuery, DoClose;
    var up, h, body := p.first.up, p.first.h, p.second.body;
    IsSound(w);
    QueryHolds(w, env, up, h);
    QueryOk(w, env, up, h);
    var (w1, o) := DoQuery(w, env, up, h);
    RunsQuery(up, h, env, w);
    ResultIsWellFormed(w, w1);
    EnvStays(env, w, w1);
    IsSound(w1);
    if o.Ok? {
      Balanced(body, env, w1);
      UnmentionedStays(body, h, env, w1);
      RunOk(body, env, w1);
      var w2 := Run(body, env, w1).0;
      CloseHolds(w2, h);
      RunsDeferredClose(body, h, env, w1);
    }
    RunsThen(p, env, w);
  }

  lemma RunsQuery(up: nat, h: string, env: Env, w: World)
    requires EnvOk(env, w) && Sound(w)
    ensures Run(Query(up, h), env, w) == DoQuery(w, env, up, h)
  {
  }

  lemma RunsThen(p: Prog, env: Env, w: World)
    requires EnvOk(env, w) && Sound(w) && p.Then?
    ensures var (w1, o1) := Run(p.first, env, w);
            EnvOk(env, w1) && Run(p, env, w) == if o1.Ok? then Run(p.second, env, w1) else (w1, o1)
  {
  }

  lemma RunsDeferredClose(body: Prog, h: string, env: Env, w: World)
    requires EnvOk(env, w) && Sound(w)
    ensures Run(Defer(body, Close(h)), env, w).0 == DoClose(Run(body, env, w).0, h).0
  {
  }

  lemma WithRowBalanced(p: Prog, env: Env, w: World)
    requires EnvOk(env, w) && WellFormed(w) && IsWithRow(p)
    ensures Held(Run(p, env, w).0) == Held(w)
  {
    hide WellFormed, DoQueryRow, DoScan, Result;
    IsSound(w);
    RowHolds(w, env, p.first.up, p.first.h);
    RowWorks(w, env, p.first.up, p.first.h);
    RunsThen(p, env, w);
  }

  lemma RowWorks(w: World, env: Env, up: nat, h: string)
    requires EnvOk(env, w) && Sound(w)
    ensures DoQueryRow(w, env, up, h).1.Ok? && Run(QueryRow(up, h), env, w) == DoQueryRow(w, env, up, h)
    ensures EnvOk(env, DoQueryRow(w, env, up, h).0)
    ensures Run(Scan(h), env, DoQueryRow(w, env, up, h).0) == DoScan(DoQueryRow(w, env, up, h).0, h)
  {
    assert Run(QueryRow(up, h), env, w) == DoQueryRow(w, env, up, h);
  }

  /** Disciplined programs give every connection back that their handles get. */
  lemma {:induction false} Balanced(p: Prog, env: Env, w: World)
    requires EnvOk(env, w) && WellFormed(w) && Disciplined(p)
    ensures Held(Run(p, env, w).0) == Held(w)
    decreases p, 1
  {
    hide WellFormed, Result, Extends, TxExec, Facade;
    IsSound(w);
    if IsWithRows(p) {
      WithRowsBalanced(p, env, w);
    } else if IsWithRow(p) {
      WithRowBalanced(p, env, w);
    } else {
      match p
      case Exec(up, write) => ExecHandles(w, env, up, write);
      case Fail =>
      case Panic =>
      case Skip =>
      case Then(first, second) =>
        Balanced(first, env, w);
        var (w1, o1) := Run(first, env, w);
        if o1.Ok? {
          RunOk(first, env, w);
          ResultIsWellFormed(w, w1);
          EnvStays(env, w, w1);
          Balanced(second, env, w1);
        }
      case Ignore(body) => Balanced(body, env, w);
      case Recover(body) => Balanced(body, env, w);
      case Defer(body, cleanup) =>
        Balanced(body, env, w);
        RunOk(body, env, w);
        var w1 := Run(body, env, w).0;
        ResultIsWellFormed(w, w1);
        EnvStays(env, w, w1);
        Balanced(cleanup, env, w1);
      case WithinTx(body) =>
        if Began(w) {
          BegunOk(env, w);
          SameHandles(w);
          IsSound(BegunWorld(w));
          Balanced(body, [w.next] + env, BegunWorld(w));
        }
    }
  }

  /** So after a disciplined program exactly the connections from before are in use. */
  lemma DisciplinedComesBack(p: Prog, env: Env, w: World)
    requires EnvOk(env, w) && WellFormed(w) && Disciplined(p)
    ensures Run(p, env, w).0.open.Keys == w.open.Keys
  {
    hide WellFormed, Run;
    IsSound(w);
    Balanced(p, env, w);
    ConnectionsExactly(p, env, w);
  }

  // ------------------------------------------------------------------
  // Atomicity

  /**
   A WithinTx that returns nil makes all of its own writes visible; one whose body fails or panics
   returns just that and makes none of them visible; one that never began sent nothing.
   */
  lemma WithinTxAtomic(body: Prog, env: Env, w: World)
    requires EnvOk(env, w) && WellFormed(w)
    ensures var (w', o) := Run(WithinTx(body), env, w);
            && (o.Ok? ==> Began(w) && On(w.next, w'.visible) == On(w.next, w'.sent))
            && (!Began(w) ==> o.Err? && w'.sent == w.sent && w'.visible == w.visible)
    ensures Began(w) ==>
              && EnvOk([w.next] + env, BegunWorld(w)) && Sound(BegunWorld(w))
              && var o1 := Run(body, [w.next] + env, BegunWorld(w)).1;
                 var (w', o) := Run(WithinTx(body), env, w);
                 !o1.Ok? ==> o == o1 && On(w.next, w'.visible) == []
  {
    hide On, WellFormed, Extends, Ending, InTx;
    if Began(w) {
      WithinTxSteps(body, env, w);
      var (w1, o1) := Run(body, [w.next] + env, BegunWorld(w));
      EndingOk(w1, w.next, o1);
    }
  }

  /** A WithinTx that begins runs its body in a transaction that is still open when the body is done. */
  lemma WithinTxSteps(body: Prog, env: Env, w: World)
    requires EnvOk(env, w) && WellFormed(w) && Began(w)
    ensures EnvOk([w.next] + env, BegunWorld(w)) && Sound(BegunWorld(w))
    ensures var (w1, o1) := Run(body, [w.next] + env, BegunWorld(w));
            && WellFormed(w1) && InTx(w1, w.next) && w.next < w1.next
            && Run(WithinTx(body), env, w) == Ending(w1, w.next, o1)
  {
    hide On, WellFormed, Extends, Ending, InTx, Run, RunWithinTx;
    BegunOk(env, w);
    IsSound(w);
    IsSound(BegunWorld(w));
    RunOk(body, [w.next] + env, BegunWorld(w));
    StaysInTx(BegunWorld(w), Run(body, [w.next] + env, BegunWorld(w)).0, w.next);
    RunsWithinTx(body, env, w);
    WithinTxIs(body, env, w);
  }

  lemma StaysInTx(w: World, w1: World, c: nat)
    requires WellFormed(w) && Extends(w, w1) && InTx(w, c)
    ensures InTx(w1, c) && c < w1.next
  {
    hide On, ConnOk;
    TxNotIssued(w, c);
  }

  /**
   Inside the transaction t, a nested WithinTx is on its own: whatever runs after it and however t
   ends, what the nested one made visible stays as it was, and t ends all or nothing as if the
   nested one had not been there.
   */
  lemma NestedIndependent(t: nat, body: Prog, later: Prog, env: Env, w: World, o: Outcome)
    requires EnvOk(env, w) && WellFormed(w) && t in env && Began(w)
    ensures var w1 := Run(WithinTx(body), env, w).0;
            && EnvOk(env, w1) && Sound(w1) && InTx(w1, t) && TxPrivate(w1, t)
            && var w2 := Run(later, env, w1).0;
            && InTx(w2, t)
            && var (w3, o3) := Ending(w2, t, o);
            && On(w.next, w3.visible) == On(w.next, w1.visible)
            && (o3.Ok? ==> On(t, w3.visible) == On(t, w3.sent))
            && (!o.Ok? ==> On(t, w3.visible) == [])
  {
    hide On, AllSent, Ending, RunWithinTx, Run, ConnOk;
    IsSound(w);
    RunOk(WithinTx(body), env, w);
    var w1 := Run(WithinTx(body), env, w).0;
    EnvStays(env, w, w1);
    assert InTx(w1, t);
    PrivateBefore(w1, t);
    NestedGone(body, env, w);
    RunOk(later, env, w1);
    var w2 := Run(later, env, w1).0;
    StaysInTx(w1, w2, t);
    BeforeNext(w, t);
    EndingOk(w2, t, o);
  }

  lemma BeforeNext(w: World, t: nat)
    requires WellFormed(w)
    ensures InTx(w, t) ==> t != w.next
  {
  }

  /** A WithinTx leaves no transaction on the connection it used. */
  lemma NestedGone(body: Prog, env: Env, w: World)
    requires EnvOk(env, w) && WellFormed(w) && Began(w)
    ensures var w' := Run(WithinTx(body), env, w).0; !InTx(w', w.next) && w.next < w'.next
  {
    hide On, Ending, ConnOk;
    WithinTxSteps(body, env, w);
    var (w1, o1) := Run(body, [w.next] + env, BegunWorld(w));
    EndingOk(w1, w.next, o1);
  }
}
