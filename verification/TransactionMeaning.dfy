/**
 What a program means without connections: a list of unseen writes for each enclosing WithinTx, and one
 of those that everybody sees. Every run shows exactly that.
 */
module TransactionMeaning {
  import opened Common
  import opened Transactions
  import opened TransactionSteps

  datatype Kind = RowsInTx | PooledRows | RowInTx | PooledRow | NoRow

  /** pending holds the writes of the enclosing transactions, innermost first; vars what variables hold. */
  datatype Store = Store(pending: seq<seq<Write>>, seen: seq<Write>, vars: map<string, Kind>, replies: seq<Reply>)

  function First(s: Store): Reply {
    if s.replies == [] then Failed else s.replies[0]
  }

  function Rest(s: Store): Store {
    s.(replies := if s.replies == [] then [] else s.replies[1..])
  }

  function Answered(r: Reply): Outcome {
    if r.Done? then Ok else Err
  }

  function Settled(s: Store): (Store, Outcome) {
    (Rest(s), Answered(First(s)))
  }

  /** A statement joins the writes of its transaction; outside all transactions it is seen at once. */
  function MeanExec(s: Store, up: nat, write: Write): (Store, Outcome) {
    if up < |s.pending| then
      var done, o := Rest(s), Answered(First(s));
      (if !First(s).Failed? then done.(pending := s.pending[up := s.pending[up] + [write]]) else done, o)
    else if !First(s).Done? then (Rest(s), Err)
    else
      var t := Rest(s);
      (if !First(t).Failed? then Rest(t).(seen := t.seen + [write]) else Rest(t), Answered(First(t)))
  }

  function Hold(s: Store, h: string, k: Kind): Store {
    s.(vars := s.vars[h := k])
  }

  function Drop(s: Store, h: string): Store {
    s.(vars := s.vars - {h})
  }

  function MeanQuery(s: Store, up: nat, h: string): (Store, Outcome) {
    if up < |s.pending| then
      (if First(s).Done? then Hold(Rest(s), h, RowsInTx) else Drop(Rest(s), h), Answered(First(s)))
    else if !First(s).Done? then (Drop(Rest(s), h), Err)
    else
      var t := Rest(s);
      (if First(t).Done? then Hold(Rest(t), h, PooledRows) else Drop(Rest(t), h), Answered(First(t)))
  }

  function MeanQueryRow(s: Store, up: nat, h: string): (Store, Outcome) {
    if up < |s.pending| then (Hold(s, h, RowInTx), Ok)
    else (Hold(Rest(s), h, if First(s).Done? then PooledRow else NoRow), Ok)
  }

  function MeanClose(s: Store, h: string): (Store, Outcome) {
    (s, if h in s.vars && (s.vars[h].RowsInTx? || s.vars[h].PooledRows?) then Ok else Panicked)
  }

  function MeanScan(s: Store, h: string): (Store, Outcome) {
    if h !in s.vars then (s, Panicked) else if s.vars[h].NoRow? then (s, Err) else Settled(s)
  }

  /** The end of a transaction: its writes are seen if it is committed, and gone otherwise. */
  function End(s: Store, o: Outcome): (Store, Outcome)
    requires s.pending != []
  {
    var ended := s.(pending := s.pending[1..]);
    if !o.Ok? then (ended, o)
    else if !First(s).Failed? then (Rest(ended).(seen := s.seen + s.pending[0]), Answered(First(s)))
    else (Rest(ended), Err)
  }

  function Meaning(p: Prog, s: Store): (r: (Store, Outcome))
    ensures |r.0.pending| == |s.pending|
    decreases p
  {
    match p
    case Exec(up, write) => MeanExec(s, up, write)
    case Query(up, h) => MeanQuery(s, up, h)
    case QueryRow(up, h) => MeanQueryRow(s, up, h)
    case Close(h) => MeanClose(s, h)
    case Scan(h) => MeanScan(s, h)
    case Fail => (s, Err)
    case Panic => (s, Panicked)
    case Skip => (s, Ok)
    case Then(first, second) =>
      var (s1, o1) := Meaning(first, s);
      if o1.Ok? then Meaning(second, s1) else (s1, o1)
    case Ignore(body) =>
      var (s1, o1) := Meaning(body, s);
      (s1, if o1.Err? then Ok else o1)
    case Recover(body) =>
      var (s1, o1) := Meaning(body, s);
      (s1, if o1.Panicked? then Err else o1)
    case Defer(body, cleanup) =>
      var (s1, o1) := Meaning(body, s);
      var (s2, o2) := Meaning(cleanup, s1);
      (s2, if o2.Panicked? then Panicked else o1)
    case WithinTx(body) =>
      var t := Rest(s);
      if !First(s).Done? then (t, Err)
      else if !First(t).Done? then (Rest(t), Err)
      else
        var (s1, o1) := Meaning(body, Rest(t).(pending := [[]] + s.pending));
        End(s1, o1)
  }

  // ------------------------------------------------------------------
  // Runs show what programs mean

  function KindOf(v: Handle): Kind {
    match v
    case TxRows => RowsInTx
    case PoolRows(_) => PooledRows
    case TxRow => RowInTx
    case PoolRow(_) => PooledRow
    case ErrRow => NoRow
  }

  function Writes(s: seq<Sent>): (ws: seq<Write>)
    ensures |ws| == |s| && forall i | 0 <= i < |s| :: ws[i] == s[i].write
  {
    seq(|s|, i requires 0 <= i < |s| => s[i].write)
  }

  function Pending(w: World, env: Env): (ps: seq<seq<Write>>)
    requires EnvOk(env, w)
    ensures |ps| == |env| && forall i | 0 <= i < |env| :: ps[i] == w.open[env[i]].value
  {
    seq(|env|, i requires 0 <= i < |env| => w.open[env[i]].value)
  }

  function Kinds(handles: map<string, Handle>): map<string, Kind> {
    map h | h in handles :: KindOf(handles[h])
  }

  /** What a world shows to a program in the contexts env. */
  function Shown(w: World, env: Env): Store
    requires EnvOk(env, w)
  {
    Store(Pending(w, env), Writes(w.visible), Kinds(w.handles), w.script)
  }

  ghost predicate Scoped(w: World, env: Env) {
    EnvOk(env, w) && Sound(w) && Distinct(env)
  }

  /** The contexts keep their transactions, whatever happens on other connections. */
  lemma PendingKept(w: World, w': World, env: Env)
    requires EnvOk(env, w)
    requires forall c | c in w.open && w.open[c].Some? :: c in w'.open && w'.open[c] == w.open[c]
    ensures EnvOk(env, w') && Pending(w', env) == Pending(w, env)
  {
    forall i | 0 <= i < |env| ensures InTx(w', env[i]) && w'.open[env[i]] == w.open[env[i]] {
      assert InTx(w, env[i]);
    }
  }

  lemma ShownTxExec(w: World, env: Env, up: nat, write: Write)
    requires Scoped(w, env) && up < |env|
    ensures InTx(w, env[up])
    ensures var (w', o) := TxExec(w, env[up], write);
            EnvOk(env, w') && (Shown(w', env), o) == MeanExec(Shown(w, env), up, write)
  {
    var w' := TxExec(w, env[up], write).0;
    var s, s' := Shown(w, env), MeanExec(Shown(w, env), up, write).0;
    assert Shown(w', env).pending == s'.pending;
  }

  lemma ShownFacade(w: World, env: Env, up: nat, write: Write)
    requires Scoped(w, env) && up >= |env|
    ensures var (w', o) := Facade(w, write);
            EnvOk(env, w') && (Shown(w', env), o) == MeanExec(Shown(w, env), up, write)
  {
    var w' := Facade(w, write).0;
    hide Pending, Distinct;
    PendingKept(w, w', env);
    assert Shown(w', env).seen == MeanExec(Shown(w, env), up, write).0.seen;
  }

  lemma ShownTxQuery(w: World, env: Env, up: nat, h: string)
    requires Scoped(w, env) && up < |env|
    ensures var (w', o) := DoQuery(w, env, up, h);
            EnvOk(env, w') && (Shown(w', env), o) == MeanQuery(Shown(w, env), up, h)
  {
    hide Pending, Distinct, Sound;
    var w' := DoQuery(w, env, up, h).0;
    PendingKept(w, w', env);
    assert Shown(w', env).vars == MeanQuery(Shown(w, env), up, h).0.vars;
  }

  lemma ShownPoolQuery(w: World, env: Env, up: nat, h: string)
    requires Scoped(w, env) && up >= |env|
    ensures var (w', o) := DoQuery(w, env, up, h);
            EnvOk(env, w') && (Shown(w', env), o) == MeanQuery(Shown(w, env), up, h)
  {
    var w' := DoQuery(w, env, up, h).0;
    hide Pending, Distinct, KindOf;
    PendingKept(w, w', env);
    KindsBound(w.handles, h, PoolRows(w.next));
  }

  lemma KindsBound(handles: map<string, Handle>, h: string, v: Handle)
    ensures Kinds(handles[h := v]) == Kinds(handles)[h := KindOf(v)] && Kinds(handles - {h}) == Kinds(handles) - {h}
    ensures KindOf(PoolRows(0)) == PooledRows && (v.PoolRows? ==> KindOf(v) == PooledRows)
  {
  }

  lemma ShownQueryRow(w: World, env: Env, up: nat, h: string)
    requires Scoped(w, env)
    ensures var (w', o) := DoQueryRow(w, env, up, h);
            EnvOk(env, w') && (Shown(w', env), o) == MeanQueryRow(Shown(w, env), up, h)
  {
    var w' := DoQueryRow(w, env, up, h).0;
    hide Pending, Distinct, KindOf, Sound;
    PendingKept(w, w', env);
    RowKinds(w.handles, h, w.next);
  }

  lemma RowKinds(handles: map<string, Handle>, h: string, c: nat)
    ensures Kinds(handles[h := TxRow]) == Kinds(handles)[h := RowInTx]
    ensures Kinds(handles[h := PoolRow(c)]) == Kinds(handles)[h := PooledRow]
    ensures Kinds(handles[h := ErrRow]) == Kinds(handles)[h := NoRow]
  {
  }

  lemma ShownHandle(w: World, env: Env, h: string)
    requires Scoped(w, env)
    ensures var (w', o) := DoClose(w, h);
            EnvOk(env, w') && (Shown(w', env), o) == MeanClose(Shown(w, env), h)
    ensures var (w', o) := DoScan(w, h);
            EnvOk(env, w') && (Shown(w', env), o) == MeanScan(Shown(w, env), h)
  {
    hide Pending;
    PendingKept(w, DoClose(w, h).0, env);
    PendingKept(w, DoScan(w, h).0, env);
  }

  lemma ShownBegin(w: World, env: Env)
    requires Scoped(w, env) && Began(w)
    ensures var begun := BegunWorld(w);
            && Scoped(begun, [w.next] + env)
            && Shown(begun, [w.next] + env)
               == Rest(Rest(Shown(w, env))).(pending := [[]] + Shown(w, env).pending)
  {
    var begun, inner := BegunWorld(w), [w.next] + env;
    forall i | 0 <= i < |inner| ensures InTx(begun, inner[i]) {}
    assert Shown(begun, inner).pending == [[]] + Shown(w, env).pending;
  }

  lemma EnvApart(w: World, c: nat, env: Env)
    requires EnvOk([c] + env, w) && Distinct([c] + env)
    ensures InTx(w, c) && c !in env && EnvOk(env, w) && Distinct(env)
    ensures Pending(w, [c] + env) == [w.open[c].value] + Pending(w, env)
  {
    var inner := [c] + env;
    assert inner[0] == c && InTx(w, inner[0]);
    forall i | 0 <= i < |env| ensures env[i] != c && InTx(w, env[i]) {
      assert inner[i + 1] == env[i] && InTx(w, inner[i + 1]);
    }
    EnvTail(c, env);
  }

  lemma EnvTail(c: nat, env: Env)
    requires Distinct([c] + env)
    ensures Distinct(env)
  {
    var inner := [c] + env;
    forall i, j | 0 <= i < j < |env| ensures env[i] != env[j] {
      assert inner[i + 1] == env[i] && inner[j + 1] == env[j];
    }
  }

  lemma ShownEnd(w: World, c: nat, env: Env, o: Outcome)
    requires Scoped(w, [c] + env)
    ensures InTx(w, c) && EnvOk(env, w)
    ensures var (w', o') := Ending(w, c, o);
            EnvOk(env, w') && (Shown(w', env), o') == End(Shown(w, [c] + env), o)
  {
    hide Pending, Distinct;
    EnvApart(w, c, env);
    var w' := Ending(w, c, o).0;
    EndKeeps(w, c, env, o);
    var s := Shown(w, [c] + env);
    assert s.pending[1..] == Pending(w, env);
    assert Writes(AllSent(c, w.open[c].value)) == s.pending[0];
    assert Shown(w', env).seen == End(s, o).0.seen;
  }

  lemma EndKeeps(w: World, c: nat, env: Env, o: Outcome)
    requires InTx(w, c) && EnvOk(env, w) && c !in env
    ensures var w' := Ending(w, c, o).0; EnvOk(env, w') && Pending(w', env) == Pending(w, env)
  {
    var w' := Ending(w, c, o).0;
    forall i | 0 <= i < |env| ensures InTx(w', env[i]) && w'.open[env[i]] == w.open[env[i]] {
      assert env[i] in env && InTx(w, env[i]);
    }
  }

  /**
   Whatever connections a program uses, what it shows afterwards and how it ends is its meaning: which
   statements belong together and are seen together is decided by the contexts alone.
   */
  lemma {:induction false} RunsMean(p: Prog, env: Env, w: World)
    requires Scoped(w, env)
    ensures var (w', o) := Run(p, env, w);
            Scoped(w', env) && (Shown(w', env), o) == Meaning(p, Shown(w, env))
    decreases p, 0
  {
    hide Shown, MeanExec, MeanQuery, MeanQueryRow, MeanClose, MeanScan, DoQuery, DoQueryRow, DoClose, DoScan, Facade, TxExec;
    hide End, Ending, Distinct;
    match p
    case Exec(up, write) =>
      if up < |env| { ShownTxExec(w, env, up, write); } else { ShownFacade(w, env, up, write); }
    case Query(up, h) =>
      if up < |env| { ShownTxQuery(w, env, up, h); } else { ShownPoolQuery(w, env, up, h); }
    case QueryRow(up, h) => ShownQueryRow(w, env, up, h);
    case Close(h) => ShownHandle(w, env, h);
    case Scan(h) => ShownHandle(w, env, h);
    case Fail =>
    case Panic =>
    case Skip =>
    case Then(first, second) =>
      RunsMean(first, env, w);
      if Run(first, env, w).1.Ok? {
        RunsMean(second, env, Run(first, env, w).0);
      }
    case Ignore(body) => RunsMean(body, env, w);
    case Recover(body) => RunsMean(body, env, w);
    case Defer(body, cleanup) =>
      RunsMean(body, env, w);
      RunsMean(cleanup, env, Run(body, env, w).0);
    case WithinTx(body) => WithinTxMeans(body, env, w);
  }

  lemma ShownNotBegun(body: Prog, w: World, env: Env)
    requires Scoped(w, env)
    ensures var s := Shown(w, env);
            && (Acquire(w).1.Ok? <==> First(s).Done?)
            && (Acquire(w).1.Ok? ==> (Began(w) <==> First(Rest(s)).Done?))
    ensures var (w', o) := RunWithinTx(body, env, w);
            !Began(w) ==> && EnvOk(env, w') && o.Err?
                          && Shown(w', env) == if Acquire(w).1.Ok? then Rest(Rest(Shown(w, env))) else Rest(Shown(w, env))
  {
    hide Pending, Run;
    if !Began(w) {
      PendingKept(w, RunWithinTx(body, env, w).0, env);
    }
  }

  lemma WithinTxMeans(body: Prog, env: Env, w: World)
    requires Scoped(w, env)
    ensures var (w', o) := Run(WithinTx(body), env, w);
            Scoped(w', env) && (Shown(w', env), o) == Meaning(WithinTx(body), Shown(w, env))
    decreases body, 1
  {
    hide Shown, End, Ending, Distinct, Run, RunWithinTx;
    ShownNotBegun(body, w, env);
    RunsWithinTx(body, env, w);
    IsScoped(WithinTx(body), env, w);
    if Began(w) {
      var inner := [w.next] + env;
      ShownBegin(w, env);
      RunsMean(body, inner, BegunWorld(w));
      var (w1, o1) := Run(body, inner, BegunWorld(w));
      ShownEnd(w1, w.next, env, o1);
      WithinTxIs(body, env, w);
    }
  }

  lemma IsScoped(p: Prog, env: Env, w: World)
    requires Scoped(w, env)
    ensures Scoped(Run(p, env, w).0, env)
  {
    hide Run;
    var w' := Run(p, env, w).0;
    forall i | 0 <= i < |env| ensures InTx(w', env[i]) {
      assert InTx(w, env[i]);
    }
  }

  // ------------------------------------------------------------------
  // Statements of a transaction

  /** Inside a transaction statements go to the connection of their context, and none is acquired. */
  lemma StatementsStay(w: World, env: Env, up: nat, write: Write, h: string)
    requires Scoped(w, env) && up < |env|
    ensures var (w', o) := Run(Exec(up, write), env, w);
            && w'.sent == w.sent + (if TakesEffect(NextReply(w)) then [Sent(env[up], write)] else [])
            && o == Told(NextReply(w)) && w'.visible == w.visible
            && w'.next == w.next && w'.open.Keys == w.open.Keys && w'.issued == w.issued
    ensures var (w', o) := Run(Query(up, h), env, w);
            && w'.open == w.open && w'.next == w.next && w'.issued == w.issued && w'.visible == w.visible
            && o == Told(NextReply(w)) && (o.Ok? ==> h in w'.handles && w'.handles[h].TxRows?)
    ensures var (w', o) := Run(QueryRow(up, h), env, w);
            && w'.open == w.open && w'.next == w.next && w'.issued == w.issued && w'.visible == w.visible
            && o.Ok? && h in w'.handles && w'.handles[h].TxRow?
  {
  }

  /** Every statement is one of the innermost transaction. */
  predicate Own(p: Prog) {
    match p
    case Exec(up, _) => up == 0
    case Query(up, _) => up == 0
    case QueryRow(up, _) => up == 0
    case Then(first, second) => Own(first) && Own(second)
    case Ignore(body) => Own(body)
    case Recover(body) => Own(body)
    case Defer(body, cleanup) => Own(body) && Own(cleanup)
    case WithinTx(_) => false
    case _ => true
  }

  /** ws has joined the transaction c: sent on it, and seen by nobody. */
  ghost predicate Joined(w: World, w': World, c: nat, ws: seq<Write>) {
    && InTx(w, c) && InTx(w', c)
    && w'.sent == w.sent + AllSent(c, ws) && w'.visible == w.visible && w'.open[c].value == w.open[c].value + ws
    && w'.next == w.next && w'.issued == w.issued
  }

  lemma JoinedTwice(a: World, b: World, d: World, c: nat, us: seq<Write>, vs: seq<Write>)
    requires Joined(a, b, c, us) && Joined(b, d, c, vs)
    ensures Joined(a, d, c, us + vs)
  {
    assert AllSent(c, us + vs) == AllSent(c, us) + AllSent(c, vs);
  }

  lemma {:induction false} OwnJoins(p: Prog, env: Env, w: World) returns (ws: seq<Write>)
    requires Scoped(w, env) && env != [] && Own(p)
    ensures Joined(w, Run(p, env, w).0, env[0], ws)
    decreases p
  {
    hide Distinct, DoQuery, DoQueryRow, TxExec, DoClose, DoScan, Joined;
    var w' := Run(p, env, w).0;
    ws := [];
    match p
    case Exec(up, write) => ws := ExecJoins(w, env, write);
    case Query(up, h) => QueryJoins(w, env, h);
    case QueryRow(up, h) => QueryJoins(w, env, h);
    case Close(h) => HandleJoins(w, env, h);
    case Scan(h) => HandleJoins(w, env, h);
    case Fail => NothingJoins(w, env);
    case Panic => NothingJoins(w, env);
    case Skip => NothingJoins(w, env);
    case Then(first, second) =>
      ws := OwnJoins(first, env, w);
      IsScoped(first, env, w);
      var (w1, o1) := Run(first, env, w);
      if o1.Ok? {
        var more := OwnJoins(second, env, w1);
        JoinedTwice(w, w1, w', env[0], ws, more);
        ws := ws + more;
      }
    case Ignore(body) => ws := OwnJoins(body, env, w);
    case Recover(body) => ws := OwnJoins(body, env, w);
    case Defer(body, cleanup) =>
      ws := OwnJoins(body, env, w);
      IsScoped(body, env, w);
      var w1 := Run(body, env, w).0;
      var more := OwnJoins(cleanup, env, w1);
      JoinedTwice(w, w1, w', env[0], ws, more);
      ws := ws + more;
  }

  lemma ExecJoins(w: World, env: Env, write: Write) returns (ws: seq<Write>)
    requires Scoped(w, env) && env != []
    ensures Joined(w, Run(Exec(0, write), env, w).0, env[0], ws)
  {
    StatementsStay(w, env, 0, write, "");
    ws := if TakesEffect(NextReply(w)) then [write] else [];
  }

  lemma QueryJoins(w: World, env: Env, h: string)
    requires Scoped(w, env) && env != []
    ensures Joined(w, DoQuery(w, env, 0, h).0, env[0], []) && Joined(w, DoQueryRow(w, env, 0, h).0, env[0], [])
  {
    assert InTx(w, env[0]);
  }

  lemma HandleJoins(w: World, env: Env, h: string)
    requires Scoped(w, env) && env != []
    ensures Joined(w, DoClose(w, h).0, env[0], []) && Joined(w, DoScan(w, h).0, env[0], [])
  {
    assert InTx(w, env[0]);
  }

  lemma NothingJoins(w: World, env: Env)
    requires Scoped(w, env) && env != []
    ensures Joined(w, w, env[0], [])
  {
    assert InTx(w, env[0]);
  }

  /**
   A WithinTx whose statements are all its own: if it returns nil, exactly its writes that took effect
   are seen in addition, in order; if its body fails or panics, nothing is seen in addition.
   */
  lemma OwnWritesTogether(body: Prog, env: Env, w: World) returns (ws: seq<Write>)
    requires Scoped(w, env) && Own(body)
    ensures var (w', o) := Run(WithinTx(body), env, w);
            && w'.sent == w.sent + AllSent(w.next, ws)
            && (o.Ok? ==> w'.visible == w.visible + AllSent(w.next, ws))
            && (w'.visible == w.visible || w'.visible == w.visible + AllSent(w.next, ws))
    ensures !Began(w) ==> ws == [] && Run(WithinTx(body), env, w).1.Err?
    ensures Began(w) ==>
              && Scoped(BegunWorld(w), [w.next] + env)
              && var o1 := Run(body, [w.next] + env, BegunWorld(w)).1;
                 var (w', o) := Run(WithinTx(body), env, w);
                 !o1.Ok? ==> o == o1 && w'.visible == w.visible
  {
    hide Run, RunWithinTx, Distinct, Joined;
    RunsWithinTx(body, env, w);
    ws := [];
    if Began(w) {
      var inner, begun := [w.next] + env, BegunWorld(w);
      ShownBegin(w, env);
      ws := OwnJoins(body, inner, begun);
      var (w1, o1) := Run(body, inner, begun);
      JoinedEnds(w, w1, ws, o1);
      WithinTxIs(body, env, w);
    } else {
      NotBegunShowsNothing(body, env, w);
    }
  }

  lemma JoinedEnds(w: World, w1: World, ws: seq<Write>, o: Outcome)
    requires Began(w) && Joined(BegunWorld(w), w1, w.next, ws)
    ensures InTx(w1, w.next)
    ensures var (w', o') := Ending(w1, w.next, o);
            && w'.sent == w.sent + AllSent(w.next, ws)
            && (o'.Ok? ==> w'.visible == w.visible + AllSent(w.next, ws))
            && (w'.visible == w.visible || w'.visible == w.visible + AllSent(w.next, ws))
            && (!o.Ok? ==> o' == o && w'.visible == w.visible)
  {
    assert [] + ws == ws;
  }

  lemma NotBegunShowsNothing(body: Prog, env: Env, w: World)
    requires EnvOk(env, w) && Sound(w) && !Began(w)
    ensures var (w', o) := RunWithinTx(body, env, w);
            o.Err? && w'.visible == w.visible && w'.sent == w.sent + AllSent(w.next, [])
  {
    hide Run;
  }
}
