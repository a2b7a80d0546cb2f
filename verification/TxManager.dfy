/** The transaction manager and its facade step by step, on a pool whose state they change. */
module TxManager {
  import opened Common
  import opened Transactions

  class Manager {
    var open: map<nat, Option<seq<Write>>>
    var next: nat
    var handles: map<string, Handle>
    var issued: set<nat>
    var returned: set<nat>
    var sent: seq<Sent>
    var visible: seq<Sent>
    var badReleases: nat
    var script: seq<Reply>

    constructor (script: seq<Reply>)
      ensures State() == Start(script)
    {
      open, next, sent, visible, badReleases := map[], 0, [], [], 0;
      handles, issued, returned := map[], {}, {};
      this.script := script;
    }

    function State(): World
      reads this
    {
      World(open, next, handles, issued, returned, sent, visible, badReleases, script)
    }

    method Call() returns (r: Reply)
      modifies `script
      ensures r == NextReply(old(State())) && State() == Asked(old(State()))
    {
      if script == [] {
        r := Failed;
      } else {
        r, script := script[0], script[1..];
      }
    }

    method Acquire() returns (c: nat, o: Outcome)
      modifies this
      ensures c == old(next) && (State(), o) == Transactions.Acquire(old(State()))
    {
      c := next;
      var r := Call();
      if !r.Done? {
        return c, Err;
      }
      open, next, o := open[c := None], next + 1, Ok;
    }

    method Release(c: nat)
      modifies `open, `badReleases
      ensures State() == Transactions.Release(old(State()), c)
    {
      if c in open && open[c].Some? {
        badReleases := badReleases + 1;
      }
      open := open - {c};
    }

    method Begin(c: nat) returns (o: Outcome)
      modifies `open, `script
      ensures (State(), o) == Transactions.Begin(old(State()), c)
    {
      var r := Call();
      if !r.Done? {
        return Err;
      }
      open, o := open[c := Some([])], Ok;
    }

    method ExecInTx(c: nat, write: Write) returns (o: Outcome)
      requires c in open && open[c].Some?
      modifies `open, `sent, `script
      ensures (State(), o) == TxExec(old(State()), c, write)
    {
      var r := Call();
      if TakesEffect(r) {
        open, sent := open[c := Some(open[c].value + [write])], sent + [Sent(c, write)];
      }
      o := Told(r);
    }

    method ExecOnConn(c: nat, write: Write) returns (o: Outcome)
      modifies `sent, `visible, `script
      ensures (State(), o) == ConnExec(old(State()), c, write)
    {
      var r := Call();
      if TakesEffect(r) {
        sent, visible := sent + [Sent(c, write)], visible + [Sent(c, write)];
      }
      o := Told(r);
    }

    method Commit(c: nat) returns (o: Outcome)
      requires c in open && open[c].Some?
      modifies `open, `visible, `script
      ensures (State(), o) == Transactions.Commit(old(State()), c)
    {
      var r := Call();
      if TakesEffect(r) {
        open, visible := open[c := None], visible + AllSent(c, open[c].value);
      }
      o := Told(r);
    }

    method Rollback(c: nat)
      modifies `open
      ensures State() == Transactions.Rollback(old(State()), c)
    {
      if c in open {
        open := open[c := None];
      }
    }

    /** pooledFacade.Exec: a connection for one statement. */
    method Exec(write: Write) returns (o: Outcome)
      modifies this
      ensures (State(), o) == Facade(old(State()), write)
    {
      var c;
      c, o := Acquire();
      if !o.Ok? {
        return;
      }
      o := ExecOnConn(c, write);
      Release(c);
    }

    /** Rows of the transaction in the context, or of the pool with the connection to give back. */
    method Query(up: nat, h: string, env: Env) returns (o: Outcome)
      modifies this
      ensures (State(), o) == DoQuery(old(State()), env, up, h)
    {
      if up < |env| {
        var r := Call();
        o := Told(r);
        handles := if o.Ok? then handles[h := TxRows] else handles - {h};
        return;
      }
      var c;
      c, o := Acquire();
      if !o.Ok? {
        handles := handles - {h};
        return;
      }
      var r := Call();
      o := Told(r);
      if !o.Ok? {
        Release(c);
        handles := handles - {h};
        return;
      }
      handles, issued := handles[h := PoolRows(c)], issued + {c};
    }

    /** A row likewise; without a connection it only holds the error. */
    method QueryRow(up: nat, h: string, env: Env) returns (o: Outcome)
      modifies this
      ensures (State(), o) == DoQueryRow(old(State()), env, up, h)
    {
      o := Ok;
      if up < |env| {
        handles := handles[h := TxRow];
        return;
      }
      var c, acquired := Acquire();
      if !acquired.Ok? {
        handles := handles[h := ErrRow];
        return;
      }
      handles, issued := handles[h := PoolRow(c)], issued + {c};
    }

    method Close(h: string) returns (o: Outcome)
      modifies this
      ensures (State(), o) == DoClose(old(State()), h)
    {
      if h !in handles || !(handles[h].TxRows? || handles[h].PoolRows?) {
        return Panicked;
      }
      if handles[h].PoolRows? {
        var c := handles[h].conn;
        Release(c);
        returned := returned + {c};
      }
      o := Ok;
    }

    /** The deferred release of a row runs after its scan. */
    method Scan(h: string) returns (o: Outcome)
      modifies this
      ensures (State(), o) == DoScan(old(State()), h)
    {
      if h !in handles {
        return Panicked;
      }
      if handles[h].ErrRow? {
        return Err;
      }
      var r := Call();
      o := Told(r);
      if handles[h].PoolRow? {
        var c := handles[h].conn;
        Release(c);
        returned := returned + {c};
      }
    }

    /** The callback body runs between beginning the transaction and the deferred calls. */
    method WithinTx(body: Prog, env: Env) returns (o: Outcome)
      requires EnvOk(env, State()) && Sound(State())
      modifies this
      ensures (State(), o) == RunWithinTx(body, env, old(State()))
      decreases body, 1
    {
      var c;
      c, o := Acquire();
      if !o.Ok? {
        return;
      }
      o := Begin(c);
      if !o.Ok? {
        Release(c);
        return;
      }
      o := Play(body, [c] + env);
      if o.Ok? {
        o := Commit(c);
      }
      Rollback(c);
      Release(c);
    }

    method Play(p: Prog, env: Env) returns (o: Outcome)
      requires EnvOk(env, State()) && Sound(State())
      modifies this
      ensures (State(), o) == Run(p, env, old(State()))
      decreases p, 0
    {
      match p
      case Exec(up, write) =>
        if up < |env| {
          o := ExecInTx(env[up], write);
        } else {
          o := Exec(write);
        }
      case Query(up, h) => o := Query(up, h, env);
      case QueryRow(up, h) => o := QueryRow(up, h, env);
      case Close(h) => o := Close(h);
      case Scan(h) => o := Scan(h);
      case Fail => o := Err;
      case Panic => o := Panicked;
      case Skip => o := Ok;
      case Then(first, second) =>
        o := Play(first, env);
        if o.Ok? {
          o := Play(second, env);
        }
      case Ignore(body) =>
        o := Play(body, env);
        if o.Err? {
          o := Ok;
        }
      case Recover(body) =>
        o := Play(body, env);
        if o.Panicked? {
          o := Err;
        }
      case Defer(body, cleanup) =>
        o := Play(body, env);
        var o2 := Play(cleanup, env);
        if o2.Panicked? {
          o := Panicked;
        }
      case WithinTx(body) => o := WithinTx(body, env);
    }
  }
}
