/**
 The transaction manager of txpostgres/txpostgres.go, seen through the programs that use it.
 A program is what the callback of WithinTx and its caller do with the context they hold.
 */
module Transactions {
  import opened Common

  type Write = string

  /** A write with the connection it was sent on. */
  datatype Sent = Sent(conn: nat, write: Write)

  /** A call works, fails, or takes effect with its answer lost. */
  datatype Reply = Done | Failed | Lost

  datatype Outcome = Ok | Err | Panicked

  /**
   What Query and QueryRow return: rows and a row of the transaction in the context, or of the pool with
   the connection to give back, or only the error of getting none.
   */
  datatype Handle = TxRows | PoolRows(conn: nat) | TxRow | PoolRow(conn: nat) | ErrRow

  /**
   up picks the context an operation uses: that of the up-th enclosing WithinTx, and the one outside
   all of them when there are fewer. Handles are held in variables, so they can be closed and scanned
   anywhere, in any order, any number of times, or never. Defer runs its second part whatever the first
   one ends in.
   */
  datatype Prog =
    | Exec(up: nat, write: Write)
    | Query(up: nat, h: string)
    | QueryRow(up: nat, h: string)
    | Close(h: string)
    | Scan(h: string)
    | Fail
    | Panic
    | Skip
    | Then(first: Prog, second: Prog)
    | Ignore(body: Prog)
    | Recover(body: Prog)
    | Defer(body: Prog, cleanup: Prog)
    | WithinTx(body: Prog)

  /**
   open holds the connections in use with the writes of their open transaction, if any; handles the
   program's variables; issued the connections that were handed to handles, returned those of them that
   a handle has given back; sent all writes that took effect on some connection, visible those that
   everybody sees; badReleases counts the connections released with their transaction still open.
   */
  datatype World = World(open: map<nat, Option<seq<Write>>>, next: nat, handles: map<string, Handle>,
                         issued: set<nat>, returned: set<nat>, sent: seq<Sent>, visible: seq<Sent>,
                         badReleases: nat, script: seq<Reply>)

  /** A pool with nothing in use, and any behaviour of the database. */
  function Start(script: seq<Reply>): World {
    World(map[], 0, map[], {}, {}, [], [], 0, script)
  }

  /** The transactions in the enclosing contexts, innermost first. */
  type Env = seq<nat>

  function NextReply(w: World): Reply {
    if w.script == [] then Failed else w.script[0]
  }

  function Asked(w: World): World {
    w.(script := if w.script == [] then [] else w.script[1..])
  }

  predicate TakesEffect(r: Reply) {
    r.Done? || r.Lost?
  }

  function Told(r: Reply): Outcome {
    if r.Done? then Ok else Err
  }

  /** Pool.Acquire: a connection that nobody uses. */
  function Acquire(w: World): (World, Outcome) {
    var asked := Asked(w);
    if NextReply(w).Done? then (asked.(open := w.open[w.next := None], next := w.next + 1), Ok) else (asked, Err)
  }

  function Release(w: World, c: nat): World {
    w.(open := w.open - {c},
       badReleases := w.badReleases + if c in w.open && w.open[c].Some? then 1 else 0)
  }

  function Begin(w: World, c: nat): (World, Outcome) {
    var asked := Asked(w);
    if NextReply(w).Done? then (asked.(open := w.open[c := Some([])]), Ok) else (asked, Err)
  }

  /** A statement on an open transaction. */
  function TxExec(w: World, c: nat, write: Write): (World, Outcome)
    requires c in w.open && w.open[c].Some?
  {
    var asked, r := Asked(w), NextReply(w);
    if TakesEffect(r) then
      (asked.(open := w.open[c := Some(w.open[c].value + [write])], sent := w.sent + [Sent(c, write)]), Told(r))
    else (asked, Err)
  }

  /** A statement on a plain connection is its own transaction. */
  function ConnExec(w: World, c: nat, write: Write): (World, Outcome) {
    var asked, r := Asked(w), NextReply(w);
    if TakesEffect(r) then
      (asked.(sent := w.sent + [Sent(c, write)], visible := w.visible + [Sent(c, write)]), Told(r))
    else (asked, Err)
  }

  function AllSent(c: nat, ws: seq<Write>): seq<Sent> {
    seq(|ws|, i requires 0 <= i < |ws| => Sent(c, ws[i]))
  }

  function Commit(w: World, c: nat): (World, Outcome)
    requires c in w.open && w.open[c].Some?
  {
    var asked, r := Asked(w), NextReply(w);
    if TakesEffect(r) then
      (asked.(open := w.open[c := None], visible := w.visible + AllSent(c, w.open[c].value)), Told(r))
    else (asked, Err)
  }

  /** Rollback ends the transaction whatever it returns; after a commit there is nothing to do. */
  function Rollback(w: World, c: nat): World {
    if c in w.open then w.(open := w.open[c := None]) else w
  }

  /** FromCtx: the transaction in the context, if there is one. */
  function FromCtx(env: Env, up: nat): Option<nat> {
    if up < |env| then Some(env[up]) else None
  }

  ghost predicate EnvOk(env: Env, w: World) {
    forall i | 0 <= i < |env| :: env[i] in w.open && w.open[env[i]].Some?
  }

  predicate HasConn(v: Handle) {
    v.PoolRows? || v.PoolRow?
  }

  /** Connections are numbered as they are acquired, and those of handles are never in a transaction. */
  ghost predicate Sound(w: World) {
    && (forall c | c in w.open :: c < w.next)
    && (forall c | c in w.issued :: c < w.next && (c in w.open ==> w.open[c].None?))
    && (forall h | h in w.handles && HasConn(w.handles[h]) :: w.handles[h].conn in w.issued)
  }

  /** What a program does to open transactions that it did not begin. */
  ghost predicate KeepsTx(w: World, w': World) {
    && w.next <= w'.next
    && forall c | c in w.open && w.open[c].Some? :: c in w'.open && w'.open[c].Some?
  }

  function Facade(w: World, write: Write): (r: (World, Outcome))
    ensures Sound(w) ==> KeepsTx(w, r.0) && Sound(r.0)
  {
    var (acquired, o) := Acquire(w);
    if !o.Ok? then (acquired, o) else
    var (done, o') := ConnExec(acquired, w.next, write);
    (Release(done, w.next), o')
  }

  /** The deferred calls of WithinTx, last first: roll back, then release. */
  function Leave(w: World, c: nat): World {
    Release(Rollback(w, c), c)
  }

  function CommitIfOk(w: World, c: nat, o: Outcome): (World, Outcome)
    requires c in w.open && w.open[c].Some?
  {
    if o.Ok? then Commit(w, c) else (w, o)
  }

  /** The end of WithinTx: commit if the body succeeded, roll back what is left, release. */
  function Ending(w: World, c: nat, o: Outcome): (World, Outcome)
    requires c in w.open && w.open[c].Some?
  {
    var (w', o') := CommitIfOk(w, c, o);
    (Leave(w', c), o')
  }

  // ------------------------------------------------------------------
  // Handles

  function Bound(w: World, h: string, v: Handle): World {
    w.(handles := w.handles[h := v])
  }

  /** The variable of a query that failed holds nothing. */
  function Unbound(w: World, h: string): World {
    w.(handles := w.handles - {h})
  }

  function Issued(w: World, h: string, v: Handle): World
    requires HasConn(v)
  {
    Bound(w.(issued := w.issued + {v.conn}), h, v)
  }

  /** A handle gives its connection back; giving it back again does nothing. */
  function GiveBack(w: World, c: nat): World {
    Release(w, c).(returned := w.returned + {c})
  }

  function DoQuery(w: World, env: Env, up: nat, h: string): (r: (World, Outcome))
    ensures Sound(w) ==> KeepsTx(w, r.0) && Sound(r.0)
  {
    if FromCtx(env, up).Some? then
      var o := Told(NextReply(w));
      (if o.Ok? then Bound(Asked(w), h, TxRows) else Unbound(Asked(w), h), o)
    else
      var (acquired, o) := Acquire(w);
      if !o.Ok? then (Unbound(acquired, h), o) else
      var c, asked, q := w.next, Asked(acquired), Told(NextReply(acquired));
      if !q.Ok? then (Unbound(Release(asked, c), h), q) else (Issued(asked, h, PoolRows(c)), Ok)
  }

  /** A row shows its errors when it is scanned, the failure to get a connection included. */
  function DoQueryRow(w: World, env: Env, up: nat, h: string): (r: (World, Outcome))
    ensures Sound(w) ==> KeepsTx(w, r.0) && Sound(r.0)
  {
    if FromCtx(env, up).Some? then (Bound(w, h, TxRow), Ok)
    else
      var (acquired, o) := Acquire(w);
      if !o.Ok? then (Bound(acquired, h, ErrRow), Ok) else (Issued(acquired, h, PoolRow(w.next)), Ok)
  }

  /** Calling a method that the variable's value does not have panics. */
  function DoClose(w: World, h: string): (r: (World, Outcome))
    ensures Sound(w) ==> KeepsTx(w, r.0) && Sound(r.0)
  {
    if h !in w.handles then (w, Panicked) else
    match w.handles[h]
    case TxRows => (w, Ok)
    case PoolRows(c) => (GiveBack(w, c), Ok)
    case _ => (w, Panicked)
  }

  function DoScan(w: World, h: string): (r: (World, Outcome))
    ensures Sound(w) ==> KeepsTx(w, r.0) && Sound(r.0)
  {
    if h !in w.handles then (w, Panicked) else
    match w.handles[h]
    case PoolRow(c) => (GiveBack(Asked(w), c), Told(NextReply(w)))
    case ErrRow => (w, Err)
    case _ => (Asked(w), Told(NextReply(w)))
  }

  // ------------------------------------------------------------------
  // Programs

  function RunWithinTx(body: Prog, env: Env, w: World): (r: (World, Outcome))
    requires EnvOk(env, w) && Sound(w)
    ensures KeepsTx(w, r.0) && Sound(r.0)
    decreases body, 1
  {
    var (acquired, o) := Acquire(w);
    if !o.Ok? then (acquired, o) else
    var c := w.next;
    var (begun, b) := Begin(acquired, c);
    if !b.Ok? then (Release(begun, c), b) else
    var (w1, o1) := Run(body, [c] + env, begun);
    Ending(w1, c, o1)
  }

  function Run(p: Prog, env: Env, w: World): (r: (World, Outcome))
    requires EnvOk(env, w) && Sound(w)
    ensures KeepsTx(w, r.0) && Sound(r.0)
    decreases p, 0
  {
    match p
    case Exec(up, write) =>
      (match FromCtx(env, up)
       case Some(c) => TxExec(w, c, write)
       case None => Facade(w, write))
    case Query(up, h) => DoQuery(w, env, up, h)
    case QueryRow(up, h) => DoQueryRow(w, env, up, h)
    case Close(h) => DoClose(w, h)
    case Scan(h) => DoScan(w, h)
    case Fail => (w, Err)
    case Panic => (w, Panicked)
    case Skip => (w, Ok)
    case Then(first, second) =>
      var (w1, o1) := Run(first, env, w);
      if o1.Ok? then Run(second, env, w1) else (w1, o1)
    case Ignore(body) =>
      var (w1, o1) := Run(body, env, w);
      (w1, if o1.Err? then Ok else o1)
    case Recover(body) =>
      var (w1, o1) := Run(body, env, w);
      (w1, if o1.Panicked? then Err else o1)
    case Defer(body, cleanup) =>
      var (w1, o1) := Run(body, env, w);
      var (w2, o2) := Run(cleanup, env, w1);
      (w2, if o2.Panicked? then Panicked else o1)
    case WithinTx(body) => RunWithinTx(body, env, w)
  }
}
