/**
 The Runner of migrator/migrator.go as an object: it loads its migrations into its own fields and
 drives a database object call by call. Its methods are proved against the functions of Ledger and
 MigrationLoading.
 */
module Runner {
  import opened Common
  import Ledger
  import Loading = MigrationLoading
  import Files = MigrationFiles

  type Migration = Ledger.Migration
  type Row = Ledger.Row
  type Status = Ledger.Status

  class Database {
    var state: Ledger.Db

    constructor (script: seq<Ledger.Event>)
      ensures state == Ledger.Db([], 0, script)
    {
      state := Ledger.Db([], 0, script);
    }

    /** One statement; e is the durable effect it would have. */
    method Exec(e: Option<Ledger.Effect>) returns (s: Status)
      modifies this
      ensures (state, s) == Ledger.Call(old(state), e)
    {
      var (next, told) := Ledger.Call(state, e);
      state := next;
      s := told;
    }

    /** The ordered select; the rows are those before the call. */
    method Query() returns (rows: seq<Row>, s: Status)
      modifies this
      ensures (state, s) == Ledger.Call(old(state), None)
      ensures rows == Ledger.LoadApplied(old(state))
    {
      rows := Ledger.LoadApplied(state);
      s := Exec(None);
    }
  }

  class Runner {
    const db: Database
    const opts: Loading.Options
    const allowDangerousDown: bool
    const checksum: Loading.Checksum
    var migrations: seq<Migration>
    var loaded: bool

    constructor (db: Database, opts: Loading.Options, allowDangerousDown: bool, checksum: Loading.Checksum)
      ensures this.db == db && this.opts == opts && this.allowDangerousDown == allowDangerousDown
      ensures this.checksum == checksum && State() == Loading.State([], false)
    {
      this.db := db;
      this.opts := opts;
      this.allowDangerousDown := allowDangerousDown;
      this.checksum := checksum;
      migrations := [];
      loaded := false;
    }

    ghost function State(): Loading.State
      reads this
    {
      Loading.State(migrations, loaded)
    }

    // ----------------------------------------------------------------
    // Loading

    method UniqueDirs(dirs: seq<string>) returns (uniq: seq<string>)
      ensures uniq == Loading.Unique(dirs)
    {
      var seen: set<string> := {};
      uniq := [];
      for i := 0 to |dirs|
        invariant uniq == Loading.Unique(dirs[..i])
        invariant forall d :: d in seen <==> d in uniq
      {
        assert dirs[..i + 1][..i] == dirs[..i];
        if dirs[i] != "" && dirs[i] !in seen {
          seen := seen + {dirs[i]};
          uniq := uniq + [dirs[i]];
        }
      }
      assert dirs[..|dirs|] == dirs;
    }

    method ListFiles(roots: seq<Loading.Root>) returns (all: Option<seq<Loading.Entry>>)
      ensures all == Loading.AllFiles(roots)
    {
      var files := [];
      for i := 0 to |roots|
        invariant Loading.AllFiles(roots[..i]) == Some(files)
      {
        assert roots[..i + 1][..i] == roots[..i];
        if roots[i].None? {
          AllFilesFail(roots, i + 1);
          return None;
        }
        var es := roots[i].value;
        ghost var before := files;
        for j := 0 to |es|
          invariant files == before + Loading.Files(es[..j])
        {
          assert es[..j + 1][..j] == es[..j];
          if !es[j].isDir {
            files := files + [es[j]];
          }
        }
        assert es[..|es|] == es;
      }
      assert roots[..|roots|] == roots;
      all := Some(files);
    }

    static lemma {:induction false} AllFilesFail(roots: seq<Loading.Root>, n: nat)
      requires n <= |roots| && Loading.AllFiles(roots[..n]).None?
      ensures Loading.AllFiles(roots).None?
      decreases |roots|
    {
      if n == |roots| {
        assert roots[..n] == roots;
      } else {
        assert roots[..|roots| - 1][..n] == roots[..n];
        AllFilesFail(roots[..|roots| - 1], n);
      }
    }

    static lemma {:induction false} CollectedFail(files: seq<Loading.Entry>, n: nat, checksum: Loading.Checksum)
      requires n <= |files| && !Loading.Collected(files[..n], checksum).1
      ensures Loading.Collected(files, checksum) == Loading.Collected(files[..n], checksum)
      decreases |files|
    {
      if n == |files| {
        assert files[..n] == files;
      } else {
        assert files[..|files| - 1][..n] == files[..n];
        CollectedFail(files[..|files| - 1], n, checksum);
      }
    }

    method CollectFiles(files: seq<Loading.Entry>) returns (ok: bool)
      modifies this
      ensures loaded == old(loaded)
      ensures (migrations, ok)
              == (old(migrations) + Loading.Collected(files, checksum).0, Loading.Collected(files, checksum).1)
    {
      hide Loading.HasKey, Loading.Collected, Files.ParseFileName;
      NoFiles(checksum);
      var seen: set<(int, string)> := {};
      NothingSeen();
      ghost var ms: seq<Migration> := [];
      for i := 0 to |files|
        invariant loaded == old(loaded) && migrations == old(migrations) + ms
        invariant Loading.Collected(files[..i], checksum) == (ms, true)
        invariant Seen(seen, ms)
      {
        OneMoreFile(files, i, checksum);
        var parsed := Files.ParseFileName(files[i].name);
        if parsed.Some? {
          var m := parsed.value;
          if (m.version, m.dir) in seen || files[i].content.None? {
            CollectedFail(files, i + 1, checksum);
            return false;
          }
          var sql := TrimSpace(files[i].content.value);
          m := m.(sql := sql, checksum := checksum(sql));
          assert Some(m) == Loading.MigrationIn(files[i], checksum);
          migrations := migrations + [m];
          SeenGrows(seen, ms, m);
          ms := ms + [m];
          seen := seen + {(m.version, m.dir)};
        }
      }
      assert files[..|files|] == files;
      ok := true;
    }

    static lemma NoFiles(checksum: Loading.Checksum)
      ensures Loading.Collected([], checksum) == ([], true)
    {
    }

    static lemma OneMoreFile(files: seq<Loading.Entry>, i: nat, checksum: Loading.Checksum)
      requires i < |files|
      ensures var (ms, ok) := Loading.Collected(files[..i], checksum);
              Loading.Collected(files[..i + 1], checksum) == Loading.CollectStep(ms, ok, files[i], checksum)
    {
      assert files[..i + 1][..i] == files[..i];
    }

    static ghost predicate Seen(seen: set<(int, string)>, ms: seq<Migration>) {
      forall v, d :: (v, d) in seen <==> Loading.HasKey(ms, v, d)
    }

    static lemma NothingSeen()
      ensures Seen({}, [])
    {
    }

    static lemma SeenGrows(seen: set<(int, string)>, ms: seq<Migration>, m: Migration)
      requires Seen(seen, ms)
      ensures Seen(seen + {(m.version, m.dir)}, ms + [m])
    {
      forall v, d ensures Loading.HasKey(ms + [m], v, d) <==> Loading.HasKey(ms, v, d) || (v == m.version && d == m.dir) {
        assert m in ms + [m];
        if Loading.HasKey(ms, v, d) {
          var x :| x in ms && x.version == v && x.dir == d;
          assert x in ms + [m];
        }
      }
    }

    /** fs is what the directories hold at the time of the call. */
    method LoadMigrations(fs: string -> Loading.Root) returns (ok: bool)
      modifies this
      ensures (State(), ok) == Loading.Load(old(State()), opts, fs, checksum)
    {
      if loaded {
        return true;
      }
      var uniq := UniqueDirs(Loading.Dirs(opts));
      var roots := seq(|uniq|, i requires 0 <= i < |uniq| => fs(uniq[i])) + opts.embedded;
      assert roots == Loading.Roots(opts, fs);
      if roots == [] {
        return false;
      }
      var all := ListFiles(roots);
      if all.None? {
        return false;
      }
      ok := CollectFiles(all.value);
      if ok {
        migrations := Loading.SortByKey(migrations);
        loaded := true;
      }
    }

    // ----------------------------------------------------------------
    // Reading

    method OnlySuccesses(all: seq<Row>) returns (ok: seq<Row>)
      ensures ok == Ledger.Successes(all)
    {
      ok := [];
      for i := 0 to |all|
        invariant ok == Ledger.Successes(all[..i])
      {
        assert all[..i + 1][..i] == all[..i];
        if all[i].success {
          ok := ok + [all[i]];
        }
      }
      assert all[..|all|] == all;
    }

    /** None is the panic on a changed checksum. */
    method PendingUp(applied: seq<Row>) returns (r: Option<seq<Migration>>)
      ensures r == Ledger.PendingUp(migrations, applied)
    {
      var appliedSet: map<int, Row> := map[];
      for i := 0 to |applied|
        invariant appliedSet == Ledger.AppliedSet(applied[..i])
      {
        assert applied[..i + 1][..i] == applied[..i];
        if applied[i].success {
          appliedSet := appliedSet[applied[i].version := applied[i]];
        }
      }
      assert applied[..|applied|] == applied;
      var pending: seq<Migration> := [];
      for i := 0 to |migrations|
        invariant pending == Ledger.Pending(migrations[..i], appliedSet)
        invariant forall m | m in migrations[..i] :: !Ledger.Mismatch(m, appliedSet)
      {
        assert migrations[..i + 1][..i] == migrations[..i];
        var m := migrations[i];
        if m.dir == "up" {
          if m.version in appliedSet {
            if appliedSet[m.version].checksum != m.checksum {
              assert m in migrations;
              return None;
            }
          } else {
            pending := pending + [m];
          }
        }
      }
      assert migrations[..|migrations|] == migrations;
      r := Some(Ledger.SortByVersion(pending));
    }

    method Find(version: int, dir: string) returns (r: Option<Migration>)
      ensures r == Ledger.Find(migrations, version, dir)
    {
      for i := 0 to |migrations|
        invariant Ledger.Find(migrations, version, dir) == Ledger.Find(migrations[i..], version, dir)
      {
        if migrations[i].version == version && migrations[i].dir == dir {
          return Some(migrations[i]);
        }
        assert migrations[i..][1..] == migrations[i + 1..];
      }
      r := None;
    }

    // ----------------------------------------------------------------
    // Writing

    method Record(m: Migration, success: bool) returns (s: Status)
      modifies db
      ensures (db.state, s) == Ledger.Record(old(db.state), m, success)
    {
      s := db.Exec(Some(Ledger.Recorded(
        Ledger.RowFor(m, db.state.now + Ledger.Next(db.state).tick, success))));
    }

    method ApplyOne(m: Migration) returns (s: Status)
      modifies db
      ensures (db.state, s) == Ledger.ApplyOne(old(db.state), m)
    {
      hide Ledger.Call, Ledger.Record;
      s := db.Exec(None);
      if s != Ledger.Ok {
        return;
      }
      s := db.Exec(None);
      if s == Ledger.Crashed {
        return;
      }
      if s == Ledger.Err {
        s := db.Exec(None);
        if s != Ledger.Crashed {
          s := Record(m, false);
        }
        return Ledger.NotOk(s);
      }
      s := db.Exec(Some(Ledger.Committed(m)));
      if s == Ledger.Crashed {
        return;
      }
      if s == Ledger.Err {
        s := Record(m, false);
        return Ledger.NotOk(s);
      }
      s := Record(m, true);
    }

    method ApplyAll(pending: seq<Migration>) returns (s: Status)
      modifies db
      ensures (db.state, s) == Ledger.ApplyAll(old(db.state), pending)
    {
      s := Ledger.Ok;
      for i := 0 to |pending|
        invariant s == Ledger.Ok
        invariant Ledger.ApplyAll(old(db.state), pending) == Ledger.ApplyAll(db.state, pending[i..])
      {
        s := ApplyOne(pending[i]);
        if s != Ledger.Ok {
          return;
        }
        assert pending[i..][1..] == pending[i + 1..];
      }
    }

    method DeleteRowAndCommit(m: Migration) returns (s: Status)
      modifies db
      ensures (db.state, s) == Ledger.DeleteRowAndCommit(old(db.state), m)
    {
      var affected := Ledger.CountVersion(Ledger.RowsOf(db.state.log), m.version);
      s := db.Exec(None);
      if s == Ledger.Crashed {
        return;
      }
      if s == Ledger.Err || affected != 1 {
        s := db.Exec(None);
        return Ledger.NotOk(s);
      }
      s := db.Exec(Some(Ledger.Reverted(m)));
    }

    method RevertOne(m: Migration) returns (s: Status)
      modifies db
      ensures (db.state, s) == Ledger.RevertOne(old(db.state), m)
    {
      hide Ledger.Call, Ledger.DeleteRowAndCommit;
      s := db.Exec(None);
      if s != Ledger.Ok {
        return;
      }
      if TrimSpace(m.sql) != "" {
        s := db.Exec(None);
        if s == Ledger.Crashed {
          return;
        }
        if s == Ledger.Err {
          s := db.Exec(None);
          return Ledger.NotOk(s);
        }
      }
      s := DeleteRowAndCommit(m);
    }

    // ----------------------------------------------------------------
    // Up and Down

    /** The migrations this Runner has after loading, None if loading fails. */
    ghost function AfterLoad(st: Loading.State, fs: string -> Loading.Root): Option<seq<Migration>> {
      var (st', ok) := Loading.Load(st, opts, fs, checksum);
      if ok then Some(st'.migrations) else None
    }

    method UpLocked(fs: string -> Loading.Root) returns (s: Status)
      modifies this, db
      ensures (db.state, s) == Ledger.UpLocked(old(db.state), AfterLoad(old(State()), fs))
      ensures State() == old(State()) || State() == Loading.Load(old(State()), opts, fs, checksum).0
    {
      hide Ledger.Call, Ledger.ApplyAll, Ledger.PendingUp, Ledger.LoadApplied, Loading.Load;
      s := db.Exec(None);
      if s != Ledger.Ok {
        return;
      }
      ghost var ensured := db.state;
      var ok := LoadMigrations(fs);
      assert db.state == ensured;
      if !ok {
        return Ledger.Err;
      }
      var applied;
      applied, s := db.Query();
      if s != Ledger.Ok {
        return;
      }
      var pending := PendingUp(applied);
      if pending.None? {
        return Ledger.Panicked;
      }
      s := ApplyAll(pending.value);
    }

    method Up(fs: string -> Loading.Root) returns (s: Status)
      modifies this, db
      ensures (db.state, s) == Ledger.Up(old(db.state), AfterLoad(old(State()), fs))
      ensures State() == old(State()) || State() == Loading.Load(old(State()), opts, fs, checksum).0
    {
      hide Ledger.Call, Ledger.UpLocked, Loading.Load;
      s := db.Exec(None);
      if s != Ledger.Ok {
        return;
      }
      s := UpLocked(fs);
      if s != Ledger.Crashed {
        var u := db.Exec(None);
        if u == Ledger.Crashed {
          s := Ledger.Crashed;
        }
      }
    }

    method DownLocked(fs: string -> Loading.Root) returns (s: Status)
      modifies this, db
      ensures (db.state, s) == Ledger.DownLocked(old(db.state), AfterLoad(old(State()), fs))
      ensures State() == old(State()) || State() == Loading.Load(old(State()), opts, fs, checksum).0
    {
      hide Ledger.Call, Ledger.RevertOne, Ledger.Find, Ledger.LoadApplied, Ledger.Successes, Loading.Load;
      s := db.Exec(None);
      if s != Ledger.Ok {
        return;
      }
      ghost var ensured := db.state;
      var ok := LoadMigrations(fs);
      assert db.state == ensured;
      if !ok {
        return Ledger.Err;
      }
      var all;
      all, s := db.Query();
      if s != Ledger.Ok {
        return;
      }
      var applied := OnlySuccesses(all);
      if |applied| == 0 {
        return Ledger.Ok;
      }
      var down := Find(applied[|applied| - 1].version, "down");
      if down.None? {
        return Ledger.Err;
      }
      s := RevertOne(down.value);
    }

    method Down(fs: string -> Loading.Root) returns (s: Status)
      modifies this, db
      ensures (db.state, s) == Ledger.Down(old(db.state), allowDangerousDown, AfterLoad(old(State()), fs))
      ensures State() == old(State()) || State() == Loading.Load(old(State()), opts, fs, checksum).0
    {
      if !allowDangerousDown {
        return Ledger.Err;
      }
      hide Ledger.Call, Ledger.DownLocked, Loading.Load;
      s := db.Exec(None);
      if s != Ledger.Ok {
        return;
      }
      s := DownLocked(fs);
      if s != Ledger.Crashed {
        var u := db.Exec(None);
        if u == Ledger.Crashed {
          s := Ledger.Crashed;
        }
      }
    }
  }
}
