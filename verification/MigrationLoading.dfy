/** loadMigrations of migrator/migrator.go: which migrations a Runner ends up with. */
module MigrationLoading {
  import opened Common
  import opened Ledger
  import opened LedgerTable
  import opened MigrationFiles
  import opened Decimal

  /** A directory entry; content is None when reading the file fails. */
  datatype Entry = Entry(name: string, isDir: bool, content: Option<string>)

  /** A directory listing, None when reading the directory fails. */
  type Root = Option<seq<Entry>>

  datatype Options = Options(migrationsDir: string, migrationsDirs: seq<string>, embedded: seq<Root>)

  /** The two fields of a Runner that loading changes. */
  datatype State = State(migrations: seq<Migration>, loaded: bool)

  type Checksum = string -> string

  function Dirs(o: Options): seq<string> {
    (if o.migrationsDir != "" then [o.migrationsDir] else []) + o.migrationsDirs
  }

  /** The non-empty directories, each once, in order of first mention. */
  function Unique(dirs: seq<string>): seq<string> {
    if dirs == [] then []
    else
      var before, d := Unique(dirs[..|dirs| - 1]), dirs[|dirs| - 1];
      if d == "" || d in before then before else before + [d]
  }

  function Roots(o: Options, fs: string -> Root): seq<Root> {
    var dirs := Unique(Dirs(o));
    seq(|dirs|, i requires 0 <= i < |dirs| => fs(dirs[i])) + o.embedded
  }

  function Files(es: seq<Entry>): seq<Entry> {
    if es == [] then []
    else Files(es[..|es| - 1]) + (if es[|es| - 1].isDir then [] else [es[|es| - 1]])
  }

  /** The files of all roots, None if one cannot be listed. */
  function AllFiles(roots: seq<Root>): Option<seq<Entry>> {
    if roots == [] then Some([])
    else
      var before, last := AllFiles(roots[..|roots| - 1]), roots[|roots| - 1];
      if before.None? || last.None? then None else Some(before.value + Files(last.value))
  }

  function WithContent(m: Migration, content: string, checksum: Checksum): Migration {
    m.(sql := TrimSpace(content), checksum := checksum(TrimSpace(content)))
  }

  predicate HasKey(ms: seq<Migration>, version: int, dir: string) {
    exists m | m in ms :: m.version == version && m.dir == dir
  }

  /** The migration a file stands for, if its name parses. */
  function MigrationIn(f: Entry, checksum: Checksum): Option<Migration> {
    match ParseFileName(f.name)
    case None => None
    case Some(m) => Some(WithContent(m, f.content.GetOr(""), checksum))
  }

  /** One turn of the parsing loop: what it has appended, and whether it is still going. */
  function CollectStep(ms: seq<Migration>, ok: bool, f: Entry, checksum: Checksum): (seq<Migration>, bool) {
    var m := MigrationIn(f, checksum);
    if !ok || m.None? then (ms, ok)
    else if HasKey(ms, m.value.version, m.value.dir) || f.content.None? then (ms, false)
    else (ms + [m.value], true)
  }

  function Collected(files: seq<Entry>, checksum: Checksum): (seq<Migration>, bool) {
    if files == [] then ([], true)
    else
      var (ms, ok) := Collected(files[..|files| - 1], checksum);
      CollectStep(ms, ok, files[|files| - 1], checksum)
  }

  function StringLess(a: string, b: string): bool {
    if b == "" then false
    else if a == "" then true
    else a[0] < b[0] || (a[0] == b[0] && StringLess(a[1..], b[1..]))
  }

  predicate KeyLess(a: Migration, b: Migration) {
    if a.version == b.version then StringLess(a.dir, b.dir) else a.version < b.version
  }

  function InsertByKey(m: Migration, s: seq<Migration>): seq<Migration> {
    if s == [] then [m]
    else if KeyLess(m, s[|s| - 1]) then InsertByKey(m, s[..|s| - 1]) + [s[|s| - 1]]
    else s + [m]
  }

  function SortByKey(ms: seq<Migration>): seq<Migration> {
    if ms == [] then [] else InsertByKey(ms[|ms| - 1], SortByKey(ms[..|ms| - 1]))
  }

  /** loadMigrations; what a failed load appended stays. */
  function Load(st: State, o: Options, fs: string -> Root, checksum: Checksum): (State, bool) {
    if st.loaded then (st, true)
    else
      var roots := Roots(o, fs);
      if roots == [] then (st, false) else
      match AllFiles(roots)
      case None => (st, false)
      case Some(files) =>
        var (ms, ok) := Collected(files, checksum);
        if ok then (State(SortByKey(st.migrations + ms), true), true)
        else (State(st.migrations + ms, false), false)
  }

  // ------------------------------------------------------------------
  // What is loaded

  /** One migration per parseable file, in reading order. */
  function Parsed(files: seq<Entry>, checksum: Checksum): seq<Migration> {
    if files == [] then []
    else
      var before, m := Parsed(files[..|files| - 1], checksum), MigrationIn(files[|files| - 1], checksum);
      if m.None? then before else before + [m.value]
  }

  ghost predicate AllReadable(files: seq<Entry>) {
    forall f | f in files && ParseFileName(f.name).Some? :: f.content.Some?
  }

  lemma UniqueSnoc(ms: seq<Migration>, m: Migration)
    ensures UniqueSet(ms + [m]) <==> UniqueSet(ms) && !HasKey(ms, m.version, m.dir)
  {
    var all := ms + [m];
    if UniqueSet(all) {
      forall i, j | 0 <= i < j < |ms| ensures ms[i].version != ms[j].version || ms[i].dir != ms[j].dir {
        assert all[i] == ms[i] && all[j] == ms[j];
      }
      forall x | x in ms ensures x.version != m.version || x.dir != m.dir {
        var i :| 0 <= i < |ms| && ms[i] == x;
        assert all[i] == x && all[|ms|] == m;
      }
    }
  }

  /** The loop finishes exactly when every parseable file can be read and no key repeats. */
  lemma {:induction false} CollectedExact(files: seq<Entry>, checksum: Checksum)
    ensures var (ms, ok) := Collected(files, checksum);
            && UniqueSet(ms)
            && (ok <==> AllReadable(files) && UniqueSet(Parsed(files, checksum)))
            && (ok ==> ms == Parsed(files, checksum))
  {
    if files != [] {
      var init, f := files[..|files| - 1], files[|files| - 1];
      assert files == init + [f];
      CollectedExact(init, checksum);
      var (ms, ok) := Collected(init, checksum);
      var m := MigrationIn(f, checksum);
      assert m.Some? <==> ParseFileName(f.name).Some?;
      hide ParseFileName, MigrationIn, WithContent, UniqueSet, HasKey;
      if m.Some? {
        UniqueSnoc(Parsed(init, checksum), m.value);
        UniqueSnoc(ms, m.value);
      }
    }
  }

  /** The loop stops at file f after some others. */
  ghost predicate StopsAt(before: seq<Entry>, f: Entry, checksum: Checksum) {
    var m := MigrationIn(f, checksum);
    m.Some? && (f.content.None? || HasKey(Parsed(before, checksum), m.value.version, m.value.dir))
  }

  /** A loop that fails has appended the migrations of the files before the first that stops it. */
  lemma {:induction false} CollectedUntil(files: seq<Entry>, checksum: Checksum) returns (k: nat)
    ensures k <= |files|
    ensures Collected(files, checksum) == (Parsed(files[..k], checksum), k == |files|)
    ensures k < |files| ==> StopsAt(files[..k], files[k], checksum)
    ensures forall i | 0 <= i < k :: !StopsAt(files[..i], files[i], checksum)
  {
    hide MigrationIn, HasKey;
    k := 0;
    if files != [] {
      var init := files[..|files| - 1];
      k := CollectedUntil(init, checksum);
      assert init[..k] == files[..k];
      forall i | 0 <= i < k ensures files[..i] == init[..i] && files[i] == init[i] {}
      if k == |init| && !StopsAt(init, files[k], checksum) {
        assert files[..k + 1] == files && files[..k] == init;
        k := k + 1;
      }
    }
  }

  ghost predicate SortedByKey(ms: seq<Migration>) {
    forall i, j | 0 <= i < j < |ms| :: KeyLess(ms[i], ms[j])
  }

  ghost predicate ValidDirs(ms: seq<Migration>) {
    forall m | m in ms :: ValidDir(m)
  }

  lemma DownBeforeUp()
    ensures StringLess("down", "up") && !StringLess("up", "down")
    ensures !StringLess("up", "up") && !StringLess("down", "down")
  {
    assert !StringLess("p", "p") && !StringLess("own", "own") by {
      assert "p"[1..] == "" && "own"[1..] == "wn" && "wn"[1..] == "n" && "n"[1..] == "";
    }
    assert "up"[1..] == "p" && "down"[1..] == "own";
  }

  predicate ValidDir(m: Migration) {
    m.dir == "up" || m.dir == "down"
  }

  lemma KeyTotal(a: Migration, b: Migration)
    requires ValidDir(a) && ValidDir(b) && (a.version != b.version || a.dir != b.dir)
    ensures KeyLess(a, b) || KeyLess(b, a)
  {
    hide StringLess;
    DownBeforeUp();
  }

  lemma KeyTransitive(a: Migration, b: Migration, c: Migration)
    requires ValidDir(a) && ValidDir(b) && ValidDir(c) && KeyLess(a, b) && KeyLess(b, c)
    ensures KeyLess(a, c)
  {
    hide StringLess;
    DownBeforeUp();
  }

  lemma {:induction false} InsertByKeySorts(m: Migration, s: seq<Migration>)
    requires SortedByKey(s) && ValidDirs(s) && ValidDir(m) && !HasKey(s, m.version, m.dir)
    ensures SortedByKey(InsertByKey(m, s))
  {
    hide KeyLess, UniqueSet;
    if s != [] {
      var init, last := s[..|s| - 1], s[|s| - 1];
      assert s == init + [last] && last in s;
      InsertMembers(m, init);
      if KeyLess(m, last) {
        InsertByKeySorts(m, init);
        assert forall x | x in init :: KeyLess(x, last);
      } else {
        KeyTotal(m, last);
        forall x | x in init ensures KeyLess(x, m) {
          assert x in s && KeyLess(x, last);
          KeyTransitive(x, last, m);
        }
      }
    }
  }

  lemma {:induction false} InsertMembers(m: Migration, s: seq<Migration>)
    ensures forall x :: x in InsertByKey(m, s) <==> x in s || x == m
    ensures |InsertByKey(m, s)| == |s| + 1
    ensures UniqueSet(InsertByKey(m, s)) <==> UniqueSet(s) && !HasKey(s, m.version, m.dir)
  {
    UniqueSnoc(s, m);
    if s != [] {
      var init, last := s[..|s| - 1], s[|s| - 1];
      assert s == init + [last];
      InsertMembers(m, init);
      UniqueSnoc(init, last);
      UniqueSnoc(InsertByKey(m, init), last);
    }
  }

  /** Sorting keeps the members; keys repeat afterwards exactly if they did before. */
  lemma {:induction false} SortMembers(ms: seq<Migration>)
    ensures forall x :: x in SortByKey(ms) <==> x in ms
    ensures |SortByKey(ms)| == |ms|
    ensures UniqueSet(SortByKey(ms)) <==> UniqueSet(ms)
  {
    if ms != [] {
      var init, last := ms[..|ms| - 1], ms[|ms| - 1];
      assert ms == init + [last];
      SortMembers(init);
      InsertMembers(last, SortByKey(init));
      UniqueSnoc(init, last);
    }
  }

  lemma {:induction false} SortSorts(ms: seq<Migration>)
    requires ValidDirs(ms) && UniqueSet(ms)
    ensures SortedByKey(SortByKey(ms))
  {
    if ms != [] {
      var init, last := ms[..|ms| - 1], ms[|ms| - 1];
      assert ms == init + [last];
      UniqueSnoc(init, last);
      SortSorts(init);
      SortMembers(init);
      InsertByKeySorts(last, SortByKey(init));
    }
  }

  lemma {:induction false} ParsedDirs(files: seq<Entry>, checksum: Checksum)
    ensures ValidDirs(Parsed(files, checksum))
  {
    if files != [] {
      ParsedDirs(files[..|files| - 1], checksum);
      ParseFileNameExact(files[|files| - 1].name);
    }
  }

  /**
   A Runner with nothing left over loads exactly one migration per parseable file of all roots,
   strictly sorted by version and direction; it fails exactly without roots, on an unreadable root
   or migration file, or when a version and direction repeat.
   */
  lemma LoadExact(o: Options, fs: string -> Root, checksum: Checksum)
    ensures var (st, ok) := Load(State([], false), o, fs, checksum);
            var files := AllFiles(Roots(o, fs));
            && st.loaded == ok
            && (ok <==> Roots(o, fs) != [] && files.Some? && AllReadable(files.value)
                        && UniqueSet(Parsed(files.value, checksum)))
            && (ok ==> && SortedByKey(st.migrations) && UniqueSet(st.migrations)
                       && |st.migrations| == |Parsed(files.value, checksum)|
                       && forall m :: m in st.migrations <==> m in Parsed(files.value, checksum))
  {
    var files := AllFiles(Roots(o, fs));
    hide Collected, Parsed, AllReadable, SortByKey, UniqueSet, SortedByKey, ValidDirs, AllFiles, Roots;
    if files.Some? {
      var ms := Parsed(files.value, checksum);
      CollectedExact(files.value, checksum);
      ParsedDirs(files.value, checksum);
      assert [] + Collected(files.value, checksum).0 == Collected(files.value, checksum).0;
      SortMembers(ms);
      if UniqueSet(ms) {
        SortSorts(ms);
      }
    }
  }
}
