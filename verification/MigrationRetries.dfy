/**
 A Runner that loads again after failed loads: what its leftovers do. A load that fails keeps what it has
 appended, so a version can be there twice when the retry succeeds, and the next Up commits it twice.
 Here is exactly when.
 */
module MigrationRetries {
  import opened Common
  import opened Decimal
  import opened Ledger
  import opened LedgerTable
  import opened LedgerCounts
  import opened LedgerUndo
  import opened MigrationFiles
  import opened MigrationLoading

  /** What the directories hold at the time of a load. */
  type FileSystem = string -> Root

  /** The Runner after loads against one file system after the other; its options never change. */
  function AfterLoads(o: Options, fss: seq<FileSystem>, checksum: Checksum): State {
    if fss == [] then State([], false)
    else Load(AfterLoads(o, fss[..|fss| - 1], checksum), o, fss[|fss| - 1], checksum).0
  }

  predicate Succeeds(o: Options, fss: seq<FileSystem>, checksum: Checksum, k: nat)
    requires k < |fss|
  {
    Load(AfterLoads(o, fss[..k], checksum), o, fss[k], checksum).1
  }

  function FilesOf(o: Options, fs: FileSystem): Option<seq<Entry>> {
    AllFiles(Roots(o, fs))
  }

  function Names(files: seq<Entry>): (names: seq<string>)
    ensures |names| == |files| && forall i | 0 <= i < |files| :: names[i] == files[i].name
  {
    seq(|files|, i requires 0 <= i < |files| => files[i].name)
  }

  /** Only contents and readability change: directories that can be listed hold the same file names. */
  ghost predicate SameNames(o: Options, fss: seq<FileSystem>) {
    forall j, k | 0 <= j < |fss| && 0 <= k < |fss| && FilesOf(o, fss[j]).Some? && FilesOf(o, fss[k]).Some? ::
      Names(FilesOf(o, fss[j]).value) == Names(FilesOf(o, fss[k]).value)
  }

  /** The first file that is a migration by its name. */
  function FirstMigration(files: seq<Entry>): Option<Entry> {
    if files == [] then None
    else
      var before, last := FirstMigration(files[..|files| - 1]), files[|files| - 1];
      if before.None? && ParseFileName(last.name).Some? then Some(last) else before
  }

  /** A load stops before it has appended anything: at an unlistable root or at the first migration file. */
  predicate StopsAtOnce(o: Options, fs: FileSystem) {
    match FilesOf(o, fs)
    case None => true
    case Some(files) => FirstMigration(files).Some? && FirstMigration(files).value.content.None?
  }

  /** All loads but the last failed, and the last succeeded. */
  ghost predicate FailedUntilNow(o: Options, fss: seq<FileSystem>, checksum: Checksum) {
    && fss != [] && Succeeds(o, fss, checksum, |fss| - 1)
    && forall k | 0 <= k < |fss| - 1 :: !Succeeds(o, fss, checksum, k)
  }

  // ------------------------------------------------------------------
  // What failed loads leave

  lemma MigrationNamed(f: Entry, checksum: Checksum)
    ensures MigrationIn(f, checksum).Some? <==> ParseFileName(f.name).Some?
  {
    hide ParseFileName;
  }

  lemma NoKeys(version: int, dir: string)
    ensures !HasKey([], version, dir)
  {
  }

  /** What the loop has appended starts with the first migration file, if that could be read. */
  lemma {:induction false} FirstAppended(files: seq<Entry>, checksum: Checksum)
    ensures var (ms, ok) := Collected(files, checksum);
            var first := FirstMigration(files);
            && (first.None? ==> ms == [] && ok)
            && (first.Some? && first.value.content.None? ==> ms == [] && !ok)
            && (first.Some? && first.value.content.Some? ==>
                  ms != [] && first.value in files && MigrationIn(first.value, checksum) == Some(ms[0]))
  {
    hide ParseFileName, MigrationIn, HasKey;
    if files != [] {
      var init, last := files[..|files| - 1], files[|files| - 1];
      FirstAppended(init, checksum);
      assert files == init + [last];
      MigrationNamed(last, checksum);
      if MigrationIn(last, checksum).Some? {
        NoKeys(MigrationIn(last, checksum).value.version, MigrationIn(last, checksum).value.dir);
      }
    }
  }

  function LeftBy(o: Options, fs: FileSystem, checksum: Checksum): seq<Migration> {
    var files := FilesOf(o, fs);
    if files.None? then [] else Collected(files.value, checksum).0
  }

  /** A failed load appends what its loop had collected and nothing is loaded. */
  lemma FailedLoad(st: State, o: Options, fs: FileSystem, checksum: Checksum)
    requires !st.loaded && Roots(o, fs) != [] && !Load(st, o, fs, checksum).1
    ensures Load(st, o, fs, checksum).0 == State(st.migrations + LeftBy(o, fs, checksum), false)
    ensures LeftBy(o, fs, checksum) == [] <==> StopsAtOnce(o, fs)
  {
    hide Collected, AllFiles, Roots, SortByKey, FirstMigration;
    if FilesOf(o, fs).Some? {
      FirstAppended(FilesOf(o, fs).value, checksum);
    }
    assert st.migrations + [] == st.migrations;
  }

  lemma RootsRemain(o: Options, fs: FileSystem, fs': FileSystem)
    ensures |Roots(o, fs)| == |Roots(o, fs')|
  {
  }

  function AllLeft(o: Options, fss: seq<FileSystem>, checksum: Checksum): seq<Migration> {
    if fss == [] then []
    else AllLeft(o, fss[..|fss| - 1], checksum) + LeftBy(o, fss[|fss| - 1], checksum)
  }

  lemma SuccessHasFiles(st: State, o: Options, fs: FileSystem, checksum: Checksum)
    requires !st.loaded && Load(st, o, fs, checksum).1
    ensures Roots(o, fs) != [] && FilesOf(o, fs).Some?
    ensures Load(st, o, fs, checksum).0.migrations == SortByKey(st.migrations + Parsed(FilesOf(o, fs).value, checksum))
    ensures UniqueSet(Parsed(FilesOf(o, fs).value, checksum))
  {
    hide AllFiles, Roots, SortByKey, UniqueSet, Parsed, Collected;
    if FilesOf(o, fs).Some? {
      CollectedExact(FilesOf(o, fs).value, checksum);
    }
  }

  lemma {:induction false} Leftovers(o: Options, fss: seq<FileSystem>, checksum: Checksum, k: nat, last: FileSystem)
    requires k <= |fss| && Roots(o, last) != []
    requires forall i | 0 <= i < k :: !Succeeds(o, fss, checksum, i)
    ensures AfterLoads(o, fss[..k], checksum) == State(AllLeft(o, fss[..k], checksum), false)
    decreases k
  {
    hide Load, LeftBy;
    if k > 0 {
      Leftovers(o, fss, checksum, k - 1, last);
      assert fss[..k][..k - 1] == fss[..k - 1];
      RootsRemain(o, last, fss[k - 1]);
      assert !Succeeds(o, fss, checksum, k - 1);
      FailedLoad(AfterLoads(o, fss[..k - 1], checksum), o, fss[k - 1], checksum);
    }
  }

  lemma {:induction false} AllLeftEmpty(o: Options, fss: seq<FileSystem>, checksum: Checksum)
    ensures AllLeft(o, fss, checksum) == [] <==> forall k | 0 <= k < |fss| :: LeftBy(o, fss[k], checksum) == []
    ensures forall k, m | 0 <= k < |fss| && m in LeftBy(o, fss[k], checksum) :: m in AllLeft(o, fss, checksum)
  {
    hide LeftBy;
    if fss != [] {
      var init := fss[..|fss| - 1];
      AllLeftEmpty(o, init, checksum);
      assert forall k | 0 <= k < |init| :: init[k] == fss[k];
    }
  }

  /** A Runner that has loaded never reads a file again, whatever the directories hold later. */
  lemma {:induction false} LoadsOnce(o: Options, fss: seq<FileSystem>, more: seq<FileSystem>, checksum: Checksum)
    requires AfterLoads(o, fss, checksum).loaded
    ensures AfterLoads(o, fss + more, checksum) == AfterLoads(o, fss, checksum)
    ensures more != [] ==> Succeeds(o, fss + more, checksum, |fss + more| - 1)
  {
    if more == [] {
      assert fss + more == fss;
    } else {
      var n := |fss + more| - 1;
      LoadsOnce(o, fss, more[..|more| - 1], checksum);
      assert (fss + more)[..n] == fss + more[..|more| - 1];
    }
  }

  // ------------------------------------------------------------------
  // When a retry holds a key twice

  /** The migration of a file is in the parse of any files with its name. */
  lemma {:induction false} ParsedKey(files: seq<Entry>, checksum: Checksum, name: string)
    requires name in Names(files) && ParseFileName(name).Some?
    ensures HasKey(Parsed(files, checksum), ParseFileName(name).value.version, ParseFileName(name).value.dir)
  {
    hide ParseFileName;
    var init, last := files[..|files| - 1], files[|files| - 1];
    var m := ParseFileName(name).value;
    if last.name == name {
      assert MigrationIn(last, checksum).value in Parsed(files, checksum);
    } else {
      var i :| 0 <= i < |files| && Names(files)[i] == name;
      assert init[i].name == name && Names(init)[i] == name;
      ParsedKey(init, checksum, name);
      var x :| x in Parsed(init, checksum) && x.version == m.version && x.dir == m.dir;
      assert x in Parsed(files, checksum);
    }
  }

  lemma SharedKey(left: seq<Migration>, ms: seq<Migration>, m: Migration)
    requires m in left && HasKey(ms, m.version, m.dir)
    ensures !UniqueSet(left + ms)
  {
    var x :| x in ms && x.version == m.version && x.dir == m.dir;
    var i :| 0 <= i < |left| && left[i] == m;
    var j :| 0 <= j < |ms| && ms[j] == x;
    assert (left + ms)[i] == m && (left + ms)[|left| + j] == x;
  }

  /** What a failed load left shares a key with what the same file names parse to. */
  lemma LeftoverRepeats(o: Options, fs: FileSystem, last: FileSystem, checksum: Checksum) returns (m: Migration)
    requires FilesOf(o, fs).Some? && FilesOf(o, last).Some?
    requires Names(FilesOf(o, fs).value) == Names(FilesOf(o, last).value) && LeftBy(o, fs, checksum) != []
    ensures m in LeftBy(o, fs, checksum) && HasKey(Parsed(FilesOf(o, last).value, checksum), m.version, m.dir)
  {
    hide Collected, AllFiles, Roots, Parsed, HasKey, ParseFileName, FirstMigration;
    var files := FilesOf(o, fs).value;
    FirstAppended(files, checksum);
    m := Collected(files, checksum).0[0];
    var first := FirstMigration(files).value;
    var i :| 0 <= i < |files| && files[i] == first;
    assert Names(files)[i] == first.name;
    ParsedKey(FilesOf(o, last).value, checksum, first.name);
  }

  /**
   A Runner whose loads failed until the last one, over file names that stay the same: what it holds
   then is free of duplicates if and only if every failed load had stopped at once.
   */
  lemma RetryUniqueExactly(o: Options, fss: seq<FileSystem>, checksum: Checksum)
    requires FailedUntilNow(o, fss, checksum) && SameNames(o, fss)
    ensures UniqueSet(AfterLoads(o, fss, checksum).migrations) <==>
            forall k | 0 <= k < |fss| - 1 :: StopsAtOnce(o, fss[k])
  {
    hide Load, UniqueSet, Parsed, SortByKey, LeftBy, FilesOf, Roots, Names, StopsAtOnce;
    var n, before := |fss| - 1, fss[..|fss| - 1];
    var last := fss[n];
    LastLoad(o, fss, checksum);
    AllLeftEmpty(o, before, checksum);
    var left, ms := AllLeft(o, before, checksum), Parsed(FilesOf(o, last).value, checksum);
    SortMembers(left + ms);
    forall k | 0 <= k < n ensures LeftBy(o, before[k], checksum) == [] <==> StopsAtOnce(o, fss[k]) {
      StoppedAtOnce(o, fss, checksum, k);
    }
    if left == [] {
      assert left + ms == ms;
    } else {
      var k :| 0 <= k < n && LeftBy(o, before[k], checksum) != [];
      LeftHasFiles(o, before[k], checksum);
      var m := LeftoverRepeats(o, before[k], last, checksum);
      SharedKey(left, ms, m);
    }
  }

  lemma LeftHasFiles(o: Options, fs: FileSystem, checksum: Checksum)
    ensures LeftBy(o, fs, checksum) != [] ==> FilesOf(o, fs).Some?
  {
  }

  lemma StoppedAtOnce(o: Options, fss: seq<FileSystem>, checksum: Checksum, k: nat)
    requires FailedUntilNow(o, fss, checksum) && k < |fss| - 1
    ensures LeftBy(o, fss[k], checksum) == [] <==> StopsAtOnce(o, fss[k])
  {
    hide Load, LeftBy, StopsAtOnce, Roots;
    LastLoad(o, fss, checksum);
    Leftovers(o, fss, checksum, k, fss[|fss| - 1]);
    RootsRemain(o, fss[|fss| - 1], fss[k]);
    assert !Succeeds(o, fss, checksum, k);
    FailedLoad(AfterLoads(o, fss[..k], checksum), o, fss[k], checksum);
  }

  /** The successful load sorts the leftovers together with what it has parsed. */
  lemma LastLoad(o: Options, fss: seq<FileSystem>, checksum: Checksum)
    requires FailedUntilNow(o, fss, checksum)
    ensures var last := fss[|fss| - 1];
            && Roots(o, last) != [] && FilesOf(o, last).Some? && UniqueSet(Parsed(FilesOf(o, last).value, checksum))
            && AfterLoads(o, fss, checksum).migrations
               == SortByKey(AllLeft(o, fss[..|fss| - 1], checksum) + Parsed(FilesOf(o, last).value, checksum))
  {
    hide UniqueSet, Parsed, SortByKey, AllFiles, LeftBy;
    var n, last := |fss| - 1, fss[|fss| - 1];
    SomeRoots(o, fss, checksum);
    Leftovers(o, fss, checksum, n, last);
    hide Load;
    assert Succeeds(o, fss, checksum, n);
    SuccessHasFiles(AfterLoads(o, fss[..n], checksum), o, last, checksum);
  }

  /** Without roots nothing is ever loaded. */
  lemma SomeRoots(o: Options, fss: seq<FileSystem>, checksum: Checksum)
    requires FailedUntilNow(o, fss, checksum)
    ensures Roots(o, fss[|fss| - 1]) != []
  {
    NoRoots(o, fss, checksum, |fss| - 1, fss[|fss| - 1]);
    assert Succeeds(o, fss, checksum, |fss| - 1);
  }

  lemma {:induction false} NoRoots(o: Options, fss: seq<FileSystem>, checksum: Checksum, k: nat, fs: FileSystem)
    requires k <= |fss|
    ensures Roots(o, fs) == [] ==> AfterLoads(o, fss[..k], checksum) == State([], false)
    decreases k
  {
    if k > 0 {
      NoRoots(o, fss, checksum, k - 1, fs);
      assert fss[..k][..k - 1] == fss[..k - 1];
      RootsRemain(o, fs, fss[k - 1]);
    }
  }

  // ------------------------------------------------------------------
  // What the duplicates do

  lemma {:induction false} InsertUpEntries(m: Migration, s: seq<Migration>, version: int)
    ensures UpEntries(InsertByKey(m, s), version) == UpEntries(s, version) + Bit(m.dir == "up" && m.version == version)
  {
    hide KeyLess;
    UpEntriesSnoc(s, m, version);
    if s != [] && KeyLess(m, s[|s| - 1]) {
      var init, last := s[..|s| - 1], s[|s| - 1];
      assert s == init + [last];
      InsertUpEntries(m, init, version);
      UpEntriesSnoc(init, last, version);
      UpEntriesSnoc(InsertByKey(m, init), last, version);
    } else if s == [] {
      assert [] + [m] == [m];
    }
  }

  lemma UpEntriesSnoc(s: seq<Migration>, m: Migration, version: int)
    ensures UpEntries(s + [m], version) == UpEntries(s, version) + Bit(m.dir == "up" && m.version == version)
  {
    assert (s + [m])[..|s|] == s;
  }

  lemma {:induction false} SortUpEntries(ms: seq<Migration>, version: int)
    ensures UpEntries(SortByKey(ms), version) == UpEntries(ms, version)
  {
    hide InsertByKey, UpEntries;
    if ms != [] {
      var init, last := ms[..|ms| - 1], ms[|ms| - 1];
      assert ms == init + [last];
      SortUpEntries(init, version);
      InsertUpEntries(last, SortByKey(init), version);
      UpEntriesSnoc(init, last, version);
    }
  }

  lemma {:induction false} UpEntriesConcat(a: seq<Migration>, b: seq<Migration>, version: int)
    ensures UpEntries(a + b, version) == UpEntries(a, version) + UpEntries(b, version)
  {
    if b == [] {
      assert a + b == a;
    } else {
      UpEntriesConcat(a, b[..|b| - 1], version);
      assert (a + b)[..|a + b| - 1] == a + b[..|b| - 1];
    }
  }

  /**
   On an empty ledger the Up of such a Runner, if it returns nil, commits a version once for its file
   and once more for each time a failed load had left it.
   */
  lemma RetriedUpCommits(o: Options, fss: seq<FileSystem>, checksum: Checksum, db: Db, version: int)
    requires FailedUntilNow(o, fss, checksum) && db.log == [] && db.now >= 0
    requires Up(db, Some(AfterLoads(o, fss, checksum).migrations)).1.Ok?
    ensures FilesOf(o, fss[|fss| - 1]).Some?
    ensures Commits(Up(db, Some(AfterLoads(o, fss, checksum).migrations)).0.log, version)
            == UpEntries(AllLeft(o, fss[..|fss| - 1], checksum), version)
               + UpEntries(Parsed(FilesOf(o, fss[|fss| - 1]).value, checksum), version)
  {
    hide Up, Load, UniqueSet, Parsed, SortByKey, LeftBy, FilesOf, Roots, UpEntries, AfterLoads, AllLeft;
    LastLoad(o, fss, checksum);
    var left, ms := AllLeft(o, fss[..|fss| - 1], checksum), Parsed(FilesOf(o, fss[|fss| - 1]).value, checksum);
    FirstUpCommits(db, AfterLoads(o, fss, checksum).migrations, version);
    SortUpEntries(left + ms, version);
    UpEntriesConcat(left, ms, version);
  }

  // ------------------------------------------------------------------
  // It happens

  /** The file of the given parts, readable or not. */
  function FileOf(p: Parts, content: Option<string>): Entry {
    Entry(Print(p), false, content)
  }

  function MigrationOf(p: Parts, content: string, checksum: Checksum): Migration
    requires IsDigits(p.digits)
  {
    WithContent(Migration(Value(p.digits), p.name, p.dir, Print(p), "", ""), content, checksum)
  }

  lemma MigrationInFile(p: Parts, content: Option<string>, checksum: Checksum)
    requires ValidParts(p)
    ensures MigrationIn(FileOf(p, content), checksum) == Some(MigrationOf(p, content.GetOr(""), checksum))
  {
    hide ParseFileName, Print;
    ParsePrinted(p);
  }

  /** One directory and nothing else. */
  const ONE_DIR := Options("d", [], [])

  lemma OneDirectory(fs: FileSystem, es: seq<Entry>)
    requires fs("d") == Some(es)
    ensures Roots(ONE_DIR, fs) == [Some(es)] && AllFiles([Some(es)]) == Some(Files(es))
  {
    assert ["d"][..0] == [] && [] + ["d"] == ["d"];
    assert Dirs(ONE_DIR) == ["d"] && Unique(["d"]) == ["d"];
    var roots: seq<Root> := [Some(es)];
    assert roots[..0] == [] && [] + Files(es) == Files(es);
    assert Roots(ONE_DIR, fs) == [fs("d")];
  }

  /** Two files, the first readable: what the loop makes of them. */
  lemma CollectTwo(f: Entry, g: Entry, m: Migration, n: Migration, checksum: Checksum)
    requires !f.isDir && !g.isDir && f.content.Some?
    requires MigrationIn(f, checksum) == Some(m) && MigrationIn(g, checksum) == Some(n)
    requires m.version != n.version || m.dir != n.dir
    ensures Files([f, g]) == [f, g]
    ensures Collected([f, g], checksum) == if g.content.Some? then ([m, n], true) else ([m], false)
  {
    hide MigrationIn;
    assert [f, g][..1] == [f] && [f][..0] == [];
    assert [] + [f] == [f] && [f] + [g] == [f, g];
    assert [] + [m] == [m] && [m] + [n] == [m, n];
    assert Files([f]) == [f];
    assert Collected([f], checksum) == ([m], true);
  }

  /**
   One Runner, one directory: a readable migration before an unreadable one. The load fails and leaves
   the first; when the second can be read, the retry succeeds and holds the first twice.
   */
  lemma RetryDuplicates(p: Parts, q: Parts, content: string, other: string, fs: FileSystem, fs': FileSystem,
                        checksum: Checksum)
    requires ValidParts(p) && ValidParts(q)
    requires Value(p.digits) != Value(q.digits) || p.dir != q.dir
    requires fs("d") == Some([FileOf(p, Some(content)), FileOf(q, None)])
    requires fs'("d") == Some([FileOf(p, Some(content)), FileOf(q, Some(other))])
    ensures var m, n := MigrationOf(p, content, checksum), MigrationOf(q, other, checksum);
            var failed := Load(State([], false), ONE_DIR, fs, checksum);
            var retried := Load(failed.0, ONE_DIR, fs', checksum);
            && failed == (State([m], false), false)
            && retried == (State(SortByKey([m] + [m, n]), true), true) && !UniqueSet(retried.0.migrations)
  {
    hide Collected, Files, AllFiles, Roots, MigrationIn, Print, UniqueSet, SortByKey, ValidParts;
    PartsAreDigits(p);
    PartsAreDigits(q);
    var m, n := MigrationOf(p, content, checksum), MigrationOf(q, other, checksum);
    var f, g, g' := FileOf(p, Some(content)), FileOf(q, None), FileOf(q, Some(other));
    MigrationInFile(p, Some(content), checksum);
    MigrationInFile(q, None, checksum);
    MigrationInFile(q, Some(other), checksum);
    OneDirectory(fs, [f, g]);
    OneDirectory(fs', [f, g']);
    CollectTwo(f, g, m, MigrationOf(q, "", checksum), checksum);
    CollectTwo(f, g', m, n, checksum);
    assert [] + [m] == [m];
    SortMembers([m] + [m, n]);
    Twice(m, n);
  }

  lemma Twice(m: Migration, n: Migration)
    ensures !UniqueSet([m] + [m, n])
  {
    var ms := [m] + [m, n];
    assert ms[0] == m && ms[1] == m;
  }

  /** The first Up of that Runner, with a database that answers every call, commits the migration twice. */
  lemma RetryCommitsTwice(p: Parts, q: Parts, content: string, other: string, fs: FileSystem, fs': FileSystem,
                          checksum: Checksum, db: Db)
    requires ValidParts(p) && ValidParts(q) && p.dir == "up"
    requires Value(p.digits) != Value(q.digits) || p.dir != q.dir
    requires fs("d") == Some([FileOf(p, Some(content)), FileOf(q, None)])
    requires fs'("d") == Some([FileOf(p, Some(content)), FileOf(q, Some(other))])
    requires db.log == [] && db.now >= 0 && AllDone(db, 16)
    ensures var ms := Load(Load(State([], false), ONE_DIR, fs, checksum).0, ONE_DIR, fs', checksum).0.migrations;
            Up(db, Some(ms)).1.Ok? && Commits(Up(db, Some(ms)).0.log, Value(p.digits)) == 2
  {
    hide Load, Up, UniqueSet, SortByKey, Print, ValidParts, UpEntries, AllDone;
    PartsAreDigits(p);
    PartsAreDigits(q);
    RetryDuplicates(p, q, content, other, fs, fs', checksum);
    var m, n := MigrationOf(p, content, checksum), MigrationOf(q, other, checksum);
    var ms := SortByKey([m] + [m, n]);
    SortMembers([m] + [m, n]);
    EmptyLedgerUp(db, ms);
    FirstUpCommits(db, ms, m.version);
    SortUpEntries([m] + [m, n], m.version);
    assert [m] + [m, n] == [] + [m] + [m] + [n];
    UpEntriesSnoc([], m, m.version);
    UpEntriesSnoc([] + [m], m, m.version);
    UpEntriesSnoc([] + [m] + [m], n, m.version);
    NoUpEntries(m.version);
  }

  lemma NoUpEntries(version: int)
    ensures UpEntries([], version) == 0
  {
  }

  lemma FewerDone(db: Db, n: nat, k: nat)
    requires AllDone(db, n) && k <= n
    ensures AllDone(db, k)
  {
  }

  lemma {:induction false} PendingLength(ms: seq<Migration>, applied: map<int, Row>)
    ensures |Pending(ms, applied)| <= |ms|
  {
    if ms != [] {
      PendingLength(ms[..|ms| - 1], applied);
    }
  }

  lemma {:induction false} InsertLength(m: Migration, s: seq<Migration>)
    ensures |InsertMigration(m, s)| == |s| + 1
  {
    if s != [] {
      InsertLength(m, s[..|s| - 1]);
    }
  }

  lemma {:induction false} SortLength(ms: seq<Migration>)
    ensures |SortByVersion(ms)| == |ms|
  {
    if ms != [] {
      SortLength(ms[..|ms| - 1]);
      InsertLength(ms[|ms| - 1], SortByVersion(ms[..|ms| - 1]));
    }
  }

  lemma EmptyLedgerUp(db: Db, ms: seq<Migration>)
    requires db.log == [] && AllDone(db, 4 + 4 * |ms|)
    ensures Up(db, Some(ms)).1.Ok?
  {
    hide Up, Pending, SortByVersion;
    NothingApplied(db);
    var p := PendingUp(ms, LoadApplied(db)).value;
    PendingLength(ms, map[]);
    SortLength(Pending(ms, map[]));
    FewerDone(db, 4 + 4 * |ms|, 4 + 4 * |p|);
    UpCompletes(db, ms);
  }
}
