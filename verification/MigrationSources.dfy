/**
 Where the migrations of a Runner come from: every directory and embedded listing once, every plain
 migration file in them, and of each file its text without the space around it.
 */
module MigrationSources {
  import opened Common
  import opened Texts
  import opened Decimal
  import opened Ledger
  import opened LedgerTable
  import opened MigrationFiles
  import opened MigrationLoading

  // ------------------------------------------------------------------
  // Directories and listings

  /** The options name the directory. */
  predicate Mentioned(o: Options, d: string) {
    d != "" && (d == o.migrationsDir || d in o.migrationsDirs)
  }

  /** Each non-empty directory is there once; those mentioned earlier come first. */
  lemma {:induction false} UniqueExact(dirs: seq<string>, k: nat)
    requires k <= |dirs|
    ensures Distinct(Unique(dirs)) && forall d :: d in Unique(dirs) <==> d in dirs && d != ""
    ensures Unique(dirs[..k]) <= Unique(dirs)
  {
    if k == |dirs| {
      assert dirs[..k] == dirs;
    }
    if dirs != [] {
      var init := dirs[..|dirs| - 1];
      assert dirs == init + [dirs[|dirs| - 1]];
      UniqueExact(init, if k < |dirs| then k else 0);
      assert k < |dirs| ==> dirs[..k] == init[..k];
    }
  }

  /** First the directories, once each, then the embedded listings, all in order. */
  lemma RootsExact(o: Options, fs: string -> Root)
    ensures var dirs, roots := Unique(Dirs(o)), Roots(o, fs);
            && |roots| == |dirs| + |o.embedded| && roots[|dirs|..] == o.embedded
            && (forall i | 0 <= i < |dirs| :: roots[i] == fs(dirs[i]))
            && (forall d :: d in dirs <==> Mentioned(o, d)) && Distinct(dirs)
    ensures Dirs(o) == if o.migrationsDir == "" then o.migrationsDirs else [o.migrationsDir] + o.migrationsDirs
  {
    hide Unique;
    UniqueExact(Dirs(o), 0);
    assert [] + o.migrationsDirs == o.migrationsDirs;
  }

  /** A listing of a directory that the options name, or an embedded one. */
  ghost predicate Source(o: Options, fs: string -> Root, r: Root) {
    r in o.embedded || exists d :: Mentioned(o, d) && fs(d) == r
  }

  lemma SourcesExact(o: Options, fs: string -> Root, r: Root)
    ensures r in Roots(o, fs) <==> Source(o, fs, r)
  {
    hide Unique, Dirs, Roots;
    RootsExact(o, fs);
    var dirs, roots := Unique(Dirs(o)), Roots(o, fs);
    assert roots == roots[..|dirs|] + o.embedded;
    if r in roots[..|dirs|] {
      var i :| 0 <= i < |dirs| && roots[i] == r;
      assert dirs[i] in dirs && Mentioned(o, dirs[i]);
    }
    if d :| Mentioned(o, d) && fs(d) == r {
      var i :| 0 <= i < |dirs| && dirs[i] == d;
      assert roots[i] == r;
    }
  }

  /** The plain files of a listing, in order: each entry that is no directory, as often as it is listed. */
  lemma {:induction false} FilesExact(es: seq<Entry>, e: Entry)
    ensures multiset(Files(es))[e] == if e.isDir then 0 else multiset(es)[e]
    ensures e in Files(es) <==> e in es && !e.isDir
  {
    if es != [] {
      FilesExact(es[..|es| - 1], e);
      assert es == es[..|es| - 1] + [es[|es| - 1]];
    }
  }

  /** The files of a list of listings are those of each; there is no list if one cannot be read. */
  lemma {:induction false} AllFilesExact(roots: seq<Root>, e: Entry)
    ensures AllFiles(roots).None? <==> None in roots
    ensures AllFiles(roots).Some? ==>
              (e in AllFiles(roots).value <==> !e.isDir && exists r | r in roots :: r.Some? && e in r.value)
  {
    hide Files;
    if roots != [] {
      var init, last := roots[..|roots| - 1], roots[|roots| - 1];
      assert roots == init + [last];
      AllFilesExact(init, e);
      if last.Some? {
        FilesExact(last.value, e);
      }
    }
  }

  // ------------------------------------------------------------------
  // What a migration carries

  /** m is the migration of the plain file e: named by it, and with its text without the space around. */
  ghost predicate Carries(m: Migration, e: Entry, checksum: Checksum) {
    && !e.isDir && e.content.Some?
    && m.file == e.name && (exists digits :: Named(Base(e.name), digits, m.name, m.dir) && m.version == Value(digits))
    && Bare(m.sql) && Padded(e.content.value, m.sql) && m.checksum == checksum(m.sql)
  }

  lemma CarriedText(e: Entry, checksum: Checksum, m: Migration)
    requires !e.isDir && e.content.Some?
    ensures MigrationIn(e, checksum) == Some(m) <==> Carries(m, e, checksum)
  {
    hide ParseFileName, TrimSpace, Base, Named;
    ParseFileNameExact(e.name);
    TrimExact(e.content.value, m.sql);
    if ParseFileName(e.name).Some? {
      var digits, n, dir :| Named(Base(e.name), digits, n, dir);
      NamedDigits(Base(e.name), digits, n, dir);
    }
    forall digits | Named(Base(e.name), digits, m.name, m.dir)
      ensures IsDigits(digits) && ParseFileName(e.name) == Some(Migration(Value(digits), m.name, m.dir, e.name, "", ""))
    {
      NamedDigits(Base(e.name), digits, m.name, m.dir);
    }
  }

  lemma NamedDigits(base: string, digits: string, name: string, dir: string)
    requires Named(base, digits, name, dir)
    ensures IsDigits(digits)
  {
  }

  lemma {:induction false} ParsedExact(files: seq<Entry>, checksum: Checksum, m: Migration)
    ensures m in Parsed(files, checksum) <==> exists e | e in files :: MigrationIn(e, checksum) == Some(m)
  {
    hide MigrationIn;
    if files != [] {
      ParsedExact(files[..|files| - 1], checksum, m);
      assert files == files[..|files| - 1] + [files[|files| - 1]];
    }
  }

  /** A plain file of some source. */
  ghost predicate SourceFile(o: Options, fs: string -> Root, e: Entry) {
    !e.isDir && exists r :: Source(o, fs, r) && r.Some? && e in r.value
  }

  /**
   A Runner with nothing left over that has loaded holds exactly the migrations of the plain files in its
   sources, each with the file's own text and its checksum, and could read every source and every one of
   them.
   */
  lemma LoadedFromFiles(o: Options, fs: string -> Root, checksum: Checksum, m: Migration)
    requires Load(State([], false), o, fs, checksum).1
    ensures m in Load(State([], false), o, fs, checksum).0.migrations
            <==> exists e :: SourceFile(o, fs, e) && Carries(m, e, checksum)
    ensures !Source(o, fs, None)
    ensures forall e | SourceFile(o, fs, e) && ParseFileName(e.name).Some? :: e.content.Some?
  {
    hide Roots, AllFiles, Parsed, Carries, Source, ParseFileName, SortedByKey, UniqueSet, Load, MigrationIn;
    LoadExact(o, fs, checksum);
    var roots := Roots(o, fs);
    var files := AllFiles(roots).value;
    forall r ensures r in roots <==> Source(o, fs, r) {
      SourcesExact(o, fs, r);
    }
    forall e ensures e in files <==> SourceFile(o, fs, e) {
      AllFilesExact(roots, e);
    }
    ParsedExact(files, checksum, m);
    assert None !in roots by { AllFilesExact(roots, Entry("", false, None)); }
    forall e | SourceFile(o, fs, e) ensures MigrationIn(e, checksum) == Some(m) <==> Carries(m, e, checksum) {
      ReadFile(e, checksum, m);
    }
  }

  lemma ReadFile(e: Entry, checksum: Checksum, m: Migration)
    requires !e.isDir && (ParseFileName(e.name).Some? ==> e.content.Some?)
    ensures MigrationIn(e, checksum) == Some(m) <==> Carries(m, e, checksum)
  {
    hide ParseFileName, Named, TrimSpace;
    if e.content.Some? {
      CarriedText(e, checksum, m);
    }
  }
}
