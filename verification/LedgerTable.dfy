/**
 Facts about the ledger table and the pending list, for any contents: one row per version, what records
 and reverts do to it, the order in which it is read, which migrations are pending and when the
 checksums make the engine panic.
 */
module LedgerTable {
  import opened Common
  import opened Ledger

  function Versions(rows: seq<Row>): (v: seq<int>)
    ensures |v| == |rows| && forall i | 0 <= i < |rows| :: v[i] == rows[i].version
  {
    seq(|rows|, i requires 0 <= i < |rows| => rows[i].version)
  }

  function MigrationVersions(ms: seq<Migration>): (v: seq<int>)
    ensures |v| == |ms| && forall i | 0 <= i < |ms| :: v[i] == ms[i].version
  {
    seq(|ms|, i requires 0 <= i < |ms| => ms[i].version)
  }

  ghost predicate Ascending(v: seq<int>) {
    forall i, j | 0 <= i < j < |v| :: v[i] < v[j]
  }

  // ------------------------------------------------------------------
  // The table has one row per version

  ghost predicate Keyed(rows: seq<Row>) {
    forall i, j | 0 <= i < j < |rows| :: rows[i].version != rows[j].version
  }

  lemma {:induction false} DeleteRows(rows: seq<Row>, version: int)
    requires Keyed(rows)
    ensures Keyed(Delete(rows, version))
    ensures forall r :: r in Delete(rows, version) <==> r in rows && r.version != version
  {
    if rows != [] {
      var init, last := rows[..|rows| - 1], rows[|rows| - 1];
      DeleteRows(init, version);
      assert rows == init + [last];
      assert forall r | r in Delete(init, version) :: r in init && r.version != last.version;
    }
  }

  lemma {:induction false} TableKeyed(log: seq<Effect>)
    ensures Keyed(RowsOf(log))
  {
    if log != [] {
      var before := RowsOf(log[..|log| - 1]);
      TableKeyed(log[..|log| - 1]);
      match log[|log| - 1]
      case Committed(_) =>
      case Recorded(row) =>
        DeleteRows(before, row.version);
      case Reverted(m) =>
        DeleteRows(before, m.version);
    }
  }

  lemma RowsSnoc(log: seq<Effect>, e: Effect)
    ensures RowsOf(log + [e]) == TableStep(RowsOf(log), e)
  {
    assert (log + [e])[..|log|] == log;
  }

  /** What each effect does to the table: one row written for its version, none left, or nothing. */
  lemma TableExact(log: seq<Effect>, e: Effect, r: Row)
    ensures r in RowsOf(log + [e]) <==>
              match e
              case Recorded(row) => r == row || (r in RowsOf(log) && r.version != row.version)
              case Reverted(m) => r in RowsOf(log) && r.version != m.version
              case Committed(_) => r in RowsOf(log)
  {
    hide RowsOf, Delete;
    RowsSnoc(log, e);
    TableKeyed(log);
    match e
    case Recorded(row) => DeleteRows(RowsOf(log), row.version);
    case Reverted(m) => DeleteRows(RowsOf(log), m.version);
    case Committed(_) =>
  }

  /** Deleting a version that has no success row keeps the success rows. */
  lemma {:induction false} DeleteFailure(rows: seq<Row>, version: int)
    requires version !in Versions(Successes(rows))
    ensures Successes(Delete(rows, version)) == Successes(rows)
  {
    if rows != [] {
      var init, last := rows[..|rows| - 1], rows[|rows| - 1];
      assert Versions(Successes(rows)) == Versions(Successes(init)) + (if last.success then [last.version] else []);
      DeleteFailure(init, version);
      if last.version == version {
        assert !last.success;
        assert Delete(rows, version) == Delete(init, version);
      } else {
        assert Delete(rows, version)[..|Delete(rows, version)| - 1] == Delete(init, version);
      }
    }
  }

  lemma {:induction false} DeleteAbsent(rows: seq<Row>, version: int)
    requires forall r | r in rows :: r.version != version
    ensures Delete(rows, version) == rows
  {
    if rows != [] {
      var init, last := rows[..|rows| - 1], rows[|rows| - 1];
      assert rows == init + [last] && last in rows;
      DeleteAbsent(init, version);
    }
  }

  lemma {:induction false} SuccessesMembers(rows: seq<Row>)
    ensures forall r :: r in Successes(rows) <==> r in rows && r.success
  {
    if rows != [] {
      SuccessesMembers(rows[..|rows| - 1]);
      assert rows == rows[..|rows| - 1] + [rows[|rows| - 1]];
    }
  }

  /** Deleting the version of the last success row drops exactly that row from the success rows. */
  lemma {:induction false} DeleteTop(rows: seq<Row>, version: int)
    requires Keyed(rows)
    requires Successes(rows) != [] && Successes(rows)[|Successes(rows)| - 1].version == version
    ensures Successes(Delete(rows, version)) == Successes(rows)[..|Successes(rows)| - 1]
    ensures CountVersion(rows, version) == 1
  {
    var init, last := rows[..|rows| - 1], rows[|rows| - 1];
    assert rows == init + [last];
    SuccessesLast(init, last);
    if last.success {
      assert forall r | r in init :: r.version != last.version;
      DeleteAbsent(init, version);
      CountAbsent(init, version);
      assert Delete(rows, version) == init;
    } else {
      NotTheTop(init, last);
      hide Successes, Keyed;
      DeleteTop(init, version);
      assert Delete(rows, version) == Delete(init, version) + [last];
      SuccessesLast(Delete(init, version), last);
    }
  }

  lemma NotTheTop(rows: seq<Row>, other: Row)
    requires Keyed(rows + [other]) && Successes(rows) != []
    ensures Keyed(rows) && Successes(rows)[|Successes(rows)| - 1].version != other.version
  {
    SuccessesMembers(rows);
    var top := Successes(rows)[|Successes(rows)| - 1];
    assert top in Successes(rows);
    var i :| 0 <= i < |rows| && rows[i] == top;
    assert (rows + [other])[i] == top && (rows + [other])[|rows|] == other;
    assert forall i | 0 <= i < |rows| :: rows[i] == (rows + [other])[i];
  }

  lemma SuccessesLast(s: seq<Row>, r: Row)
    ensures Successes(s + [r]) == if r.success then Successes(s) + [r] else Successes(s)
  {
    assert (s + [r])[..|s|] == s;
  }

  lemma {:induction false} CountAbsent(rows: seq<Row>, version: int)
    requires forall r | r in rows :: r.version != version
    ensures CountVersion(rows, version) == 0
  {
    if rows != [] {
      CountAbsent(rows[..|rows| - 1], version);
    }
  }

  // ------------------------------------------------------------------
  // Reading in (applied_at, version) order

  ghost predicate Sorted(rows: seq<Row>) {
    forall i, j | 0 <= i < j < |rows| :: RowLeq(rows[i], rows[j])
  }

  lemma {:induction false} InsertSorted(r: Row, s: seq<Row>)
    requires Sorted(s)
    ensures Sorted(InsertRow(r, s))
    ensures forall x :: x in InsertRow(r, s) <==> x in s || x == r
  {
    if s != [] {
      var init, last := s[..|s| - 1], s[|s| - 1];
      assert s == init + [last];
      if !RowLeq(last, r) {
        InsertSorted(r, init);
        assert forall x | x in InsertRow(r, init) :: RowLeq(x, last);
      }
    }
  }

  /** Reading the table returns its rows in order. */
  lemma {:induction false} OrderBySorts(rows: seq<Row>)
    ensures Sorted(OrderBy(rows))
    ensures forall x :: x in OrderBy(rows) <==> x in rows
  {
    if rows != [] {
      var init, last := rows[..|rows| - 1], rows[|rows| - 1];
      assert rows == init + [last];
      OrderBySorts(init);
      InsertSorted(last, OrderBy(init));
    }
  }

  lemma {:induction false} InsertPermutes(r: Row, s: seq<Row>)
    ensures multiset(InsertRow(r, s)) == multiset(s) + multiset{r}
  {
    hide RowLeq;
    if s == [] {
      assert multiset([r]) == multiset{r};
    } else if RowLeq(s[|s| - 1], r) {
      MultisetSnoc(s, r);
    } else {
      var init, last := s[..|s| - 1], s[|s| - 1];
      InsertPermutes(r, init);
      MultisetSnoc(init, last);
      MultisetSnoc(InsertRow(r, init), last);
      assert s == init + [last];
    }
  }

  lemma MultisetSnoc(rows: seq<Row>, r: Row)
    ensures multiset(rows + [r]) == multiset(rows) + multiset{r}
  {
  }

  /** And each as often as it is there. */
  lemma {:induction false} OrderByPermutes(rows: seq<Row>)
    ensures multiset(OrderBy(rows)) == multiset(rows)
  {
    hide InsertRow;
    if rows == [] {
    } else {
      var init, last := rows[..|rows| - 1], rows[|rows| - 1];
      OrderByPermutes(init);
      InsertPermutes(last, OrderBy(init));
      MultisetSnoc(init, last);
      assert rows == init + [last];
    }
  }

  lemma InsertSnoc(r: Row, s: seq<Row>, last: Row)
    requires !RowLeq(last, r)
    ensures InsertRow(r, s + [last]) == InsertRow(r, s) + [last]
  {
    assert (s + [last])[..|s|] == s;
  }

  lemma {:induction false} SuccessesOfInsert(r: Row, s: seq<Row>)
    requires Sorted(s)
    ensures Successes(InsertRow(r, s)) == if r.success then InsertRow(r, Successes(s)) else Successes(s)
  {
    if s == [] {
      SuccessesLast([], r);
      assert [] + [r] == [r];
    } else {
      var init, last := s[..|s| - 1], s[|s| - 1];
      assert s == init + [last];
      SuccessesLast(init, last);
      if RowLeq(last, r) {
        SuccessesLast(s, r);
        InsertAtEnd(r, s);
      } else {
        InsertSnoc(r, init, last);
        SuccessesOfInsert(r, init);
        SuccessesLast(InsertRow(r, init), last);
        hide InsertRow, Successes, Sorted;
        InsertSnoc(r, Successes(init), last);
      }
    }
  }

  lemma LastSuccess(s: seq<Row>)
    requires Sorted(s) && Successes(s) != []
    ensures RowLeq(Successes(s)[|Successes(s)| - 1], s[|s| - 1])
  {
    SuccessesMembers(s);
    assert Successes(s)[|Successes(s)| - 1] in s;
  }

  lemma InsertAtEnd(r: Row, s: seq<Row>)
    requires Sorted(s) && s != [] && RowLeq(s[|s| - 1], r)
    ensures InsertRow(r, Successes(s)) == Successes(s) + [r] && InsertRow(r, s) == s + [r]
  {
    if Successes(s) != [] {
      LastSuccess(s);
    }
    hide Successes, Sorted;
  }

  /** Filtering the ordered table and ordering the filtered table agree. */
  lemma {:induction false} SuccessesOrdered(rows: seq<Row>)
    ensures Successes(OrderBy(rows)) == OrderBy(Successes(rows))
  {
    if rows != [] {
      var init, last := rows[..|rows| - 1], rows[|rows| - 1];
      SuccessesOrdered(init);
      OrderBySorts(init);
      assert rows == init + [last];
      hide InsertRow, OrderBy, Successes, Sorted;
      SuccessesLast(init, last);
      OrderBySnoc(init, last);
      SuccessesOfInsert(last, OrderBy(init));
      OrderBySnoc(Successes(init), last);
    }
  }

  lemma OrderBySnoc(s: seq<Row>, r: Row)
    ensures OrderBy(s + [r]) == InsertRow(r, OrderBy(s))
  {
    assert (s + [r])[..|s|] == s;
  }

  lemma {:induction false} AlreadyOrdered(rows: seq<Row>)
    requires Sorted(rows)
    ensures OrderBy(rows) == rows
  {
    if rows != [] {
      var init, last := rows[..|rows| - 1], rows[|rows| - 1];
      AlreadyOrdered(init);
      assert rows == init + [last];
    }
  }

  // ------------------------------------------------------------------
  // The pending list

  ghost predicate UniqueSet(ms: seq<Migration>) {
    forall i, j | 0 <= i < j < |ms| :: ms[i].version != ms[j].version || ms[i].dir != ms[j].dir
  }

  lemma {:induction false} AppliedSetMeaning(rows: seq<Row>)
    ensures forall v :: v in AppliedSet(rows) <==> v in Versions(Successes(rows))
    ensures forall v | v in AppliedSet(rows) :: AppliedSet(rows)[v] in Successes(rows) && AppliedSet(rows)[v].version == v
  {
    if rows != [] {
      var init, last := rows[..|rows| - 1], rows[|rows| - 1];
      AppliedSetMeaning(init);
      assert Versions(Successes(rows)) == Versions(Successes(init)) + (if last.success then [last.version] else []);
    }
  }

  lemma {:induction false} PendingMembers(ms: seq<Migration>, applied: map<int, Row>)
    ensures forall m :: m in Pending(ms, applied) <==> m in ms && IsPending(m, applied)
    ensures UniqueSet(ms) ==> forall i, j | 0 <= i < j < |Pending(ms, applied)| ::
              Pending(ms, applied)[i].version != Pending(ms, applied)[j].version
  {
    if ms != [] {
      var init, last := ms[..|ms| - 1], ms[|ms| - 1];
      PendingMembers(init, applied);
      assert ms == init + [last];
      if UniqueSet(ms) {
        forall m | m in Pending(init, applied) && IsPending(last, applied) ensures m.version != last.version {
          var i :| 0 <= i < |init| && init[i] == m;
          assert ms[i] == m && ms[|ms| - 1] == last;
        }
      }
    }
  }

  /** No migration of ms has version v. */
  ghost predicate Lacks(ms: seq<Migration>, v: int) {
    forall m | m in ms :: m.version != v
  }

  ghost predicate Increasing(ms: seq<Migration>) {
    forall i, j | 0 <= i < j < |ms| :: ms[i].version < ms[j].version
  }

  lemma {:induction false} InsertMigrationSorts(m: Migration, s: seq<Migration>)
    requires Increasing(s) && Lacks(s, m.version)
    ensures Increasing(InsertMigration(m, s))
    ensures forall x :: x in InsertMigration(m, s) <==> x in s || x == m
  {
    if s != [] {
      var init, last := s[..|s| - 1], s[|s| - 1];
      assert s == init + [last];
      assert forall x | x in init :: x.version < last.version;
      if last.version < m.version {
        assert forall x | x in s :: x.version < m.version;
      } else {
        InsertMigrationSorts(m, init);
        assert InsertMigration(m, s) == InsertMigration(m, init) + [last];
        hide InsertMigration;
        assert forall x | x in InsertMigration(m, init) :: x.version < last.version;
      }
    }
  }

  lemma {:induction false} SortByVersionSorts(ms: seq<Migration>)
    requires forall i, j | 0 <= i < j < |ms| :: ms[i].version != ms[j].version
    ensures Increasing(SortByVersion(ms))
    ensures forall x :: x in SortByVersion(ms) <==> x in ms
  {
    if ms != [] {
      var init, last := ms[..|ms| - 1], ms[|ms| - 1];
      assert ms == init + [last];
      SortByVersionSorts(init);
      InsertMigrationSorts(last, SortByVersion(init));
    }
  }

  /**
   For a set with one migration per version and direction, the pending list is strictly ascending
   and holds exactly the up migrations without a success row.
   */
  lemma PendingExact(ms: seq<Migration>, rows: seq<Row>)
    requires UniqueSet(ms) && PendingUp(ms, rows).Some?
    ensures Increasing(PendingUp(ms, rows).value)
    ensures forall m :: m in PendingUp(ms, rows).value <==>
              m in ms && m.dir == "up" && m.version !in Versions(Successes(rows))
  {
    var applied := AppliedSet(rows);
    AppliedSetMeaning(rows);
    PendingMembers(ms, applied);
    SortByVersionSorts(Pending(ms, applied));
  }

  /** The panic: exactly when an up migration has a success row with another checksum. */
  lemma PanicExact(ms: seq<Migration>, rows: seq<Row>)
    requires Keyed(rows)
    ensures PendingUp(ms, rows).None? <==>
            exists m, r :: m in ms && m.dir == "up" && r in rows && r.success
                           && r.version == m.version && r.checksum != m.checksum
  {
    var applied := AppliedSet(rows);
    AppliedSetMeaning(rows);
    SuccessesMembers(rows);
    forall m, r | m in ms && m.dir == "up" && r in rows && r.success && r.version == m.version
      ensures m.version in applied && applied[m.version] == r
    {
      assert r in Successes(rows);
      var i :| 0 <= i < |Successes(rows)| && Successes(rows)[i] == r;
      assert Versions(Successes(rows))[i] == m.version;
    }
    forall m | m in ms && Mismatch(m, applied)
      ensures applied[m.version] in rows && applied[m.version].success && applied[m.version].version == m.version
    {
    }
  }

  lemma {:induction false} InsertKeyed(r: Row, s: seq<Row>)
    requires Keyed(s) && forall x | x in s :: x.version != r.version
    ensures Keyed(InsertRow(r, s)) && forall x :: x in InsertRow(r, s) <==> x in s || x == r
  {
    if s != [] {
      var init, last := s[..|s| - 1], s[|s| - 1];
      assert s == init + [last];
      InsertKeyed(r, init);
      assert forall x | x in InsertRow(r, init) :: x.version != last.version;
    }
  }

  /** Reading keeps one row per version. */
  lemma {:induction false} OrderByKeyed(rows: seq<Row>)
    requires Keyed(rows)
    ensures Keyed(OrderBy(rows)) && forall x :: x in OrderBy(rows) <==> x in rows
  {
    if rows != [] {
      var init, last := rows[..|rows| - 1], rows[|rows| - 1];
      assert rows == init + [last];
      OrderByKeyed(init);
      InsertKeyed(last, OrderBy(init));
    }
  }

  lemma AscendingInit(a: seq<int>)
    requires Ascending(a) && a != []
    ensures Ascending(a[..|a| - 1])
    ensures forall v :: v in a[..|a| - 1] <==> v in a && v != a[|a| - 1]
    ensures forall v | v in a :: v <= a[|a| - 1]
  {
    assert a == a[..|a| - 1] + [a[|a| - 1]];
  }

  lemma {:induction false} AscendingUnique(a: seq<int>, b: seq<int>)
    requires Ascending(a) && Ascending(b) && forall v :: v in a <==> v in b
    ensures a == b
  {
    forall i | 0 <= i < |a| ensures a[i] in b { assert a[i] in a; }
    forall i | 0 <= i < |b| ensures b[i] in a { assert b[i] in b; }
    assert a == [] <==> b == [] by {
      assert |a| > 0 ==> a[0] in b;
      assert |b| > 0 ==> b[0] in a;
    }
    if a != [] {
      AscendingInit(a);
      AscendingInit(b);
      var x, y := a[|a| - 1], b[|b| - 1];
      assert x in a && y in b && x == y;
      hide Ascending;
      var a', b' := a[..|a| - 1], b[..|b| - 1];
      forall v ensures v in a' <==> v in b' {
        assert v in a' <==> v in a && v != x;
        assert v in b' <==> v in b && v != x;
      }
      AscendingUnique(a', b');
      assert a == a[..|a| - 1] + [x] && b == b[..|b| - 1] + [y];
    }
  }

  lemma {:induction false} FindMeaning(ms: seq<Migration>, version: int, dir: string)
    ensures Find(ms, version, dir).Some? ==>
              Find(ms, version, dir).value in ms && Find(ms, version, dir).value.version == version
              && Find(ms, version, dir).value.dir == dir
    ensures Find(ms, version, dir).None? ==> forall m | m in ms :: m.version != version || m.dir != dir
  {
    if ms != [] {
      FindMeaning(ms[1..], version, dir);
    }
  }

  ghost predicate IsFor(m: Migration, version: int, dir: string) {
    m.version == version && m.dir == dir
  }

  /** The search stops at the first migration with that version and direction, or finds that there is none. */
  lemma {:induction false} FindIsFirst(ms: seq<Migration>, version: int, dir: string) returns (i: nat)
    ensures i <= |ms| && Find(ms, version, dir) == if i < |ms| then Some(ms[i]) else None
    ensures i < |ms| ==> IsFor(ms[i], version, dir)
    ensures forall j | 0 <= j < i :: !IsFor(ms[j], version, dir)
  {
    if ms == [] || IsFor(ms[0], version, dir) {
      i := 0;
    } else {
      i := FindIsFirst(ms[1..], version, dir);
      i := i + 1;
    }
  }
}
