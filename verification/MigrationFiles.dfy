/** Migration file names: the pattern they match, their parts, and what they parse to. */
module MigrationFiles {
  import opened Common
  import opened Decimal
  import opened Ledger

  predicate IsDigit(c: char) {
    '0' <= c <= '9'
  }

  predicate IsNameChar(c: char) {
    'a' <= c <= 'z' || 'A' <= c <= 'Z' || IsDigit(c) || c == '_' || c == '-'
  }

  predicate AllNameChars(s: string) {
    forall i | 0 <= i < |s| :: IsNameChar(s[i])
  }

  const LOWER := "abcdefghijklmnopqrstuvwxyz"
  const UPPER := "ABCDEFGHIJKLMNOPQRSTUVWXYZ"

  lemma LowerAlphabet(c: char)
    ensures c in LOWER <==> 'a' <= c <= 'z'
  {
    assert LOWER == "abcdefghijklm" + "nopqrstuvwxyz";
    assert c in "abcdefghijklm" <==> 'a' <= c <= 'm';
    assert c in "nopqrstuvwxyz" <==> 'n' <= c <= 'z';
  }

  lemma UpperAlphabet(c: char)
    ensures c in UPPER <==> 'A' <= c <= 'Z'
  {
    assert UPPER == "ABCDEFGHIJKLM" + "NOPQRSTUVWXYZ";
    assert c in "ABCDEFGHIJKLM" <==> 'A' <= c <= 'M';
    assert c in "NOPQRSTUVWXYZ" <==> 'N' <= c <= 'Z';
  }

  /** A name is made of letters, digits, underscores and dashes. */
  lemma NameAlphabet(c: char)
    ensures IsNameChar(c) <==> c in LOWER || c in UPPER || c in "0123456789_-"
  {
    hide LOWER, UPPER;
    LowerAlphabet(c);
    UpperAlphabet(c);
  }

  datatype Parts = Parts(digits: string, name: string, dir: string)

  /** The groups that the file name pattern can capture. */
  ghost predicate ValidParts(p: Parts) {
    && 8 <= |p.digits| <= 14 && IsDigits(p.digits)
    && p.name != "" && AllNameChars(p.name)
    && (p.dir == "up" || p.dir == "down")
  }

  function Tail(dir: string): string {
    "." + dir + ".sql"
  }

  function Print(p: Parts): string {
    p.digits + "_" + p.name + Tail(p.dir)
  }

  /** The language of the pattern. */
  ghost predicate Matches(s: string) {
    exists p :: ValidParts(p) && Print(p) == s
  }

  function DigitRun(s: string): (n: nat)
    ensures n <= |s| && IsDigits(s[..n]) && (n < |s| ==> !IsDigit(s[n]))
  {
    if s == "" || !IsDigit(s[0]) then 0
    else
      var n := 1 + DigitRun(s[1..]);
      assert s[..n] == [s[0]] + s[1..][..n - 1];
      n
  }

  /** A deterministic scanner for the pattern. */
  function Scan(s: string): Option<Parts> {
    var n := DigitRun(s);
    var dir := if HasSuffix(s, ".up.sql") then "up" else "down";
    var tail := Tail(dir);
    if 8 <= n <= 14 && HasSuffix(s, tail) && n + 1 < |s| - |tail| && s[n] == '_'
       && AllNameChars(s[n + 1..|s| - |tail|]) then
      Some(Parts(s[..n], s[n + 1..|s| - |tail|], dir))
    else None
  }

  lemma ScanSound(s: string)
    requires Scan(s).Some?
    ensures ValidParts(Scan(s).value) && Print(Scan(s).value) == s
  {
    var p := Scan(s).value;
    hide Tail;
    assert s == p.digits + [s[|p.digits|]] + p.name + s[|s| - |Tail(p.dir)|..];
  }

  lemma {:induction false} DigitRunOfPrefix(digits: string, rest: string)
    requires IsDigits(digits) && rest != "" && !IsDigit(rest[0])
    ensures DigitRun(digits + rest) == |digits|
  {
    if digits == "" {
      assert digits + rest == rest;
    } else {
      assert (digits + rest)[1..] == digits[1..] + rest;
      DigitRunOfPrefix(digits[1..], rest);
    }
  }

  /** Printing the parts and scanning gives them back. */
  lemma ScanPrint(p: Parts)
    requires ValidParts(p)
    ensures Scan(Print(p)) == Some(p)
  {
    TailOf(p.digits + "_" + p.name, p.dir);
    Pieces(p.digits, p.name, Tail(p.dir));
    hide Tail, HasSuffix, DigitRun;
    DigitRunOfPrefix(p.digits, "_" + p.name + Tail(p.dir));
  }

  lemma Pieces(digits: string, name: string, tail: string)
    ensures var s := digits + "_" + name + tail;
            && s == digits + ("_" + name + tail) && s[..|digits|] == digits && s[|digits|] == '_'
            && s[|digits| + 1..|s| - |tail|] == name
  {
  }

  /** The direction can be read off the end. */
  lemma TailOf(stem: string, dir: string)
    requires dir == "up" || dir == "down"
    ensures HasSuffix(stem + Tail(dir), Tail(dir))
    ensures HasSuffix(stem + Tail(dir), ".up.sql") <==> dir == "up"
  {
    var s := stem + Tail(dir);
    assert s[|s| - |Tail(dir)|..] == Tail(dir);
    assert Tail("up") == ".up.sql";
    if dir == "down" {
      assert s[|s| - 5] == 'n' && ".up.sql"[2] == 'p';
    }
  }

  /** The scanner accepts exactly the pattern's language, and a name splits in one way only. */
  lemma ScanExact(s: string)
    ensures Scan(s).Some? <==> Matches(s)
    ensures forall p | ValidParts(p) && Print(p) == s :: Scan(s) == Some(p)
  {
    if Scan(s).Some? {
      ScanSound(s);
    }
    forall p | ValidParts(p) && Print(p) == s ensures Scan(s) == Some(p) {
      ScanPrint(p);
    }
  }

  /** Go's strconv.ParseInt(s, 10, 64) on a text of digits. */
  function ParseInt64(s: string): Option<int>
    requires IsDigits(s)
  {
    if Value(s) <= MAX_INT then Some(Value(s)) else None
  }

  lemma {:induction false} ValueBound(s: string)
    requires IsDigits(s)
    ensures Value(s) < Pow10(|s|)
  {
    if s != "" {
      ValueBound(s[..|s| - 1]);
    }
  }

  lemma {:induction false} Pow10Grows(a: nat, b: nat)
    requires a <= b
    ensures Pow10(a) <= Pow10(b)
    decreases b
  {
    if a < b {
      Pow10Grows(a, b - 1);
    }
  }

  function Base(path: string): string {
    if path == "" then "."
    else if path[|path| - 1] == '/' then (if |path| == 1 then "/" else Base(path[..|path| - 1]))
    else LastElement(path)
  }

  function LastElement(path: string): string {
    if path == "" || path[|path| - 1] == '/' then "" else LastElement(path[..|path| - 1]) + [path[|path| - 1]]
  }

  function ParseFileName(name: string): Option<Migration> {
    match Scan(Base(name))
    case None => None
    case Some(p) =>
      if !IsDigits(p.digits) then None else
      match ParseInt64(p.digits)
      case None => None
      case Some(version) => Some(Migration(version, p.name, p.dir, name, "", ""))
  }

  /** The file name of a migration. */
  ghost predicate Named(base: string, digits: string, name: string, dir: string) {
    && 8 <= |digits| <= 14 && IsDigits(digits) && name != "" && AllNameChars(name) && (dir == "up" || dir == "down")
    && base == digits + "_" + name + "." + dir + ".sql"
  }

  lemma NamedMatches(base: string, p: Parts)
    ensures Named(base, p.digits, p.name, p.dir) <==> ValidParts(p) && Print(p) == base
  {
    assert p.digits + "_" + p.name + ("." + p.dir + ".sql") == p.digits + "_" + p.name + "." + p.dir + ".sql";
  }

  lemma ScannedName(base: string, digits: string, name: string, dir: string)
    ensures Scan(base) == Some(Parts(digits, name, dir)) <==> Named(base, digits, name, dir)
    ensures Named(base, digits, name, dir) ==> IsDigits(digits) && |digits| <= 14
  {
    hide Scan, Print, ValidParts;
    ScanExact(base);
    NamedMatches(base, Parts(digits, name, dir));
    if Scan(base).Some? {
      ScanSound(base);
    }
  }

  /**
   A file is a migration exactly if its base name is digits, name and direction; its version is their
   number, which always fits.
   */
  lemma ParseFileNameExact(name: string)
    ensures ParseFileName(name).Some? <==> exists digits, n, dir :: Named(Base(name), digits, n, dir)
    ensures forall digits, n, dir | Named(Base(name), digits, n, dir) ::
              ParseFileName(name) == Some(Migration(Value(digits), n, dir, name, "", ""))
    ensures ParseFileName(name).Some? ==> 0 <= ParseFileName(name).value.version < 100_000_000_000_000
  {
    hide Scan, Named, Base, Value;
    forall digits, n, dir | Named(Base(name), digits, n, dir)
      ensures IsDigits(digits) && Value(digits) < 100_000_000_000_000
      ensures ParseFileName(name) == Some(Migration(Value(digits), n, dir, name, "", ""))
    {
      ScannedName(Base(name), digits, n, dir);
      VersionFits(digits);
    }
    if Scan(Base(name)).Some? {
      var p := Scan(Base(name)).value;
      ScannedName(Base(name), p.digits, p.name, p.dir);
      assert p == Parts(p.digits, p.name, p.dir);
      assert Named(Base(name), p.digits, p.name, p.dir);
    }
  }

  lemma VersionFits(digits: string)
    requires IsDigits(digits) && |digits| <= 14
    ensures Value(digits) < 100_000_000_000_000
  {
    ValueBound(digits);
    Pow10Grows(|digits|, 14);
    assert Pow10(14) == 100_000_000_000_000 by { assert Pow10(4) == 10_000 && Pow10(9) == 1_000_000_000; }
  }

  predicate Slashes(s: string) {
    forall i | 0 <= i < |s| :: s[i] == '/'
  }

  /** The base of a path is its last element, whatever slashes follow. */
  lemma {:induction false} BaseExact(dir: string, name: string, slashes: string)
    requires Slashes(slashes) && '/' !in name && (dir == "" || dir[|dir| - 1] == '/')
    ensures name != "" ==> Base(dir + name + slashes) == name
    ensures Base(slashes) == if slashes == "" then "." else "/"
    decreases |slashes|
  {
    var path := dir + name + slashes;
    if slashes == "" {
      assert path == dir + name;
      if name != "" {
        LastElementAfter(dir, name);
        assert path[|path| - 1] == name[|name| - 1] && name[|name| - 1] in name;
      }
    } else {
      BaseExact(dir, name, slashes[..|slashes| - 1]);
      assert path[..|path| - 1] == dir + name + slashes[..|slashes| - 1];
    }
  }

  lemma {:induction false} LastElementAfter(dir: string, name: string)
    requires '/' !in name && (dir == "" || dir[|dir| - 1] == '/')
    ensures LastElement(dir + name) == name
  {
    var path := dir + name;
    if name != "" {
      assert path[|path| - 1] == name[|name| - 1] && name[|name| - 1] in name;
      LastElementAfter(dir, name[..|name| - 1]);
      assert path[..|path| - 1] == dir + name[..|name| - 1];
      assert name == name[..|name| - 1] + [name[|name| - 1]];
    } else {
      assert path == dir;
    }
  }

  /** Directory entries carry no slash, so their base is the entry itself. */
  lemma BaseOfEntry(name: string)
    requires name != "" && '/' !in name
    ensures Base(name) == name
  {
    BaseExact("", name, "");
    assert "" + name + "" == name;
  }

  lemma PrintHasNoSlash(p: Parts)
    requires ValidParts(p)
    ensures '/' !in Print(p) && Print(p) != ""
  {
    assert '/' !in p.digits && '/' !in p.name;
    assert Tail("up") == ".up.sql" && Tail("down") == ".down.sql";
    assert '/' !in ".up.sql" && '/' !in ".down.sql" && '/' !in "_";
  }

  /** A printed name is a migration with just these parts. */
  lemma ParsePrinted(p: Parts)
    requires ValidParts(p)
    ensures ParseFileName(Print(p)) == Some(Migration(Value(p.digits), p.name, p.dir, Print(p), "", ""))
  {
    hide Scan, Print, Base, ValidParts;
    PrintHasNoSlash(p);
    BaseOfEntry(Print(p));
    NamedMatches(Print(p), p);
    ParseFileNameExact(Print(p));
    PartsAreDigits(p);
  }

  lemma PartsAreDigits(p: Parts)
    requires ValidParts(p)
    ensures IsDigits(p.digits)
  {
  }
}
