/**
 ParseListQuery of endpoints/list.go. A query is a map from keys to lists of values that is walked in
 any order; this module says what that order can and cannot change.
 */
module ListQuery {
  import opened Common
  import opened Decimal
  import opened Texts

  type Values = map<string, seq<string>>

  type Filters = map<string, seq<string>>

  datatype Config = Config(defaultLimit: int, maxLimit: int, allowed: seq<string>, required: seq<string>,
                           searchParam: string)

  datatype Query = Query(limit: int, offset: int, search: string, filters: Filters, missing: seq<string>)

  // ------------------------------------------------------------------
  // Numbers

  /** url.Values.Get: the first value. */
  function Get(values: Values, key: string): string {
    if key in values && values[key] != [] then values[key][0] else ""
  }

  /** Go's strconv.Atoi with 64-bit integers. */
  function Atoi(s: string): Option<int> {
    var negative := s != "" && s[0] == '-';
    var digits := if s != "" && (s[0] == '-' || s[0] == '+') then s[1..] else s;
    if digits == "" || !IsDigits(digits) then None
    else
      var magnitude: int := Value(digits);
      var n := if negative then -magnitude else magnitude;
      if MIN_INT <= n <= MAX_INT then Some(n) else None
  }

  function ParseInt(val: string, default: int): int {
    if TrimSpace(val) == "" then default else Atoi(val).GetOr(default)
  }

  function ParseOffset(val: string): int {
    if TrimSpace(val) == "" then 0
    else
      var n := Atoi(val).GetOr(0);
      if n < 0 then 0 else n
  }

  function Clamp(n: int, min: int, max: int): int {
    var raised := if min > 0 && n < min then min else n;
    if max > 0 && raised > max then max else raised
  }

  /** s is an optional sign and at least one digit, and n the number they write. */
  ghost predicate Writes(s: string, n: int) {
    exists sign, digits :: SignedDigits(s, n, sign, digits)
  }

  ghost predicate SignedDigits(s: string, n: int, sign: string, digits: string) {
    && (sign == "" || sign == "+" || sign == "-") && digits != "" && IsDigits(digits)
    && s == sign + digits && n == if sign == "-" then -(Value(digits) as int) else Value(digits)
  }

  /** Numbers are read exactly from such texts, leading zeros and plus signs included, if they fit. */
  lemma AtoiExact(s: string, n: int)
    ensures Atoi(s) == Some(n) <==> Writes(s, n) && MIN_INT <= n <= MAX_INT
    ensures Writes(s, n) ==> TrimSpace(s) != ""
  {
    hide Value, TrimSpace;
    if Atoi(s).Some? {
      var sign := if s[0] == '-' || s[0] == '+' then s[..1] else "";
      assert s == sign + s[|sign|..];
      assert SignedDigits(s, Atoi(s).value, sign, s[|sign|..]);
    }
    if Writes(s, n) {
      var sign, digits :| SignedDigits(s, n, sign, digits);
      assert s[|sign|..] == digits;
      DigitsAreNoSpace();
      TrimKeeps(s);
    }
  }

  /** Every integer that fits is read back from its decimal text. */
  lemma AtoiText(n: int)
    requires MIN_INT <= n <= MAX_INT
    ensures Atoi(Text(n)) == Some(n)
  {
    hide Digits;
    DigitsDenote(if n < 0 then -n else n);
    AtoiExact(Text(n), n);
    if n == 0 {
      assert "0"[..0] == "" && "" + "0" == "0";
      assert SignedDigits("0", 0, "", "0");
    } else if n < 0 {
      assert SignedDigits(Text(n), n, "-", Digits(-n));
    } else {
      assert "" + Digits(n) == Digits(n);
      assert SignedDigits(Text(n), n, "", Digits(n));
    }
  }

  lemma DigitsAreNoSpace()
    ensures forall c | c == '-' || c == '+' || '0' <= c <= '9' :: !IsSpace(c)
  {
  }

  lemma {:induction false} TrimKeeps(s: string)
    requires s != "" && !IsSpace(s[0])
    ensures TrimSpace(s) != ""
  {
    assert TrimLeft(s) == s;
    TrimRightKeeps(s);
  }

  lemma {:induction false} TrimRightKeeps(s: string)
    requires s != "" && !IsSpace(s[0])
    ensures TrimRight(s) != ""
  {
    if |s| > 1 && IsSpace(s[|s| - 1]) {
      TrimRightKeeps(s[..|s| - 1]);
    }
  }

  // ------------------------------------------------------------------
  // Filter keys

  function ParseFilterKey(key: string): Option<string> {
    if HasPrefix(key, "filter[") && HasSuffix(key, "]") then
      assert key[6] == "filter["[6] && key[|key| - 1] == "]"[0];
      var name := key[7..|key| - 1];
      if name != "" then Some(TrimSpace(name)) else None
    else if HasPrefix(key, "filter.") then
      var name := key[7..];
      if name != "" then Some(TrimSpace(name)) else None
    else None
  }

  /** The filter that the values of a key go to, None for the keys that are not filters. */
  function Target(key: string, searchKey: string): Option<string> {
    if key == "limit" || key == "offset" || key == searchKey then None
    else
      var filter := ParseFilterKey(key);
      if filter.Some? then filter else Some(key)
  }

  predicate Bracketed(key: string, name: string) {
    && |key| > 8 && HasPrefix(key, "filter[") && HasSuffix(key, "]")
    && TrimSpace(key[7..|key| - 1]) == name
  }

  predicate Dotted(key: string, name: string) {
    |key| > 7 && HasPrefix(key, "filter.") && TrimSpace(key[7..]) == name
  }

  predicate FilterSyntax(key: string) {
    || (|key| > 8 && HasPrefix(key, "filter[") && HasSuffix(key, "]"))
    || (|key| > 7 && HasPrefix(key, "filter."))
  }

  /** The keys that feed filter x: x itself unless it reads as another filter, filter[x] and filter.x. */
  lemma TargetExact(key: string, searchKey: string, name: string)
    ensures Target(key, searchKey) == Some(name) <==>
            && key != "limit" && key != "offset" && key != searchKey
            && (Bracketed(key, name) || Dotted(key, name) || (key == name && !FilterSyntax(key)))
  {
    hide TrimSpace;
    if HasPrefix(key, "filter[") && HasSuffix(key, "]") {
      assert key[6] == "filter["[6] && key[|key| - 1] == "]"[0];
      assert !HasPrefix(key, "filter.") by {
        assert "filter."[6] == '.' && key[..7][6] == key[6];
      }
    }
  }

  function AllowedSet(allowed: seq<string>): set<string> {
    set f | f in allowed && f != ""
  }

  predicate Allows(allowed: set<string>, name: string) {
    allowed == {} || name in allowed
  }

  // ------------------------------------------------------------------
  // Collecting the filters

  /** The values without surrounding space, without the empty ones. */
  function TrimAll(vals: seq<string>): seq<string> {
    if vals == [] then []
    else
      var v := TrimSpace(vals[|vals| - 1]);
      TrimAll(vals[..|vals| - 1]) + if v == "" then [] else [v]
  }

  function AddFilter(filters: Filters, key: string, vals: seq<string>): Filters {
    var trimmed := TrimAll(vals);
    if trimmed == [] then filters
    else filters[key := (if key in filters then filters[key] else []) + trimmed]
  }

  /** Where the values of a key go: None if nowhere, because of the key or of the allow-list. */
  function Destination(key: string, searchKey: string, allowed: set<string>): Option<string> {
    match Target(key, searchKey)
    case None => None
    case Some(name) => if Allows(allowed, name) then Some(name) else None
  }

  /** A filter key counts if no name is on the allow-list, or its own; empty names on the list do not count. */
  lemma DestinationExact(key: string, searchKey: string, allowed: seq<string>, name: string)
    ensures Destination(key, searchKey, AllowedSet(allowed)) == Some(name) <==>
            && Target(key, searchKey) == Some(name)
            && ((forall f | f in allowed :: f == "") || (name != "" && name in allowed))
  {
    hide Target;
    if f :| f in allowed && f != "" {
      assert f in AllowedSet(allowed);
    }
  }

  /** The filters after walking some keys of the query in order. */
  function Collect(values: Values, order: seq<string>, searchKey: string, allowed: set<string>): Filters
    requires forall k | k in order :: k in values
  {
    if order == [] then map[]
    else
      var n := |order| - 1;
      var filters := Collect(values, order[..n], searchKey, allowed);
      match Destination(order[n], searchKey, allowed)
      case None => filters
      case Some(name) => AddFilter(filters, name, values[order[n]])
  }

  function RequiredMissing(filters: Filters, required: seq<string>): seq<string> {
    if required == [] then []
    else
      var before, key := RequiredMissing(filters, required[..|required| - 1]), required[|required| - 1];
      if key == "" || key in filters then before else before + [key]
  }

  function SearchKey(cfg: Config): string {
    if TrimSpace(cfg.searchParam) == "" then "search" else cfg.searchParam
  }

  function Limit(values: Values, cfg: Config): int {
    Clamp(ParseInt(Get(values, "limit"), cfg.defaultLimit), 1, cfg.maxLimit)
  }

  /** An order in which a map can be walked: each key once. */
  ghost predicate Enumerates(order: seq<string>, values: Values) {
    && (forall k :: k in order <==> k in values)
    && Distinct(order)
  }

  function ParseListQuery(values: Values, order: seq<string>, cfg: Config): Query
    requires forall k | k in order :: k in values
  {
    var filters := Collect(values, order, SearchKey(cfg), AllowedSet(cfg.allowed));
    Query(Limit(values, cfg), ParseOffset(Get(values, "offset")), TrimSpace(Get(values, SearchKey(cfg))),
          filters, RequiredMissing(filters, cfg.required))
  }

  // ------------------------------------------------------------------
  // What does not depend on the order

  /** The trimmed values of the keys that feed a filter, key after key. */
  function Merged(values: Values, order: seq<string>, searchKey: string, allowed: set<string>, name: string): seq<string>
    requires forall k | k in order :: k in values
  {
    if order == [] then []
    else
      var n := |order| - 1;
      Merged(values, order[..n], searchKey, allowed, name)
      + Contribution(values, order[n], searchKey, allowed, name)
  }

  function Contribution(values: Values, key: string, searchKey: string, allowed: set<string>, name: string): seq<string>
    requires key in values
  {
    if Destination(key, searchKey, allowed) == Some(name) then TrimAll(values[key]) else []
  }

  /**
   A filter holds exactly the trimmed non-empty values of its keys, each key's values together and in
   their order, and is there exactly if there is such a value.
   */
  lemma {:induction false} CollectExact(values: Values, order: seq<string>, searchKey: string, allowed: set<string>,
                                        name: string)
    requires forall k | k in order :: k in values
    ensures var filters := Collect(values, order, searchKey, allowed);
            var merged := Merged(values, order, searchKey, allowed, name);
            (name in filters <==> merged != []) && (name in filters ==> filters[name] == merged)
  {
    hide TrimAll, Destination;
    if order != [] {
      CollectExact(values, order[..|order| - 1], searchKey, allowed, name);
    }
  }

  /** How often a value is in a list. */
  function Count(s: seq<string>, v: string): nat {
    if s == [] then 0 else Count(s[..|s| - 1], v) + if s[|s| - 1] == v then 1 else 0
  }

  lemma {:induction false} CountConcat(a: seq<string>, b: seq<string>, v: string)
    ensures Count(a + b, v) == Count(a, v) + Count(b, v)
  {
    if b == [] {
      assert a + b == a;
    } else {
      CountConcat(a, b[..|b| - 1], v);
      assert (a + b)[..|a + b| - 1] == a + b[..|b| - 1];
    }
  }

  lemma {:induction false} CountIsMultiplicity(s: seq<string>, v: string)
    ensures multiset(s)[v] == Count(s, v)
  {
    if s != [] {
      CountIsMultiplicity(s[..|s| - 1], v);
      assert s == s[..|s| - 1] + [s[|s| - 1]];
    }
  }

  /** What one key adds to a list of walked keys, wherever it stands, counted for one value. */
  lemma {:induction false} MergedAround(values: Values, a: seq<string>, k: string, b: seq<string>, searchKey: string,
                                        allowed: set<string>, name: string, v: string)
    requires k in values && forall x | x in a || x in b :: x in values
    ensures (forall x | x in a + b :: x in values) && (forall x | x in a + [k] + b :: x in values)
    ensures Count(Merged(values, a + [k] + b, searchKey, allowed, name), v)
            == Count(Merged(values, a + b, searchKey, allowed, name), v)
               + Count(Contribution(values, k, searchKey, allowed, name), v)
    decreases |b|
  {
    hide Contribution, Merged, Count;
    if b == [] {
      MergedSnoc(values, a, k, searchKey, allowed, name);
      CountConcat(Merged(values, a, searchKey, allowed, name), Contribution(values, k, searchKey, allowed, name), v);
      assert a + [k] + b == a + [k] && a + b == a;
    } else {
      var n := |b| - 1;
      var rest := b[..n];
      MergedAround(values, a, k, rest, searchKey, allowed, name, v);
      MergedSnoc(values, a + [k] + rest, b[n], searchKey, allowed, name);
      MergedSnoc(values, a + rest, b[n], searchKey, allowed, name);
      assert a + [k] + rest + [b[n]] == a + [k] + b && a + rest + [b[n]] == a + b;
      var last := Contribution(values, b[n], searchKey, allowed, name);
      CountConcat(Merged(values, a + [k] + rest, searchKey, allowed, name), last, v);
      CountConcat(Merged(values, a + rest, searchKey, allowed, name), last, v);
    }
  }

  lemma MergedSnoc(values: Values, order: seq<string>, k: string, searchKey: string, allowed: set<string>, name: string)
    requires k in values && forall x | x in order :: x in values
    ensures forall x | x in order + [k] :: x in values
    ensures Merged(values, order + [k], searchKey, allowed, name)
            == Merged(values, order, searchKey, allowed, name) + Contribution(values, k, searchKey, allowed, name)
  {
    assert (order + [k])[..|order|] == order;
  }

  /** Two orders of the same keys collect every value of a filter equally often. */
  lemma {:induction false} MergedPermuted(values: Values, a: seq<string>, b: seq<string>, searchKey: string,
                                          allowed: set<string>, name: string, v: string)
    requires Distinct(a) && Distinct(b) && forall k :: k in a <==> k in b
    requires forall k | k in a :: k in values
    ensures Count(Merged(values, a, searchKey, allowed, name), v)
            == Count(Merged(values, b, searchKey, allowed, name), v)
    decreases |a|
  {
    hide Contribution, Merged, Count;
    if a == [] {
      var k := SomeOf(b);
    } else {
      var k := a[|a| - 1];
      var i := IndexOf(b, k);
      var rest, b1, b2 := a[..|a| - 1], b[..i], b[i + 1..];
      Without(a, b, i);
      MergedPermuted(values, rest, b1 + b2, searchKey, allowed, name, v);
      MergedAround(values, b1, k, b2, searchKey, allowed, name, v);
      MergedAround(values, rest, k, [], searchKey, allowed, name, v);
      assert b == b1 + [k] + b2 && a == rest + [k] + [] && rest == rest + [];
    }
  }

  lemma SomeOf(s: seq<string>) returns (k: string)
    ensures s != [] ==> k in s
  {
    k := if s != [] then s[0] else "";
  }

  lemma IndexOf(s: seq<string>, k: string) returns (i: nat)
    requires k in s
    ensures i < |s| && s[i] == k
  {
    i :| i < |s| && s[i] == k;
  }

  /** Removing the same element from two orders of the same keys leaves two such orders. */
  lemma Without(a: seq<string>, b: seq<string>, i: nat)
    requires Distinct(a) && Distinct(b) && forall k :: k in a <==> k in b
    requires a != [] && i < |b| && b[i] == a[|a| - 1]
    ensures var rest, left := a[..|a| - 1], b[..i] + b[i + 1..];
            Distinct(rest) && Distinct(left) && (forall k :: k in rest <==> k in left) && forall k | k in left :: k in b
  {
    var rest, left := a[..|a| - 1], b[..i] + b[i + 1..];
    forall j | 0 <= j < |rest| ensures rest[j] == a[j] {}
    forall j | 0 <= j < |left| ensures left[j] == b[if j < i then j else j + 1] {}
    forall k ensures k in rest <==> k in left {
      if k in rest {
        var x :| 0 <= x < |rest| && rest[x] == k;
        assert a[x] == k && k in b;
        var y := IndexOf(b, k);
        assert left[if y < i then y else y - 1] == k;
      }
      if k in left {
        var y :| 0 <= y < |left| && left[y] == k;
        assert b[if y < i then y else y + 1] == k && k in a;
        var x := IndexOf(a, k);
        assert rest[x] == k;
      }
    }
  }

  /** In a filter's list the values of each of its keys stand together, in their own order. */
  lemma {:induction false} KeysStayTogether(values: Values, order: seq<string>, searchKey: string,
                                            allowed: set<string>, name: string, k: string) returns (i: nat)
    requires (forall x | x in order :: x in values) && k in order && Destination(k, searchKey, allowed) == Some(name)
    requires TrimAll(values[k]) != []
    ensures var filters := Collect(values, order, searchKey, allowed);
            var trimmed := TrimAll(values[k]);
            name in filters && i + |trimmed| <= |filters[name]| && filters[name][i..i + |trimmed|] == trimmed
    decreases |order|
  {
    hide TrimAll, Destination, Collect, Merged;
    var n := |order| - 1;
    CollectExact(values, order, searchKey, allowed, name);
    CollectExact(values, order[..n], searchKey, allowed, name);
    assert order == order[..n] + [order[n]];
    MergedSnoc(values, order[..n], order[n], searchKey, allowed, name);
    var before, last := Merged(values, order[..n], searchKey, allowed, name),
                        Contribution(values, order[n], searchKey, allowed, name);
    if order[n] == k {
      i := |before|;
      BlockAtEnd(before, last);
    } else {
      assert k in order[..n];
      i := KeysStayTogether(values, order[..n], searchKey, allowed, name, k);
      BlockKept(before, last, i, TrimAll(values[k]));
    }
  }

  lemma BlockAtEnd(before: seq<string>, t: seq<string>)
    ensures (before + t)[|before|..|before| + |t|] == t
  {
  }

  lemma BlockKept(before: seq<string>, last: seq<string>, i: nat, t: seq<string>)
    requires i + |t| <= |before| && before[i..i + |t|] == t
    ensures (before + last)[i..i + |t|] == t
  {
  }

  lemma {:induction false} MissingExact(filters: Filters, other: Filters, required: seq<string>)
    requires filters.Keys == other.Keys
    ensures RequiredMissing(filters, required) == RequiredMissing(other, required)
  {
    if required != [] {
      MissingExact(filters, other, required[..|required| - 1]);
    }
  }

  /** Whatever order the query is walked in: the same filters, and in them every value as often. */
  lemma FiltersOrderIsFree(values: Values, a: seq<string>, b: seq<string>, searchKey: string, allowed: set<string>,
                           name: string, v: string)
    requires Enumerates(a, values) && Enumerates(b, values)
    ensures var fa, fb := Collect(values, a, searchKey, allowed), Collect(values, b, searchKey, allowed);
            (name in fa <==> name in fb) && (name in fa ==> Count(fa[name], v) == Count(fb[name], v))
  {
    hide Collect, Merged;
    CollectExact(values, a, searchKey, allowed, name);
    CollectExact(values, b, searchKey, allowed, name);
    var ma, mb := Merged(values, a, searchKey, allowed, name), Merged(values, b, searchKey, allowed, name);
    forall w ensures Count(ma, w) == Count(mb, w) {
      MergedPermuted(values, a, b, searchKey, allowed, name, w);
    }
    SameEmpty(ma, mb);
  }

  lemma SameEmpty(a: seq<string>, b: seq<string>)
    requires forall v :: Count(a, v) == Count(b, v)
    ensures a == [] <==> b == []
  {
    assert a != [] ==> Count(a, a[|a| - 1]) > 0;
    assert b != [] ==> Count(b, b[|b| - 1]) > 0;
  }

  /** So the whole query is the same but for the order inside the lists. */
  lemma OrderIsFree(values: Values, a: seq<string>, b: seq<string>, cfg: Config)
    requires Enumerates(a, values) && Enumerates(b, values)
    ensures var q, r := ParseListQuery(values, a, cfg), ParseListQuery(values, b, cfg);
            && q.limit == r.limit && q.offset == r.offset && q.search == r.search && q.missing == r.missing
            && q.filters.Keys == r.filters.Keys
            && forall name | name in q.filters :: multiset(q.filters[name]) == multiset(r.filters[name])
  {
    hide Collect, Count;
    var searchKey, allowed := SearchKey(cfg), AllowedSet(cfg.allowed);
    var fa, fb := Collect(values, a, searchKey, allowed), Collect(values, b, searchKey, allowed);
    forall name
      ensures name in fa <==> name in fb
      ensures name in fa ==> multiset(fa[name]) == multiset(fb[name])
    {
      FiltersOrderIsFree(values, a, b, searchKey, allowed, name, "");
      if name in fa {
        forall v ensures multiset(fa[name])[v] == multiset(fb[name])[v] {
          FiltersOrderIsFree(values, a, b, searchKey, allowed, name, v);
          CountIsMultiplicity(fa[name], v);
          CountIsMultiplicity(fb[name], v);
        }
      }
    }
    MissingExact(fa, fb, cfg.required);
  }

  /** The list of a filter, empty if the filter is not there. */
  function ListOf(filters: Filters, name: string): seq<string> {
    if name in filters then filters[name] else []
  }

  /** The list of a filter is the same in whatever order the query is walked. */
  ghost predicate OrderHidden(values: Values, searchKey: string, allowed: set<string>, name: string) {
    forall a, b | Enumerates(a, values) && Enumerates(b, values) ::
      ListOf(Collect(values, a, searchKey, allowed), name) == ListOf(Collect(values, b, searchKey, allowed), name)
  }

  /** The values that two keys bring to a filter make one list in either order. */
  ghost predicate Commuting(values: Values, k: string, l: string, searchKey: string, allowed: set<string>, name: string)
    requires k in values && l in values
  {
    var u, v := Contribution(values, k, searchKey, allowed, name), Contribution(values, l, searchKey, allowed, name);
    u + v == v + u
  }

  ghost predicate AllCommute(values: Values, searchKey: string, allowed: set<string>, name: string) {
    forall k, l | k in values && l in values :: Commuting(values, k, l, searchKey, allowed, name)
  }

  /** A key can be moved to the end when all commute. */
  lemma {:induction false} MovedToEnd(values: Values, a: seq<string>, k: string, b: seq<string>, searchKey: string,
                                      allowed: set<string>, name: string)
    requires k in values && forall x | x in a || x in b :: x in values
    requires AllCommute(values, searchKey, allowed, name)
    ensures (forall x | x in a + b :: x in values) && (forall x | x in a + [k] + b :: x in values)
    ensures Merged(values, a + [k] + b, searchKey, allowed, name)
            == Merged(values, a + b, searchKey, allowed, name) + Contribution(values, k, searchKey, allowed, name)
    decreases |b|
  {
    hide Contribution, Merged;
    if b == [] {
      MergedSnoc(values, a, k, searchKey, allowed, name);
      assert a + [k] + b == a + [k] && a + b == a;
    } else {
      var n := |b| - 1;
      var rest := b[..n];
      MovedToEnd(values, a, k, rest, searchKey, allowed, name);
      MergedSnoc(values, a + [k] + rest, b[n], searchKey, allowed, name);
      MergedSnoc(values, a + rest, b[n], searchKey, allowed, name);
      assert a + [k] + rest + [b[n]] == a + [k] + b && a + rest + [b[n]] == a + b;
      assert Commuting(values, k, b[n], searchKey, allowed, name);
      Swap(Merged(values, a + rest, searchKey, allowed, name), Contribution(values, k, searchKey, allowed, name),
           Contribution(values, b[n], searchKey, allowed, name));
    }
  }

  lemma Swap(s: seq<string>, u: seq<string>, v: seq<string>)
    requires u + v == v + u
    ensures s + u + v == s + v + u
  {
    assert s + u + v == s + (u + v) && s + v + u == s + (v + u);
  }

  lemma {:induction false} MergedSame(values: Values, a: seq<string>, b: seq<string>, searchKey: string,
                                      allowed: set<string>, name: string)
    requires Distinct(a) && Distinct(b) && forall k :: k in a <==> k in b
    requires (forall k | k in a :: k in values) && AllCommute(values, searchKey, allowed, name)
    ensures Merged(values, a, searchKey, allowed, name) == Merged(values, b, searchKey, allowed, name)
    decreases |a|
  {
    hide Contribution, Merged, AllCommute;
    if a == [] {
      var k := SomeOf(b);
    } else {
      var k := a[|a| - 1];
      var i := IndexOf(b, k);
      var rest, b1, b2 := a[..|a| - 1], b[..i], b[i + 1..];
      Without(a, b, i);
      MergedSame(values, rest, b1 + b2, searchKey, allowed, name);
      MovedToEnd(values, b1, k, b2, searchKey, allowed, name);
      MovedToEnd(values, rest, k, [], searchKey, allowed, name);
      assert b == b1 + [k] + b2 && a == rest + [k] + [] && rest == rest + [];
    }
  }

  /** Every finite set of keys can be listed. */
  lemma {:induction false} Listing(keys: set<string>) returns (s: seq<string>)
    ensures Distinct(s) && forall k :: k in s <==> k in keys
    decreases keys
  {
    if keys == {} {
      s := [];
    } else {
      var k :| k in keys;
      var rest := Listing(keys - {k});
      s := rest + [k];
    }
  }

  /** Two keys first, in either order, then all others. */
  lemma TwoFirst(values: Values, k: string, l: string) returns (rest: seq<string>)
    requires k in values && l in values && k != l
    ensures Enumerates([k, l] + rest, values) && Enumerates([l, k] + rest, values)
  {
    rest := Listing(values.Keys - {k, l});
    forall x ensures x in [k, l] + rest <==> x in values {}
    forall x ensures x in [l, k] + rest <==> x in values {}
    DistinctPair(k, l, rest);
    DistinctPair(l, k, rest);
  }

  lemma DistinctPair(k: string, l: string, rest: seq<string>)
    requires k != l && Distinct(rest) && k !in rest && l !in rest
    ensures Distinct([k, l] + rest)
  {
    var s := [k, l] + rest;
    forall i, j | 0 <= i < j < |s| ensures s[i] != s[j] {
      assert j >= 2 ==> s[j] == rest[j - 2] && s[j] in rest;
      assert i >= 2 ==> s[i] == rest[i - 2];
    }
  }

  lemma {:induction false} MergedConcat(values: Values, a: seq<string>, b: seq<string>, searchKey: string,
                                        allowed: set<string>, name: string)
    requires forall x | x in a || x in b :: x in values
    ensures forall x | x in a + b :: x in values
    ensures Merged(values, a + b, searchKey, allowed, name)
            == Merged(values, a, searchKey, allowed, name) + Merged(values, b, searchKey, allowed, name)
    decreases |b|
  {
    hide Contribution, Merged;
    if b == [] {
      MergedNone(values, searchKey, allowed, name);
      assert a + b == a;
    } else {
      var init, last := b[..|b| - 1], b[|b| - 1];
      MergedConcat(values, a, init, searchKey, allowed, name);
      MergedSnoc(values, a + init, last, searchKey, allowed, name);
      MergedSnoc(values, init, last, searchKey, allowed, name);
      assert a + b == a + init + [last] && b == init + [last];
    }
  }

  lemma MergedNone(values: Values, searchKey: string, allowed: set<string>, name: string)
    ensures Merged(values, [], searchKey, allowed, name) == []
  {
  }

  lemma MergedPair(values: Values, k: string, l: string, searchKey: string, allowed: set<string>, name: string)
    requires k in values && l in values
    ensures Merged(values, [k, l], searchKey, allowed, name)
            == Contribution(values, k, searchKey, allowed, name) + Contribution(values, l, searchKey, allowed, name)
  {
    hide Contribution, Merged;
    MergedNone(values, searchKey, allowed, name);
    MergedSnoc(values, [], k, searchKey, allowed, name);
    MergedSnoc(values, [k], l, searchKey, allowed, name);
    assert [k, l] == [k] + [l] && [] + [k] == [k];
  }

  lemma FrontsAgree(u: seq<string>, v: seq<string>, s: seq<string>)
    requires u + v + s == v + u + s
    ensures u + v == v + u
  {
    var n := |u| + |v|;
    assert (u + v + s)[..n] == u + v && (v + u + s)[..n] == v + u;
  }

  /** If the order never shows, any two keys commute: walk them first, in both orders. */
  lemma HiddenCommutes(values: Values, k: string, l: string, searchKey: string, allowed: set<string>, name: string)
    requires k in values && l in values && OrderHidden(values, searchKey, allowed, name)
    ensures Commuting(values, k, l, searchKey, allowed, name)
  {
    hide Contribution, Collect, Merged;
    if k != l {
      var rest := TwoFirst(values, k, l);
      assert [k, l][0] in [k, l] && [k, l][1] in [k, l];
      forall x | x in rest ensures x in values {
        assert x in [k, l] + rest;
      }
      CollectExact(values, [k, l] + rest, searchKey, allowed, name);
      CollectExact(values, [l, k] + rest, searchKey, allowed, name);
      MergedConcat(values, [k, l], rest, searchKey, allowed, name);
      MergedConcat(values, [l, k], rest, searchKey, allowed, name);
      MergedPair(values, k, l, searchKey, allowed, name);
      MergedPair(values, l, k, searchKey, allowed, name);
      FrontsAgree(Contribution(values, k, searchKey, allowed, name), Contribution(values, l, searchKey, allowed, name),
                  Merged(values, rest, searchKey, allowed, name));
    }
  }

  /**
   The order in which the query is walked is hidden from the list of a filter if and only if the values
   of any two keys that feed it make the same list in either order.
   */
  lemma OrderHiddenExactly(values: Values, searchKey: string, allowed: set<string>, name: string)
    ensures OrderHidden(values, searchKey, allowed, name) <==> AllCommute(values, searchKey, allowed, name)
  {
    hide Collect, Merged, Commuting;
    if AllCommute(values, searchKey, allowed, name) {
      forall a, b | Enumerates(a, values) && Enumerates(b, values)
        ensures ListOf(Collect(values, a, searchKey, allowed), name) == ListOf(Collect(values, b, searchKey, allowed), name)
      {
        CollectExact(values, a, searchKey, allowed, name);
        CollectExact(values, b, searchKey, allowed, name);
        MergedSame(values, a, b, searchKey, allowed, name);
      }
    }
    if OrderHidden(values, searchKey, allowed, name) {
      forall k, l | k in values && l in values ensures Commuting(values, k, l, searchKey, allowed, name) {
        HiddenCommutes(values, k, l, searchKey, allowed, name);
      }
    }
  }

  /** So it is hidden when only one key feeds the filter with values that are not blank. */
  lemma OneKeyHidesOrder(values: Values, only: string, searchKey: string, allowed: set<string>, name: string)
    requires forall k | k in values && k != only :: Contribution(values, k, searchKey, allowed, name) == []
    ensures OrderHidden(values, searchKey, allowed, name)
  {
    hide Contribution, OrderHidden;
    OrderHiddenExactly(values, searchKey, allowed, name);
    forall k, l | k in values && l in values ensures Commuting(values, k, l, searchKey, allowed, name) {
      var u, v := Contribution(values, k, searchKey, allowed, name), Contribution(values, l, searchKey, allowed, name);
      assert u == v || u + v == v + u by {
        if k != only {
          assert [] + v == v == v + [];
        } else if l != only {
          assert u + [] == u == [] + u;
        }
      }
    }
  }

  /** And otherwise it shows: two keys of one filter appear in the order walked. */
  lemma OrderShowsInLists()
    ensures var values: Values, cfg := map["x" := ["1"], "filter.x" := ["2"]], Config(10, 100, [], [], "");
            var a, b := ["x", "filter.x"], ["filter.x", "x"];
            && Enumerates(a, values) && Enumerates(b, values)
            && ParseListQuery(values, a, cfg).filters == map["x" := ["1", "2"]]
            && ParseListQuery(values, b, cfg).filters == map["x" := ["2", "1"]]
  {
    hide Collect, Target, TrimAll;
    var values: Values, cfg := map["x" := ["1"], "filter.x" := ["2"]], Config(10, 100, [], [], "");
    var a, b := ["x", "filter.x"], ["filter.x", "x"];
    TargetsOfX();
    TrimOne('1');
    TrimOne('2');
    CollectTwo(values, "x", "filter.x", "x", "1", "2");
    CollectTwo(values, "filter.x", "x", "x", "2", "1");
    assert AllowedSet([]) == {};
    assert TrimSpace("") == "";
  }

  lemma TargetsOfX()
    ensures Target("x", "search") == Some("x") && Target("filter.x", "search") == Some("x") && "x" != "filter.x"
  {
    TrimOne('x');
    assert |"x"| == 1;
    assert "filter.x"[..7] == "filter." && "filter.x"[7..] == "x" && "filter.x"[6] == '.' && "filter["[6] == '[';
    assert |"filter.x"| == 8;
  }

  lemma CollectTwo(values: Values, k: string, l: string, name: string, v: string, w: string)
    requires k in values && l in values && values[k] == [v] && values[l] == [w]
    requires Target(k, "search") == Some(name) && Target(l, "search") == Some(name)
    requires TrimAll([v]) == [v] && TrimAll([w]) == [w]
    ensures Collect(values, [k, l], "search", {}) == map[name := [v, w]]
  {
    hide Target, TrimAll;
    assert [k, l][..1] == [k] && [k][..0] == [];
    assert [] + [v] == [v] && [v] + [w] == [v, w];
    assert Collect(values, [k], "search", {}) == map[name := [v]];
  }

  lemma TrimOne(c: char)
    requires !IsSpace(c)
    ensures TrimSpace([c]) == [c] && TrimAll([[c]]) == [[c]]
  {
    assert [[c]][..0] == [];
  }

  // ------------------------------------------------------------------
  // Limits, offsets and allowed keys

  /** limit is n, cut to at least 1 and at most a positive maximum. */
  predicate IsCut(limit: int, n: int, max: int) {
    && (n < 1 ==> limit == 1) && (max >= 1 && n > max ==> limit == max)
    && (1 <= n && (max < 1 || n <= max) ==> limit == n)
  }

  /** The number the text writes, if it writes one that fits. */
  ghost predicate Reads(s: string, n: int) {
    Writes(s, n) && MIN_INT <= n <= MAX_INT
  }

  /**
   The limit is at least 1 and no larger than a positive maximum: the number that the parameter
   writes, or else the default, cut to that range.
   */
  lemma LimitExact(values: Values, cfg: Config)
    ensures 1 <= Limit(values, cfg) && (cfg.maxLimit >= 1 ==> Limit(values, cfg) <= cfg.maxLimit)
    ensures forall n | Reads(Get(values, "limit"), n) :: IsCut(Limit(values, cfg), n, cfg.maxLimit)
    ensures (forall n :: !Reads(Get(values, "limit"), n)) ==> IsCut(Limit(values, cfg), cfg.defaultLimit, cfg.maxLimit)
  {
    hide Writes, TrimSpace, Atoi;
    var val := Get(values, "limit");
    forall n ensures Atoi(val) == Some(n) <==> Reads(val, n) {
      AtoiExact(val, n);
    }
    forall n | Reads(val, n) ensures IsCut(Limit(values, cfg), n, cfg.maxLimit) {
      AtoiExact(val, n);
    }
    if Atoi(val).Some? {
      assert Reads(val, Atoi(val).value);
    }
  }

  /** The offset is the number the text writes, and 0 for a negative one or for no number. */
  lemma OffsetExact(val: string)
    ensures ParseOffset(val) >= 0
    ensures forall n | Reads(val, n) :: ParseOffset(val) == if n < 0 then 0 else n
    ensures (forall n :: !Reads(val, n)) ==> ParseOffset(val) == 0
  {
    hide Writes, TrimSpace, Atoi;
    forall n ensures Atoi(val) == Some(n) <==> Reads(val, n) {
      AtoiExact(val, n);
    }
    forall n | Reads(val, n) ensures ParseOffset(val) == if n < 0 then 0 else n {
      AtoiExact(val, n);
    }
    if Atoi(val).Some? {
      assert Reads(val, Atoi(val).value);
    }
  }

  /** Every filter is allowed by a non-empty allow-list and holds at least one value, none of them empty. */
  lemma FiltersAllowed(values: Values, order: seq<string>, cfg: Config)
    requires forall k | k in order :: k in values
    ensures var q := ParseListQuery(values, order, cfg);
            forall name | name in q.filters ::
              && q.filters[name] != [] && "" !in q.filters[name]
              && ((exists f | f in cfg.allowed :: f != "") ==> name in cfg.allowed)
  {
    hide Collect;
    var searchKey, allowed := SearchKey(cfg), AllowedSet(cfg.allowed);
    var filters := Collect(values, order, searchKey, allowed);
    forall name | name in filters
      ensures filters[name] != [] && "" !in filters[name] && Allows(allowed, name)
    {
      CollectExact(values, order, searchKey, allowed, name);
      MergedFacts(values, order, searchKey, allowed, name);
    }
    if f :| f in cfg.allowed && f != "" {
      assert f in allowed;
    }
  }

  lemma {:induction false} MergedFacts(values: Values, order: seq<string>, searchKey: string, allowed: set<string>,
                                       name: string)
    requires forall k | k in order :: k in values
    ensures var merged := Merged(values, order, searchKey, allowed, name);
            "" !in merged && (merged != [] ==> Allows(allowed, name))
  {
    hide Target;
    if order != [] {
      MergedFacts(values, order[..|order| - 1], searchKey, allowed, name);
      TrimmedNotEmpty(values[order[|order| - 1]]);
    }
  }

  lemma {:induction false} TrimmedNotEmpty(vals: seq<string>)
    ensures "" !in TrimAll(vals)
  {
    if vals != [] {
      TrimmedNotEmpty(vals[..|vals| - 1]);
    }
  }

  // ------------------------------------------------------------------
  // Parameters, values and missing filters

  /** text is the first value of the parameter, empty if it has none. */
  predicate IsFirst(values: Values, key: string, text: string) {
    text == if key in values && |values[key]| > 0 then values[key][0] else ""
  }

  /** The parameters of a query: its numbers as LimitExact and OffsetExact say, and its trimmed search text. */
  lemma ParametersExact(values: Values, order: seq<string>, cfg: Config, limit: string, offset: string, search: string)
    requires forall k | k in order :: k in values
    requires IsFirst(values, "limit", limit) && IsFirst(values, "offset", offset)
    requires IsFirst(values, if AllSpace(cfg.searchParam) then "search" else cfg.searchParam, search)
    ensures var q := ParseListQuery(values, order, cfg);
            && (forall n | Reads(limit, n) :: IsCut(q.limit, n, cfg.maxLimit))
            && ((forall n :: !Reads(limit, n)) ==> IsCut(q.limit, cfg.defaultLimit, cfg.maxLimit))
            && (forall n | Reads(offset, n) :: q.offset == if n < 0 then 0 else n)
            && ((forall n :: !Reads(offset, n)) ==> q.offset == 0)
            && Bare(q.search) && Padded(search, q.search)
  {
    hide Reads, IsCut, Collect, TrimSpace, RequiredMissing, Bare, Padded, AllSpace, ParseOffset, Limit;
    LimitExact(values, cfg);
    OffsetExact(offset);
    TrimBlank(cfg.searchParam);
    TrimPads(search);
  }

  /** The trimmed values of a list: those of its parts, and of one value that value unless it is blank. */
  lemma {:induction false} TrimAllExact(a: seq<string>, b: seq<string>, v: string, t: string)
    ensures TrimAll([]) == [] && TrimAll(a + b) == TrimAll(a) + TrimAll(b)
    ensures AllSpace(v) ==> TrimAll([v]) == []
    ensures !AllSpace(v) && Bare(t) && Padded(v, t) ==> TrimAll([v]) == [t]
  {
    hide TrimSpace, AllSpace, Bare, Padded;
    TrimBlank(v);
    TrimExact(v, t);
    assert [v][..0] == [];
    TrimAllConcat(a, b);
  }

  lemma {:induction false} TrimAllConcat(a: seq<string>, b: seq<string>)
    ensures TrimAll(a + b) == TrimAll(a) + TrimAll(b)
  {
    if b == [] {
      assert a + b == a;
    } else {
      TrimAllConcat(a, b[..|b| - 1]);
      assert (a + b)[..|a + b| - 1] == a + b[..|b| - 1];
    }
  }

  /** The missing keys: those of the parts, and of one key that key unless it is empty or has a filter. */
  lemma MissingOf(filters: Filters, a: seq<string>, b: seq<string>, key: string)
    ensures RequiredMissing(filters, []) == []
    ensures RequiredMissing(filters, a + b) == RequiredMissing(filters, a) + RequiredMissing(filters, b)
    ensures RequiredMissing(filters, [key]) == if key != "" && key !in filters then [key] else []
  {
    assert [key][..0] == [];
    MissingConcat(filters, a, b);
  }

  lemma {:induction false} MissingConcat(filters: Filters, a: seq<string>, b: seq<string>)
    ensures RequiredMissing(filters, a + b) == RequiredMissing(filters, a) + RequiredMissing(filters, b)
  {
    if b == [] {
      assert a + b == a;
    } else {
      MissingConcat(filters, a, b[..|b| - 1]);
      assert (a + b)[..|a + b| - 1] == a + b[..|b| - 1];
    }
  }

  // ------------------------------------------------------------------
  // Step by step

  method TrimValues(vals: seq<string>) returns (trimmed: seq<string>)
    ensures trimmed == TrimAll(vals)
  {
    trimmed := [];
    for i := 0 to |vals|
      invariant trimmed == TrimAll(vals[..i])
    {
      assert vals[..i + 1][..i] == vals[..i];
      var v := TrimSpace(vals[i]);
      if v != "" {
        trimmed := trimmed + [v];
      }
    }
    assert vals[..|vals|] == vals;
  }

  method FindMissing(filters: Filters, required: seq<string>) returns (missing: seq<string>)
    ensures missing == RequiredMissing(filters, required)
  {
    missing := [];
    for i := 0 to |required|
      invariant missing == RequiredMissing(filters, required[..i])
    {
      assert required[..i + 1][..i] == required[..i];
      if required[i] != "" && required[i] !in filters {
        missing := missing + [required[i]];
      }
    }
    assert required[..|required|] == required;
  }

  method AllowedKeys(list: seq<string>) returns (allowed: set<string>)
    ensures allowed == AllowedSet(list)
  {
    allowed := {};
    for i := 0 to |list|
      invariant allowed == AllowedSet(list[..i])
    {
      if list[i] != "" {
        allowed := allowed + {list[i]};
      }
    }
    assert list[..|list|] == list;
  }

  method CollectFilters(values: Values, order: seq<string>, searchKey: string, allowed: set<string>)
      returns (filters: Filters)
    requires forall k | k in order :: k in values
    ensures filters == Collect(values, order, searchKey, allowed)
  {
    hide ParseFilterKey, TrimAll;
    filters := map[];
    for i := 0 to |order|
      invariant filters == Collect(values, order[..i], searchKey, allowed)
    {
      assert order[..i + 1][..i] == order[..i];
      var key := order[i];
      if key != "limit" && key != "offset" && key != searchKey {
        var filter := ParseFilterKey(key);
        var name := if filter.Some? then filter.value else key;
        if Allows(allowed, name) {
          var trimmed := TrimValues(values[key]);
          if trimmed != [] {
            filters := filters[name := (if name in filters then filters[name] else []) + trimmed];
          }
        }
      }
    }
    assert order[..|order|] == order;
  }

  /** order is the order in which the map of values is walked. */
  method Parse(values: Values, order: seq<string>, cfg: Config) returns (q: Query)
    requires Enumerates(order, values)
    ensures q == ParseListQuery(values, order, cfg)
  {
    hide Collect, RequiredMissing;
    var searchKey := cfg.searchParam;
    if TrimSpace(searchKey) == "" {
      searchKey := "search";
    }
    var allowed := AllowedKeys(cfg.allowed);
    var filters := CollectFilters(values, order, searchKey, allowed);
    var missing := FindMissing(filters, cfg.required);
    q := Query(Limit(values, cfg), ParseOffset(Get(values, "offset")), TrimSpace(Get(values, searchKey)), filters, missing);
  }
}
