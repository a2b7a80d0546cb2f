/** Trimming, splitting and joining: what the string helpers compute, for every string. */
module Texts {
  import opened Common

  // ------------------------------------------------------------------
  // Trimming

  predicate AllSpace(s: string) {
    forall i | 0 <= i < |s| :: IsSpace(s[i])
  }

  /** No space at either end. */
  predicate Bare(s: string) {
    s != "" ==> !IsSpace(s[0]) && !IsSpace(s[|s| - 1])
  }

  /** t with space around it is s. */
  ghost predicate Padded(s: string, t: string) {
    exists a, b :: AllSpace(a) && AllSpace(b) && s == a + t + b
  }

  lemma {:induction false} TrimLeftExact(s: string) returns (a: string)
    ensures AllSpace(a) && s == a + TrimLeft(s) && (TrimLeft(s) != "" ==> !IsSpace(TrimLeft(s)[0]))
  {
    a := "";
    if s != "" && IsSpace(s[0]) {
      var rest := TrimLeftExact(s[1..]);
      a := [s[0]] + rest;
    }
  }

  lemma {:induction false} TrimRightExact(s: string) returns (b: string)
    ensures AllSpace(b) && s == TrimRight(s) + b
    ensures TrimRight(s) != "" ==> !IsSpace(TrimRight(s)[|TrimRight(s)| - 1]) && TrimRight(s)[0] == s[0]
  {
    b := "";
    if s != "" && IsSpace(s[|s| - 1]) {
      var rest := TrimRightExact(s[..|s| - 1]);
      b := rest + [s[|s| - 1]];
    }
  }

  lemma TrimPads(s: string)
    ensures Bare(TrimSpace(s)) && Padded(s, TrimSpace(s))
  {
    hide IsSpace;
    var a := TrimLeftExact(s);
    var b := TrimRightExact(TrimLeft(s));
    assert s == a + TrimSpace(s) + b;
  }

  lemma {:induction false} TrimLeftSpace(a: string, s: string)
    requires AllSpace(a)
    ensures TrimLeft(a + s) == TrimLeft(s)
  {
    hide IsSpace;
    if a == "" {
      assert a + s == s;
    } else {
      TrimLeftSpace(a[1..], s);
      assert (a + s)[1..] == a[1..] + s;
    }
  }

  lemma {:induction false} TrimRightSpace(s: string, b: string)
    requires AllSpace(b)
    ensures TrimRight(s + b) == TrimRight(s)
  {
    hide IsSpace;
    if b == "" {
      assert s + b == s;
    } else {
      TrimRightSpace(s, b[..|b| - 1]);
      assert (s + b)[..|s + b| - 1] == s + b[..|b| - 1];
    }
  }

  lemma {:induction false} TrimRightAllSpace(b: string)
    requires AllSpace(b)
    ensures TrimLeft(b) == ""
  {
    if b != "" {
      TrimRightAllSpace(b[1..]);
    }
  }

  /** Trimming takes exactly the space around a text away: t is the trimmed s if and only if it is bare and s pads it. */
  lemma TrimExact(s: string, t: string)
    ensures TrimSpace(s) == t <==> Bare(t) && Padded(s, t)
  {
    hide IsSpace, TrimLeft, TrimRight;
    TrimPads(s);
    if Bare(t) && Padded(s, t) {
      var a, b :| AllSpace(a) && AllSpace(b) && s == a + t + b;
      assert s == a + (t + b);
      TrimLeftSpace(a, t + b);
      PaddedRight(t, b);
    }
  }

  lemma PaddedRight(t: string, b: string)
    requires Bare(t) && AllSpace(b)
    ensures TrimRight(TrimLeft(t + b)) == t
  {
    if t == "" {
      assert t + b == b;
      TrimRightAllSpace(b);
    } else {
      assert TrimLeft(t + b) == t + b;
      TrimRightSpace(t, b);
    }
  }

  /** Nothing is left exactly of a text of spaces. */
  lemma TrimBlank(s: string)
    ensures TrimSpace(s) == "" <==> AllSpace(s)
  {
    hide IsSpace;
    TrimExact(s, "");
    if AllSpace(s) {
      assert s == s + "" + "" && AllSpace("");
    }
  }

  // ------------------------------------------------------------------
  // Splitting and joining

  function Split(s: string, sep: char): (parts: seq<string>)
    ensures parts != []
  {
    if s == "" then [""]
    else
      var rest := Split(s[1..], sep);
      if s[0] == sep then [""] + rest else [[s[0]] + rest[0]] + rest[1..]
  }

  function Join(parts: seq<string>, sep: char): string {
    if parts == [] then "" else if |parts| == 1 then parts[0] else parts[0] + [sep] + Join(parts[1..], sep)
  }

  lemma {:induction false} JoinSplit(s: string, sep: char)
    ensures Join(Split(s, sep), sep) == s
  {
    if s != "" {
      var rest := Split(s[1..], sep);
      JoinSplit(s[1..], sep);
      if s[0] == sep {
        assert ([""] + rest)[1..] == rest;
      } else {
        assert ([[s[0]] + rest[0]] + rest[1..])[1..] == rest[1..];
      }
    }
  }

  lemma {:induction false} SplitWithout(a: string, sep: char)
    requires sep !in a
    ensures Split(a, sep) == [a]
  {
    if a != "" {
      SplitWithout(a[1..], sep);
      assert [a[0]] + a[1..] == a;
    }
  }

  lemma {:induction false} SplitAt(a: string, b: string, sep: char)
    requires sep !in a
    ensures Split(a + [sep] + b, sep) == [a] + Split(b, sep)
  {
    var s := a + [sep] + b;
    if a == "" {
      assert s[1..] == b;
    } else {
      SplitAt(a[1..], b, sep);
      assert s[1..] == a[1..] + [sep] + b;
      assert [a[0]] + a[1..] == a;
    }
  }

  /** Parts without the separator are got back. */
  lemma {:induction false} SplitJoin(parts: seq<string>, sep: char)
    requires parts != [] && forall p | p in parts :: sep !in p
    ensures Split(Join(parts, sep), sep) == parts
  {
    if |parts| == 1 {
      SplitWithout(parts[0], sep);
    } else {
      SplitAt(parts[0], Join(parts[1..], sep), sep);
      SplitJoin(parts[1..], sep);
    }
  }
}
