/** Quoted SQL identifiers as migrator/migrator.go writes them, and a reader for them. */
module Quoting {
  import opened Common

  const QUOTE := '"'

  /** strings.ReplaceAll of a quote by two. */
  function Doubled(s: string): string {
    if s == "" then "" else (if s[0] == QUOTE then [QUOTE, QUOTE] else [s[0]]) + Doubled(s[1..])
  }

  function Pq(ident: string): string {
    [QUOTE] + Doubled(ident) + [QUOTE]
  }

  /** The text up to the closing quote, where two quotes stand for one, and what follows it. */
  function ReadBody(t: string): Option<(string, string)> {
    if t == "" then None
    else if t[0] != '"' then
      match ReadBody(t[1..])
      case None => None
      case Some((s, rest)) => Some(([t[0]] + s, rest))
    else if |t| > 1 && t[1] == '"' then
      match ReadBody(t[2..])
      case None => None
      case Some((s, rest)) => Some((['"'] + s, rest))
    else Some(("", t[1..]))
  }

  function ReadIdentifier(t: string): Option<(string, string)> {
    if t == "" || t[0] != '"' then None else ReadBody(t[1..])
  }

  predicate NoQuoteFirst(rest: string) {
    rest == "" || rest[0] != '"'
  }

  lemma {:induction false} ReadDoubled(s: string, rest: string)
    requires NoQuoteFirst(rest)
    ensures ReadBody(Doubled(s) + [QUOTE] + rest) == Some((s, rest))
  {
    var t := Doubled(s) + [QUOTE] + rest;
    if s == "" {
      assert t == [QUOTE] + rest && t[1..] == rest;
    } else {
      ReadDoubled(s[1..], rest);
      var tail := Doubled(s[1..]) + [QUOTE] + rest;
      if s[0] == QUOTE {
        assert t == [QUOTE, QUOTE] + tail && t[2..] == tail;
      } else {
        assert t == [s[0]] + tail && t[1..] == tail;
      }
      assert s == [s[0]] + s[1..];
    }
  }

  /** Reading a quoted identifier gives back the identifier and all that follows. */
  lemma QuoteThenRead(s: string, rest: string)
    requires NoQuoteFirst(rest)
    ensures ReadIdentifier(Pq(s) + rest) == Some((s, rest))
  {
    ReadDoubled(s, rest);
    assert (Pq(s) + rest)[1..] == Doubled(s) + [QUOTE] + rest;
  }

  lemma {:induction false} BodyRead(t: string)
    requires ReadBody(t).Some?
    ensures var (s, rest) := ReadBody(t).value; NoQuoteFirst(rest) && t == Doubled(s) + [QUOTE] + rest
  {
    var (s, rest) := ReadBody(t).value;
    if t[0] != QUOTE {
      BodyRead(t[1..]);
      assert s[1..] == ReadBody(t[1..]).value.0 && t == [t[0]] + t[1..];
    } else if |t| > 1 && t[1] == QUOTE {
      BodyRead(t[2..]);
      assert s[1..] == ReadBody(t[2..]).value.0 && t == [QUOTE, QUOTE] + t[2..];
    }
  }

  /** And nothing but the quoted identifier reads as it. */
  lemma ReadThenQuote(t: string)
    requires ReadIdentifier(t).Some?
    ensures var (s, rest) := ReadIdentifier(t).value; NoQuoteFirst(rest) && t == Pq(s) + rest
  {
    BodyRead(t[1..]);
    assert t == [QUOTE] + t[1..];
  }

  /** Distinct table names stay distinct. */
  lemma PqInjective(a: string, b: string)
    requires Pq(a) == Pq(b)
    ensures a == b
  {
    QuoteThenRead(a, "");
    QuoteThenRead(b, "");
    assert Pq(a) + "" == Pq(b) + "";
  }
}
