/** Quote doubling, the span scanner of `sqlserver_connections.py`, and the two
    identifier quoters of the adapter and the relation class. */
module Quoting {
  import opened Text

  // ---------------------------------------------------------------- doubling

  /** `text.replace(q, q * 2)`. */
  function Doubled(text: string, q: char): (r: string)
    ensures |r| >= |text|
  {
    if text == [] then []
    else (if text[0] == q then [q, q] else [text[0]]) + Doubled(text[1..], q)
  }

  /** Undo the doubling; None when some `q` stands alone. */
  function Undoubled(s: string, q: char): (r: Option<string>) {
    if s == [] then Some([])
    else if s[0] != q then
      var rest := Undoubled(s[1..], q);
      if rest.Some? then Some([s[0]] + rest.value) else None
    else if |s| > 1 && s[1] == q then
      var rest := Undoubled(s[2..], q);
      if rest.Some? then Some([q] + rest.value) else None
    else None
  }

  lemma {:induction false} UndoubledDoubled(text: string, q: char)
    ensures Undoubled(Doubled(text, q), q) == Some(text)
  {
    if text != [] {
      UndoubledDoubled(text[1..], q);
      assert text == [text[0]] + text[1..];
      var r := Doubled(text, q);
      if text[0] == q {
        assert r[2..] == Doubled(text[1..], q);
      } else {
        assert r[1..] == Doubled(text[1..], q);
      }
    }
  }

  lemma {:induction false} DoubledUndoubled(s: string, q: char)
    requires Undoubled(s, q).Some?
    ensures Doubled(Undoubled(s, q).value, q) == s
  {
    if s != [] {
      var t := Undoubled(s, q).value;
      if s[0] != q {
        DoubledUndoubled(s[1..], q);
        assert t[1..] == Undoubled(s[1..], q).value;
      } else {
        DoubledUndoubled(s[2..], q);
        assert t[1..] == Undoubled(s[2..], q).value;
        assert s == [q, q] + s[2..];
      }
    }
  }

  // ------------------------------------------------------------------- spans

  predicate Opens(c: char) {
    c == '[' || c == '\''
  }

  /** The character that closes a span opened by `c`. */
  function CloseOf(c: char): char {
    if c == '[' then ']' else '\''
  }

  /** How much of the text after an opener belongs to its span. */
  function SpanLength(t: string, q: char): (n: nat)
    ensures n <= |t| && (t != [] ==> n > 0)
  {
    if t == [] then 0
    else if t[0] != q then 1 + SpanLength(t[1..], q)
    else if |t| > 1 && t[1] == q then 2 + SpanLength(t[2..], q)
    else 1
  }

  /** `t[..n]` is a doubled body and its closing quote, and the quote is not doubled. */
  predicate ClosesAt(t: string, q: char, n: nat) {
    && 0 < n <= |t|
    && t[n - 1] == q
    && Undoubled(t[..n - 1], q).Some?
    && (n < |t| ==> t[n] != q)
  }

  /** The scan stops where the quote closes, or runs to the end when none does. */
  lemma {:induction false} SpanLengthMeaning(t: string, q: char)
    ensures var n := SpanLength(t, q);
            ClosesAt(t, q, n) || (n == |t| && Undoubled(t, q).Some?)
  {
    if t != [] {
      var n := SpanLength(t, q);
      if t[0] != q {
        SpanLengthMeaning(t[1..], q);
        if n > 1 {
          assert t[..n - 1][1..] == t[1..][..n - 2];
        }
      } else if |t| > 1 && t[1] == q {
        SpanLengthMeaning(t[2..], q);
        if n > 2 {
          assert t[..n - 1][2..] == t[2..][..n - 3];
          assert t[..n - 1][0] == q && t[..n - 1][1] == q;
        }
      } else {
        assert t[..0] == [];
      }
    }
  }

  /** A closed span has only one possible end: the scanner's. */
  lemma {:induction false} ClosesAtUnique(t: string, q: char, n: nat)
    requires ClosesAt(t, q, n)
    ensures SpanLength(t, q) == n && Undoubled(t, q).None?
  {
    var body := t[..n - 1];
    if t[0] != q {
      assert body[1..] == t[1..][..n - 2];
      ClosesAtUnique(t[1..], q, n - 1);
    } else if n > 1 {
      assert body[0] == q && body[1] == t[1] == q;
      assert body[2..] == t[2..][..n - 3];
      ClosesAtUnique(t[2..], q, n - 2);
    }
  }

  /** A body with every quote doubled never closes. */
  lemma {:induction false} OpenSpanRunsOn(t: string, q: char, rest: string)
    requires Undoubled(t, q).Some?
    ensures SpanLength(t + rest, q) == |t| + SpanLength(rest, q)
    ensures rest == [] ==> SpanLength(t, q) == |t|
  {
    if t == [] {
      assert t + rest == rest;
    } else if t[0] != q {
      OpenSpanRunsOn(t[1..], q, rest);
      assert (t + rest)[1..] == t[1..] + rest;
      assert rest == [] ==> t + rest == t;
    } else {
      OpenSpanRunsOn(t[2..], q, rest);
      assert (t + rest)[2..] == t[2..] + rest;
      assert rest == [] ==> t + rest == t;
    }
  }

  /** Appending text leaves a closed span alone unless it starts with the closing quote. */
  lemma {:induction false} ClosesAtExtend(t: string, q: char, n: nat, rest: string)
    requires ClosesAt(t, q, n)
    requires rest != [] && rest[0] == q ==> n < |t|
    ensures ClosesAt(t + rest, q, n)
  {
    assert (t + rest)[..n - 1] == t[..n - 1];
  }

  /** Escaping and scanning are inverse: an opener, a doubled body and the closing quote,
      followed by anything that does not start with that quote, is exactly one span. */
  lemma EscapeThenScan(text: string, open: char, rest: string)
    requires Opens(open)
    requires rest == [] || rest[0] != CloseOf(open)
    ensures var q := CloseOf(open);
            SpanLength(Doubled(text, q) + [q] + rest, q) == |Doubled(text, q)| + 1
  {
    var q := CloseOf(open);
    var t := Doubled(text, q) + [q] + rest;
    UndoubledDoubled(text, q);
    assert t[..|Doubled(text, q)|] == Doubled(text, q);
    ClosesAtUnique(t, q, |Doubled(text, q)| + 1);
  }

  /** Exactly one of the two outcomes holds: the span closes, once, or it never does. */
  lemma SpanEnds(t: string, q: char)
    ensures var n := SpanLength(t, q);
            && (Undoubled(t, q).None? <==> ClosesAt(t, q, n))
            && (Undoubled(t, q).Some? ==> n == |t|)
            && forall m :: ClosesAt(t, q, m) ==> m == n
  {
    SpanLengthMeaning(t, q);
    forall m | ClosesAt(t, q, m) ensures m == SpanLength(t, q) && Undoubled(t, q).None? {
      ClosesAtUnique(t, q, m);
    }
    if Undoubled(t, q).Some? {
      OpenSpanRunsOn(t, q, []);
    }
  }

  /** `_skip_quoted_span`. */
  method SkipQuotedSpan(sql: string, i: nat) returns (r: Option<nat>)
    requires i < |sql|
    ensures r == if Opens(sql[i]) then Some(i + 1 + SpanLength(sql[i + 1..], CloseOf(sql[i]))) else None
  {
    var ch := sql[i];
    if !Opens(ch) {
      return None;
    }
    var close := CloseOf(ch);
    var n := |sql|;
    var end := i + 1;
    while end < n
      invariant i < end <= n
      invariant SpanLength(sql[i + 1..], close) == end - i - 1 + SpanLength(sql[end..], close)
    {
      assert sql[end..][1..] == sql[end + 1..];
      if sql[end] == close {
        if end + 1 < n && sql[end + 1] == close {
          assert sql[end..][2..] == sql[end + 2..];
          end := end + 2;
          continue;
        }
        return Some(end + 1);
      }
      end := end + 1;
    }
    return Some(end);
  }

  // ------------------------------------------------------------- identifiers

  /** `SQLServerAdapter.quote`. */
  function Quote(identifier: string): string {
    "\"" + Doubled(identifier, '"') + "\""
  }

  /** `SQLServerRelation.quoted`, for any quote character of the relation. */
  function Quoted(identifier: string, quoteChar: char): string {
    [quoteChar] + Doubled(identifier, quoteChar) + [quoteChar]
  }

  /** Read one quoted identifier from the front of `s`: the name and what follows. */
  function Unquote(s: string, q: char): Option<(string, string)> {
    if s == [] || s[0] != q then None
    else
      var t := s[1..];
      var n := SpanLength(t, q);
      if n == 0 || t[n - 1] != q then None
      else
        var body := Undoubled(t[..n - 1], q);
        if body.None? then None else Some((body.value, t[n..]))
  }

  /** Quoting is undone by reading the identifier back, whatever follows it. */
  lemma UnquoteQuoted(identifier: string, q: char, rest: string)
    requires rest == [] || rest[0] != q
    ensures Unquote(Quoted(identifier, q) + rest, q) == Some((identifier, rest))
  {
    var d := Doubled(identifier, q);
    var s := Quoted(identifier, q) + rest;
    var t := s[1..];
    assert t == d + [q] + rest;
    UndoubledDoubled(identifier, q);
    assert t[..|d|] == d;
    ClosesAtUnique(t, q, |d| + 1);
    assert t[|d| + 1..] == rest;
  }

  /** Both quoters render the same text for the double-quote character. */
  lemma QuotersAgree(identifier: string)
    ensures Quote(identifier) == Quoted(identifier, '"')
    ensures Unquote(Quote(identifier), '"') == Some((identifier, ""))
  {
    UnquoteQuoted(identifier, '"', []);
    assert Quote(identifier) + [] == Quote(identifier);
  }

  /** A rendered path of quoted parts, such as `"db"."schema"."table"`. */
  function Dotted(parts: seq<string>): string
    requires parts != []
  {
    if |parts| == 1 then Quote(parts[0]) else Quote(parts[0]) + "." + Dotted(parts[1..])
  }

  /** A rendered path determines its parts, however many there are and whatever
      dots and quotes they contain. */
  lemma {:induction false} DottedInjective(a: seq<string>, b: seq<string>)
    requires a != [] && b != [] && Dotted(a) == Dotted(b)
    ensures a == b
  {
    var restA := if |a| == 1 then "" else "." + Dotted(a[1..]);
    var restB := if |b| == 1 then "" else "." + Dotted(b[1..]);
    assert Dotted(a) == Quote(a[0]) + restA;
    assert Dotted(b) == Quote(b[0]) + restB;
    UnquoteQuoted(a[0], '"', restA);
    UnquoteQuoted(b[0], '"', restB);
    assert a[0] == b[0] && restA == restB;
    if |a| > 1 && |b| > 1 {
      assert Dotted(a[1..]) == restA[1..] == restB[1..] == Dotted(b[1..]);
      DottedInjective(a[1..], b[1..]);
      assert a == [a[0]] + a[1..];
      assert b == [b[0]] + b[1..];
    } else {
      assert |a| == 1 && |b| == 1;
    }
  }
}
