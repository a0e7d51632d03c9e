/** `_sql_affects_rows`: does any statement of a batch lead with counted DML? */
module RowCounting {
  import opened Text
  import opened SqlScanner

  predicate Occurs(text: string, pattern: string, at: nat) {
    at + |pattern| <= |text| && text[at..at + |pattern|] == pattern
  }

  lemma OccursTail(text: string, pattern: string, j: nat)
    requires 1 <= j && text != []
    ensures Occurs(text, pattern, j) <==> Occurs(text[1..], pattern, j - 1)
  {
  }

  /** `text.find(pattern)`: the first position, if any. */
  function Find(text: string, pattern: string): (r: Option<nat>)
    requires pattern != []
    ensures r.Some? ==> Occurs(text, pattern, r.value) && forall j: nat :: j < r.value ==> !Occurs(text, pattern, j)
    ensures r.None? ==> forall j: nat :: !Occurs(text, pattern, j)
  {
    if Occurs(text, pattern, 0) then Some(0)
    else if text == [] then None
    else
      var r := Find(text[1..], pattern);
      assert forall j: nat :: 1 <= j ==> (Occurs(text, pattern, j) <==> Occurs(text[1..], pattern, j - 1)) by {
        forall j: nat | 1 <= j ensures Occurs(text, pattern, j) <==> Occurs(text[1..], pattern, j - 1) {
          OccursTail(text, pattern, j);
        }
      }
      if r.Some? then Some(r.value + 1) else None
  }

  predicate OpensBlock(t: string) {
    |t| >= 2 && t[0] == '/' && t[1] == '*'
  }

  predicate OpensLine(t: string) {
    |t| >= 2 && t[0] == '-' && t[1] == '-'
  }

  /** Whitespace and comments dropped from the front, as the loop drops them. A block comment
      ends at the first star-slash, which may share its star with the opener. */
  function Bare(text: string): string
    decreases |text|
  {
    var t := LStrip(text);
    if OpensBlock(t) then
      var end := Find(t, "*/");
      if end.None? then "" else Bare(t[end.value + 2..])
    else if OpensLine(t) then
      var newline := Find(t, "\n");
      if newline.None? then "" else Bare(t[newline.value + 1..])
    else t
  }

  /** What may stand in front of a statement. */
  datatype Trivium = Blank(c: char) | Line(body: string) | Block(body: string)

  function TriviumText(v: Trivium): string {
    match v
    case Blank(c) => [c]
    case Line(body) => "--" + body + "\n"
    case Block(body) => "/*" + body
  }

  predicate ValidTrivium(v: Trivium) {
    match v
    case Blank(c) => IsSpace(c)
    case Line(body) => '\n' !in body
    case Block(body) => Find("/*" + body, "*/") == Some(|body|)
  }

  function TriviaText(vs: seq<Trivium>): string {
    if vs == [] then "" else TriviumText(vs[0]) + TriviaText(vs[1..])
  }

  predicate ValidTrivia(vs: seq<Trivium>) {
    forall i :: 0 <= i < |vs| ==> ValidTrivium(vs[i])
  }

  /** Nothing droppable at the front. */
  predicate IsBare(t: string) {
    (t == [] || !IsSpace(t[0])) && !OpensBlock(t) && !OpensLine(t)
  }

  lemma {:induction false} LStripAll(s: string)
    ensures var r := LStrip(s);
            exists vs :: ValidTrivia(vs) && s == TriviaText(vs) + r
  {
    var r := LStrip(s);
    if s != [] && IsSpace(s[0]) {
      LStripAll(s[1..]);
      var vs :| ValidTrivia(vs) && s[1..] == TriviaText(vs) + r;
      assert ([Blank(s[0])] + vs)[1..] == vs;
      assert s == TriviaText([Blank(s[0])] + vs) + r;
    } else {
      assert s == TriviaText([]) + r;
    }
  }

  lemma {:induction false} TriviaConcat(x: seq<Trivium>, y: seq<Trivium>)
    ensures TriviaText(x + y) == TriviaText(x) + TriviaText(y)
  {
    if x == [] {
      assert x + y == y;
    } else {
      assert (x + y)[1..] == x[1..] + y;
      TriviaConcat(x[1..], y);
    }
  }

  /** A search depends only on the text up to the end of its first hit. */
  lemma FindLocal(text: string, text': string, pattern: string)
    requires pattern != [] && Find(text, pattern).Some?
    requires text[..Find(text, pattern).value + |pattern|] <= text'
    ensures Find(text', pattern) == Find(text, pattern)
  {
    hide Find;
    var p, n := Find(text, pattern).value, |pattern|;
    forall j: nat | j <= p ensures Occurs(text', pattern, j) <==> Occurs(text, pattern, j) {
      assert text'[..p + n] == text[..p + n];
      assert text'[..p + n][j..j + n] == text[..p + n][j..j + n];
      assert text'[j..j + n] == text[j..j + n];
    }
  }

  /** A text that starts with a whole comment, taken apart. */
  lemma CommentSplits(t: string) returns (v: Trivium, e: nat)
    requires OpensBlock(t) ==> Find(t, "*/").Some?
    requires OpensLine(t) ==> Find(t, "\n").Some?
    requires OpensBlock(t) || OpensLine(t)
    ensures ValidTrivium(v) && 0 < e <= |t| && t == TriviumText(v) + t[e..]
    ensures e == if OpensBlock(t) then Find(t, "*/").value + 2 else Find(t, "\n").value + 1
  {
    hide Find;
    if OpensBlock(t) {
      e := Find(t, "*/").value + 2;
      NoEarlyClose(t);
      v := Block(t[2..e]);
      assert "/*" + t[2..e] == t[..e];
      FindLocal(t, t[..e], "*/");
    } else {
      e := Find(t, "\n").value + 1;
      assert Occurs(t, "\n", e - 1) && t[e - 1..e] == "\n";
      assert t[e - 1] == '\n';
      v := Line(t[2..e - 1]);
      var body := t[2..e - 1];
      forall j: nat | j < |body| ensures body[j] != '\n' {
        assert !Occurs(t, "\n", j + 2);
      }
      assert t[..e] == "--" + t[2..e - 1] + "\n";
    }
    assert t == t[..e] + t[e..];
  }

  lemma NoEarlyClose(t: string)
    requires OpensBlock(t) && Find(t, "*/").Some?
    ensures Find(t, "*/").value > 0
  {
  }

  /** The loop drops whitespace and whole comments and nothing else. */
  lemma {:induction false} BareDropsTrivia(text: string)
    ensures IsBare(Bare(text))
    ensures Bare(text) != "" ==> exists vs :: ValidTrivia(vs) && text == TriviaText(vs) + Bare(text)
    decreases |text|
  {
    var t := LStrip(text);
    LStripDrops(text);
    if (OpensBlock(t) && Find(t, "*/").Some?) || (!OpensBlock(t) && OpensLine(t) && Find(t, "\n").Some?) {
      var v, e := CommentSplits(t);
      BareDropsTrivia(t[e..]);
      if Bare(text) != "" {
        LStripAll(text);
        var lead :| ValidTrivia(lead) && text == TriviaText(lead) + t;
        var vs :| ValidTrivia(vs) && t[e..] == TriviaText(vs) + Bare(t[e..]);
        JoinTrivia(text, lead, v, vs, t[e..], Bare(text));
      }
    } else if !OpensBlock(t) && !OpensLine(t) {
      LStripAll(text);
    }
  }

  lemma JoinTrivia(text: string, lead: seq<Trivium>, v: Trivium, vs: seq<Trivium>, rest: string, bare: string)
    requires ValidTrivia(lead) && ValidTrivium(v) && ValidTrivia(vs)
    requires text == TriviaText(lead) + (TriviumText(v) + rest)
    requires rest == TriviaText(vs) + bare
    ensures exists all :: ValidTrivia(all) && text == TriviaText(all) + bare
  {
    var all := lead + ([v] + vs);
    assert ([v] + vs)[1..] == vs;
    TriviaConcat(lead, [v] + vs);
    Assoc(TriviumText(v), TriviaText(vs), bare);
    Assoc(TriviaText(lead), TriviaText([v] + vs), bare);
    assert text == TriviaText(all) + bare;
  }

  /** And it drops all of them: any run of whitespace and comments in front makes no difference. */
  lemma {:induction false} TriviaIsDropped(vs: seq<Trivium>, t: string)
    requires ValidTrivia(vs)
    ensures Bare(TriviaText(vs) + t) == Bare(t)
  {
    if vs == [] {
      assert TriviaText(vs) + t == t;
    } else {
      var rest := TriviaText(vs[1..]) + t;
      TriviaIsDropped(vs[1..], t);
      Assoc(TriviumText(vs[0]), TriviaText(vs[1..]), t);
      TriviumIsDropped(vs[0], rest);
    }
  }

  lemma TriviumIsDropped(v: Trivium, rest: string)
    requires ValidTrivium(v)
    ensures Bare(TriviumText(v) + rest) == Bare(rest)
  {
    var s := TriviumText(v) + rest;
    match v {
      case Blank(c) =>
        assert s[1..] == rest;
      case Line(body) =>
        LineIsDropped(body, rest);
      case Block(body) =>
        BlockIsDropped(body, rest);
    }
  }

  lemma LineIsDropped(body: string, rest: string)
    requires '\n' !in body
    ensures Bare("--" + body + "\n" + rest) == Bare(rest)
  {
    var s := "--" + body + "\n" + rest;
    var e := |body| + 2;
    assert s[e..e + 1] == "\n" && Occurs(s, "\n", e);
    forall j: nat | j < e ensures !Occurs(s, "\n", j) {
      assert s[j] != '\n' by {
        if j >= 2 {
          assert s[j] == body[j - 2];
        }
      }
    }
    assert Find(s, "\n") == Some(e);
    assert s[e + 1..] == rest;
    assert LStrip(s) == s && OpensLine(s) && !OpensBlock(s);
  }

  lemma BlockIsDropped(body: string, rest: string)
    requires Find("/*" + body, "*/") == Some(|body|)
    ensures Bare("/*" + body + rest) == Bare(rest)
  {
    var t := "/*" + body;
    var s := t + rest;
    assert t[..|body| + 2] == t && t <= s;
    FindLocal(t, s, "*/");
    assert s[|body| + 2..] == rest;
    assert LStrip(s) == s && OpensBlock(s);
  }

  /** Where SQL ends a block comment that opens a text: behind the first star-slash after its opener. */
  function CommentEnd(t: string): Option<nat>
    requires OpensBlock(t)
  {
    var end := Find(t[2..], "*/");
    if end.None? then None else Some(2 + end.value)
  }

  /** The loop ends a block comment where SQL does exactly when no slash follows the opener: it takes the star
      of the opener for that of the end. */
  lemma CommentEndIff(t: string)
    requires OpensBlock(t)
    ensures Find(t, "*/") == CommentEnd(t) <==> !(|t| > 2 && t[2] == '/')
  {
    hide Find, Occurs;
    OpenerNoEnd(t);
    if |t| > 2 && t[2] == '/' {
      FindIs(t, "*/", 1);
    } else {
      EndBehindOpener(t);
    }
  }

  lemma FindIs(text: string, pattern: string, p: nat)
    requires pattern != [] && Occurs(text, pattern, p) && forall j: nat :: j < p ==> !Occurs(text, pattern, j)
    ensures Find(text, pattern) == Some(p)
  {
    hide Find, Occurs;
  }

  /** At the opener itself no comment ends, and behind its slash only a slash can end one. */
  lemma OpenerNoEnd(t: string)
    requires OpensBlock(t)
    ensures !Occurs(t, "*/", 0)
    ensures Occurs(t, "*/", 1) <==> |t| > 2 && t[2] == '/'
  {
    assert t[0..2][0] == '/';
    if |t| > 2 {
      assert t[1..3] == [t[1], t[2]];
      assert "*/" == ['*', '/'];
    }
  }

  lemma EndBehindOpener(t: string)
    requires OpensBlock(t) && !Occurs(t, "*/", 0) && !Occurs(t, "*/", 1)
    ensures Find(t, "*/") == CommentEnd(t)
  {
    hide Find, Occurs;
    var end := Find(t[2..], "*/");
    forall j: nat | j >= 2 ensures Occurs(t, "*/", j) <==> Occurs(t[2..], "*/", j - 2) {
      OccursBehind(t, "*/", j);
    }
    if end.Some? {
      FindIs(t, "*/", end.value + 2);
    }
  }

  lemma OccursBehind(t: string, pattern: string, j: nat)
    requires 2 <= j && |t| >= 2
    ensures Occurs(t, pattern, j) <==> Occurs(t[2..], pattern, j - 2)
  {
    OccursTail(t, pattern, j);
    OccursTail(t[1..], pattern, j - 1);
    assert t[1..][1..] == t[2..];
  }

  // ------------------------------------------------------------------- batches

  function ToUpper(c: char): char {
    if 'a' <= c <= 'z' then (c as int - 32) as char else c
  }

  function Upper(s: string): (r: string)
    ensures |r| == |s|
  {
    seq(|s|, i requires 0 <= i < |s| => ToUpper(s[i]))
  }

  predicate LeadsWithDml(t: string) {
    var u := Upper(t);
    "INSERT" <= u || "UPDATE" <= u || "DELETE" <= u || "MERGE" <= u
  }

  lemma SameFolded(word: string, t: string)
    requires forall i :: 0 <= i < |word| ==> 'A' <= word[i] <= 'Z'
    ensures word <= Upper(t) <==> |word| <= |t| && Lower(t[..|word|]) == Lower(word)
  {
    if |word| <= |t| {
      var head := t[..|word|];
      forall i | 0 <= i < |word| ensures ToUpper(head[i]) == word[i] <==> ToLower(head[i]) == ToLower(word[i]) {
      }
      if word <= Upper(t) {
        forall i | 0 <= i < |word| ensures Lower(head)[i] == Lower(word)[i] {
          assert Upper(t)[i] == word[i];
        }
      }
      if Lower(head) == Lower(word) {
        forall i | 0 <= i < |word| ensures Upper(t)[i] == word[i] {
          assert Lower(head)[i] == Lower(word)[i];
        }
      }
    }
  }

  /** Counted DML is led by one of four words, in any case. */
  lemma LeadsWithDmlIff(t: string)
    ensures LeadsWithDml(t)
            <==> (|t| >= 6 && Lower(t[..6]) in {"insert", "update", "delete"}) || (|t| >= 5 && Lower(t[..5]) == "merge")
  {
    hide Upper, ToLower;
    SameFolded("INSERT", t);
    SameFolded("UPDATE", t);
    SameFolded("DELETE", t);
    SameFolded("MERGE", t);
    LowerWords();
  }

  lemma LowerWords()
    ensures Lower("INSERT") == "insert" && Lower("UPDATE") == "update" && Lower("DELETE") == "delete"
    ensures Lower("MERGE") == "merge"
  {
  }

  predicate SomeLeadsWithDml(statements: seq<string>) {
    exists i :: 0 <= i < |statements| && LeadsWithDml(Bare(statements[i]))
  }

  predicate AffectsRows(sql: string) {
    SomeLeadsWithDml(Statements(sql))
  }

  /** The comment-stripping loop on one statement. */
  method StripLeading(statement: string) returns (text: string)
    ensures text == Bare(statement)
  {
    text := statement;
    while true
      invariant Bare(text) == Bare(statement)
      decreases |text|
    {
      ghost var before := text;
      text := LStrip(text);
      LStripDrops(before);
      if OpensBlock(text) {
        var end := Find(text, "*/");
        if end.None? {
          text := "";
          break;
        }
        text := text[end.value + 2..];
        continue;
      }
      if OpensLine(text) {
        var newline := Find(text, "\n");
        text := if newline.None? then "" else text[newline.value + 1..];
        continue;
      }
      break;
    }
  }

  /** `_sql_affects_rows`. */
  method SqlAffectsRows(sql: string) returns (r: bool)
    ensures r == AffectsRows(sql)
  {
    var statements := SplitSqlStatements(sql);
    r := AnyAffectsRows(statements);
  }

  method AnyAffectsRows(statements: seq<string>) returns (r: bool)
    ensures r == SomeLeadsWithDml(statements)
  {
    for i := 0 to |statements|
      invariant forall j :: 0 <= j < i ==> !LeadsWithDml(Bare(statements[j]))
    {
      var text := StripLeading(statements[i]);
      if LeadsWithDml(text) {
        return true;
      }
    }
    return false;
  }

  lemma SomeLeadsConcat(x: seq<string>, y: seq<string>)
    ensures SomeLeadsWithDml(x + y) <==> SomeLeadsWithDml(x) || SomeLeadsWithDml(y)
  {
    forall i | 0 <= i < |x| ensures (x + y)[i] == x[i] {
    }
    forall i | 0 <= i < |y| ensures y[i] == (x + y)[|x| + i] {
    }
  }

  /** A batch affects rows exactly when one of its halves does, provided the first half
      leaves no span open. */
  lemma AffectsRowsCompositional(a: string, b: string)
    requires LeavesNothingOpen(a)
    ensures AffectsRows(a + ";" + b) <==> AffectsRows(a) || AffectsRows(b)
  {
    SplitCompositional(a, b);
    SomeLeadsConcat(Statements(a), Statements(b));
  }

  /** So a statement behind a comment that begins with a slash is not seen: to the server all of `x` is
      comment, to the loop it is the statement. */
  lemma SlashCommentHidesStatement(x: string, rest: string)
    ensures Bare("/*/" + x + "*/" + rest) == Bare(x + "*/" + rest)
  {
    var s := "/*/" + x + "*/" + rest;
    assert s[1..3] == "*/" && s[0..2] == "/*";
    assert Occurs(s, "*/", 1) && !Occurs(s, "*/", 0);
    assert Find(s, "*/") == Some(1);
    assert s[3..] == x + "*/" + rest;
    assert LStrip(s) == s && OpensBlock(s);
  }

  lemma LetterIsBare(t: string)
    requires t != "" && 'a' <= t[0] <= 'z'
    ensures Bare(t) == t
  {
  }

  lemma NoDmlWithX(t: string)
    requires t != "" && t[0] == 'x'
    ensures !LeadsWithDml(t)
  {
    assert Upper(t)[0] == 'X';
    assert "INSERT"[0] == 'I' && "UPDATE"[0] == 'U' && "DELETE"[0] == 'D' && "MERGE"[0] == 'M';
  }

  /** An input: the server deletes, and the loop sees no counted statement. */
  lemma SlashCommentMissesDelete()
    ensures Bare("/*/x*/delete from t") == "x*/delete from t"
    ensures !LeadsWithDml(Bare("/*/x*/delete from t"))
  {
    hide Bare, LeadsWithDml;
    SlashCommentHidesStatement("x", "delete from t");
    assert "/*/" + "x" + "*/" + "delete from t" == "/*/x*/delete from t";
    assert "x" + "*/" + "delete from t" == "x*/delete from t";
    LetterIsBare("x*/delete from t");
    NoDmlWithX("x*/delete from t");
  }
}
