/** SQL text as a sequence of items, and the scanners built on it:
    placeholder rewriting and statement splitting. */
module SqlScanner {
  import opened Text
  import opened Quoting

  /** One quoted span (bracketed identifier or string literal), or one other character. */
  datatype Item = Plain(c: char) | Span(text: string)

  function ItemText(it: Item): string {
    match it
    case Plain(c) => [c]
    case Span(text) => text
  }

  function Render(items: seq<Item>): string {
    if items == [] then "" else ItemText(items[0]) + Render(items[1..])
  }

  /** The length of the first item of a text. */
  function HeadLength(sql: string): (e: nat)
    requires sql != []
    ensures 0 < e <= |sql|
  {
    if Opens(sql[0]) then 1 + SpanLength(sql[1..], CloseOf(sql[0])) else 1
  }

  function HeadItem(sql: string): (it: Item)
    requires sql != []
    ensures ItemText(it) == sql[..HeadLength(sql)]
    ensures it.Span? <==> Opens(sql[0])
  {
    if Opens(sql[0]) then Span(sql[..HeadLength(sql)]) else Plain(sql[0])
  }

  /** How the scanners see a text. */
  function Items(sql: string): seq<Item>
    decreases |sql|
  {
    if sql == [] then [] else [HeadItem(sql)] + Items(sql[HeadLength(sql)..])
  }

  /** A span whose quote is closed. */
  predicate Closed(text: string) {
    text != [] && Opens(text[0]) && ClosesAt(text[1..], CloseOf(text[0]), |text| - 1)
  }

  /** A span that runs to the end of the text. */
  predicate Unclosed(text: string) {
    text != [] && Opens(text[0]) && Undoubled(text[1..], CloseOf(text[0])).Some?
  }

  /** An item that a scan of its text followed by `after` finds first. */
  predicate Fits(it: Item, after: string) {
    match it
    case Plain(c) => !Opens(c)
    case Span(t) =>
      || (Closed(t) && (after == [] || after[0] != CloseOf(t[0])))
      || (Unclosed(t) && after == [])
  }

  /** `items` is the reading of its own text when `next` is the text that follows. */
  predicate Readable(items: seq<Item>, next: string) {
    items == [] || (Readable(items[1..], next) && Fits(items[0], Render(items[1..]) + next))
  }

  // ------------------------------------------------------- reading and writing

  lemma {:induction false} RenderConcat(x: seq<Item>, y: seq<Item>)
    ensures Render(x + y) == Render(x) + Render(y)
  {
    if x == [] {
      assert x + y == y;
    } else {
      assert (x + y)[1..] == x[1..] + y;
      RenderConcat(x[1..], y);
    }
  }

  /** The scan of the first item of a text, with its meaning. */
  lemma HeadFits(sql: string)
    requires sql != []
    ensures Fits(HeadItem(sql), sql[HeadLength(sql)..])
  {
    if Opens(sql[0]) {
      var q, t := CloseOf(sql[0]), sql[1..];
      var n := SpanLength(t, q);
      SpanLengthMeaning(t, q);
      assert sql[..n + 1][1..] == t[..n];
      if ClosesAt(t, q, n) {
        assert t[..n][..n - 1] == t[..n - 1];
        assert Closed(sql[..n + 1]);
      } else {
        assert t[..n] == t;
        assert Unclosed(sql[..n + 1]);
      }
    }
  }

  /** An item that fits is found first, and the scan goes on after it. */
  lemma FitsFirst(it: Item, after: string)
    requires Fits(it, after)
    ensures ItemText(it) + after != []
    ensures HeadItem(ItemText(it) + after) == it && HeadLength(ItemText(it) + after) == |ItemText(it)|
  {
    if it.Span? {
      var t, q := it.text, CloseOf(it.text[0]);
      assert (t + after)[1..] == t[1..] + after;
      if Closed(t) && (after == [] || after[0] != q) {
        ClosesAtExtend(t[1..], q, |t| - 1, after);
        ClosesAtUnique(t[1..] + after, q, |t| - 1);
      } else {
        OpenSpanRunsOn(t[1..], q, after);
      }
      assert (t + after)[..|t|] == t;
    }
  }

  lemma FitsStep(it: Item, after: string)
    requires Fits(it, after)
    ensures Items(ItemText(it) + after) == [it] + Items(after)
  {
    FitsFirst(it, after);
    assert (ItemText(it) + after)[|ItemText(it)|..] == after;
  }

  /** Reading loses nothing, and yields items that read back as themselves. */
  lemma {:induction false} ItemsRender(sql: string)
    ensures Render(Items(sql)) == sql
    ensures Readable(Items(sql), "")
    decreases |sql|
  {
    hide Fits, HeadItem, HeadLength;
    if sql != [] {
      var e := HeadLength(sql);
      HeadFits(sql);
      ItemsRender(sql[e..]);
      assert sql[..e] + sql[e..] == sql;
      assert Items(sql)[1..] == Items(sql[e..]);
      assert Render(Items(sql[e..])) + "" == sql[e..];
    }
  }

  /** Readable items are read back exactly, in front of any following text they allow. */
  lemma {:induction false} Reread(items: seq<Item>, next: string)
    requires Readable(items, next)
    ensures Items(Render(items) + next) == items + Items(next)
  {
    if items == [] {
      assert Render(items) + next == next;
    } else {
      Reread(items[1..], next);
      RereadStep(items, next);
    }
  }

  lemma RereadStep(items: seq<Item>, next: string)
    requires items != []
    requires Fits(items[0], Render(items[1..]) + next)
    requires Items(Render(items[1..]) + next) == items[1..] + Items(next)
    ensures Items(Render(items) + next) == items + Items(next)
  {
    var rest := Render(items[1..]) + next;
    assert Render(items) + next == ItemText(items[0]) + rest;
    calc {
      Items(Render(items) + next);
      Items(ItemText(items[0]) + rest);
      { FitsStep(items[0], rest); }
      [items[0]] + Items(rest);
      [items[0]] + (items[1..] + Items(next));
      { ConsAppend(items[0], items[1..], Items(next)); }
      ([items[0]] + items[1..]) + Items(next);
      { assert [items[0]] + items[1..] == items; }
      items + Items(next);
    }
  }

  lemma Reread0(items: seq<Item>)
    requires Readable(items, "")
    ensures Items(Render(items)) == items
  {
    Reread(items, "");
    assert Render(items) + "" == Render(items);
  }

  // ------------------------------------------------------------- placeholders

  /** `@p1`, `@p2`, ... */
  function AtP(k: nat): string {
    "@p" + Digits(k)
  }

  function PlainItems(s: string): (r: seq<Item>)
    ensures |r| == |s|
  {
    seq(|s|, i requires 0 <= i < |s| => Plain(s[i]))
  }

  const HOLE: Item := Plain('?')

  /** The number of placeholders: `?` outside every span. */
  function Holes(items: seq<Item>): nat {
    if items == [] then 0 else (if items[0] == HOLE then 1 else 0) + Holes(items[1..])
  }

  /** The text between placeholders, one piece more than there are placeholders. */
  function Pieces(items: seq<Item>): (r: seq<string>)
    ensures |r| == Holes(items) + 1
  {
    if items == [] then [""]
    else
      var rest := Pieces(items[1..]);
      if items[0] == HOLE then [""] + rest
      else [ItemText(items[0]) + rest[0]] + rest[1..]
  }

  /** The pieces with a mark in each gap: the k-th gap carries `@pk` up to `n`, then `?`. */
  function Weave(pieces: seq<string>, k: nat, n: nat): string
    requires pieces != []
  {
    if |pieces| == 1 then pieces[0]
    else pieces[0] + (if k <= n then AtP(k) else "?") + Weave(pieces[1..], k + 1, n)
  }

  /** The items with placeholders `k..n` numbered. */
  function Numbered(items: seq<Item>, k: nat, n: nat): seq<Item> {
    if items == [] then []
    else if items[0] == HOLE && k <= n then PlainItems(AtP(k)) + Numbered(items[1..], k + 1, n)
    else [items[0]] + Numbered(items[1..], k, n)
  }

  /** The end of the first item at position `i`, as the scanners step over it. */
  function NextAt(sql: string, i: nat): (e: nat)
    requires i < |sql|
    ensures i < e <= |sql|
  {
    if Opens(sql[i]) then i + 1 + SpanLength(sql[i + 1..], CloseOf(sql[i])) else i + 1
  }

  lemma NextAtMeaning(sql: string, i: nat)
    requires i < |sql|
    ensures NextAt(sql, i) == i + HeadLength(sql[i..])
  {
  }

  /** What the rewriter's loop appends from position `i` on. */
  function RewriteFrom(sql: string, i: nat, k: nat, n: nat): string
    requires i <= |sql|
    decreases |sql| - i
  {
    if i == |sql| then ""
    else if sql[i] == '?' && k <= n then AtP(k) + RewriteFrom(sql, i + 1, k + 1, n)
    else sql[i..NextAt(sql, i)] + RewriteFrom(sql, NextAt(sql, i), k, n)
  }

  lemma {:induction false} RewriteFromItems(sql: string, i: nat, k: nat, n: nat)
    requires i <= |sql|
    ensures RewriteFrom(sql, i, k, n) == Render(Numbered(Items(sql[i..]), k, n))
    decreases |sql| - i
  {
    if i < |sql| {
      var rest, e := sql[i..], NextAt(sql, i);
      NextAtMeaning(sql, i);
      var items := Items(rest);
      assert rest[e - i..] == sql[e..] && rest[..e - i] == sql[i..e];
      assert items[0] == HeadItem(rest) && items[1..] == Items(sql[e..]);
      if sql[i] == '?' && k <= n {
        RewriteFromItems(sql, e, k + 1, n);
        RenderConcat(PlainItems(AtP(k)), Numbered(items[1..], k + 1, n));
        RenderPlain(AtP(k));
      } else {
        RewriteFromItems(sql, e, k, n);
        RenderCons(items[0], Numbered(items[1..], k, n));
      }
    }
  }

  /** `_replace_qmark_with_at_pn`. */
  method ReplaceQmark(sql: string, numBindings: nat) returns (out: string)
    ensures out == Rewrite(sql, numBindings)
  {
    hide AtP, Items, Numbered, Render;
    out := "";
    var i, n, placeholderNum := 0, |sql|, 1;
    while i < n
      invariant 0 <= i <= n && placeholderNum >= 1
      invariant RewriteFrom(sql, 0, 1, numBindings)
             == out + RewriteFrom(sql, i, placeholderNum, numBindings)
    {
      var spanEnd := SkipQuotedSpan(sql, i);
      if spanEnd.Some? {
        Assoc(out, sql[i..spanEnd.value], RewriteFrom(sql, spanEnd.value, placeholderNum, numBindings));
        out := out + sql[i..spanEnd.value];
        i := spanEnd.value;
        continue;
      }
      var ch := sql[i];
      if ch == '?' && placeholderNum <= numBindings {
        Assoc(out, AtP(placeholderNum), RewriteFrom(sql, i + 1, placeholderNum + 1, numBindings));
        out := out + AtP(placeholderNum);
        placeholderNum := placeholderNum + 1;
        i := i + 1;
        continue;
      }
      assert sql[i..i + 1] == [ch];
      Assoc(out, [ch], RewriteFrom(sql, i + 1, placeholderNum, numBindings));
      out := out + [ch];
      i := i + 1;
    }
    RewriteFromItems(sql, 0, 1, numBindings);
    assert sql[0..] == sql;
  }

  /** The rewriter as a function of the text. */
  function Rewrite(sql: string, numBindings: nat): string {
    Render(Numbered(Items(sql), 1, numBindings))
  }

  lemma {:induction false} RenderPlain(s: string)
    ensures Render(PlainItems(s)) == s
  {
    if s != [] {
      assert PlainItems(s)[1..] == PlainItems(s[1..]);
      RenderPlain(s[1..]);
    }
  }

  lemma NumberedHead(items: seq<Item>, k: nat, n: nat)
    requires items != []
    ensures Render(Numbered(items, k, n))
         == if items[0] == HOLE && k <= n then AtP(k) + Render(Numbered(items[1..], k + 1, n))
            else ItemText(items[0]) + Render(Numbered(items[1..], k, n))
  {
    hide AtP, ItemText;
    if items[0] == HOLE && k <= n {
      RenderConcat(PlainItems(AtP(k)), Numbered(items[1..], k + 1, n));
      RenderPlain(AtP(k));
    } else {
      RenderCons(items[0], Numbered(items[1..], k, n));
    }
  }

  lemma PiecesHead(items: seq<Item>, k: nat, n: nat)
    requires items != []
    ensures Weave(Pieces(items), k, n)
         == if items[0] == HOLE then (if k <= n then AtP(k) else "?") + Weave(Pieces(items[1..]), k + 1, n)
            else ItemText(items[0]) + Weave(Pieces(items[1..]), k, n)
  {
  }

  lemma {:induction false} NumberedWeave(items: seq<Item>, k: nat, n: nat)
    ensures Render(Numbered(items, k, n)) == Weave(Pieces(items), k, n)
  {
    hide AtP;
    if items != [] {
      NumberedHead(items, k, n);
      PiecesHead(items, k, n);
      NumberedWeave(items[1..], if items[0] == HOLE then k + 1 else k, n);
      if items[0] == HOLE && k > n {
        NumberedPast(items[1..], k, n);
        NumberedPast(items[1..], k + 1, n);
      }
    }
  }

  lemma {:induction false} NumberedPast(items: seq<Item>, k: nat, n: nat)
    requires k > n
    ensures Numbered(items, k, n) == items
  {
    if items != [] {
      NumberedPast(items[1..], k, n);
    }
  }

  /** Text and output are the same pieces woven with different labels. */
  lemma WeavesPieces(sql: string, numBindings: nat)
    ensures sql == Weave(Pieces(Items(sql)), 1, 0)
    ensures Rewrite(sql, numBindings) == Weave(Pieces(Items(sql)), 1, numBindings)
  {
    ItemsRender(sql);
    NumberedWeave(Items(sql), 1, numBindings);
    NumberedWeave(Items(sql), 1, 0);
    NumberedPast(Items(sql), 1, 0);
  }

  /** The pieces with the marks in the gaps between them. */
  function Interleave(pieces: seq<string>, marks: seq<string>): string
    requires |pieces| == |marks| + 1
  {
    if marks == [] then pieces[0] else pieces[0] + marks[0] + Interleave(pieces[1..], marks[1..])
  }

  /** The name of the parameter that is bound k-th: `@p` and the numeral of k. */
  predicate NamesParameter(mark: string, k: nat) {
    && |mark| > 2 && mark[..2] == "@p"
    && (forall i :: 2 <= i < |mark| ==> '0' <= mark[i] <= '9')
    && mark[2] != '0' && NumberOf(mark[2..]) == k
  }

  lemma AtPNames(k: nat)
    requires k >= 1
    ensures NamesParameter(AtP(k), k)
  {
    DigitsReadBack(k);
    assert AtP(k)[2..] == Digits(k);
  }

  lemma {:induction false} WeaveMarks(pieces: seq<string>, k: nat, n: nat) returns (marks: seq<string>)
    requires pieces != [] && k >= 1
    ensures |pieces| == |marks| + 1 && Weave(pieces, k, n) == Interleave(pieces, marks)
    ensures forall i :: 0 <= i < |marks| ==> if k + i <= n then NamesParameter(marks[i], k + i) else marks[i] == "?"
  {
    hide NamesParameter;
    if |pieces| == 1 {
      marks := [];
    } else {
      var rest := WeaveMarks(pieces[1..], k + 1, n);
      AtPNames(k);
      marks := [if k <= n then AtP(k) else "?"] + rest;
      assert marks[1..] == rest;
    }
  }

  /** The text in front of the first placeholder, and from there on. */
  lemma {:induction false} FirstPiece(items: seq<Item>)
    ensures var pieces := Pieces(items);
            if |pieces| == 1 then Render(items) == pieces[0]
            else pieces[0] <= Render(items) && |pieces[0]| < |Render(items)| && Render(items)[|pieces[0]|] == '?'
  {
    if items != [] && items[0] != HOLE {
      FirstPiece(items[1..]);
    }
  }

  /** Each piece reads as items of its own, none of them a placeholder. */
  lemma {:induction false} PieceReadable(items: seq<Item>, i: nat) returns (g: seq<Item>)
    requires Readable(items, "") && i < |Pieces(items)|
    ensures Pieces(items)[i] == Render(g) && Holes(g) == 0
    ensures if i + 1 < |Pieces(items)| then Readable(g, "?") else Readable(g, "")
  {
    hide Fits;
    if items == [] {
      g := [];
    } else if items[0] == HOLE {
      g := [];
      if i > 0 {
        g := PieceReadable(items[1..], i - 1);
      }
    } else {
      var rest := PieceReadable(items[1..], i);
      g := rest;
      if i == 0 {
        g := [items[0]] + rest;
        assert g[1..] == rest;
        FirstPiece(items[1..]);
        FitsSooner(items[0], Render(items[1..]) + "", Render(rest) + (if 1 < |Pieces(items)| then "?" else ""));
      }
    }
  }

  /** Whether an item fits depends only on the character behind it, if there is one. */
  lemma FitsSooner(it: Item, after: string, sooner: string)
    requires Fits(it, after)
    requires if after == [] then sooner == [] else sooner != [] && sooner[0] == after[0]
    ensures Fits(it, sooner)
  {
  }

  lemma PiecesHaveNoHoles(items: seq<Item>)
    requires Readable(items, "")
    ensures forall i :: 0 <= i < |Pieces(items)| ==> Holes(Items(Pieces(items)[i])) == 0
  {
    hide Readable, Pieces, Render, Holes, Items;
    forall i | 0 <= i < |Pieces(items)| ensures Holes(Items(Pieces(items)[i])) == 0 {
      var g := PieceReadable(items, i);
      if i + 1 < |Pieces(items)| {
        ReadableAlone(g, "?");
      }
      Reread0(g);
    }
  }

  /** What the scanners read: a single-quoted literal and a bracketed identifier are one item each, whatever
      they contain, and any other character is an item by itself. */
  lemma QuotedIsOneItem(body: string, after: string)
    ensures var literal := "'" + Doubled(body, '\'') + "'";
            after == [] || after[0] != '\'' ==> Items(literal + after) == [Span(literal)] + Items(after)
    ensures var bracketed := "[" + Doubled(body, ']') + "]";
            after == [] || after[0] != ']' ==> Items(bracketed + after) == [Span(bracketed)] + Items(after)
    ensures forall c :: c != '\'' && c != '[' ==> Items([c] + after) == [Plain(c)] + Items(after)
  {
    hide Items;
    if after == [] || after[0] != '\'' {
      ClosedLiteral(body, '\'');
      FitsStep(Span("'" + Doubled(body, '\'') + "'"), after);
    }
    if after == [] || after[0] != ']' {
      ClosedLiteral(body, '[');
      FitsStep(Span("[" + Doubled(body, ']') + "]"), after);
    }
    forall c | c != '\'' && c != '[' ensures Items([c] + after) == [Plain(c)] + Items(after) {
      FitsStep(Plain(c), after);
    }
  }

  lemma ClosedLiteral(body: string, open: char)
    requires Opens(open)
    ensures Closed([open] + Doubled(body, CloseOf(open)) + [CloseOf(open)])
  {
    var d := Doubled(body, CloseOf(open));
    var t := [open] + d + [CloseOf(open)];
    UndoubledDoubled(body, CloseOf(open));
    assert t[1..] == d + [CloseOf(open)];
    assert t[1..][..|t| - 2] == d;
  }

  /** Rewriting names exactly the first `numBindings` placeholders, in order, and keeps every other
      character: text and output are the same pieces, between them a `?` for each placeholder in the text,
      and in the output `@p` and the number of the placeholder as far as there is a binding. */
  lemma RewriteWeaves(sql: string, numBindings: nat) returns (pieces: seq<string>, holes: seq<string>, marks: seq<string>)
    ensures |pieces| == Holes(Items(sql)) + 1 && |holes| == |marks| == Holes(Items(sql))
    ensures sql == Interleave(pieces, holes) && Rewrite(sql, numBindings) == Interleave(pieces, marks)
    ensures forall i :: 0 <= i < |holes| ==> holes[i] == "?"
    ensures forall i :: 0 <= i < |marks| ==>
              if i < numBindings then NamesParameter(marks[i], i + 1) else marks[i] == "?"
    ensures forall i :: 0 <= i < |pieces| ==> Holes(Items(pieces[i])) == 0
  {
    hide NamesParameter, Weave, Interleave;
    pieces := Pieces(Items(sql));
    WeavesPieces(sql, numBindings);
    holes := WeaveMarks(pieces, 1, 0);
    marks := WeaveMarks(pieces, 1, numBindings);
    ItemsRender(sql);
    PiecesHaveNoHoles(Items(sql));
  }

  lemma {:induction false} PlainReadable(s: string, items: seq<Item>, next: string)
    requires Readable(items, next)
    requires forall i :: 0 <= i < |s| ==> !Opens(s[i])
    ensures Readable(PlainItems(s) + items, next)
  {
    if s == [] {
      assert PlainItems(s) + items == items;
    } else {
      assert (PlainItems(s) + items)[1..] == PlainItems(s[1..]) + items;
      PlainReadable(s[1..], items, next);
    }
  }

  lemma FirstChar(items: seq<Item>, k: nat, n: nat)
    requires items != []
    ensures var r := Render(Numbered(items, k, n));
            if items[0] == HOLE && k <= n then r != [] && r[0] == '@'
            else r == ItemText(items[0]) + Render(Numbered(items[1..], k, n))
  {
  }

  /** The rewritten text is still read as the same spans around new plain characters. */
  lemma {:induction false} NumberedReadable(items: seq<Item>, k: nat, n: nat)
    requires Readable(items, "")
    ensures Readable(Numbered(items, k, n), "")
  {
    if items != [] {
      if items[0] == HOLE && k <= n {
        NumberedReadable(items[1..], k + 1, n);
        PlainReadable(AtP(k), Numbered(items[1..], k + 1, n), "");
      } else {
        NumberedReadable(items[1..], k, n);
        assert Numbered(items, k, n)[1..] == Numbered(items[1..], k, n);
        if items[1..] != [] {
          FirstChar(items[1..], k, n);
          NonemptyText(items[1..], "");
          NonemptyText(Numbered(items[1..], k, n), "");
        }
      }
    }
  }

  lemma NonemptyText(items: seq<Item>, next: string)
    requires Readable(items, next)
    ensures items != [] ==> ItemText(items[0]) != []
  {
  }

  lemma {:induction false} HolesConcat(x: seq<Item>, y: seq<Item>)
    ensures Holes(x + y) == Holes(x) + Holes(y)
  {
    if x == [] {
      assert x + y == y;
    } else {
      assert (x + y)[1..] == x[1..] + y;
      HolesConcat(x[1..], y);
    }
  }

  lemma {:induction false} PlainHoles(s: string)
    requires forall i :: 0 <= i < |s| ==> s[i] != '?'
    ensures Holes(PlainItems(s)) == 0
  {
    if s != [] {
      assert PlainItems(s)[1..] == PlainItems(s[1..]);
      PlainHoles(s[1..]);
    }
  }

  lemma {:induction false} HolesNumbered(items: seq<Item>, k: nat, n: nat)
    ensures var used := if k <= n then n - k + 1 else 0;
            Holes(Numbered(items, k, n)) == if Holes(items) <= used then 0 else Holes(items) - used
  {
    if items != [] {
      if items[0] == HOLE && k <= n {
        HolesNumbered(items[1..], k + 1, n);
        HolesConcat(PlainItems(AtP(k)), Numbered(items[1..], k + 1, n));
        PlainHoles(AtP(k));
      } else {
        HolesNumbered(items[1..], k, n);
        assert Numbered(items, k, n)[1..] == Numbered(items[1..], k, n);
      }
    }
  }

  lemma {:induction false} NoHolesFixed(items: seq<Item>, k: nat, n: nat)
    requires Holes(items) == 0
    ensures Numbered(items, k, n) == items
  {
    if items != [] {
      NoHolesFixed(items[1..], k, n);
    }
  }

  lemma {:induction false} WeaveGrows(pieces: seq<string>, k: nat, n: nat)
    requires pieces != []
    ensures |Weave(pieces, k, n)| >= |Weave(pieces, k, 0)|
    ensures |pieces| > 1 && 1 <= k <= n ==> |Weave(pieces, k, n)| > |Weave(pieces, k, 0)|
  {
    if |pieces| > 1 {
      WeaveGrows(pieces[1..], k + 1, n);
      assert |AtP(k)| > 1;
      if k == 0 && n > 0 {
        assert |Weave(pieces, k, n)| >= |Weave(pieces, k, 0)|;
      }
    }
  }

  /** Rewriting what is already rewritten changes nothing exactly when every placeholder got
      a number the first time (or there was nothing to bind). A retry re-runs the rewriter. */
  lemma RewriteStable(sql: string, n: nat)
    ensures Rewrite(Rewrite(sql, n), n) == Rewrite(sql, n) <==> Holes(Items(sql)) <= n || n == 0
  {
    ItemsRender(sql);
    var once := Numbered(Items(sql), 1, n);
    NumberedReadable(Items(sql), 1, n);
    Reread0(once);
    HolesNumbered(Items(sql), 1, n);
    if n == 0 {
      NumberedPast(Items(sql), 1, 0);
      NumberedPast(once, 1, 0);
    } else if Holes(once) == 0 {
      NoHolesFixed(once, 1, n);
    } else {
      WeavesPieces(Rewrite(sql, n), n);
      WeaveGrows(Pieces(once), 1, n);
    }
  }

  // --------------------------------------------------------------- statements

  const SEPARATOR: Item := Plain(';')

  /** Items grouped by top-level `;`. */
  function Groups(items: seq<Item>): (r: seq<seq<Item>>)
    ensures r != []
  {
    if items == [] then [[]]
    else
      var rest := Groups(items[1..]);
      if items[0] == SEPARATOR then [[]] + rest
      else [[items[0]] + rest[0]] + rest[1..]
  }

  function RenderAll(groups: seq<seq<Item>>): (r: seq<string>)
    ensures |r| == |groups|
    ensures forall i :: 0 <= i < |r| ==> r[i] == Render(groups[i])
  {
    seq(|groups|, i requires 0 <= i < |groups| => Render(groups[i]))
  }

  /** The statements of a text. */
  function Statements(sql: string): (r: seq<string>)
    ensures r != []
  {
    RenderAll(Groups(Items(sql)))
  }

  /** `pieces` with `text` in front of the first. */
  function Prefixed(text: string, pieces: seq<string>): seq<string>
    requires pieces != []
  {
    [text + pieces[0]] + pieces[1..]
  }

  /** The statements of a text from those of the text after its first item. */
  lemma StatementsStep(sql: string)
    requires sql != []
    ensures var rest := Statements(sql[HeadLength(sql)..]);
            Statements(sql) == if sql[0] == ';' then [""] + rest
                               else Prefixed(sql[..HeadLength(sql)], rest)
  {
  }

  lemma GroupsStep(items: seq<Item>)
    requires items != []
    ensures var rest := RenderAll(Groups(items[1..]));
            RenderAll(Groups(items)) == if items[0] == SEPARATOR then [""] + rest
                                        else Prefixed(ItemText(items[0]), rest)
  {
  }

  lemma RenderCons(it: Item, items: seq<Item>)
    ensures Render([it] + items) == ItemText(it) + Render(items)
  {
  }

  lemma PrefixedTwice(a: string, b: string, pieces: seq<string>)
    requires pieces != []
    ensures Prefixed(a, Prefixed(b, pieces)) == Prefixed(a + b, pieces)
  {
    assert Prefixed(b, pieces)[1..] == pieces[1..];
    assert a + (b + pieces[0]) == (a + b) + pieces[0];
  }

  /** What the splitter still has to yield, from the statement that started at `start`,
      when the scan has reached `i`. */
  function SplitFrom(sql: string, start: nat, i: nat): (r: seq<string>)
    requires start <= i <= |sql|
    ensures r != []
    decreases |sql| - i
  {
    if i == |sql| then [sql[start..]]
    else if sql[i] == ';' then [sql[start..i]] + SplitFrom(sql, i + 1, i + 1)
    else SplitFrom(sql, start, NextAt(sql, i))
  }

  lemma StatementsAt(sql: string, i: nat)
    requires i < |sql|
    ensures var e, more := NextAt(sql, i), Statements(sql[NextAt(sql, i)..]);
            Statements(sql[i..]) == if sql[i] == ';' then [""] + more else Prefixed(sql[i..e], more)
  {
    var e := NextAt(sql, i);
    NextAtMeaning(sql, i);
    StatementsStep(sql[i..]);
    assert sql[i..][e - i..] == sql[e..] && sql[i..][..e - i] == sql[i..e];
  }

  lemma StatementsOfNothing()
    ensures Statements("") == [""]
  {
  }

  lemma {:induction false} SplitFromItems(sql: string, start: nat, i: nat)
    requires start <= i <= |sql|
    ensures SplitFrom(sql, start, i) == Prefixed(sql[start..i], Statements(sql[i..]))
    decreases |sql| - i
  {
    if i == |sql| {
      StatementsOfNothing();
      assert sql[i..] == "" && sql[start..i] + "" == sql[start..];
    } else {
      var e := NextAt(sql, i);
      StatementsAt(sql, i);
      if sql[i] == ';' {
        SplitFromItems(sql, e, e);
        assert sql[e..e] == "";
        PrefixedNothing(sql[start..i], Statements(sql[e..]));
      } else {
        SplitFromItems(sql, start, e);
        PrefixedSlices(sql, start, i, e, Statements(sql[e..]));
      }
    }
  }

  lemma PrefixedSlices(sql: string, start: nat, i: nat, e: nat, pieces: seq<string>)
    requires start <= i <= e <= |sql| && pieces != []
    ensures Prefixed(sql[start..i], Prefixed(sql[i..e], pieces)) == Prefixed(sql[start..e], pieces)
  {
    PrefixedTwice(sql[start..i], sql[i..e], pieces);
    assert sql[start..i] + sql[i..e] == sql[start..e];
  }

  lemma PrefixedNothing(text: string, pieces: seq<string>)
    requires pieces != []
    ensures Prefixed("", pieces) == pieces
    ensures Prefixed(text, [""] + pieces) == [text] + pieces
  {
    assert "" + pieces[0] == pieces[0] && text + "" == text;
  }

  /** `_split_sql_statements`: the yielded pieces, in order. */
  method SplitSqlStatements(sql: string) returns (pieces: seq<string>)
    ensures pieces == Statements(sql)
  {
    pieces := [];
    var start, i, n := 0, 0, |sql|;
    while i < n
      invariant 0 <= start <= i <= n
      invariant SplitFrom(sql, 0, 0) == pieces + SplitFrom(sql, start, i)
    {
      var spanEnd := SkipQuotedSpan(sql, i);
      if spanEnd.Some? {
        i := spanEnd.value;
        continue;
      }
      if sql[i] == ';' {
        pieces := pieces + [sql[start..i]];
        i := i + 1;
        start := i;
        continue;
      }
      i := i + 1;
    }
    pieces := pieces + [sql[start..]];
    SplitFromItems(sql, 0, 0);
    PrefixedNothing("", Statements(sql));
    assert sql[0..] == sql && sql[0..0] == "";
  }

  lemma {:induction false} JoinGroups(items: seq<Item>)
    ensures Join(RenderAll(Groups(items)), ";") == Render(items)
  {
    if items != [] {
      JoinGroups(items[1..]);
      GroupsStep(items);
      JoinPrefixed(ItemText(items[0]), RenderAll(Groups(items[1..])));
    }
  }

  lemma JoinPrefixed(text: string, pieces: seq<string>)
    requires pieces != []
    ensures Join(Prefixed(text, pieces), ";") == text + Join(pieces, ";")
    ensures Join([""] + pieces, ";") == ";" + Join(pieces, ";")
  {
  }

  /** Splitting is lossless: joining the pieces with `;` gives the text back. */
  lemma SplitLossless(sql: string)
    ensures Join(Statements(sql), ";") == sql
  {
    ItemsRender(sql);
    JoinGroups(Items(sql));
  }

  /** Every group reads back as itself and holds no separator. */
  lemma {:induction false} GroupsReadable(items: seq<Item>, i: nat)
    requires Readable(items, "") && i < |Groups(items)|
    ensures var g := Groups(items)[i];
            && SEPARATOR !in g
            && (if i + 1 < |Groups(items)| then Readable(g, ";") else Readable(g, ""))
  {
    if items != [] {
      var rest := Groups(items[1..]);
      if items[0] == SEPARATOR {
        if i > 0 {
          GroupsReadable(items[1..], i - 1);
        }
      } else if i > 0 {
        GroupsReadable(items[1..], i);
        assert Groups(items)[i] == rest[1..][i - 1] == rest[i];
      } else {
        GroupsReadable(items[1..], 0);
        var g := [items[0]] + rest[0];
        assert g[1..] == rest[0];
        HeadOfGroup(items[1..]);
      }
    }
  }

  /** The text after the first group: nothing, or the separator that ends it and the rest. */
  function AfterGroup(items: seq<Item>): string {
    if items == [] then ""
    else if items[0] == SEPARATOR then ";" + Render(items[1..])
    else AfterGroup(items[1..])
  }

  lemma {:induction false} HeadOfGroup(items: seq<Item>)
    ensures Render(items) == Render(Groups(items)[0]) + AfterGroup(items)
    ensures if |Groups(items)| == 1 then AfterGroup(items) == ""
            else AfterGroup(items) != "" && AfterGroup(items)[0] == ';'
  {
    if items != [] && items[0] != SEPARATOR {
      HeadOfGroup(items[1..]);
      var first := Groups(items[1..])[0];
      RenderCons(items[0], first);
      Assoc(ItemText(items[0]), Render(first), AfterGroup(items[1..]));
    }
  }

  lemma {:induction false} OneGroup(g: seq<Item>)
    requires SEPARATOR !in g
    ensures Groups(g) == [g]
  {
    if g != [] {
      OneGroup(g[1..]);
      assert [g[0]] + g[1..] == g;
    }
  }

  lemma {:induction false} ReadableAlone(items: seq<Item>, next: string)
    requires Readable(items, next)
    ensures Readable(items, "")
  {
    if items != [] {
      ReadableAlone(items[1..], next);
      var r := Render(items[1..]);
      if r == [] {
        assert r + "" == [];
      } else {
        assert (r + next)[0] == r[0] == (r + "")[0];
      }
    }
  }

  /** Each piece is one statement: splitting it again returns it whole. */
  lemma PieceIsWhole(sql: string, i: nat)
    requires i < |Statements(sql)|
    ensures Statements(Statements(sql)[i]) == [Statements(sql)[i]]
  {
    var items := Items(sql);
    ItemsRender(sql);
    GroupsReadable(items, i);
    var g := Groups(items)[i];
    if i + 1 < |Groups(items)| {
      ReadableAlone(g, ";");
    }
    Reread0(g);
    OneGroup(g);
    assert RenderAll([g]) == [Render(g)];
  }

  /** `sql` leaves no span open at its end. */
  predicate LeavesNothingOpen(sql: string) {
    var items := Items(sql);
    items == [] || items[|items| - 1].Plain? || Closed(items[|items| - 1].text)
  }

  lemma {:induction false} ReadableBefore(items: seq<Item>, next: string)
    requires Readable(items, "")
    requires items == [] || items[|items| - 1].Plain? || Closed(items[|items| - 1].text)
    requires next != [] && next[0] == ';'
    ensures Readable(items, next)
  {
    if items != [] {
      assert items[1..] != [] ==> items[1..][|items| - 2] == items[|items| - 1];
      ReadableBefore(items[1..], next);
      var r := Render(items[1..]);
      NonemptyText(items[1..], "");
      if r == [] {
        assert items[1..] == [];
        assert r + next == next;
      } else {
        assert (r + next)[0] == r[0] == (r + "")[0];
      }
    }
  }

  /** The last group of the one and the first group of the other, run together. */
  function Spliced(gx: seq<seq<Item>>, gy: seq<seq<Item>>): seq<seq<Item>>
    requires gx != [] && gy != []
  {
    gx[..|gx| - 1] + [gx[|gx| - 1] + gy[0]] + gy[1..]
  }

  lemma {:induction false} GroupsConcat(x: seq<Item>, y: seq<Item>)
    ensures Groups(x + y) == Spliced(Groups(x), Groups(y))
  {
    if x == [] {
      assert x + y == y;
      assert [] + Groups(y)[0] == Groups(y)[0];
    } else {
      assert (x + y)[1..] == x[1..] + y;
      GroupsConcat(x[1..], y);
      SplicedCons(x[0], Groups(x[1..]), Groups(y));
    }
  }

  lemma SplicedCons(it: Item, gx: seq<seq<Item>>, gy: seq<seq<Item>>)
    requires gx != [] && gy != []
    ensures Spliced([[]] + gx, gy) == [[]] + Spliced(gx, gy)
    ensures Spliced([[it] + gx[0]] + gx[1..], gy) == [[it] + Spliced(gx, gy)[0]] + Spliced(gx, gy)[1..]
  {
    assert ([[]] + gx)[..|gx|] == [[]] + gx[..|gx| - 1];
    var g := [[it] + gx[0]] + gx[1..];
    if |gx| == 1 {
      ConsAppend(it, gx[0], gy[0]);
    } else {
      assert g[..|gx| - 1] == [[it] + gx[0]] + gx[1..|gx| - 1];
    }
  }

  lemma GroupsSeparated(x: seq<Item>, y: seq<Item>)
    ensures Groups(x + [SEPARATOR] + y) == Groups(x) + Groups(y)
  {
    var gx := Groups(x);
    var sy := [SEPARATOR] + y;
    assert sy[1..] == y;
    assert Groups(sy) == [[]] + Groups(y);
    GroupsConcat(x, sy);
    assert x + [SEPARATOR] + y == x + sy;
    assert gx[|gx| - 1] + [] == gx[|gx| - 1];
    assert gx[..|gx| - 1] + [gx[|gx| - 1]] == gx;
  }

  /** Splitting distributes over `;` exactly when the left text leaves no span open. */
  lemma SplitCompositional(a: string, b: string)
    ensures Statements(a + ";" + b) == Statements(a) + Statements(b) <==> LeavesNothingOpen(a)
  {
    hide LeavesNothingOpen, Items, Groups, Render;
    ItemsRender(a);
    if LeavesNothingOpen(a) {
      ItemsJoined(a, b);
      GroupsSeparated(Items(a), Items(b));
      assert RenderAll(Groups(Items(a)) + Groups(Items(b)))
          == RenderAll(Groups(Items(a))) + RenderAll(Groups(Items(b)));
    } else {
      OpenSpanSwallows(a, ";" + b);
      assert a + (";" + b) == a + ";" + b;
      assert (Statements(a) + Statements(b))[|Statements(a)| - 1] == Statements(a)[|Statements(a)| - 1];
    }
  }

  lemma ItemsJoined(a: string, b: string)
    requires LeavesNothingOpen(a)
    ensures Items(a + ";" + b) == Items(a) + [SEPARATOR] + Items(b)
  {
    ItemsRender(a);
    var next := ";" + b;
    ReadableBefore(Items(a), next);
    Reread(Items(a), next);
    assert next[1..] == b;
    assert a + next == a + ";" + b;
    assert Items(next) == [SEPARATOR] + Items(b);
  }

  /** A span left open is read on over whatever is appended; the items before it stay. */
  lemma OpenSpanReadsOn(a: string, more: string) returns (init: seq<Item>, last: Item, tail: seq<Item>)
    requires !LeavesNothingOpen(a)
    ensures Items(a) == init + [last] && last.Span? && Unclosed(last.text)
    ensures tail == Items(last.text + more) && Items(a + more) == init + tail
  {
    hide Items, Render, SpanLength, Unclosed;
    var items := Items(a);
    init, last, tail := items[..|items| - 1], items[|items| - 1], Items(items[|items| - 1].text + more);
    ItemsRender(a);
    assert items == init + [last];
    LastUnclosed(items);
    var t := last.text + more;
    InitReadable(init, last, t);
    Reread(init, t);
    assert Render(init) + t == a + more by {
      RenderConcat(init, [last]);
      RenderOne(last);
      Assoc(Render(init), last.text, more);
    }
  }

  /** So the last piece grows. */
  lemma OpenSpanSwallows(a: string, more: string)
    requires !LeavesNothingOpen(a) && more != []
    ensures var n := |Statements(a)|;
            |Statements(a + more)| >= n && |Statements(a + more)[n - 1]| > |Statements(a)[n - 1]|
  {
    var init, last, tail := OpenSpanReadsOn(a, more);
    LongerHead(last.text, more);
    FirstGroupGrows(init, last, tail);
  }

  lemma RenderOne(it: Item)
    ensures Render([it]) == ItemText(it)
  {
  }

  /** Reading an open span with more text finds a longer first item. */
  lemma LongerHead(text: string, more: string)
    requires Unclosed(text) && more != []
    ensures var items := Items(text + more);
            items != [] && items[0] != SEPARATOR && |ItemText(items[0])| > |text|
  {
    hide Undoubled, SpanLength, ClosesAt;
    OpenSpanRunsOn(text[1..], CloseOf(text[0]), more);
    assert (text + more)[1..] == text[1..] + more;
  }

  /** Replacing the last item by items with a longer head makes that group longer. */
  lemma FirstGroupGrows(init: seq<Item>, last: Item, tail: seq<Item>)
    requires last != SEPARATOR
    requires tail != [] && tail[0] != SEPARATOR && |ItemText(tail[0])| > |ItemText(last)|
    ensures var n := |Groups(init + [last])|;
            && |Groups(init + tail)| >= n
            && |Render(Groups(init + tail)[n - 1])| > |Render(Groups(init + [last])[n - 1])|
  {
    GroupsConcat(init, [last]);
    GroupsConcat(init, tail);
    OneGroup([last]);
    var gi := Groups(init);
    var g0, gt := gi[|gi| - 1], Groups(tail)[0];
    RenderConcat(g0, [last]);
    RenderConcat(g0, gt);
    RenderOne(last);
    assert gt == [tail[0]] + Groups(tail[1..])[0];
    RenderCons(tail[0], Groups(tail[1..])[0]);
  }

  lemma {:induction false} LastUnclosed(items: seq<Item>)
    requires Readable(items, "") && items != []
    requires var last := items[|items| - 1]; last.Span? && !Closed(last.text)
    ensures Unclosed(items[|items| - 1].text)
  {
    if |items| > 1 {
      assert items[1..][|items| - 2] == items[|items| - 1];
      LastUnclosed(items[1..]);
    }
  }

  /** Items before an open span stay readable when that span is replaced by a longer one. */
  lemma {:induction false} InitReadable(init: seq<Item>, last: Item, t: string)
    requires Readable(init + [last], "")
    requires last.Span? && last.text != [] && t != [] && t[0] == last.text[0]
    ensures Readable(init, t)
  {
    if init != [] {
      assert (init + [last])[1..] == init[1..] + [last];
      InitReadable(init[1..], last, t);
      RenderConcat(init[1..], [last]);
      RenderOne(last);
      var r := Render(init[1..]);
      assert r + last.text + "" == r + last.text;
      FitsSameHead(init[0], r + last.text, r + t);
    }
  }

  lemma FitsSameHead(it: Item, after: string, after': string)
    requires Fits(it, after) && after != [] && after' != [] && after[0] == after'[0]
    ensures Fits(it, after')
  {
  }
}
