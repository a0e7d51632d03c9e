/** Data-mask resolution and reconciliation (`sqlserver_mask.py`). */
module Masks {
  import opened Text
  import opened Dict

  // ------------------------------------------------------ comparing functions

  /** `_normalize_function` from a given quoting state. */
  function Normalized(f: string, inQuotes: bool): string {
    if f == [] then []
    else if f[0] == '"' then [f[0]] + Normalized(f[1..], !inQuotes)
    else if inQuotes then [f[0]] + Normalized(f[1..], inQuotes)
    else (if IsSpace(f[0]) then [] else [ToLower(f[0])]) + Normalized(f[1..], inQuotes)
  }

  function NormalizeFunction(f: string): string {
    Normalized(f, false)
  }

  /** `_normalize_function`. */
  method ComputeNormalized(function_: string) returns (result: string)
    ensures result == NormalizeFunction(function_)
  {
    result := "";
    var inQuotes := false;
    assert function_[0..] == function_;
    for i := 0 to |function_|
      invariant NormalizeFunction(function_) == result + Normalized(function_[i..], inQuotes)
    {
      var ch := function_[i];
      ghost var rest := function_[i..];
      assert rest[1..] == function_[i + 1..];
      if ch == '"' {
        Assoc(result, [ch], Normalized(rest[1..], !inQuotes));
        inQuotes := !inQuotes;
        result := result + [ch];
      } else if inQuotes {
        Assoc(result, [ch], Normalized(rest[1..], inQuotes));
        result := result + [ch];
      } else if !IsSpace(ch) {
        Assoc(result, [ToLower(ch)], Normalized(rest[1..], inQuotes));
        result := result + [ToLower(ch)];
      }
    }
    assert function_[|function_|..] == [];
  }

  /** The segments between double quotes: even ones are syntax, odd ones are quoted data. */
  function Segments(f: string): (r: seq<string>)
    ensures r != []
  {
    if f == [] then [""]
    else
      var rest := Segments(f[1..]);
      if f[0] == '"' then [""] + rest else [[f[0]] + rest[0]] + rest[1..]
  }

  /** Syntax with whitespace dropped and case folded. */
  function Folded(s: string): string {
    if s == [] then [] else (if IsSpace(s[0]) then [] else [ToLower(s[0])]) + Folded(s[1..])
  }

  /** Same number of segments, alternating from `quoted`: quoted ones verbatim, the others up to
      spacing and case. */
  predicate SameSegments(x: seq<string>, y: seq<string>, quoted: bool) {
    && |x| == |y|
    && (x == [] || (&& (if quoted then x[0] == y[0] else Folded(x[0]) == Folded(y[0]))
                    && SameSegments(x[1..], y[1..], !quoted)))
  }

  /** The normal form, segment by segment. */
  function NormalSegments(x: seq<string>, quoted: bool): (r: seq<string>)
    ensures |r| == |x|
  {
    if x == [] then [] else [if quoted then x[0] else Folded(x[0])] + NormalSegments(x[1..], !quoted)
  }

  lemma {:induction false} NormalSegmentsEqual(x: seq<string>, y: seq<string>, quoted: bool)
    ensures NormalSegments(x, quoted) == NormalSegments(y, quoted) <==> SameSegments(x, y, quoted)
  {
    if |x| == |y| && x != [] {
      NormalSegmentsEqual(x[1..], y[1..], !quoted);
      var nx, ny := NormalSegments(x, quoted), NormalSegments(y, quoted);
      assert nx[1..] == NormalSegments(x[1..], !quoted) && ny[1..] == NormalSegments(y[1..], !quoted);
      assert nx == [nx[0]] + nx[1..] && ny == [ny[0]] + ny[1..];
    }
  }

  lemma SegmentsCons(c: char, rest: string)
    ensures Segments([c] + rest) == if c == '"' then [""] + Segments(rest)
                                    else [[c] + Segments(rest)[0]] + Segments(rest)[1..]
  {
  }

  /** Normalising works segment by segment. */
  lemma {:induction false} SegmentsOfNormalized(f: string, inQuotes: bool)
    ensures Segments(Normalized(f, inQuotes)) == NormalSegments(Segments(f), inQuotes)
  {
    if f == [] {
      assert [""][1..] == [];
    } else {
      var rest := Segments(f[1..]);
      if f[0] == '"' {
        SegmentsOfNormalized(f[1..], !inQuotes);
        SegmentsCons(f[0], Normalized(f[1..], !inQuotes));
        assert ([""] + rest)[1..] == rest;
      } else {
        SegmentsOfNormalized(f[1..], inQuotes);
        NormalSegmentsHead(f[0], rest, inQuotes);
        SegmentsCons(f[0], Normalized(f[1..], inQuotes));
        SegmentsCons(ToLower(f[0]), Normalized(f[1..], inQuotes));
        var n: string := Normalized(f[1..], inQuotes);
        assert [] + n == n;
        var r := NormalSegments(rest, inQuotes);
        assert [] + r[0] == r[0] && [r[0]] + r[1..] == r;
      }
    }
  }

  lemma NormalSegmentsHead(c: char, rest: seq<string>, quoted: bool)
    requires rest != []
    ensures var r := NormalSegments(rest, quoted);
            NormalSegments([[c] + rest[0]] + rest[1..], quoted)
            == [(if quoted then [c] else if IsSpace(c) then [] else [ToLower(c)]) + r[0]] + r[1..]
  {
  }

  /** A text is its segments joined by quotes. */
  lemma {:induction false} JoinSegments(f: string)
    ensures Join(Segments(f), "\"") == f
  {
    if f != [] {
      JoinSegments(f[1..]);
      var rest := Segments(f[1..]);
      if f[0] == '"' {
        JoinCons("", rest, "\"");
        assert f == "\"" + f[1..];
      } else {
        var head := [f[0]] + rest[0];
        if |rest| > 1 {
          JoinCons(head, rest[1..], "\"");
        }
        assert f == [f[0]] + f[1..];
      }
    }
  }

  /** Two masking functions normalise equal exactly when they have the same number of quoted
      segments, those match verbatim, and the rest matches up to whitespace and case. */
  lemma NormalizeEqualMeaning(f: string, g: string)
    ensures NormalizeFunction(f) == NormalizeFunction(g) <==> SameSegments(Segments(f), Segments(g), false)
  {
    SegmentsOfNormalized(f, false);
    SegmentsOfNormalized(g, false);
    JoinSegments(NormalizeFunction(f));
    JoinSegments(NormalizeFunction(g));
    NormalSegmentsEqual(Segments(f), Segments(g), false);
  }

  lemma {:induction false} NormalizedTwice(f: string, inQuotes: bool)
    ensures Normalized(Normalized(f, inQuotes), inQuotes) == Normalized(f, inQuotes)
  {
    if f != [] {
      var n := Normalized(f, inQuotes);
      if f[0] == '"' {
        NormalizedTwice(f[1..], !inQuotes);
        assert n[1..] == Normalized(f[1..], !inQuotes);
      } else {
        NormalizedTwice(f[1..], inQuotes);
        if inQuotes {
          assert n[1..] == Normalized(f[1..], inQuotes);
        } else if IsSpace(f[0]) {
          assert n == Normalized(f[1..], inQuotes);
        } else {
          assert n[1..] == Normalized(f[1..], inQuotes);
          assert n[0] == ToLower(f[0]) && !IsSpace(n[0]) && n[0] != '"' && ToLower(n[0]) == n[0];
        }
      }
    }
  }

  /** Normalising is idempotent. */
  lemma NormalizeFunctionIdempotent(f: string)
    ensures NormalizeFunction(NormalizeFunction(f)) == NormalizeFunction(f)
  {
    NormalizedTwice(f, false);
  }

  // ---------------------------------------------------------------- resolving

  /** A column's `masked_with` declaration. */
  datatype ColumnMask = ColumnMask(name: string, present: bool, maskedWith: Option<string>)

  /** `_find_ci`: the first key of that name up to case, with its value. */
  function FindCi(d: Entries<string, string>, norm: string): Option<(string, string)> {
    if d == [] then None
    else if NormalizeName(d[0].0) == norm then Some(d[0])
    else FindCi(d[1..], norm)
  }

  /** `_pop_ci`: drop the first key of that name up to case. */
  function PopCi(d: Entries<string, string>, norm: string): Entries<string, string> {
    if d == [] then []
    else if NormalizeName(d[0].0) == norm then d[1..]
    else [d[0]] + PopCi(d[1..], norm)
  }

  function CountCi(d: Entries<string, string>, norm: string): nat {
    if d == [] then 0 else (if NormalizeName(d[0].0) == norm then 1 else 0) + CountCi(d[1..], norm)
  }

  /** No two keys equal up to case. */
  ghost predicate CaseDistinct(d: Entries<string, string>) {
    forall norm :: CountCi(d, norm) <= 1
  }

  ghost predicate ColumnsDistinct(columns: seq<ColumnMask>) {
    forall i, j :: 0 <= i < j < |columns| ==> NormalizeName(columns[i].name) != NormalizeName(columns[j].name)
  }

  /** One column applied to the map. */
  function ResolveOne(m: Entries<string, string>, cm: ColumnMask): Entries<string, string> {
    if !cm.present then m
    else
      var popped := PopCi(m, NormalizeName(cm.name));
      if cm.maskedWith.None? then popped else Put(popped, cm.name, cm.maskedWith.value)
  }

  function Resolved(columns: seq<ColumnMask>, model: Entries<string, string>): Entries<string, string> {
    if columns == [] then model
    else ResolveOne(Resolved(columns[..|columns| - 1], model), columns[|columns| - 1])
  }

  /** The columns whose value conflicts with a model-level entry, in order. */
  function Conflicts(columns: seq<ColumnMask>, model: Entries<string, string>): seq<string> {
    if columns == [] then []
    else
      var last := columns[|columns| - 1];
      Conflicts(columns[..|columns| - 1], model)
      + (if last.present && last.maskedWith.Some? && FindCi(model, NormalizeName(last.name)).Some? then [last.name] else [])
  }

  lemma {:induction false} FoundIff(d: Entries<string, string>, norm: string)
    ensures FindCi(d, norm).Some? <==> exists i :: 0 <= i < |d| && NormalizeName(d[i].0) == norm
  {
    hide NormalizeName;
    if d != [] {
      FoundIff(d[1..], norm);
      assert forall i :: 0 <= i < |d| - 1 ==> d[1..][i] == d[i + 1];
      assert forall i :: 1 <= i < |d| ==> d[i] == d[1..][i - 1];
    }
  }

  /** A column is warned about exactly when it has a value of its own and the model has an entry for it, up to
      case. */
  lemma {:induction false} ConflictsMeaning(columns: seq<ColumnMask>, model: Entries<string, string>, name: string)
    ensures name in Conflicts(columns, model)
            <==> && (exists i :: 0 <= i < |columns| && columns[i].name == name && columns[i].present
                                 && columns[i].maskedWith.Some?)
                 && exists j :: 0 <= j < |model| && NormalizeName(model[j].0) == NormalizeName(name)
  {
    hide NormalizeName;
    FoundIff(model, NormalizeName(name));
    if columns != [] {
      var init := columns[..|columns| - 1];
      ConflictsMeaning(init, model, name);
      assert forall i :: 0 <= i < |init| ==> init[i] == columns[i];
    }
  }

  /** `resolve_masks`; a warning is named by its column. */
  method ResolveMasks(columnMasks: seq<ColumnMask>, modelMasks: Entries<string, string>)
    returns (maskMap: Entries<string, string>, warnings: seq<string>)
    ensures maskMap == Resolved(columnMasks, modelMasks) && warnings == Conflicts(columnMasks, modelMasks)
  {
    hide NormalizeName;
    maskMap, warnings := modelMasks, [];
    for i := 0 to |columnMasks|
      invariant maskMap == Resolved(columnMasks[..i], modelMasks)
      invariant warnings == Conflicts(columnMasks[..i], modelMasks)
    {
      var cm := columnMasks[i];
      assert columnMasks[..i + 1][..i] == columnMasks[..i] && columnMasks[..i + 1][i] == cm;
      if !cm.present {
        continue;
      }
      if cm.maskedWith.None? {
        maskMap := PopCi(maskMap, NormalizeName(cm.name));
        continue;
      }
      if FindCi(modelMasks, NormalizeName(cm.name)).Some? {
        warnings := warnings + [cm.name];
      }
      maskMap := PopCi(maskMap, NormalizeName(cm.name));
      maskMap := Put(maskMap, cm.name, cm.maskedWith.value);
    }
    assert columnMasks[..|columnMasks|] == columnMasks;
  }

  /** What the resolved map says about a column, up to case. */
  function MaskOf(d: Entries<string, string>, norm: string): Option<string> {
    var e := FindCi(d, norm);
    if e.None? then None else Some(e.value.1)
  }

  lemma {:induction false} PopCounts(d: Entries<string, string>, norm: string, n: string)
    ensures CountCi(PopCi(d, norm), n)
         == if n == norm && CountCi(d, n) > 0 then CountCi(d, n) - 1 else CountCi(d, n)
    ensures n != norm ==> MaskOf(PopCi(d, norm), n) == MaskOf(d, n)
  {
    hide NormalizeName;
    if d != [] {
      PopCounts(d[1..], norm, n);
      if NormalizeName(d[0].0) != norm {
        assert PopCi(d, norm)[1..] == PopCi(d[1..], norm);
      }
    }
  }

  lemma {:induction false} AbsentMeansNone(d: Entries<string, string>, norm: string)
    ensures MaskOf(d, norm) == None <==> CountCi(d, norm) == 0
  {
    hide NormalizeName;
    if d != [] {
      AbsentMeansNone(d[1..], norm);
    }
  }

  /** Setting a key that is absent up to case adds one entry, for that name only. */
  lemma {:induction false} PutFresh(d: Entries<string, string>, key: string, v: string, n: string)
    requires CountCi(d, NormalizeName(key)) == 0
    ensures CountCi(Put(d, key, v), n) == CountCi(d, n) + (if n == NormalizeName(key) then 1 else 0)
    ensures MaskOf(Put(d, key, v), n) == if n == NormalizeName(key) then Some(v) else MaskOf(d, n)
  {
    hide NormalizeName;
    if d == [] {
      assert [(key, v)][1..] == [];
    } else {
      PutFresh(d[1..], key, v, n);
      assert Put(d, key, v)[1..] == Put(d[1..], key, v);
    }
  }

  /** One step: a value sets its column, null removes it, and every other column is untouched. */
  lemma ResolveOneMeaning(m: Entries<string, string>, cm: ColumnMask, n: string)
    requires CaseDistinct(m)
    ensures CaseDistinct(ResolveOne(m, cm))
    ensures MaskOf(ResolveOne(m, cm), n)
         == if cm.present && NormalizeName(cm.name) == n then cm.maskedWith else MaskOf(m, n)
  {
    hide NormalizeName, MaskOf;
    if cm.present {
      var norm := NormalizeName(cm.name);
      var popped := PopCi(m, norm);
      assert CountCi(m, norm) <= 1;
      PopCounts(m, norm, norm);
      forall k ensures CountCi(ResolveOne(m, cm), k) <= 1 {
        assert CountCi(m, k) <= 1;
        PopCounts(m, norm, k);
        if cm.maskedWith.Some? {
          PutFresh(popped, cm.name, cm.maskedWith.value, k);
        }
      }
      PopCounts(m, norm, n);
      AbsentMeansNone(popped, n);
      if cm.maskedWith.Some? {
        PutFresh(popped, cm.name, cm.maskedWith.value, n);
      }
    }
  }

  /** With case-distinct columns and model keys: a column's value wins, its null removes, otherwise
      the model's value stays; and the resolved keys are case-distinct. */
  lemma {:induction false} ResolvedMeaning(columns: seq<ColumnMask>, model: Entries<string, string>, n: string)
    requires CaseDistinct(model) && ColumnsDistinct(columns)
    ensures CaseDistinct(Resolved(columns, model))
    ensures forall i :: 0 <= i < |columns| && columns[i].present && NormalizeName(columns[i].name) == n ==>
              MaskOf(Resolved(columns, model), n) == columns[i].maskedWith
    ensures (forall i :: 0 <= i < |columns| && columns[i].present ==> NormalizeName(columns[i].name) != n) ==>
              MaskOf(Resolved(columns, model), n) == MaskOf(model, n)
  {
    hide NormalizeName, MaskOf, ResolveOne;
    if columns != [] {
      var init, last := columns[..|columns| - 1], columns[|columns| - 1];
      ResolvedMeaning(init, model, n);
      ResolveOneMeaning(Resolved(init, model), last, n);
      assert forall i :: 0 <= i < |init| ==> init[i] == columns[i];
    }
  }

  /** The entries of one name up to case, in order. */
  function Ci(d: Entries<string, string>, norm: string): Entries<string, string> {
    if d == [] then []
    else (if NormalizeName(d[0].0) == norm then [d[0]] else []) + Ci(d[1..], norm)
  }

  lemma CiCons(e: (string, string), d: Entries<string, string>, n: string)
    ensures Ci([e] + d, n) == (if NormalizeName(e.0) == n then [e] else []) + Ci(d, n)
  {
    hide NormalizeName;
    assert ([e] + d)[1..] == d;
  }

  lemma PutCons(e: (string, string), d: Entries<string, string>, k: string, v: string)
    ensures Put([e] + d, k, v) == if e.0 == k then [(k, v)] + d else [e] + Put(d, k, v)
  {
    assert ([e] + d)[1..] == d;
  }

  lemma {:induction false} CiPut(d: Entries<string, string>, k: string, v: string, n: string)
    ensures Ci(Put(d, k, v), n) == if NormalizeName(k) == n then Put(Ci(d, n), k, v) else Ci(d, n)
  {
    hide NormalizeName, Ci;
    if d == [] {
      CiCons((k, v), [], n);
      NothingDesired(n);
      assert [(k, v)] + [] == [(k, v)];
    } else {
      var e, rest := d[0], d[1..];
      assert d == [e] + rest;
      CiCons(e, rest, n);
      PutCons(e, rest, k, v);
      PutCons(e, Ci(rest, n), k, v);
      if e.0 == k {
        CiCons((k, v), rest, n);
      } else {
        CiPut(rest, k, v, n);
        CiCons(e, Put(rest, k, v), n);
      }
      assert [] + Ci(rest, n) == Ci(rest, n);
    }
  }

  lemma {:induction false} CiPop(d: Entries<string, string>, norm: string, n: string)
    ensures Ci(PopCi(d, norm), n) == if n == norm && Ci(d, n) != [] then Ci(d, n)[1..] else Ci(d, n)
  {
    hide NormalizeName;
    if d != [] {
      CiPop(d[1..], norm, n);
      if NormalizeName(d[0].0) != norm {
        assert PopCi(d, norm)[1..] == PopCi(d[1..], norm);
      }
      assert ([d[0]] + Ci(d[1..], n))[1..] == Ci(d[1..], n);
    }
  }

  /** The entries behind the first. */
  function Behind(d: Entries<string, string>): Entries<string, string> {
    if d == [] then [] else d[1..]
  }

  /** What one column makes of the entries of a name. */
  lemma CiResolveOne(m: Entries<string, string>, cm: ColumnMask, n: string)
    ensures Ci(ResolveOne(m, cm), n)
         == if !cm.present || NormalizeName(cm.name) != n then Ci(m, n)
            else if cm.maskedWith.None? then Behind(Ci(m, n))
            else Put(Behind(Ci(m, n)), cm.name, cm.maskedWith.value)
  {
    hide NormalizeName, Ci, Put, PopCi;
    if cm.present {
      CiPop(m, NormalizeName(cm.name), n);
      if cm.maskedWith.Some? {
        CiPut(PopCi(m, NormalizeName(cm.name)), cm.name, cm.maskedWith.value, n);
      }
    }
  }

  /** Of case-distinct columns only the one of that name matters, whatever the model's keys are. */
  lemma {:induction false} CiResolved(columns: seq<ColumnMask>, model: Entries<string, string>, i: nat)
    requires ColumnsDistinct(columns) && i < |columns| && columns[i].present
    ensures var n := NormalizeName(columns[i].name);
            Ci(Resolved(columns, model), n) == Ci(ResolveOne(model, columns[i]), n)
  {
    hide NormalizeName, Ci, ResolveOne;
    var n := NormalizeName(columns[i].name);
    var init, last := columns[..|columns| - 1], columns[|columns| - 1];
    assert forall j :: 0 <= j < |init| ==> init[j] == columns[j];
    if i < |init| {
      CiResolved(init, model, i);
      CiResolveOne(Resolved(init, model), last, n);
    } else {
      CiUntouched(init, model, n);
      CiResolveOne(Resolved(init, model), last, n);
      CiResolveOne(model, last, n);
    }
  }

  lemma {:induction false} CiUntouched(columns: seq<ColumnMask>, model: Entries<string, string>, n: string)
    requires forall j :: 0 <= j < |columns| ==> NormalizeName(columns[j].name) != n
    ensures Ci(Resolved(columns, model), n) == Ci(model, n)
  {
    hide NormalizeName, Ci, ResolveOne;
    if columns != [] {
      CiUntouched(columns[..|columns| - 1], model, n);
      CiResolveOne(Resolved(columns[..|columns| - 1], model), columns[|columns| - 1], n);
    }
  }

  lemma {:induction false} CiAppend(d: Entries<string, string>, e: (string, string), n: string)
    ensures Ci(d + [e], n) == Ci(d, n) + (if NormalizeName(e.0) == n then [e] else [])
  {
    hide NormalizeName, Ci;
    var last := if NormalizeName(e.0) == n then [e] else [];
    if d == [] {
      assert d + [e] == [e] + [];
      CiCons(e, [], n);
      NothingDesired(n);
      assert last + [] == [] + last;
    } else {
      var first, rest := d[0], d[1..];
      assert d == [first] + rest && d + [e] == [first] + (rest + [e]);
      CiCons(first, rest + [e], n);
      CiCons(first, rest, n);
      CiAppend(rest, e, n);
      Assoc(if NormalizeName(first.0) == n then [first] else [], Ci(rest, n), last);
    }
  }

  /** The diff uses the last entry of a name. */
  lemma {:induction false} DesiredIsLast(d: Entries<string, string>, n: string)
    ensures var m, c := AsMap(DesiredByName(d)), Ci(d, n);
            (n in m <==> c != []) && (n in m ==> m[n] == c[|c| - 1])
  {
    hide NormalizeName, Ci, AsMap;
    if d == [] {
      NothingDesired(n);
    } else {
      var init, last := d[..|d| - 1], d[|d| - 1];
      DesiredIsLast(init, n);
      CiAppend(init, last, n);
      assert init + [last] == d;
    }
  }

  lemma NothingDesired(n: string)
    ensures n !in AsMap(DesiredByName([])) && Ci([], n) == []
  {
  }

  /** Setting a key puts the value last exactly when the key is new, is last already, or the last value is
      that value. */
  lemma {:induction false} PutLast(d: Entries<string, string>, k: string, v: string)
    requires Distinct(d)
    ensures var r := Put(d, k, v);
            r != [] && (r[|r| - 1].1 == v <==> k !in AsMap(d) || d[|d| - 1].0 == k || d[|d| - 1].1 == v)
  {
    hide Put, AsMap;
    if d == [] {
      PutNothing(k, v);
    } else {
      var e, rest := d[0], d[1..];
      assert d == [e] + rest;
      PutCons(e, rest, k, v);
      InCons(e, rest, k);
      assert rest != [] ==> d[|d| - 1] == rest[|rest| - 1];
      if e.0 == k {
        assert rest != [] ==> d[|d| - 1].0 != e.0;
      } else {
        PutLast(rest, k, v);
        if rest == [] {
          PutNothing(k, v);
        }
      }
    }
  }

  lemma PutNothing(k: string, v: string)
    ensures Put([], k, v) == [(k, v)] && k !in AsMap<string, string>([])
  {
  }

  lemma InCons(e: (string, string), d: Entries<string, string>, k: string)
    ensures k in AsMap([e] + d) <==> e.0 == k || k in AsMap(d)
  {
    assert ([e] + d)[1..] == d;
  }

  lemma {:induction false} CiMembers(d: Entries<string, string>, n: string, e: (string, string))
    ensures e in Ci(d, n) ==> e in d
  {
    hide NormalizeName;
    if d != [] {
      CiMembers(d[1..], n, e);
    }
  }

  lemma {:induction false} CiDistinct(d: Entries<string, string>, n: string)
    requires Distinct(d)
    ensures Distinct(Ci(d, n))
  {
    hide NormalizeName;
    if d != [] {
      CiDistinct(d[1..], n);
      forall j | 0 <= j < |Ci(d[1..], n)| ensures Ci(d[1..], n)[j].0 != d[0].0 {
        CiMembers(d[1..], n, Ci(d[1..], n)[j]);
      }
    }
  }

  /** A column's value is the one the diff uses exactly when the model's keys for the column, without the
      first of them, do not hold the column's spelling in front of another one with another value. */
  lemma ColumnValueUsedIff(columns: seq<ColumnMask>, model: Entries<string, string>, i: nat)
    requires Distinct(model) && ColumnsDistinct(columns)
    requires i < |columns| && columns[i].present && columns[i].maskedWith.Some?
    ensures var n := NormalizeName(columns[i].name);
            var used := AsMap(DesiredByName(Resolved(columns, model)));
            var rest := Behind(Ci(model, n));
            && n in used
            && (used[n].1 == columns[i].maskedWith.value <==>
                  || columns[i].name !in AsMap(rest)
                  || rest[|rest| - 1].0 == columns[i].name
                  || rest[|rest| - 1].1 == columns[i].maskedWith.value)
  {
    hide NormalizeName, Ci, Resolved, DesiredByName, Put, AsMap, ResolveOne;
    var n := NormalizeName(columns[i].name);
    CiResolved(columns, model, i);
    CiResolveOne(model, columns[i], n);
    DesiredIsLast(Resolved(columns, model), n);
    CiDistinct(model, n);
    PutLast(Behind(Ci(model, n)), columns[i].name, columns[i].maskedWith.value);
  }

  /** And an opt-out leaves no mask exactly when the model has at most one key for the column. */
  lemma OptOutRemovesIff(columns: seq<ColumnMask>, model: Entries<string, string>, i: nat)
    requires ColumnsDistinct(columns) && i < |columns| && columns[i].present && columns[i].maskedWith.None?
    ensures var n := NormalizeName(columns[i].name);
            n !in AsMap(DesiredByName(Resolved(columns, model))) <==> |Ci(model, n)| <= 1
  {
    hide NormalizeName, Ci, Resolved, DesiredByName, AsMap, ResolveOne;
    var n := NormalizeName(columns[i].name);
    CiResolved(columns, model, i);
    CiResolveOne(model, columns[i], n);
    DesiredIsLast(Resolved(columns, model), n);
  }

  /** Three spellings of one column, the column using the middle one: the model's last value is used. */
  lemma ThirdSpellingWins(a: string, b: string, c: string)
    requires c != b
    ensures var model := [("Ab", a), ("ab", a), ("AB", c)];
            var used := AsMap(DesiredByName(Resolved([ColumnMask("ab", true, Some(b))], model)));
            NormalizeName("ab") in used && used[NormalizeName("ab")].1 != b
  {
    var model := [("Ab", a), ("ab", a), ("AB", c)];
    var columns := [ColumnMask("ab", true, Some(b))];
    assert "Ab"[0] == 'A' && "ab"[0] == 'a' && "AB"[0] == 'A' && "Ab"[1] == 'b' && "AB"[1] == 'B';
    assert Distinct(model);
    SameColumn();
    ThreeSpellings(model);
    ColumnValueUsedIff(columns, model, 0);
  }

  lemma SameColumn()
    ensures NormalizeName("Ab") == NormalizeName("ab") == NormalizeName("AB")
  {
    StripFixed("Ab");
    StripFixed("ab");
    StripFixed("AB");
    assert Lower("Ab") == "ab" && Lower("AB") == "ab" && Lower("ab") == "ab";
  }

  lemma ThreeSpellings(model: Entries<string, string>)
    requires |model| == 3 && forall i :: 0 <= i < 3 ==> NormalizeName(model[i].0) == NormalizeName("ab")
    requires model[1].0 == "ab" && model[2].0 == "AB"
    ensures var rest := Behind(Ci(model, NormalizeName("ab")));
            rest == model[1..] && "ab" in AsMap(rest)
  {
    hide NormalizeName;
    var n := NormalizeName("ab");
    assert model[1..][1..] == model[2..] && model[2..][1..] == [];
    assert Ci(model[2..], n) == [model[2]];
    assert Ci(model[1..], n) == [model[1], model[2]];
    assert model[1..][0].0 == "ab";
  }

  // -------------------------------------------------------------- reconciling

  /** One row of `sys.masked_columns`. */
  datatype MaskRow = MaskRow(name: string, maskingFunction: string)

  datatype Changes = Changes(
    adds: seq<(string, string)>,
    changes: seq<(string, string)>,
    drops: seq<string>,
    skipped: seq<string>,
    errors: seq<string>)

  /** The live masks by normalised column name; a later row of the same name wins. */
  function ExistingByName(rows: seq<MaskRow>): Entries<string, string> {
    if rows == [] then []
    else
      var last := rows[|rows| - 1];
      Put(ExistingByName(rows[..|rows| - 1]), NormalizeName(last.name), last.maskingFunction)
  }

  /** The desired masks by normalised column name. */
  function DesiredByName(desired: Entries<string, string>): Entries<string, (string, string)> {
    if desired == [] then []
    else
      var last := desired[|desired| - 1];
      Put(DesiredByName(desired[..|desired| - 1]), NormalizeName(last.0), last)
  }

  predicate IsKnown(columns: Option<seq<string>>, norm: string) {
    columns.None? || exists i :: 0 <= i < |columns.value| && NormalizeName(columns.value[i]) == norm
  }

  predicate IsIndexKey(keys: set<string>, norm: string) {
    exists k :: k in keys && NormalizeName(k) == norm
  }

  /** Where one desired column goes. */
  datatype Verdict = Unchanged | Add | Change | Skip | Error

  function VerdictOf(existing: Entries<string, string>, norm: string, fn: string,
                     keys: set<string>, columns: Option<seq<string>>): (v: Verdict)
    ensures v.Skip? <==> columns.Some? && forall i :: 0 <= i < |columns.value| ==> NormalizeName(columns.value[i]) != norm
    ensures v.Error? <==> !v.Skip? && norm !in AsMap(existing) && exists k :: k in keys && NormalizeName(k) == norm
    ensures v.Add? <==> !v.Skip? && norm !in AsMap(existing) && forall k :: k in keys ==> NormalizeName(k) != norm
    ensures v.Change? <==>
              !v.Skip? && norm in AsMap(existing) && NormalizeFunction(AsMap(existing)[norm]) != NormalizeFunction(fn)
  {
    if !IsKnown(columns, norm) then Skip
    else match Get(existing, norm)
      case None => if IsIndexKey(keys, norm) then Error else Add
      case Some(current) => if NormalizeFunction(current) != NormalizeFunction(fn) then Change else Unchanged
  }

  /** The entries of `d` with a given verdict, in order. */
  function Sorted(d: Entries<string, (string, string)>, existing: Entries<string, string>,
                  keys: set<string>, columns: Option<seq<string>>, v: Verdict): seq<(string, string)>
  {
    if d == [] then []
    else
      var init, last := d[..|d| - 1], d[|d| - 1];
      Sorted(init, existing, keys, columns, v)
      + (if VerdictOf(existing, last.0, last.1.1, keys, columns) == v then [last.1] else [])
  }

  function Names(pairs: seq<(string, string)>): (r: seq<string>)
    ensures |r| == |pairs|
    ensures forall i :: 0 <= i < |r| ==> r[i] == pairs[i].0
  {
    seq(|pairs|, i requires 0 <= i < |pairs| => pairs[i].0)
  }

  /** The database's spelling of a masked column: the first row with that normalised name. */
  function SpellingOf(rows: seq<MaskRow>, norm: string): string {
    if rows == [] then norm
    else if NormalizeName(rows[0].name) == norm then rows[0].name
    else SpellingOf(rows[1..], norm)
  }

  /** The masked columns that are no longer desired, in the database's spelling. */
  function Dropped(existing: Entries<string, string>, desired: Entries<string, (string, string)>, rows: seq<MaskRow>): seq<string> {
    if existing == [] then []
    else
      var init, last := existing[..|existing| - 1], existing[|existing| - 1];
      Dropped(init, desired, rows) + (if last.0 in AsMap(desired) then [] else [SpellingOf(rows, last.0)])
  }

  /** `mask_changes` as a function; skipped and error entries name the column the message is about. */
  function ChangesFor(rows: seq<MaskRow>, desired: Entries<string, string>,
                      keys: set<string>, columns: Option<seq<string>>): Changes
  {
    var e, d := ExistingByName(rows), DesiredByName(desired);
    Changes(
      Sorted(d, e, keys, columns, Add), Sorted(d, e, keys, columns, Change), Dropped(e, d, rows),
      Names(Sorted(d, e, keys, columns, Skip)), Names(Sorted(d, e, keys, columns, Error)))
  }

  /** `mask_changes`. */
  method MaskChanges(rows: seq<MaskRow>, desired: Entries<string, string>,
                     keys: set<string>, columns: Option<seq<string>>) returns (r: Changes)
    ensures r == ChangesFor(rows, desired, keys, columns)
  {
    hide VerdictOf, NormalizeName, NormalizeFunction;
    var existing: Entries<string, string> := [];
    for i := 0 to |rows|
      invariant existing == ExistingByName(rows[..i])
    {
      assert rows[..i + 1][..i] == rows[..i];
      existing := Put(existing, NormalizeName(rows[i].name), rows[i].maskingFunction);
    }
    assert rows[..|rows|] == rows;
    var d: Entries<string, (string, string)> := [];
    for i := 0 to |desired|
      invariant d == DesiredByName(desired[..i])
    {
      assert desired[..i + 1][..i] == desired[..i];
      d := Put(d, NormalizeName(desired[i].0), desired[i]);
    }
    assert desired[..|desired|] == desired;
    var adds, changes, skipped, errors := SortDesired(d, existing, keys, columns);
    var drops := FindDrops(existing, d, rows);
    r := Changes(adds, changes, drops, skipped, errors);
  }

  /** The loop over the desired columns. */
  method SortDesired(d: Entries<string, (string, string)>, existing: Entries<string, string>,
                     keys: set<string>, columns: Option<seq<string>>)
    returns (adds: seq<(string, string)>, changes: seq<(string, string)>, skipped: seq<string>, errors: seq<string>)
    ensures adds == Sorted(d, existing, keys, columns, Add) && changes == Sorted(d, existing, keys, columns, Change)
    ensures skipped == Names(Sorted(d, existing, keys, columns, Skip))
    ensures errors == Names(Sorted(d, existing, keys, columns, Error))
  {
    hide NormalizeName, NormalizeFunction, IsKnown, IsIndexKey, AsMap;
    adds, changes, skipped, errors := [], [], [], [];
    for i := 0 to |d|
      invariant adds == Sorted(d[..i], existing, keys, columns, Add)
      invariant changes == Sorted(d[..i], existing, keys, columns, Change)
      invariant skipped == Names(Sorted(d[..i], existing, keys, columns, Skip))
      invariant errors == Names(Sorted(d[..i], existing, keys, columns, Error))
    {
      var (norm, (col, fn)) := d[i];
      assert d[..i + 1][..i] == d[..i] && d[..i + 1][i] == d[i];
      if !IsKnown(columns, norm) {
        skipped := skipped + [col];
        continue;
      }
      var current := Get(existing, norm);
      if current.None? {
        if IsIndexKey(keys, norm) {
          errors := errors + [col];
          continue;
        }
        adds := adds + [(col, fn)];
      } else if NormalizeFunction(current.value) != NormalizeFunction(fn) {
        changes := changes + [(col, fn)];
      }
    }
    assert d[..|d|] == d;
  }

  /** The loop over the live masks. */
  method FindDrops(existing: Entries<string, string>, d: Entries<string, (string, string)>, rows: seq<MaskRow>)
    returns (drops: seq<string>)
    ensures drops == Dropped(existing, d, rows)
  {
    hide NormalizeName, AsMap;
    drops := [];
    for i := 0 to |existing|
      invariant drops == Dropped(existing[..i], d, rows)
    {
      assert existing[..i + 1][..i] == existing[..i];
      if Get(d, existing[i].0).None? {
        drops := drops + [SpellingOf(rows, existing[i].0)];
      }
    }
    assert existing[..|existing|] == existing;
  }

  // --------------------------------------------------------------- convergence

  /** The live masks as the engine sees them: normalised name to normalised function. */
  function View(rows: seq<MaskRow>): map<string, string> {
    var e := AsMap(ExistingByName(rows));
    map k | k in e :: NormalizeFunction(e[k])
  }

  /** What the emitted ADD and MASKED WITH statements set. */
  function PairMap(pairs: seq<(string, string)>): map<string, string> {
    if pairs == [] then map[]
    else
      var last := pairs[|pairs| - 1];
      PairMap(pairs[..|pairs| - 1])[NormalizeName(last.0) := NormalizeFunction(last.1)]
  }

  function NormSet(names: seq<string>): set<string> {
    set i | 0 <= i < |names| :: NormalizeName(names[i])
  }

  /** `after` are rows the server may report once the changes ran: it may store any spelling of a
      name or function that normalises equal. */
  ghost predicate Applied(before: seq<MaskRow>, c: Changes, after: seq<MaskRow>) {
    View(after) == (View(before) - NormSet(c.drops)) + PairMap(c.adds + c.changes)
  }

  lemma {:induction false} DesiredShape(desired: Entries<string, string>)
    ensures var d := DesiredByName(desired);
            Distinct(d) && forall i :: 0 <= i < |d| ==> d[i].0 == NormalizeName(d[i].1.0)
  {
    if desired != [] {
      var init, last := desired[..|desired| - 1], desired[|desired| - 1];
      DesiredShape(init);
      PutDistinct(DesiredByName(init), NormalizeName(last.0), last);
      PutShape(DesiredByName(init), NormalizeName(last.0), last);
    }
  }

  lemma {:induction false} PutShape(d: Entries<string, (string, string)>, k: string, v: (string, string))
    requires k == NormalizeName(v.0)
    requires forall i :: 0 <= i < |d| ==> d[i].0 == NormalizeName(d[i].1.0)
    ensures forall i :: 0 <= i < |Put(d, k, v)| ==> Put(d, k, v)[i].0 == NormalizeName(Put(d, k, v)[i].1.0)
  {
    hide NormalizeName;
    if d != [] && d[0].0 != k {
      PutShape(d[1..], k, v);
    }
  }

  /** A list holds exactly the desired columns with its verdict. */
  lemma {:induction false} SortedMembers(d: Entries<string, (string, string)>, existing: Entries<string, string>,
                                         keys: set<string>, columns: Option<seq<string>>, v: Verdict, x: (string, string))
    ensures x in Sorted(d, existing, keys, columns, v) <==>
            exists i :: 0 <= i < |d| && d[i].1 == x && VerdictOf(existing, d[i].0, d[i].1.1, keys, columns) == v
  {
    hide VerdictOf;
    if d != [] {
      var init := d[..|d| - 1];
      SortedMembers(init, existing, keys, columns, v, x);
      assert forall i :: 0 <= i < |init| ==> d[i] == init[i];
    }
  }

  /** Every desired column falls in exactly one of the five classes. */
  lemma {:induction false} EachDesiredColumnOnce(d: Entries<string, (string, string)>, existing: Entries<string, string>,
                                                 keys: set<string>, columns: Option<seq<string>>)
    ensures |Sorted(d, existing, keys, columns, Unchanged)| + |Sorted(d, existing, keys, columns, Add)|
          + |Sorted(d, existing, keys, columns, Change)| + |Sorted(d, existing, keys, columns, Skip)|
          + |Sorted(d, existing, keys, columns, Error)| == |d|
  {
    hide VerdictOf;
    if d != [] {
      EachDesiredColumnOnce(d[..|d| - 1], existing, keys, columns);
    }
  }

  lemma {:induction false} PairMapLookup(pairs: seq<(string, string)>, k: string, fn: string)
    requires forall i :: 0 <= i < |pairs| && NormalizeName(pairs[i].0) == k ==> NormalizeFunction(pairs[i].1) == fn
    ensures k in PairMap(pairs) <==> exists i :: 0 <= i < |pairs| && NormalizeName(pairs[i].0) == k
    ensures k in PairMap(pairs) ==> PairMap(pairs)[k] == fn
  {
    hide NormalizeName, NormalizeFunction;
    if pairs != [] {
      var init := pairs[..|pairs| - 1];
      PairMapLookup(init, k, fn);
      if k in PairMap(init) {
        var i :| 0 <= i < |init| && NormalizeName(init[i].0) == k;
        assert pairs[i] == init[i];
      }
      if exists i :: 0 <= i < |pairs| && NormalizeName(pairs[i].0) == k {
        var i :| 0 <= i < |pairs| && NormalizeName(pairs[i].0) == k;
        assert i < |init| ==> init[i] == pairs[i];
      }
    }
  }

  lemma {:induction false} DroppedNames(existing: Entries<string, string>, desired: Entries<string, (string, string)>,
                                        rows: seq<MaskRow>, k: string)
    requires forall i :: 0 <= i < |existing| ==> NormalizeName(SpellingOf(rows, existing[i].0)) == existing[i].0
    ensures k in NormSet(Dropped(existing, desired, rows)) <==>
            (exists i :: 0 <= i < |existing| && existing[i].0 == k) && k !in AsMap(desired)
  {
    hide NormalizeName, SpellingOf, AsMap;
    if existing != [] {
      var init, last := existing[..|existing| - 1], existing[|existing| - 1];
      forall i | 0 <= i < |init| ensures NormalizeName(SpellingOf(rows, init[i].0)) == init[i].0 {
        assert init[i] == existing[i];
      }
      DroppedNames(init, desired, rows, k);
      var before, now := Dropped(init, desired, rows), Dropped(existing, desired, rows);
      forall i | 0 <= i < |now| ensures NormalizeName(now[i]) in NormSet(now) {
      }
      assert forall i :: 0 <= i < |before| ==> now[i] == before[i];
      if last.0 !in AsMap(desired) {
        assert now[|now| - 1] == SpellingOf(rows, last.0);
        assert last.0 in NormSet(now);
      }
      assert existing[|existing| - 1].0 == last.0;
      assert forall i :: 0 <= i < |init| ==> existing[i] == init[i];
    }
  }

  lemma {:induction false} ExistingShape(rows: seq<MaskRow>)
    ensures var e := ExistingByName(rows);
            && Distinct(e)
            && forall k :: k in AsMap(e) <==> exists i :: 0 <= i < |rows| && NormalizeName(rows[i].name) == k
  {
    hide NormalizeName;
    if rows != [] {
      var init, last := rows[..|rows| - 1], rows[|rows| - 1];
      ExistingShape(init);
      PutDistinct(ExistingByName(init), NormalizeName(last.name), last.maskingFunction);
      forall k
        ensures k in AsMap(ExistingByName(rows)) <==> exists i :: 0 <= i < |rows| && NormalizeName(rows[i].name) == k
      {
        if k in AsMap(ExistingByName(init)) {
          var i :| 0 <= i < |init| && NormalizeName(init[i].name) == k;
          assert rows[i] == init[i];
        }
        if exists i :: 0 <= i < |rows| && NormalizeName(rows[i].name) == k {
          var i :| 0 <= i < |rows| && NormalizeName(rows[i].name) == k;
          assert i < |init| ==> init[i] == rows[i];
        }
      }
    }
  }

  lemma {:induction false} SpellingNormalizes(rows: seq<MaskRow>, norm: string)
    requires exists i :: 0 <= i < |rows| && NormalizeName(rows[i].name) == norm
    ensures NormalizeName(SpellingOf(rows, norm)) == norm
    ensures exists i :: 0 <= i < |rows| && rows[i].name == SpellingOf(rows, norm)
  {
    hide NormalizeName;
    var i :| 0 <= i < |rows| && NormalizeName(rows[i].name) == norm;
    if NormalizeName(rows[0].name) != norm {
      assert rows[1..][i - 1] == rows[i];
      SpellingNormalizes(rows[1..], norm);
      var j :| 0 <= j < |rows[1..]| && rows[1..][j].name == SpellingOf(rows[1..], norm);
      assert rows[j + 1] == rows[1..][j];
    } else {
      assert rows[0].name == SpellingOf(rows, norm);
    }
  }

  /** A drop is emitted exactly for the masked columns that are not desired. */
  lemma DropsAreUndesired(rows: seq<MaskRow>, desired: Entries<string, string>, k: string)
    ensures var e, d := ExistingByName(rows), DesiredByName(desired);
            k in NormSet(Dropped(e, d, rows)) <==> k in View(rows) && k !in AsMap(d)
  {
    hide NormalizeName, SpellingOf;
    var e, d := ExistingByName(rows), DesiredByName(desired);
    ExistingShape(rows);
    forall i | 0 <= i < |e| ensures NormalizeName(SpellingOf(rows, e[i].0)) == e[i].0 {
      EntryInMap(e, i);
      SpellingNormalizes(rows, e[i].0);
    }
    DroppedNames(e, d, rows, k);
    if k in AsMap(e) {
      var i := MapHasEntry(e, k);
    }
    forall i | 0 <= i < |e| ensures e[i].0 in AsMap(e) {
      EntryInMap(e, i);
    }
  }

  /** After the changes ran, a known desired column carries the desired function, up to
      normalisation, and only desired columns are masked. */
  lemma AppliedView(rows: seq<MaskRow>, desired: Entries<string, string>, keys: set<string>,
                    columns: Option<seq<string>>, after: seq<MaskRow>, i: nat)
    requires ChangesFor(rows, desired, keys, columns).errors == []
    requires Applied(rows, ChangesFor(rows, desired, keys, columns), after)
    requires i < |DesiredByName(desired)| && IsKnown(columns, DesiredByName(desired)[i].0)
    ensures var (norm, (_, fn)) := DesiredByName(desired)[i];
            norm in View(after) && View(after)[norm] == NormalizeFunction(fn)
  {
    hide NormalizeName, NormalizeFunction, Sorted, Dropped, ExistingByName, IsKnown, IsIndexKey, AsMap;
    var e, d := ExistingByName(rows), DesiredByName(desired);
    var c := ChangesFor(rows, desired, keys, columns);
    var (norm, (col, fn)) := d[i];
    DesiredShape(desired);
    EntryInMap(d, i);
    DropsAreUndesired(rows, desired, norm);
    var pairs := c.adds + c.changes;
    forall j | 0 <= j < |pairs|
      ensures pairs[j] in c.adds || pairs[j] in c.changes
      ensures NormalizeName(pairs[j].0) == norm ==> pairs[j] == (col, fn)
    {
      SortedMembers(d, e, keys, columns, Add, pairs[j]);
      SortedMembers(d, e, keys, columns, Change, pairs[j]);
    }
    PairMapLookup(pairs, norm, NormalizeFunction(fn));
    SortedMembers(d, e, keys, columns, Add, (col, fn));
    SortedMembers(d, e, keys, columns, Change, (col, fn));
    SortedMembers(d, e, keys, columns, Error, (col, fn));
    assert (col, fn) !in Sorted(d, e, keys, columns, Error) by {
      assert |Sorted(d, e, keys, columns, Error)| == |c.errors|;
    }
    var v := VerdictOf(e, norm, fn, keys, columns);
    assert d[i].1 == (col, fn);
    if v == Add {
      var j :| 0 <= j < |c.adds| && c.adds[j] == (col, fn);
      assert pairs[j] == (col, fn);
    } else if v == Change {
      var j :| 0 <= j < |c.changes| && c.changes[j] == (col, fn);
      assert pairs[|c.adds| + j] == (col, fn);
    }
  }

  lemma OnlyDesiredRemain(rows: seq<MaskRow>, desired: Entries<string, string>, keys: set<string>,
                          columns: Option<seq<string>>, after: seq<MaskRow>, k: string)
    requires Applied(rows, ChangesFor(rows, desired, keys, columns), after)
    requires k in View(after)
    ensures k in AsMap(DesiredByName(desired))
  {
    hide NormalizeName, NormalizeFunction, Sorted, Dropped, ExistingByName;
    var e, d := ExistingByName(rows), DesiredByName(desired);
    var c := ChangesFor(rows, desired, keys, columns);
    DropsAreUndesired(rows, desired, k);
    var pairs := c.adds + c.changes;
    if k in PairMap(pairs) {
      PairMapKey(pairs, k);
      var j :| 0 <= j < |pairs| && NormalizeName(pairs[j].0) == k;
      assert pairs[j] in c.adds || pairs[j] in c.changes;
      SortedMembers(d, e, keys, columns, Add, pairs[j]);
      SortedMembers(d, e, keys, columns, Change, pairs[j]);
      DesiredShape(desired);
      var m :| 0 <= m < |d| && d[m].1 == pairs[j];
      EntryInMap(d, m);
    }
  }

  lemma {:induction false} PairMapKey(pairs: seq<(string, string)>, k: string)
    requires k in PairMap(pairs)
    ensures exists i :: 0 <= i < |pairs| && NormalizeName(pairs[i].0) == k
  {
    hide NormalizeName, NormalizeFunction;
    var init := pairs[..|pairs| - 1];
    if NormalizeName(pairs[|pairs| - 1].0) != k {
      PairMapKey(init, k);
      var i :| 0 <= i < |init| && NormalizeName(init[i].0) == k;
      assert pairs[i] == init[i];
    }
  }

  lemma {:induction false} NothingSorted(d: Entries<string, (string, string)>, existing: Entries<string, string>,
                                         keys: set<string>, columns: Option<seq<string>>, v: Verdict)
    requires forall i :: 0 <= i < |d| ==> VerdictOf(existing, d[i].0, d[i].1.1, keys, columns) != v
    ensures Sorted(d, existing, keys, columns, v) == []
  {
    hide VerdictOf;
    if d != [] {
      NothingSorted(d[..|d| - 1], existing, keys, columns, v);
    }
  }

  lemma {:induction false} NothingDropped(existing: Entries<string, string>, desired: Entries<string, (string, string)>,
                                          rows: seq<MaskRow>)
    requires forall i :: 0 <= i < |existing| ==> existing[i].0 in AsMap(desired)
    ensures Dropped(existing, desired, rows) == []
  {
    hide AsMap;
    if existing != [] {
      NothingDropped(existing[..|existing| - 1], desired, rows);
    }
  }

  /** Reconciliation converges: whatever equivalent spellings the server stores, the next diff has
      nothing to add, change or drop, and raises no index-key error, whatever the indexes are then. */
  lemma MasksConverge(rows: seq<MaskRow>, desired: Entries<string, string>, keys: set<string>,
                      columns: Option<seq<string>>, after: seq<MaskRow>, keysAfter: set<string>)
    requires ChangesFor(rows, desired, keys, columns).errors == []
    requires Applied(rows, ChangesFor(rows, desired, keys, columns), after)
    ensures ChangesFor(after, desired, keysAfter, columns)
         == Changes([], [], [], ChangesFor(rows, desired, keys, columns).skipped, [])
  {
    hide NormalizeName, NormalizeFunction, Sorted, Dropped, ExistingByName, IsKnown, IsIndexKey, DesiredByName;
    var e, d := ExistingByName(after), DesiredByName(desired);
    forall i | 0 <= i < |d| && IsKnown(columns, d[i].0)
      ensures VerdictOf(e, d[i].0, d[i].1.1, keysAfter, columns) == Unchanged
    {
      AppliedView(rows, desired, keys, columns, after, i);
    }
    NothingSorted(d, e, keysAfter, columns, Add);
    NothingSorted(d, e, keysAfter, columns, Change);
    NothingSorted(d, e, keysAfter, columns, Error);
    SkippedDependsOnColumns(d, ExistingByName(rows), e, keys, keysAfter, columns);
    ExistingShape(after);
    forall i | 0 <= i < |e| ensures e[i].0 in AsMap(d) {
      EntryInMap(e, i);
      OnlyDesiredRemain(rows, desired, keys, columns, after, e[i].0);
    }
    NothingDropped(e, d, after);
  }

  lemma {:induction false} SkippedDependsOnColumns(d: Entries<string, (string, string)>, e: Entries<string, string>,
                                                   e': Entries<string, string>, keys: set<string>, keys': set<string>,
                                                   columns: Option<seq<string>>)
    ensures Sorted(d, e, keys, columns, Skip) == Sorted(d, e', keys', columns, Skip)
  {
    hide IsKnown, IsIndexKey, NormalizeFunction;
    if d != [] {
      SkippedDependsOnColumns(d[..|d| - 1], e, e', keys, keys', columns);
    }
  }

  /** With every masked column among the known ones, the masks afterwards are exactly those desired
      for known columns. */
  lemma MasksReachDesired(rows: seq<MaskRow>, desired: Entries<string, string>, keys: set<string>,
                          columns: Option<seq<string>>, after: seq<MaskRow>, k: string)
    requires ChangesFor(rows, desired, keys, columns).errors == []
    requires Applied(rows, ChangesFor(rows, desired, keys, columns), after)
    requires forall n :: n in View(rows) ==> IsKnown(columns, n)
    ensures var d := AsMap(DesiredByName(desired));
            && (k in View(after) <==> k in d && IsKnown(columns, k))
            && (k in View(after) ==> View(after)[k] == NormalizeFunction(d[k].1))
  {
    hide NormalizeName, NormalizeFunction, Dropped, ExistingByName, DesiredByName, IsKnown;
    var e, d := ExistingByName(rows), DesiredByName(desired);
    var c := ChangesFor(rows, desired, keys, columns);
    if k in View(after) {
      OnlyDesiredRemain(rows, desired, keys, columns, after, k);
    }
    if k in AsMap(d) {
      var i := MapHasEntry(d, k);
      if IsKnown(columns, k) {
        AppliedView(rows, desired, keys, columns, after, i);
      } else {
        UnknownStaysUnmasked(rows, desired, keys, columns, k);
      }
    }
  }

  lemma UnknownStaysUnmasked(rows: seq<MaskRow>, desired: Entries<string, string>, keys: set<string>,
                             columns: Option<seq<string>>, k: string)
    requires !IsKnown(columns, k)
    ensures var c := ChangesFor(rows, desired, keys, columns); k !in PairMap(c.adds + c.changes)
  {
    hide NormalizeName, NormalizeFunction, Sorted, Dropped, ExistingByName, IsKnown, IsIndexKey;
    var e, d := ExistingByName(rows), DesiredByName(desired);
    var c := ChangesFor(rows, desired, keys, columns);
    var pairs := c.adds + c.changes;
    if k in PairMap(pairs) {
      PairMapKey(pairs, k);
      var j :| 0 <= j < |pairs| && NormalizeName(pairs[j].0) == k;
      assert pairs[j] in c.adds || pairs[j] in c.changes;
      SortedMembers(d, e, keys, columns, Add, pairs[j]);
      SortedMembers(d, e, keys, columns, Change, pairs[j]);
      DesiredShape(desired);
      assert false;
    }
  }

  // ------------------------------------------------------------- the applying macro

  datatype Statement = AddMask(column: string, fn: string) | AlterMask(column: string, fn: string) | DropMask(column: string)

  /** What the macro knows of the relation and the server. */
  datatype Target = Target(isTable: bool, majorVersion: Option<int>, rows: seq<MaskRow>, columns: seq<string>,
                           keys: set<string>, unmaskable: seq<string>)

  datatype Outcome = Run(statements: seq<Statement>) | TooOld | Unmaskable(columns: seq<string>) | OnIndexKey(columns: seq<string>)

  predicate InLower(names: seq<string>, name: string) {
    exists i :: 0 <= i < |names| && Lower(names[i]) == Lower(name)
  }

  function Adds(pairs: seq<(string, string)>): (r: seq<Statement>)
    ensures |r| == |pairs| && forall i :: 0 <= i < |r| ==> r[i] == AddMask(pairs[i].0, pairs[i].1)
  {
    seq(|pairs|, i requires 0 <= i < |pairs| => AddMask(pairs[i].0, pairs[i].1))
  }

  function Alters(pairs: seq<(string, string)>): (r: seq<Statement>)
    ensures |r| == |pairs| && forall i :: 0 <= i < |r| ==> r[i] == AlterMask(pairs[i].0, pairs[i].1)
  {
    seq(|pairs|, i requires 0 <= i < |pairs| => AlterMask(pairs[i].0, pairs[i].1))
  }

  function Drops(names: seq<string>): (r: seq<Statement>)
    ensures |r| == |names| && forall i :: 0 <= i < |r| ==> r[i] == DropMask(names[i])
  {
    seq(|names|, i requires 0 <= i < |names| => DropMask(names[i]))
  }

  /** The columns to mask that cannot carry a mask. */
  function UnmaskableOf(pairs: seq<(string, string)>, unmaskable: seq<string>): seq<string> {
    if pairs == [] then []
    else
      var last := pairs[|pairs| - 1];
      UnmaskableOf(pairs[..|pairs| - 1], unmaskable) + (if InLower(unmaskable, last.0) then [last.0] else [])
  }

  /** What `sqlserver__apply_masks` does. */
  function MaskPlan(t: Target, desired: Entries<string, string>): Outcome {
    if desired == [] || !t.isTable then Run([])
    else if t.majorVersion.Some? && t.majorVersion.value < 13 then TooOld
    else
      var c := ChangesFor(t.rows, desired, t.keys, Some(t.columns));
      var hits := UnmaskableOf(c.adds + c.changes, t.unmaskable);
      if hits != [] then Unmaskable(hits)
      else if c.errors != [] then OnIndexKey(c.errors)
      else Run(Adds(c.adds) + Alters(c.changes) + Drops(c.drops))
  }

  /** The statement loops of the macro. */
  method BuildStatements(c: Changes) returns (statements: seq<Statement>)
    ensures statements == Adds(c.adds) + Alters(c.changes) + Drops(c.drops)
  {
    statements := [];
    for i := 0 to |c.adds|
      invariant statements == Adds(c.adds[..i])
    {
      statements := statements + [AddMask(c.adds[i].0, c.adds[i].1)];
    }
    assert c.adds[..|c.adds|] == c.adds;
    for i := 0 to |c.changes|
      invariant statements == Adds(c.adds) + Alters(c.changes[..i])
    {
      assert Alters(c.changes[..i + 1]) == Alters(c.changes[..i]) + [AlterMask(c.changes[i].0, c.changes[i].1)];
      statements := statements + [AlterMask(c.changes[i].0, c.changes[i].1)];
    }
    assert c.changes[..|c.changes|] == c.changes;
    for i := 0 to |c.drops|
      invariant statements == Adds(c.adds) + Alters(c.changes) + Drops(c.drops[..i])
    {
      assert Drops(c.drops[..i + 1]) == Drops(c.drops[..i]) + [DropMask(c.drops[i])];
      statements := statements + [DropMask(c.drops[i])];
    }
    assert c.drops[..|c.drops|] == c.drops;
  }

  /** `sqlserver__apply_masks`. */
  method ApplyMasks(t: Target, desired: Entries<string, string>) returns (r: Outcome)
    ensures r == MaskPlan(t, desired)
  {
    hide ChangesFor, InLower;
    if desired == [] || !t.isTable {
      return Run([]);
    }
    if t.majorVersion.Some? && t.majorVersion.value < 13 {
      return TooOld;
    }
    var c := MaskChanges(t.rows, desired, t.keys, Some(t.columns));
    var pairs, hits := c.adds + c.changes, [];
    for i := 0 to |pairs|
      invariant hits == UnmaskableOf(pairs[..i], t.unmaskable)
    {
      assert pairs[..i + 1][..i] == pairs[..i];
      if InLower(t.unmaskable, pairs[i].0) {
        hits := hits + [pairs[i].0];
      }
    }
    assert pairs[..|pairs|] == pairs;
    if hits != [] {
      return Unmaskable(hits);
    }
    if c.errors != [] {
      return OnIndexKey(c.errors);
    }
    var statements := BuildStatements(c);
    r := Run(statements);
  }

  lemma {:induction false} UnmaskableMembers(pairs: seq<(string, string)>, unmaskable: seq<string>, column: string)
    ensures column in UnmaskableOf(pairs, unmaskable)
            <==> exists i :: 0 <= i < |pairs| && pairs[i].0 == column
                             && exists j :: 0 <= j < |unmaskable| && Lower(unmaskable[j]) == Lower(column)
  {
    hide Lower;
    if pairs != [] {
      var init := pairs[..|pairs| - 1];
      UnmaskableMembers(init, unmaskable, column);
      assert forall i :: 0 <= i < |init| ==> init[i] == pairs[i];
    }
  }

  /** Each statement fits what the server has: a mask is added to a known column that has none and is no index
      key, altered where there is another one, and dropped where there is one that nobody wants. */
  lemma StatementsFit(t: Target, desired: Entries<string, string>, st: Statement)
    requires MaskPlan(t, desired).Run? && st in MaskPlan(t, desired).statements
    ensures var live, n := AsMap(ExistingByName(t.rows)), NormalizeName(st.column);
            match st
            case AddMask(column, fn) =>
              && (column, fn) in desired && n !in live
              && (exists i :: 0 <= i < |t.columns| && NormalizeName(t.columns[i]) == n)
              && forall k :: k in t.keys ==> NormalizeName(k) != n
            case AlterMask(column, fn) =>
              (column, fn) in desired && n in live && NormalizeFunction(live[n]) != NormalizeFunction(fn)
            case DropMask(column) =>
              n in live && forall i :: 0 <= i < |desired| ==> NormalizeName(desired[i].0) != n
  {
    hide NormalizeName, NormalizeFunction, Sorted, Dropped, ExistingByName, DesiredByName, AsMap, VerdictOf, UnmaskableOf;
    var d, e := DesiredByName(desired), ExistingByName(t.rows);
    var columns := Some(t.columns);
    var c := ChangesFor(t.rows, desired, t.keys, columns);
    match st {
      case AddMask(column, fn) =>
        assert (column, fn) in c.adds;
        SortedMembers(d, e, t.keys, columns, Add, (column, fn));
        DesiredShape(desired);
        var i :| 0 <= i < |d| && d[i].1 == (column, fn);
        EntryInMap(d, i);
        DesiredFrom(desired, d[i].0);
      case AlterMask(column, fn) =>
        assert (column, fn) in c.changes;
        SortedMembers(d, e, t.keys, columns, Change, (column, fn));
        DesiredShape(desired);
        var i :| 0 <= i < |d| && d[i].1 == (column, fn);
        EntryInMap(d, i);
        DesiredFrom(desired, d[i].0);
      case DropMask(column) =>
        assert column in c.drops;
        var j :| 0 <= j < |c.drops| && c.drops[j] == column;
        assert NormalizeName(c.drops[j]) in NormSet(c.drops);
        DropsAreUndesired(t.rows, desired, NormalizeName(column));
        DesiredKeys(desired, NormalizeName(column));
    }
  }

  lemma {:induction false} DesiredFrom(desired: Entries<string, string>, n: string)
    requires n in AsMap(DesiredByName(desired))
    ensures AsMap(DesiredByName(desired))[n] in desired
  {
    hide NormalizeName, AsMap;
    if desired == [] {
      NothingWanted();
    } else {
      var last := desired[|desired| - 1];
      if n != NormalizeName(last.0) {
        DesiredFrom(desired[..|desired| - 1], n);
      }
    }
  }

  lemma {:induction false} DesiredKeys(desired: Entries<string, string>, n: string)
    ensures n in AsMap(DesiredByName(desired)) <==> exists i :: 0 <= i < |desired| && NormalizeName(desired[i].0) == n
  {
    hide NormalizeName, AsMap;
    if desired == [] {
      NothingWanted();
    } else {
      var init := desired[..|desired| - 1];
      DesiredKeys(init, n);
      assert forall i :: 0 <= i < |init| ==> init[i] == desired[i];
    }
  }

  /** Without a config, or on anything but a table, the macro does nothing. Otherwise it raises, in this order:
      on a server before 2016; about the columns to set that cannot carry a mask; about the known columns to mask
      first that are index keys. */
  lemma MaskPlanRaises(t: Target, desired: Entries<string, string>)
    ensures desired == [] || !t.isTable ==> MaskPlan(t, desired) == Run([])
    ensures desired != [] && t.isTable ==>
            var r, c := MaskPlan(t, desired), ChangesFor(t.rows, desired, t.keys, Some(t.columns));
            && (r.TooOld? <==> t.majorVersion.Some? && t.majorVersion.value <= 12)
            && (r.Unmaskable? <==>
                  && !r.TooOld?
                  && exists i, j :: 0 <= i < |c.adds + c.changes| && 0 <= j < |t.unmaskable|
                                    && Lower((c.adds + c.changes)[i].0) == Lower(t.unmaskable[j]))
            && (r.OnIndexKey? <==> !r.TooOld? && !r.Unmaskable? && c.errors != [])
            && (r.OnIndexKey? ==> r.columns == c.errors)
  {
    hide ChangesFor, UnmaskableOf, Lower;
    if desired == [] || !t.isTable {
      return;
    }
    var c := ChangesFor(t.rows, desired, t.keys, Some(t.columns));
    var pairs := c.adds + c.changes;
    var hits := UnmaskableOf(pairs, t.unmaskable);
    if hits != [] {
      UnmaskableMembers(pairs, t.unmaskable, hits[0]);
      assert hits[0] in hits;
    }
    forall i, j | 0 <= i < |pairs| && 0 <= j < |t.unmaskable| && Lower(pairs[i].0) == Lower(t.unmaskable[j])
      ensures hits != []
    {
      UnmaskableMembers(pairs, t.unmaskable, pairs[i].0);
    }
  }

  /** The masks of a relation after one statement. */
  function Execute(view: map<string, string>, st: Statement): map<string, string> {
    match st
    case AddMask(column, fn) => view[NormalizeName(column) := NormalizeFunction(fn)]
    case AlterMask(column, fn) => view[NormalizeName(column) := NormalizeFunction(fn)]
    case DropMask(column) => view - {NormalizeName(column)}
  }

  function ExecuteAll(view: map<string, string>, statements: seq<Statement>): map<string, string> {
    if statements == [] then view
    else Execute(ExecuteAll(view, statements[..|statements| - 1]), statements[|statements| - 1])
  }

  lemma {:induction false} ExecuteConcat(view: map<string, string>, x: seq<Statement>, y: seq<Statement>)
    ensures ExecuteAll(view, x + y) == ExecuteAll(ExecuteAll(view, x), y)
  {
    hide Execute;
    if y == [] {
      assert x + y == x;
    } else {
      assert (x + y)[..|x + y| - 1] == x + y[..|y| - 1];
      ExecuteConcat(view, x, y[..|y| - 1]);
    }
  }

  lemma {:induction false} SetsMasks(view: map<string, string>, pairs: seq<(string, string)>, adding: bool)
    ensures ExecuteAll(view, if adding then Adds(pairs) else Alters(pairs)) == view + PairMap(pairs)
  {
    hide NormalizeName, NormalizeFunction;
    var statements := if adding then Adds(pairs) else Alters(pairs);
    if pairs != [] {
      var init, last := pairs[..|pairs| - 1], pairs[|pairs| - 1];
      SetsMasks(view, init, adding);
      assert statements[..|statements| - 1] == if adding then Adds(init) else Alters(init);
      assert view + PairMap(pairs) == (view + PairMap(init))[NormalizeName(last.0) := NormalizeFunction(last.1)];
    }
  }

  lemma {:induction false} DropsMasks(view: map<string, string>, names: seq<string>)
    ensures ExecuteAll(view, Drops(names)) == view - NormSet(names)
  {
    hide NormalizeName;
    if names == [] {
      assert NormSet(names) == {};
    } else {
      var init, last := names[..|names| - 1], names[|names| - 1];
      DropsMasks(view, init);
      assert Drops(names)[..|names| - 1] == Drops(init);
      NormSetAppend(init, last);
      assert init + [last] == names;
    }
  }

  lemma NormSetAppend(names: seq<string>, last: string)
    ensures NormSet(names + [last]) == NormSet(names) + {NormalizeName(last)}
  {
    hide NormalizeName;
    var all := names + [last];
    assert all[|names|] == last;
    forall i | 0 <= i < |names| ensures NormalizeName(names[i]) in NormSet(all) {
      assert all[i] == names[i];
    }
  }

  lemma {:induction false} PairMapConcat(x: seq<(string, string)>, y: seq<(string, string)>)
    ensures PairMap(x + y) == PairMap(x) + PairMap(y)
  {
    hide NormalizeName, NormalizeFunction;
    if y == [] {
      assert x + y == x;
    } else {
      assert (x + y)[..|x + y| - 1] == x + y[..|y| - 1];
      PairMapConcat(x, y[..|y| - 1]);
    }
  }

  /** The statements do what the diff says: their order matters to no column. */
  lemma StatementsApply(rows: seq<MaskRow>, desired: Entries<string, string>, keys: set<string>, columns: Option<seq<string>>)
    ensures var c := ChangesFor(rows, desired, keys, columns);
            ExecuteAll(View(rows), Adds(c.adds) + Alters(c.changes) + Drops(c.drops))
            == (View(rows) - NormSet(c.drops)) + PairMap(c.adds + c.changes)
  {
    hide NormalizeName, NormalizeFunction, Sorted, Dropped, ExistingByName, DesiredByName, PairMap, NormSet, Adds, Alters, Drops,
      ExecuteAll, View;
    var c, view := ChangesFor(rows, desired, keys, columns), View(rows);
    ExecuteConcat(view, Adds(c.adds) + Alters(c.changes), Drops(c.drops));
    ExecuteConcat(view, Adds(c.adds), Alters(c.changes));
    SetsMasks(view, c.adds, true);
    SetsMasks(view + PairMap(c.adds), c.changes, false);
    PairMapConcat(c.adds, c.changes);
    DropsMasks(view + PairMap(c.adds) + PairMap(c.changes), c.drops);
    var set_ := PairMap(c.adds + c.changes);
    assert view + PairMap(c.adds) + PairMap(c.changes) == view + set_;
    forall k | k in set_ ensures k !in NormSet(c.drops) {
      SetIsDesired(rows, desired, keys, columns, k);
      DropsAreUndesired(rows, desired, k);
    }
    assert (view + set_) - NormSet(c.drops) == (view - NormSet(c.drops)) + set_;
  }

  lemma SetIsDesired(rows: seq<MaskRow>, desired: Entries<string, string>, keys: set<string>,
                     columns: Option<seq<string>>, k: string)
    requires var c := ChangesFor(rows, desired, keys, columns); k in PairMap(c.adds + c.changes)
    ensures k in AsMap(DesiredByName(desired))
  {
    hide NormalizeName, NormalizeFunction, Sorted, Dropped, ExistingByName, AsMap;
    var e, d := ExistingByName(rows), DesiredByName(desired);
    var c := ChangesFor(rows, desired, keys, columns);
    var pairs := c.adds + c.changes;
    PairMapKey(pairs, k);
    var j :| 0 <= j < |pairs| && NormalizeName(pairs[j].0) == k;
    assert pairs[j] in c.adds || pairs[j] in c.changes;
    SortedMembers(d, e, keys, columns, Add, pairs[j]);
    SortedMembers(d, e, keys, columns, Change, pairs[j]);
    DesiredShape(desired);
    var n :| 0 <= n < |d| && d[n].1 == pairs[j];
    EntryInMap(d, n);
  }

  /** A masks config is reached: what is masked afterwards is what it asks for on known columns. */
  ghost predicate Reached(view: map<string, string>, desired: Entries<string, string>, columns: seq<string>) {
    var d := AsMap(DesiredByName(desired));
    forall k :: (k in view <==> k in d && IsKnown(Some(columns), k))
                && (k in view && k in d ==> view[k] == NormalizeFunction(d[k].1))
  }

  /** On a table whose masked columns are known, a run of the macro that does not raise reaches the config
      exactly when the config is not empty or nothing was masked: an emptied config drops no mask. */
  lemma ApplyMasksReachesIff(t: Target, desired: Entries<string, string>, after: seq<MaskRow>)
    requires t.isTable && MaskPlan(t, desired).Run?
    requires forall n :: n in View(t.rows) ==> IsKnown(Some(t.columns), n)
    requires View(after) == ExecuteAll(View(t.rows), MaskPlan(t, desired).statements)
    ensures Reached(View(after), desired, t.columns) <==> desired != [] || View(t.rows) == map[]
  {
    hide View, IsKnown, NormalizeFunction, ChangesFor, NormalizeName, UnmaskableOf;
    if desired == [] {
      NothingWanted();
      if View(t.rows) != map[] {
        var k :| k in View(t.rows);
        assert k in View(after);
      }
    } else {
      StatementsApply(t.rows, desired, t.keys, Some(t.columns));
      forall k
        ensures (k in View(after) <==> k in AsMap(DesiredByName(desired)) && IsKnown(Some(t.columns), k))
                && (k in View(after) && k in AsMap(DesiredByName(desired)) ==>
                      View(after)[k] == NormalizeFunction(AsMap(DesiredByName(desired))[k].1))
      {
        MasksReachDesired(t.rows, desired, t.keys, Some(t.columns), after, k);
      }
    }
  }

  lemma NothingWanted()
    ensures AsMap(DesiredByName([])) == map[]
  {
  }
}
