/** Connection strings (`sqlserver_helpers.py`): splitting, value escaping, and the sanitizer
    that redacts credentials before a string is logged. */
module ConnectionString {
  import opened Text

  // ---------------------------------------------------------------- splitting

  /** Where the first segment ends: at a `;` outside braces, or at the end. A `{` opens braces
      only when some `}` follows; inside, `}}` is a literal brace. */
  function Cut(s: string, inBraces: bool): (n: nat)
    ensures n <= |s|
  {
    if s == [] then 0
    else if s[0] == ';' && !inBraces then 0
    else if s[0] == '{' && !inBraces && '}' in s[1..] then 1 + Cut(s[1..], true)
    else if s[0] == '}' && inBraces then
      if |s| > 1 && s[1] == '}' then 2 + Cut(s[2..], true) else 1 + Cut(s[1..], false)
    else 1 + Cut(s[1..], inBraces)
  }

  /** A segment is stripped, and dropped when nothing is left. */
  function Segment(raw: string): seq<string> {
    if Strip(raw) == "" then [] else [Strip(raw)]
  }

  /** The parts of a connection string. */
  function Parts(s: string): seq<string>
    decreases |s|
  {
    var n := Cut(s, false);
    Segment(s[..n]) + (if n == |s| then [] else Parts(s[n + 1..]))
  }

  /** The scan resumed at `index`, with `current` collected so far. */
  function PartsFrom(s: string, index: nat, current: string, inBraces: bool): seq<string>
    requires index <= |s|
    decreases |s| - index
  {
    if index == |s| then Segment(current)
    else
      var c := s[index];
      if c == ';' && !inBraces then Segment(current) + PartsFrom(s, index + 1, "", false)
      else if c == '{' && !inBraces && '}' in s[index + 1..] then
        PartsFrom(s, index + 1, current + [c], true)
      else if c == '}' && inBraces then
        if index + 1 < |s| && s[index + 1] == '}' then
          PartsFrom(s, index + 2, current + [c] + ['}'], true)
        else PartsFrom(s, index + 1, current + [c], false)
      else PartsFrom(s, index + 1, current + [c], inBraces)
  }

  /** The parts of a text whose first segment, collected as `segment`, ends at `n`. */
  function PartsCutAt(segment: string, s: string, n: nat): seq<string>
    requires n <= |s|
  {
    Segment(segment) + (if n == |s| then [] else Parts(s[n + 1..]))
  }

  lemma PartsCut(s: string)
    ensures Parts(s) == PartsCutAt(s[..Cut(s, false)], s, Cut(s, false))
  {
  }

  /** One step of the scan: how many characters it takes, and the state it leaves. */
  function Taken(s: string, index: nat, inBraces: bool): (nat, bool)
    requires index < |s|
  {
    var c := s[index];
    if c == '{' && !inBraces && '}' in s[index + 1..] then (1, true)
    else if c == '}' && inBraces then
      if index + 1 < |s| && s[index + 1] == '}' then (2, true) else (1, false)
    else (1, inBraces)
  }

  lemma CutStep(s: string, index: nat, inBraces: bool)
    requires index < |s|
    ensures var (k, b) := Taken(s, index, inBraces);
            && index + k <= |s|
            && Cut(s[index..], inBraces) == if s[index] == ';' && !inBraces then 0
                                            else k + Cut(s[index + k..], b)
  {
  }

  lemma PartsCutShift(segment: string, s: string, index: nat, n: nat)
    requires index + n <= |s|
    ensures PartsCutAt(segment, s[index..], n) == PartsCutAt(segment, s, index + n)
  {
  }

  /** The scan resumed at `index`, said in terms of the segment it ends first. */
  predicate ResumesAt(s: string, index: nat, current: string, inBraces: bool, e: nat)
    requires index <= |s|
  {
    index <= e <= |s| && PartsFrom(s, index, current, inBraces) == PartsCutAt(current + s[index..e], s, e)
  }

  lemma {:induction false} PartsFromCut(s: string, index: nat, current: string, inBraces: bool)
    requires index <= |s|
    ensures ResumesAt(s, index, current, inBraces, index + Cut(s[index..], inBraces))
    decreases |s| - index, 0
  {
    hide Parts, Cut, Segment;
    if index == |s| {
      assert current + s[index..index] == current;
    } else {
      CutStep(s, index, inBraces);
      if s[index] == ';' && !inBraces {
        PartsFromParts(s, index + 1);
        assert current + s[index..index] == current;
      } else {
        var k, b := Taken(s, index, inBraces).0, Taken(s, index, inBraces).1;
        PartsFromCut(s, index + k, current + s[index..index + k], b);
        ResumesEarlier(s, index, current, inBraces, index + k + Cut(s[index + k..], b));
      }
    }
  }

  lemma ResumesEarlier(s: string, index: nat, current: string, inBraces: bool, e: nat)
    requires index < |s| && !(s[index] == ';' && !inBraces)
    requires var (k, b) := Taken(s, index, inBraces);
             index + k <= |s| && ResumesAt(s, index + k, current + s[index..index + k], b, e)
    ensures ResumesAt(s, index, current, inBraces, e)
  {
    TakenStep(s, index, current, inBraces);
    SliceJoin(s, current, index, index + Taken(s, index, inBraces).0, e);
  }

  lemma SliceJoin(s: string, current: string, i: nat, j: nat, e: nat)
    requires i <= j <= e <= |s|
    ensures current + s[i..j] + s[j..e] == current + s[i..e]
  {
  }

  lemma TakenStep(s: string, index: nat, current: string, inBraces: bool)
    requires index < |s| && !(s[index] == ';' && !inBraces)
    ensures var (k, b) := Taken(s, index, inBraces);
            && index + k <= |s|
            && PartsFrom(s, index, current, inBraces) == PartsFrom(s, index + k, current + s[index..index + k], b)
  {
    var (k, b) := Taken(s, index, inBraces);
    if k == 1 {
      assert s[index..index + 1] == [s[index]];
    } else {
      assert current + s[index..index + 2] == current + [s[index]] + ['}'];
    }
  }

  lemma PartsFromParts(s: string, index: nat)
    requires index <= |s|
    ensures PartsFrom(s, index, "", false) == Parts(s[index..])
    decreases |s| - index, 1
  {
    hide *;
    PartsFromCut(s, index, "", false);
    PartsCut(s[index..]);
    ResumesAsParts(s, index, Cut(s[index..], false));
  }

  lemma ResumesAsParts(s: string, index: nat, n: nat)
    requires index + n <= |s| && ResumesAt(s, index, "", false, index + n)
    ensures PartsFrom(s, index, "", false) == PartsCutAt(s[index..][..n], s[index..], n)
  {
    assert "" + s[index..index + n] == s[index..][..n];
    PartsCutShift(s[index..][..n], s, index, n);
  }

  /** `split_connection_string_parts`. */
  method SplitConnectionStringParts(connectionString: string) returns (parts: seq<string>)
    ensures parts == Parts(connectionString)
  {
    parts := [];
    var current, inBraces, index := "", false, 0;
    while index < |connectionString|
      invariant 0 <= index <= |connectionString|
      invariant PartsFrom(connectionString, 0, "", false)
             == parts + PartsFrom(connectionString, index, current, inBraces)
    {
      var c := connectionString[index];
      if c == ';' && !inBraces {
        Assoc(parts, Segment(current), PartsFrom(connectionString, index + 1, "", false));
        var segment := Strip(current);
        if segment != "" {
          parts := parts + [segment];
        }
        current := "";
      } else {
        current := current + [c];
        if c == '{' && !inBraces && '}' in connectionString[index + 1..] {
          inBraces := true;
        } else if c == '}' && inBraces {
          if index + 1 < |connectionString| && connectionString[index + 1] == '}' {
            current := current + ['}'];
            index := index + 1;
          } else {
            inBraces := false;
          }
        }
      }
      index := index + 1;
    }
    var segment := Strip(current);
    if segment != "" {
      parts := parts + [segment];
    }
    PartsFromParts(connectionString, 0);
    assert connectionString[0..] == connectionString;
  }

  // ------------------------------------------------------- whole parts and joins

  /** `p` is one segment, braces closed, when a `;` follows it; `more` says whether a `}`
      occurs after that. */
  predicate Whole(p: string, inBraces: bool, more: bool) {
    if p == [] then !inBraces
    else if p[0] == ';' && !inBraces then false
    else if p[0] == '{' && !inBraces then
      if '}' in p[1..] then Whole(p[1..], true, more) else !more && Whole(p[1..], false, more)
    else if p[0] == '}' && inBraces then
      if |p| > 1 && p[1] == '}' then Whole(p[2..], true, more) else Whole(p[1..], false, more)
    else Whole(p[1..], inBraces, more)
  }

  lemma {:induction false} CutAfterWhole(p: string, inBraces: bool, rest: string)
    requires Whole(p, inBraces, '}' in rest)
    ensures Cut(p + ";" + rest, inBraces) == |p|
  {
    var s := p + ";" + rest;
    if p != [] {
      assert s[1..] == p[1..] + ";" + rest;
      if p[0] == '{' && !inBraces {
        assert '}' in s[1..] <==> '}' in p[1..] || '}' in rest;
        CutAfterWhole(p[1..], '}' in p[1..], rest);
      } else if p[0] == '}' && inBraces {
        if |p| > 1 && p[1] == '}' {
          assert s[2..] == p[2..] + ";" + rest;
          CutAfterWhole(p[2..], true, rest);
        } else {
          CutAfterWhole(p[1..], false, rest);
        }
      } else {
        CutAfterWhole(p[1..], inBraces, rest);
      }
    }
  }

  lemma {:induction false} WholeCloses(p: string, more: bool)
    requires Whole(p, true, more)
    ensures '}' in p
  {
    if p[0] != '}' {
      WholeCloses(p[1..], more);
    }
  }

  lemma {:induction false} CutIsWhole(s: string, inBraces: bool)
    requires Cut(s, inBraces) < |s|
    ensures var n := Cut(s, inBraces);
            s[n] == ';' && Whole(s[..n], inBraces, '}' in s[n + 1..])
  {
    var n := Cut(s, inBraces);
    if n > 0 {
      var p := s[..n];
      var k := if s[0] == '}' && inBraces && |s| > 1 && s[1] == '}' then 2 else 1;
      var b := if k == 2 then true else if s[0] == '{' && !inBraces && '}' in s[1..] then true
               else if s[0] == '}' && inBraces then false else inBraces;
      CutIsWhole(s[k..], b);
      assert p[k..] == s[k..][..n - k];
      assert s[k..][n - k + 1..] == s[n + 1..];
      if s[0] == '{' && !inBraces {
        if '}' in s[1..] {
          WholeCloses(p[1..], '}' in s[n + 1..]);
        } else {
          assert forall c :: c in p[1..] ==> c in s[1..];
          assert forall c :: c in s[n + 1..] ==> c in s[1..];
        }
      }
    }
  }

  lemma {:induction false} WholeWithoutMore(p: string, inBraces: bool)
    requires Whole(p, inBraces, true)
    ensures Whole(p, inBraces, false)
  {
    if p != [] {
      if p[0] == '{' && !inBraces {
        WholeWithoutMore(p[1..], true);
      } else if p[0] == '}' && inBraces {
        if |p| > 1 && p[1] == '}' {
          WholeWithoutMore(p[2..], true);
        } else {
          WholeWithoutMore(p[1..], false);
        }
      } else {
        WholeWithoutMore(p[1..], inBraces);
      }
    }
  }

  lemma {:induction false} WholeIsCut(p: string, inBraces: bool, more: bool)
    requires Whole(p, inBraces, more)
    ensures Cut(p, inBraces) == |p|
  {
    if p != [] {
      if p[0] == '{' && !inBraces {
        WholeIsCut(p[1..], '}' in p[1..], more);
      } else if p[0] == '}' && inBraces {
        if |p| > 1 && p[1] == '}' {
          WholeIsCut(p[2..], true, more);
        } else {
          WholeIsCut(p[1..], false, more);
        }
      } else {
        WholeIsCut(p[1..], inBraces, more);
      }
    }
  }

  // Stripping a segment does not change how it is scanned.

  lemma SpaceIsPlain(c: char)
    requires IsSpace(c)
    ensures c != ';' && c != '{' && c != '}'
  {
  }

  lemma {:induction false} DropLeft(w: string, p: string, more: bool)
    requires AllSpace(w)
    ensures Whole(w + p, false, more) <==> Whole(p, false, more)
    ensures Cut(w + p, false) == |w| + Cut(p, false)
  {
    if w == [] {
      assert w + p == p;
    } else {
      SpaceIsPlain(w[0]);
      assert (w + p)[1..] == w[1..] + p;
      assert AllSpace(w[1..]);
      DropLeft(w[1..], p, more);
    }
  }

  lemma {:induction false} SpaceOnly(w: string, inBraces: bool, more: bool)
    requires AllSpace(w)
    ensures Whole(w, inBraces, more) <==> !inBraces
  {
    if w != [] {
      SpaceIsPlain(w[0]);
      assert AllSpace(w[1..]);
      SpaceOnly(w[1..], inBraces, more);
    }
  }

  lemma BraceBefore(p: string, w: string)
    requires AllSpace(w)
    ensures '}' in p + w <==> '}' in p
  {
  }

  lemma {:induction false} DropRight(p: string, w: string, inBraces: bool, more: bool)
    requires AllSpace(w)
    ensures Whole(p + w, inBraces, more) <==> Whole(p, inBraces, more)
  {
    var s := p + w;
    if p == [] {
      assert s == w;
      SpaceOnly(w, inBraces, more);
    } else {
      assert s[1..] == p[1..] + w;
      BraceBefore(p[1..], w);
      DropRight(p[1..], w, false, more);
      DropRight(p[1..], w, true, more);
      if p[0] == '}' && inBraces {
        if |p| > 1 {
          assert s[1] == p[1];
          assert p[1] == '}' ==> s[2..] == p[2..] + w;
          DropRight(p[2..], w, true, more);
        } else if w != [] {
          SpaceIsPlain(w[0]);
          assert s[1] == w[0];
        }
      }
    }
  }

  lemma {:induction false} DropRightCut(p: string, w: string, inBraces: bool)
    requires AllSpace(w) && Cut(p + w, inBraces) == |p + w|
    ensures Cut(p, inBraces) == |p|
  {
    var s := p + w;
    if p != [] {
      assert s[1..] == p[1..] + w;
      BraceBefore(p[1..], w);
      if p[0] == '{' && !inBraces && '}' in p[1..] {
        DropRightCut(p[1..], w, true);
      } else if p[0] == '}' && inBraces {
        if |p| > 1 && p[1] == '}' {
          assert s[2..] == p[2..] + w;
          DropRightCut(p[2..], w, true);
        } else {
          if |p| == 1 && w != [] {
            SpaceIsPlain(w[0]);
            assert s[1] == w[0];
          }
          DropRightCut(p[1..], w, false);
        }
      } else {
        DropRightCut(p[1..], w, inBraces);
      }
    }
  }

  lemma WholeStripped(p: string, more: bool)
    ensures Whole(Strip(p), false, more) <==> Whole(p, false, more)
    ensures Cut(p, false) == |p| ==> Cut(Strip(p), false) == |Strip(p)|
  {
    var left, right := StripDrops(p);
    assert p == left + (Strip(p) + right);
    DropLeft(left, Strip(p) + right, more);
    DropRight(Strip(p), right, false, more);
    if Cut(p, false) == |p| {
      DropRightCut(Strip(p), right, false);
    }
  }

  /** Parts as the splitter leaves them: nonempty, stripped, each whole before the next. */
  predicate Chain(parts: seq<string>) {
    parts == [] ||
    (&& parts[0] != "" && Stripped(parts[0])
     && Chain(parts[1..])
     && if |parts| == 1 then Cut(parts[0], false) == |parts[0]|
        else Whole(parts[0], false, '}' in Join(parts[1..], ";")))
  }

  /** Joining such parts and splitting gives them back. */
  lemma {:induction false} PartsOfChain(parts: seq<string>)
    requires Chain(parts)
    ensures Parts(Join(parts, ";")) == parts
  {
    hide Strip, Cut, Whole;
    if parts != [] {
      var p := parts[0];
      StripFixed(p);
      if |parts| == 1 {
        assert p[..|p|] == p;
        assert [p] + [] == parts;
      } else {
        var rest := Join(parts[1..], ";");
        PartsOfChain(parts[1..]);
        CutAfterWhole(p, false, rest);
        var s := p + ";" + rest;
        assert s[..|p|] == p && s[|p| + 1..] == rest;
        assert [p] + parts[1..] == parts;
      }
    }
  }

  lemma {:induction false} BraceInJoin(parts: seq<string>)
    ensures '}' in Join(parts, ";") <==> exists i :: 0 <= i < |parts| && '}' in parts[i]
  {
    if |parts| > 1 {
      BraceInJoin(parts[1..]);
      if '}' in Join(parts[1..], ";") {
        var i :| 0 <= i < |parts[1..]| && '}' in parts[1..][i];
        assert '}' in parts[i + 1];
      }
      forall i | 0 <= i < |parts| && '}' in parts[i] ensures '}' in Join(parts, ";") {
        if i > 0 {
          assert '}' in parts[1..][i - 1];
        }
      }
    } else if |parts| == 1 {
      assert '}' in parts[0] <==> exists i :: 0 <= i < |parts| && '}' in parts[i];
    }
  }

  lemma StripSubset(s: string, c: char)
    requires c in Strip(s)
    ensures c in s
  {
    var left, right := StripDrops(s);
  }

  lemma {:induction false} BraceFromParts(s: string, i: nat)
    requires i < |Parts(s)| && '}' in Parts(s)[i]
    ensures '}' in s
    decreases |s|
  {
    hide Strip;
    var n := Cut(s, false);
    var seg := Segment(s[..n]);
    if i < |seg| {
      StripSubset(s[..n], '}');
    } else {
      BraceFromParts(s[n + 1..], i - |seg|);
    }
  }

  /** Splitting always yields such parts. */
  lemma {:induction false} ChainOfParts(s: string)
    ensures Chain(Parts(s))
    decreases |s|
  {
    var n := Cut(s, false);
    var p := s[..n];
    StripIdempotent(p);
    if n == |s| {
      assert p == s;
      WholeStripped(s, false);
      if Strip(p) != "" {
        assert Parts(s) == [Strip(p)];
        assert [Strip(p)][1..] == [];
      }
    } else {
      var tail := Parts(s[n + 1..]);
      ChainOfParts(s[n + 1..]);
      CutIsWhole(s, false);
      var more := '}' in s[n + 1..];
      WholeStripped(p, more);
      if Strip(p) == "" {
        assert Parts(s) == tail;
      } else {
        if '}' in Join(tail, ";") {
          BraceInJoin(tail);
          var i :| 0 <= i < |tail| && '}' in tail[i];
          BraceFromParts(s[n + 1..], i);
        } else if more {
          WholeWithoutMore(Strip(p), false);
        }
        WholeIsCut(Strip(p), false, more);
        assert Parts(s) == [Strip(p)] + tail;
        assert ([Strip(p)] + tail)[1..] == tail;
      }
    }
  }

  /** Splitting is stable: re-joining the parts and splitting again changes nothing. */
  lemma SplitStable(s: string)
    ensures Parts(Join(Parts(s), ";")) == Parts(s)
  {
    ChainOfParts(s);
    PartsOfChain(Parts(s));
  }

  // --------------------------------------------------------------- sanitizing

  /** `value.replace("_", "").replace(" ", "").lower()`. */
  function NormalizeKey(key: string): string {
    if key == [] then []
    else (if key[0] == '_' || key[0] == ' ' then [] else [ToLower(key[0])]) + NormalizeKey(key[1..])
  }

  const SENSITIVE_KEYS: set<string> := {
    "pwd", "password", "clientsecret", "accesstoken", "accountkey", "sharedaccesskey",
    "sharedaccesssignature", "uid", "userid", "user", "username", "clientid", "secret"
  }

  predicate IsSensitive(key: string) {
    NormalizeKey(Strip(key)) in SENSITIVE_KEYS
  }

  lemma {:induction false} SeparatorsIgnored(x: string, separator: char, y: string)
    requires separator == '_' || separator == ' '
    ensures NormalizeKey(x + [separator] + y) == NormalizeKey(x + y)
  {
    if x == "" {
      assert (x + [separator] + y)[1..] == y == x + y;
    } else {
      SeparatorsIgnored(x[1..], separator, y);
      assert (x + [separator] + y)[1..] == x[1..] + [separator] + y && (x + y)[1..] == x[1..] + y;
    }
  }

  lemma {:induction false} WordFolded(key: string)
    requires '_' !in key && ' ' !in key
    ensures NormalizeKey(key) == Lower(key)
  {
    if key != "" {
      WordFolded(key[1..]);
      assert Lower(key) == [ToLower(key[0])] + Lower(key[1..]);
    }
  }

  /** The sensitive keys: thirteen words, in any case, whatever underscores and spaces stand in them. */
  lemma SensitiveIff(key: string)
    ensures '_' !in Strip(key) && ' ' !in Strip(key) ==>
              (IsSensitive(key)
               <==> Lower(Strip(key)) in {"uid", "user", "userid", "username", "pwd", "password", "secret", "clientid",
                                          "clientsecret", "accesstoken", "accountkey", "sharedaccesskey",
                                          "sharedaccesssignature"})
    ensures forall x, y, separator :: (separator == '_' || separator == ' ') && Strip(key) == x + [separator] + y ==>
              (IsSensitive(key) <==> NormalizeKey(x + y) in SENSITIVE_KEYS)
  {
    if '_' !in Strip(key) && ' ' !in Strip(key) {
      WordFolded(Strip(key));
    }
    forall x, y, separator | (separator == '_' || separator == ' ') && Strip(key) == x + [separator] + y
      ensures NormalizeKey(Strip(key)) == NormalizeKey(x + y)
    {
      SeparatorsIgnored(x, separator, y);
    }
  }

  /** Where the key of a part ends, if it has one: at the first `=`. */
  function KeyEnd(part: string): (r: Option<nat>)
    ensures r.Some? ==> r.value < |part| && part[r.value] == '=' && '=' !in part[..r.value]
    ensures r.None? ==> '=' !in part
  {
    if part == [] then None
    else if part[0] == '=' then Some(0)
    else
      var r := KeyEnd(part[1..]);
      if r.None? then None
      else
        assert part[..r.value + 1] == [part[0]] + part[1..][..r.value];
        Some(r.value + 1)
  }

  const MASK := "=***"

  /** One part as it is logged. */
  function Redacted(part: string): string {
    var e := KeyEnd(part);
    if e.Some? && IsSensitive(part[..e.value]) then Strip(part[..e.value]) + MASK else part
  }

  function RedactedAll(parts: seq<string>): (r: seq<string>)
    ensures |r| == |parts|
    ensures forall i :: 0 <= i < |r| ==> r[i] == Redacted(parts[i])
  {
    seq(|parts|, i requires 0 <= i < |parts| => Redacted(parts[i]))
  }

  function Sanitized(s: string): string {
    Join(RedactedAll(Parts(s)), ";")
  }

  /** `sanitize_connection_string_for_logging`. */
  method SanitizeForLogging(connectionString: string) returns (r: string)
    ensures r == Sanitized(connectionString)
  {
    hide IsSensitive, Strip, Parts, Join;
    var parts := SplitConnectionStringParts(connectionString);
    var sanitized: seq<string> := [];
    ghost var goal := RedactedAll(parts);
    for i := 0 to |parts|
      invariant sanitized == goal[..i]
    {
      var part := parts[i];
      assert goal[..i + 1] == goal[..i] + [Redacted(part)];
      var e := KeyEnd(part);
      if e.Some? {
        var key := part[..e.value];
        if IsSensitive(key) {
          sanitized := sanitized + [Strip(key) + MASK];
          continue;
        }
      }
      sanitized := sanitized + [part];
    }
    assert goal[..|parts|] == goal;
    r := Join(sanitized, ";");
  }

  /** A letter, `_` or space: all that a sensitive key is made of. */
  predicate KeyChar(c: char) {
    'a' <= ToLower(c) <= 'z' || c == '_' || c == ' '
  }

  lemma SensitiveLetters(k: string)
    requires k in SENSITIVE_KEYS
    ensures k != [] && forall i :: 0 <= i < |k| ==> 'a' <= k[i] <= 'z'
  {
  }

  lemma {:induction false} NormalizedLetters(k: string)
    requires forall i :: 0 <= i < |NormalizeKey(k)| ==> 'a' <= NormalizeKey(k)[i] <= 'z'
    ensures forall i :: 0 <= i < |k| ==> KeyChar(k[i])
  {
    if k != [] {
      var rest := NormalizeKey(k[1..]);
      if k[0] == '_' || k[0] == ' ' {
        assert NormalizeKey(k) == rest;
      } else {
        assert NormalizeKey(k)[0] == ToLower(k[0]);
        forall i | 0 <= i < |rest| ensures 'a' <= rest[i] <= 'z' {
          assert NormalizeKey(k)[i + 1] == rest[i];
        }
      }
      NormalizedLetters(k[1..]);
      forall i | 0 <= i < |k| ensures KeyChar(k[i]) {
        if i > 0 {
          assert k[1..][i - 1] == k[i];
        }
      }
    }
  }

  predicate Plain(s: string) {
    ';' !in s && '{' !in s && '}' !in s
  }

  lemma {:induction false} PlainWhole(s: string, more: bool)
    requires Plain(s)
    ensures Whole(s, false, more)
  {
    if s != [] {
      PlainWhole(s[1..], more);
    }
  }

  lemma {:induction false} PlainThenWhole(s: string, t: string, more: bool)
    requires Plain(s) && Whole(t, false, more)
    ensures Whole(s + t, false, more)
  {
    if s == [] {
      assert s + t == t;
    } else {
      assert (s + t)[1..] == s[1..] + t;
      PlainThenWhole(s[1..], t, more);
    }
  }

  /** What a masked part looks like. */
  lemma MaskedPart(key: string)
    requires IsSensitive(key)
    ensures var r := Strip(key) + MASK;
            && Plain(r) && r != "" && Stripped(r) && '}' !in r
            && KeyEnd(r) == Some(|Strip(key)|) && Redacted(r) == r
  {
    var k := Strip(key);
    var r := k + MASK;
    SensitiveLetters(NormalizeKey(k));
    NormalizedLetters(k);
    StripIdempotent(key);
    assert r[..|k|] == k;
    assert k != [];
    forall c | c in k ensures c != ';' && c != '{' && c != '}' && c != '=' {
      var i :| 0 <= i < |k| && k[i] == c;
      assert KeyChar(k[i]);
    }
    assert r[0] == k[0] && r[|r| - 1] == '*';
    assert r[|k|] == '=';
    KeyEndIs(r, |k|);
    assert r[..|k|] == k;
  }

  lemma KeyEndIs(part: string, n: nat)
    requires n < |part| && part[n] == '=' && '=' !in part[..n]
    ensures KeyEnd(part) == Some(n)
  {
  }

  lemma {:induction false} RedactedChain(parts: seq<string>)
    requires Chain(parts)
    ensures Chain(RedactedAll(parts))
    ensures '}' in Join(RedactedAll(parts), ";") ==> '}' in Join(parts, ";")
  {
    var r := RedactedAll(parts);
    if parts != [] {
      var p := parts[0];
      RedactedChain(parts[1..]);
      assert r[1..] == RedactedAll(parts[1..]);
      if r[0] != p {
        var key := p[..KeyEnd(p).value];
        MaskedPart(key);
        PlainWhole(r[0], '}' in Join(r[1..], ";"));
        PlainWhole(r[0], false);
        WholeIsCut(r[0], false, false);
      } else if |parts| > 1 && '}' in Join(parts[1..], ";") && !('}' in Join(r[1..], ";")) {
        WholeWithoutMore(p, false);
      }
      RedactedBraces(parts);
    }
  }

  lemma RedactedBraces(parts: seq<string>)
    ensures '}' in Join(RedactedAll(parts), ";") ==> '}' in Join(parts, ";")
  {
    var r := RedactedAll(parts);
    BraceInJoin(r);
    BraceInJoin(parts);
    forall i | 0 <= i < |r| && '}' in r[i] ensures '}' in parts[i] {
      if r[i] != parts[i] {
        MaskedPart(parts[i][..KeyEnd(parts[i]).value]);
      }
    }
  }

  lemma RedactedTwice(part: string)
    ensures Redacted(Redacted(part)) == Redacted(part)
  {
    if Redacted(part) != part {
      MaskedPart(part[..KeyEnd(part).value]);
    }
  }

  /** Redaction preserves structure: the logged string splits into the same number of parts in
      the same order, each the redaction of the original, so other parts are unchanged. */
  lemma SanitizeKeepsParts(s: string)
    ensures Parts(Sanitized(s)) == RedactedAll(Parts(s))
  {
    ChainOfParts(s);
    RedactedChain(Parts(s));
    PartsOfChain(RedactedAll(Parts(s)));
  }

  /** Sanitizing twice is sanitizing once, for every string. */
  lemma SanitizeIdempotent(s: string)
    ensures Sanitized(Sanitized(s)) == Sanitized(s)
  {
    SanitizeKeepsParts(s);
    var r := RedactedAll(Parts(s));
    forall i | 0 <= i < |r| ensures Redacted(r[i]) == r[i] {
      RedactedTwice(Parts(s)[i]);
    }
    assert RedactedAll(r) == r;
  }
}
