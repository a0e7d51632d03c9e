/** Splitting a connection string behind a fixed beginning: which parts the beginning settles, and
    whether it leaves a part open that swallows what follows. */
module ConnectionPrefix {
  import opened Text
  import opened ConnectionString

  /** The scan of `p`: the position of the first separator, or the length of `p`, and whether the
      scan is inside braces there; `more` says whether a `}` occurs after `p`. */
  function Reach(p: string, inBraces: bool, more: bool): (r: (nat, bool))
    ensures r.0 <= |p| && (r.0 < |p| ==> p[r.0] == ';' && !r.1)
  {
    if p == [] then (0, inBraces)
    else if p[0] == ';' && !inBraces then (0, false)
    else if p[0] == '{' && !inBraces && ('}' in p[1..] || more) then Past(1, Reach(p[1..], true, more))
    else if p[0] == '}' && inBraces then
      if |p| > 1 && p[1] == '}' then Past(2, Reach(p[2..], true, more)) else Past(1, Reach(p[1..], false, more))
    else Past(1, Reach(p[1..], inBraces, more))
  }

  function Past(k: nat, r: (nat, bool)): (nat, bool) {
    (k + r.0, r.1)
  }

  /** A beginning that ends with a separator character, as all text in front of a field does. */
  predicate Ended(p: string) {
    p == [] || p[|p| - 1] == ';'
  }

  lemma EndedTail(p: string, k: nat)
    requires Ended(p) && k <= |p|
    ensures Ended(p[k..])
  {
  }

  /** One step of the scan: how many characters it takes and the brace state after it. */
  function Step(p: string, inBraces: bool, more: bool): (r: (nat, bool))
    requires p != []
    ensures 1 <= r.0 <= |p|
  {
    if p[0] == '{' && !inBraces && ('}' in p[1..] || more) then (1, true)
    else if p[0] == '}' && inBraces then if |p| > 1 && p[1] == '}' then (2, true) else (1, false)
    else (1, inBraces)
  }

  lemma ReachStep(p: string, inBraces: bool, more: bool)
    requires p != [] && !(p[0] == ';' && !inBraces)
    ensures var (k, b) := Step(p, inBraces, more);
            Reach(p, inBraces, more) == Past(k, Reach(p[k..], b, more))
  {
  }

  /** A step in front of `rest` is the same step. */
  lemma StepAcross(p: string, inBraces: bool, rest: string)
    requires Ended(p) && p != [] && !(p[0] == ';' && !inBraces)
    ensures var (k, b) := Step(p, inBraces, '}' in rest);
            && (p + rest)[k..] == p[k..] + rest
            && Cut(p + rest, inBraces) == k + Cut(p[k..] + rest, b)
  {
    hide Cut;
    var s := p + rest;
    CutStep(s, 0, inBraces);
    assert s[0..] == s && s[0 + 1..] == p[1..] + rest;
    assert '}' in s[0 + 1..] <==> '}' in p[1..] || '}' in rest;
    assert s[Step(p, inBraces, '}' in rest).0..] == p[Step(p, inBraces, '}' in rest).0..] + rest;
  }

  lemma {:induction false} CutAcross(p: string, inBraces: bool, rest: string)
    requires Ended(p)
    ensures var (n, b) := Reach(p, inBraces, '}' in rest);
            Cut(p + rest, inBraces) == if n < |p| then n else |p| + Cut(rest, b)
  {
    hide Step, Reach, Cut, Ended;
    if p == [] {
      assert p + rest == rest;
      ReachNothing(inBraces, '}' in rest);
    } else if p[0] == ';' && !inBraces {
      CutHere(p, rest);
    } else {
      var (k, b) := Step(p, inBraces, '}' in rest);
      StepAcross(p, inBraces, rest);
      ReachStep(p, inBraces, '}' in rest);
      EndedTail(p, k);
      CutAcross(p[k..], b, rest);
    }
  }

  lemma ReachNothing(inBraces: bool, more: bool)
    ensures Reach([], inBraces, more) == (0, inBraces)
  {
  }

  lemma CutHere(p: string, rest: string)
    requires p != [] && p[0] == ';'
    ensures Reach(p, false, '}' in rest) == (0, false) && Cut(p + rest, false) == 0
  {
  }

  /** The parts a beginning settles, and the text of the part still open at its end. */
  datatype Front = Front(parts: seq<string>, open: string, inBraces: bool)

  function Scan(p: string, more: bool): Front
    decreases |p|
  {
    var (n, b) := Reach(p, false, more);
    if n < |p| then
      var f := Scan(p[n + 1..], more);
      f.(parts := Segment(p[..n]) + f.parts)
    else Front([], p, b)
  }

  /** Outside braces, nothing is open where a beginning has ended. */
  lemma {:induction false} EndsAtSeparator(p: string, inBraces: bool, more: bool)
    requires Ended(p) && Reach(p, inBraces, more) == (|p|, false)
    ensures p == []
  {
    if p != [] {
      ReachStep(p, inBraces, more);
      var (k, b) := Step(p, inBraces, more);
      EndedTail(p, k);
      EndsAtSeparator(p[k..], b, more);
    }
  }

  /** What splitting makes of a beginning and the text behind it. */
  lemma {:induction false} PartsAcross(p: string, rest: string)
    requires Ended(p)
    ensures var f := Scan(p, '}' in rest);
            && Ended(f.open)
            && Parts(p + rest) == f.parts + PartsCutAt(f.open + rest[..Cut(rest, f.inBraces)], rest, Cut(rest, f.inBraces))
    decreases |p|
  {
    hide Segment, Reach, Cut, Ended, Parts, PartsCutAt;
    var more := '}' in rest;
    var n := Reach(p, false, more).0;
    CutAcross(p, false, rest);
    PartsCut(p + rest);
    if n < |p| {
      EndedTail(p, n + 1);
      PartsAcross(p[n + 1..], rest);
      var f := Scan(p[n + 1..], more);
      CutBefore(p, n, rest);
      Assoc(Segment(p[..n]), f.parts, PartsCutAt(f.open + rest[..Cut(rest, f.inBraces)], rest, Cut(rest, f.inBraces)));
    } else {
      CutBehind(p, rest, Cut(rest, Reach(p, false, more).1));
    }
  }

  lemma CutBefore(p: string, n: nat, rest: string)
    requires n < |p|
    ensures PartsCutAt((p + rest)[..n], p + rest, n) == Segment(p[..n]) + Parts(p[n + 1..] + rest)
  {
    hide Parts, Segment;
    assert (p + rest)[..n] == p[..n] && (p + rest)[n + 1..] == p[n + 1..] + rest;
  }

  lemma CutBehind(p: string, rest: string, k: nat)
    requires k <= |rest|
    ensures PartsCutAt((p + rest)[..|p| + k], p + rest, |p| + k) == [] + PartsCutAt(p + rest[..k], rest, k)
  {
    hide Parts, Segment;
    assert (p + rest)[..|p| + k] == p + rest[..k];
    if k < |rest| {
      assert (p + rest)[|p| + k + 1..] == rest[k + 1..];
    }
  }

  lemma {:induction false} ClosedMeansNothingOpen(p: string, more: bool)
    requires Ended(p) && !Scan(p, more).inBraces
    ensures Scan(p, more).open == ""
    decreases |p|
  {
    hide Reach;
    var (n, b) := Reach(p, false, more);
    if n < |p| {
      ClosedMeansNothingOpen(p[n + 1..], more);
    } else {
      EndsAtSeparator(p, false, more);
    }
  }

  /** A closed beginning and the text behind it split on their own. */
  lemma PartsBehindClosed(p: string, rest: string)
    requires Ended(p) && !Scan(p, '}' in rest).inBraces
    ensures Parts(p + rest) == Scan(p, '}' in rest).parts + Parts(rest)
  {
    hide Scan, Parts, Cut;
    PartsAcross(p, rest);
    ClosedMeansNothingOpen(p, '}' in rest);
    PartsCut(rest);
    var k := Cut(rest, false);
    assert "" + rest[..k] == rest[..k];
  }

  // -------------------------------------------------- with and without a later brace

  lemma {:induction false} ReachCloses(p: string, more: bool)
    requires !Reach(p, true, more).1
    ensures '}' in p
  {
    if p[0] != '}' {
      ReachCloses(p[1..], more);
    }
  }

  /** Where the scan is outside braces, it does not matter whether a `}` follows. */
  lemma {:induction false} ReachClosedSame(p: string, inBraces: bool)
    requires !Reach(p, inBraces, true).1
    ensures Reach(p, inBraces, false) == Reach(p, inBraces, true)
  {
    if p == [] || (p[0] == ';' && !inBraces) {
    } else {
      ReachStep(p, inBraces, true);
      ReachStep(p, inBraces, false);
      var (k, b) := Step(p, inBraces, true);
      if p[0] == '{' && !inBraces {
        ReachCloses(p[1..], true);
      }
      ReachClosedSame(p[k..], b);
    }
  }

  lemma {:induction false} ScanClosedSame(p: string)
    requires !Scan(p, true).inBraces
    ensures Scan(p, false) == Scan(p, true)
    decreases |p|
  {
    hide Reach;
    ReachClosedSame(p, false);
    var (n, _) := Reach(p, false, true);
    if n < |p| {
      ScanClosedSame(p[n + 1..]);
    }
  }

  /** A beginning that is open when a `}` follows, scanned when none does: it is still open, or it
      ends a part after the brace and no brace closes in what is left of it. */
  lemma {:induction false} ReachOpen(p: string, inBraces: bool)
    requires Ended(p) && Reach(p, inBraces, true) == (|p|, true)
    ensures OpenOrBare(p, Reach(p, inBraces, false))
  {
    hide Reach, Ended;
    if p == [] {
      ReachNothing(inBraces, true);
      ReachNothing(inBraces, false);
    } else {
      NotHere(p, inBraces);
      ReachStep(p, inBraces, true);
      ReachStep(p, inBraces, false);
      var (k, b) := Step(p, inBraces, true);
      EndedTail(p, k);
      if p[0] == '{' && !inBraces && '}' !in p[1..] {
        NeverOpens(p[1..]);
        assert Reach(p, inBraces, false) == Past(1, Reach(p[1..], false, false));
        if Reach(p[1..], false, false).0 == |p[1..]| {
          EndsAtSeparator(p[1..], false, false);
          assert p == ['{'];
          ReachNothing(false, false);
          NotEnded(p);
        }
        assert '{' in p[..1];
      } else {
        ReachOpen(p[k..], b);
        ShiftOpen(p, k, Reach(p[k..], b, false));
      }
    }
  }

  lemma NotHere(p: string, inBraces: bool)
    requires p != [] && Reach(p, inBraces, true) == (|p|, true)
    ensures !(p[0] == ';' && !inBraces)
  {
  }

  lemma NotEnded(p: string)
    requires p == ['{']
    ensures !Ended(p)
  {
  }

  predicate OpenOrBare(p: string, r: (nat, bool)) {
    r == (|p|, true) || (r.0 < |p| && '{' in p[..r.0] && '}' !in p[r.0 + 1..])
  }

  lemma ShiftOpen(p: string, k: nat, r: (nat, bool))
    requires k <= |p| && OpenOrBare(p[k..], r)
    ensures OpenOrBare(p, Past(k, r))
  {
    if r.0 < |p[k..]| {
      assert p[k..][..r.0] == p[..k + r.0][k..];
      assert p[k..][r.0 + 1..] == p[k + r.0 + 1..];
    }
  }

  lemma {:induction false} NeverOpens(p: string)
    requires '}' !in p
    ensures !Reach(p, false, false).1
  {
    if p != [] && p[0] != ';' {
      NeverOpens(p[1..]);
    }
  }

  lemma {:induction false} ScanNeverOpens(p: string)
    requires '}' !in p
    ensures !Scan(p, false).inBraces
    decreases |p|
  {
    hide Reach;
    NeverOpens(p);
    var (n, _) := Reach(p, false, false);
    if n < |p| {
      ScanNeverOpens(p[n + 1..]);
    }
  }

  lemma NonblankSegment(p: string, c: char)
    requires c in p && !IsSpace(c)
    ensures Segment(p) == [Strip(p)] && c in Strip(p)
  {
    var left, right := StripDrops(p);
    assert c !in left && c !in right;
    assert c in left + Strip(p) + right;
  }

  lemma {:induction false} NoCloseNoCut(rest: string)
    requires '}' !in rest
    ensures Cut(rest, true) == |rest|
  {
    if rest != [] {
      NoCloseNoCut(rest[1..]);
    }
  }

  /** Behind an open beginning, text without `}` is either swallowed whole or split on its own. */
  lemma {:induction false} BareBehindOpen(p: string, rest: string)
    requires Ended(p) && Scan(p, true).inBraces && '}' !in rest
    ensures var n := |Scan(p, true).parts|;
            |Parts(p + rest)| == n + 1 || |Parts(p + rest)| >= n + 1 + |Parts(rest)|
    decreases |p|
  {
    hide Reach, Segment, Cut, Ended, Parts;
    var n := Reach(p, false, true).0;
    if n < |p| {
      ReachClosedSame(p, false);
      CutAcross(p, false, rest);
      PartsCut(p + rest);
      CutBefore(p, n, rest);
      EndedTail(p, n + 1);
      BareBehindOpen(p[n + 1..], rest);
    } else {
      OpenBehind(p, rest);
    }
  }

  lemma {:induction false} ReachHasBrace(p: string, more: bool)
    requires Reach(p, false, more).1
    ensures '{' in p
  {
    if p[0] != '{' {
      ReachHasBrace(p[1..], more);
    }
  }

  lemma OpenBehind(p: string, rest: string)
    requires Ended(p) && Reach(p, false, true) == (|p|, true) && '}' !in rest
    ensures |Parts(p + rest)| == 1 || |Parts(p + rest)| >= 1 + |Parts(rest)|
  {
    hide Reach, Segment, Cut, Ended, Parts, Scan, Strip;
    ReachOpen(p, false);
    ReachHasBrace(p, true);
    CutAcross(p, false, rest);
    PartsCut(p + rest);
    var n := Reach(p, false, false).0;
    if n == |p| {
      NoCloseNoCut(rest);
      CutBehind(p, rest, |rest|);
      NonblankSegment(p + rest[..|rest|], '{');
    } else {
      CutBefore(p, n, rest);
      NonblankSegment(p[..n], '{');
      ScanNeverOpens(p[n + 1..]);
      EndedTail(p, n + 1);
      PartsBehindClosed(p[n + 1..], rest);
    }
  }

  /** The part left open holds the brace that opened it. */
  lemma {:induction false} OpenHasBrace(p: string, more: bool)
    requires Scan(p, more).inBraces
    ensures '{' in Scan(p, more).open
    decreases |p|
  {
    hide Reach;
    var (n, b) := Reach(p, false, more);
    if n < |p| {
      OpenHasBrace(p[n + 1..], more);
    } else {
      ReachHasBrace(p, more);
    }
  }

  /** An open beginning swallows text up to where braces close in it. */
  lemma PartsBehindOpen(p: string, piece: string, rest: string)
    requires Ended(p) && Scan(p, true).inBraces
    requires '}' in piece && Whole(piece, true, '}' in rest)
    ensures var f := Scan(p, true);
            Parts(p + (piece + ";" + rest)) == f.parts + [Strip(f.open + piece)] + Parts(rest)
  {
    hide Scan, Parts, Cut, Whole, Strip;
    var f := Scan(p, true);
    var t := piece + ";" + rest;
    assert '}' in t;
    PartsAcross(p, t);
    CutAfterWhole(piece, true, rest);
    assert t[..|piece|] == piece && t[|piece| + 1..] == rest;
    OpenHasBrace(p, true);
    assert '{' in f.open + piece;
    NonblankSegment(f.open + piece, '{');
    Assoc(f.parts, [Strip(f.open + piece)], Parts(rest));
  }

  lemma {:induction false} ReachWhole(p: string, inBraces: bool, q: string)
    requires Whole(p, inBraces, true)
    ensures Reach(p + (";" + q), inBraces, true) == (|p|, false)
  {
    var s := p + (";" + q);
    if p != [] {
      assert s[1..] == p[1..] + (";" + q);
      if p[0] == '{' && !inBraces {
        ReachWhole(p[1..], true, q);
      } else if p[0] == '}' && inBraces {
        if |p| > 1 && p[1] == '}' {
          assert s[2..] == p[2..] + (";" + q);
          ReachWhole(p[2..], true, q);
        } else {
          assert |p| > 1 ==> s[1] == p[1];
          ReachWhole(p[1..], false, q);
        }
      } else {
        ReachWhole(p[1..], inBraces, q);
      }
    }
  }

  /** A whole text in front of a separator is a part of its own. */
  lemma ScanWhole(p: string, q: string)
    requires Whole(p, false, true)
    ensures Scan(p + (";" + q), true).inBraces == Scan(q, true).inBraces
    ensures Scan(p + (";" + q), true).open == Scan(q, true).open
    ensures Scan(p + (";" + q), true).parts == Segment(p) + Scan(q, true).parts
  {
    hide Reach, Segment;
    ReachWhole(p, false, q);
    var s := p + (";" + q);
    assert s[..|p|] == p && s[|p| + 1..] == q;
  }
}
