/** `sorted()` of a set of strings: ascending by code point, as Python compares strings. */
module Sorting {

  predicate Leq(a: string, b: string) {
    a == [] || (b != [] && (a[0] < b[0] || (a[0] == b[0] && Leq(a[1..], b[1..]))))
  }

  lemma {:induction false} LeqTotal(a: string, b: string)
    ensures Leq(a, b) || Leq(b, a)
  {
    if a != [] && b != [] {
      LeqTotal(a[1..], b[1..]);
    }
  }

  lemma {:induction false} LeqAntisymmetric(a: string, b: string)
    requires Leq(a, b) && Leq(b, a)
    ensures a == b
  {
    if a != [] {
      LeqAntisymmetric(a[1..], b[1..]);
      assert a == [a[0]] + a[1..] && b == [b[0]] + b[1..];
    }
  }

  lemma {:induction false} LeqTransitive(a: string, b: string, c: string)
    requires Leq(a, b) && Leq(b, c)
    ensures Leq(a, c)
  {
    if a != [] && a[0] == b[0] == c[0] {
      LeqTransitive(a[1..], b[1..], c[1..]);
    }
  }

  predicate IsLeast(x: string, s: set<string>) {
    x in s && forall y :: y in s ==> Leq(x, y)
  }

  lemma {:induction false} LeastExists(s: set<string>) returns (x: string)
    requires s != {}
    ensures IsLeast(x, s)
    decreases |s|
  {
    var a :| a in s;
    var rest := s - {a};
    LeqTotal(a, a);
    if rest == {} {
      x := a;
      assert s == {a};
    } else {
      var b := LeastExists(rest);
      LeqTotal(a, b);
      x := if Leq(a, b) then a else b;
      forall y | y in s ensures Leq(x, y) {
        if y != a {
          assert y in rest;
          if x == a {
            LeqTransitive(a, b, y);
          }
        }
      }
    }
  }

  lemma LeastUnique(s: set<string>)
    ensures forall x, y :: IsLeast(x, s) && IsLeast(y, s) ==> x == y
  {
    forall x, y | IsLeast(x, s) && IsLeast(y, s) ensures x == y {
      LeqAntisymmetric(x, y);
    }
  }

  lemma SomeLeast(s: set<string>)
    requires s != {}
    ensures exists x :: IsLeast(x, s)
  {
    var x := LeastExists(s);
  }

  /** `sorted(s)`. */
  function SortedList(s: set<string>): seq<string>
    decreases |s|
  {
    if s == {} then []
    else
      SomeLeast(s);
      LeastUnique(s);
      var x :| IsLeast(x, s);
      [x] + SortedList(s - {x})
  }

  function AsSet(names: seq<string>): (r: set<string>)
    ensures forall x :: x in r <==> x in names
  {
    set x | x in names
  }

  /** Sorting lists every element once, in ascending order, so a set is recovered from its list. */
  lemma {:induction false} SortedListMeaning(s: set<string>)
    ensures AsSet(SortedList(s)) == s && |SortedList(s)| == |s|
    ensures forall i, j :: 0 <= i < j < |SortedList(s)| ==>
              Leq(SortedList(s)[i], SortedList(s)[j]) && SortedList(s)[i] != SortedList(s)[j]
    decreases |s|
  {
    hide SortedList, IsLeast, Leq;
    if s == {} {
      SortedNothing();
    } else {
      var x := SortedHead(s);
      LeastIsLeq(x, s);
      var rest := SortedList(s - {x});
      SortedListMeaning(s - {x});
      assert AsSet([x] + rest) == {x} + AsSet(rest);
      forall j | 0 <= j < |rest| ensures Leq(x, rest[j]) && rest[j] != x {
        assert rest[j] in AsSet(rest);
      }
    }
  }

  lemma LeastIsLeq(x: string, s: set<string>)
    requires IsLeast(x, s)
    ensures x in s && forall y :: y in s ==> Leq(x, y)
  {
  }

  lemma SortedNothing()
    ensures SortedList({}) == []
  {
  }

  lemma SortedHead(s: set<string>) returns (x: string)
    requires s != {}
    ensures IsLeast(x, s) && SortedList(s) == [x] + SortedList(s - {x})
  {
    x := LeastExists(s);
    LeastUnique(s);
  }
}
