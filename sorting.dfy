/** Python's ordering of strings (code point by code point, a proper prefix first) and `sorted`
  * of a set of strings into a duplicate-free ascending list. */
module Sorting {
  /** `a < b` on Python strings. */
  predicate LexLess(a: string, b: string)
    decreases |a|
  {
    if b == [] then false
    else if a == [] then true
    else if a[0] != b[0] then a[0] < b[0]
    else LexLess(a[1..], b[1..])
  }

  lemma {:induction false} LexIrreflexive(a: string)
    ensures !LexLess(a, a)
    decreases |a|
  {
    if a != [] {
      LexIrreflexive(a[1..]);
    }
  }

  lemma {:induction false} LexTransitive(a: string, b: string, c: string)
    requires LexLess(a, b) && LexLess(b, c)
    ensures LexLess(a, c)
    decreases |a|
  {
    if a != [] && a[0] == b[0] && b[0] == c[0] {
      LexTransitive(a[1..], b[1..], c[1..]);
    }
  }

  /** Two different strings are ordered one way or the other, never both. */
  lemma {:induction false} LexTotal(a: string, b: string)
    ensures a != b ==> LexLess(a, b) || LexLess(b, a)
    ensures !(LexLess(a, b) && LexLess(b, a))
    decreases |a|
  {
    if a != [] && b != [] && a[0] == b[0] {
      LexTotal(a[1..], b[1..]);
      if a != b {
        assert a == [a[0]] + a[1..] && b == [b[0]] + b[1..];
      }
    }
  }

  /** Strictly ascending, hence without duplicates. */
  predicate Ascending(s: seq<string>) {
    forall i, j :: 0 <= i < j < |s| ==> LexLess(s[i], s[j])
  }

  /** `x` put in its place in an ascending list (kept once if already there). */
  function Insert(s: seq<string>, x: string): (r: seq<string>)
    requires Ascending(s)
    ensures Ascending(r)
    ensures forall y :: y in r <==> y in s || y == x
    decreases |s|
  {
    if s == [] then [x]
    else if LexLess(x, s[0]) then
      assert forall j :: 0 <= j < |s| ==> LexLess(x, s[j]) by {
        forall j | 0 < j < |s|
          ensures LexLess(x, s[j])
        {
          LexTransitive(x, s[0], s[j]);
        }
      }
      [x] + s
    else if x == s[0] then s
    else
      var rest := Insert(s[1..], x);
      LexTotal(x, s[0]);
      assert forall y :: y in rest ==> LexLess(s[0], y);
      [s[0]] + rest
  }

  /** `sorted(detected)` of a set: one loop inserting each element into its place. */
  method SortSet(items: set<string>) returns (r: seq<string>)
    ensures Ascending(r)
    ensures forall y :: y in r <==> y in items
    ensures |r| == |items|
  {
    r := [];
    var rest := items;
    while rest != {}
      invariant rest <= items && Ascending(r)
      invariant forall y :: y in r <==> y in items && y !in rest
      decreases rest
    {
      var x :| x in rest;
      r := Insert(r, x);
      rest := rest - {x};
    }
    AscendingCard(r, items);
  }

  /** An ascending list has as many elements as the set of them. */
  lemma {:induction false} AscendingCard(s: seq<string>, elems: set<string>)
    requires Ascending(s)
    requires forall y :: y in s <==> y in elems
    ensures |s| == |elems|
  {
    if s != [] {
      var init := s[..|s| - 1];
      var last := s[|s| - 1];
      assert forall y :: y in s <==> y in init || y == last;
      assert last !in init by {
        forall i | 0 <= i < |init|
          ensures init[i] != last
        {
          LexIrreflexive(last);
        }
      }
      AscendingCard(init, elems - {last});
    }
  }
}
