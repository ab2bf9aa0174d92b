/** `sort.Strings`: the order of strings, and the one sorted arrangement of a list. */
module Sorting {

  predicate Le(a: string, b: string) {
    a == "" || (b != "" && (a[0] < b[0] || (a[0] == b[0] && Le(a[1..], b[1..]))))
  }

  lemma {:induction false} LeTotal(a: string, b: string)
    ensures Le(a, b) || Le(b, a)
  {
    if a != "" && b != "" { LeTotal(a[1..], b[1..]); }
  }

  lemma {:induction false} LeAntisymmetric(a: string, b: string)
    requires Le(a, b) && Le(b, a)
    ensures a == b
  {
    if a != "" {
      LeAntisymmetric(a[1..], b[1..]);
      assert a == [a[0]] + a[1..] && b == [b[0]] + b[1..];
    }
  }

  lemma {:induction false} LeTransitive(a: string, b: string, c: string)
    requires Le(a, b) && Le(b, c)
    ensures Le(a, c)
  {
    if a != "" && a[0] == b[0] && b[0] == c[0] { LeTransitive(a[1..], b[1..], c[1..]); }
  }

  ghost predicate Sorted(xs: seq<string>) {
    forall i, j :: 0 <= i < j < |xs| ==> Le(xs[i], xs[j])
  }

  function Insert(x: string, xs: seq<string>): seq<string> {
    if xs == [] || Le(x, xs[0]) then [x] + xs else [xs[0]] + Insert(x, xs[1..])
  }

  function Sort(xs: seq<string>): seq<string> {
    if xs == [] then [] else Insert(xs[0], Sort(xs[1..]))
  }

  /** Inserting adds one occurrence. */
  lemma {:induction false} InsertAdds(x: string, xs: seq<string>)
    ensures multiset(Insert(x, xs)) == multiset{x} + multiset(xs)
  {
    hide Le;
    if xs != [] {
      assert xs == [xs[0]] + xs[1..];
      InsertAdds(x, xs[1..]);
    }
  }

  lemma InsertedIn(x: string, xs: seq<string>, y: string)
    requires y in Insert(x, xs)
    ensures y == x || y in xs
  {
    InsertAdds(x, xs);
    hide Insert;
    assert y in multiset(Insert(x, xs));
    assert y in multiset(xs) <==> y in xs;
  }

  lemma SortedCons(h: string, xs: seq<string>)
    requires Sorted(xs) && forall y :: y in xs ==> Le(h, y)
    ensures Sorted([h] + xs)
  {
    hide Le;
  }

  lemma {:induction false} InsertKeeps(x: string, xs: seq<string>)
    requires Sorted(xs)
    ensures multiset(Insert(x, xs)) == multiset{x} + multiset(xs)
    ensures Sorted(Insert(x, xs))
  {
    InsertAdds(x, xs);
    hide Le;
    if xs != [] && !Le(x, xs[0]) {
      InsertKeeps(x, xs[1..]);
      LeTotal(x, xs[0]);
      forall y | y in Insert(x, xs[1..]) ensures Le(xs[0], y) { InsertedIn(x, xs[1..], y); }
      SortedCons(xs[0], Insert(x, xs[1..]));
    } else if xs != [] {
      forall y | y in xs ensures Le(x, y) {
        if y != xs[0] { LeTransitive(x, xs[0], y); }
      }
      SortedCons(x, xs);
    }
  }

  lemma {:induction false} SortSorts(xs: seq<string>)
    ensures Sorted(Sort(xs)) && multiset(Sort(xs)) == multiset(xs)
  {
    if xs != [] {
      SortSorts(xs[1..]);
      InsertKeeps(xs[0], Sort(xs[1..]));
      assert xs == [xs[0]] + xs[1..];
    }
  }

  lemma SameMembers(xs: seq<string>, ys: seq<string>)
    requires multiset(xs) == multiset(ys)
    ensures |xs| == |ys| && forall x :: x in xs <==> x in ys
  {
    assert |multiset(xs)| == |multiset(ys)|;
    assert forall x :: x in xs <==> x in multiset(xs);
    assert forall x :: x in ys <==> x in multiset(ys);
  }

  lemma SameHead(xs: seq<string>, ys: seq<string>)
    requires Sorted(xs) && Sorted(ys) && xs != [] && xs[0] in ys && ys != [] && ys[0] in xs
    ensures xs[0] == ys[0]
  {
    var i :| 0 <= i < |ys| && ys[i] == xs[0];
    var j :| 0 <= j < |xs| && xs[j] == ys[0];
    if i != 0 && j != 0 { LeAntisymmetric(xs[0], ys[0]); }
  }

  lemma TailMultiset(xs: seq<string>)
    requires xs != []
    ensures multiset(xs[1..]) == multiset(xs) - multiset{xs[0]}
  {
    assert xs == [xs[0]] + xs[1..];
  }

  lemma SortedTail(xs: seq<string>)
    requires Sorted(xs) && xs != []
    ensures Sorted(xs[1..])
  {
  }

  /** There is only one sorted arrangement. */
  lemma {:induction false} SortedUnique(xs: seq<string>, ys: seq<string>)
    requires Sorted(xs) && Sorted(ys) && multiset(xs) == multiset(ys)
    ensures xs == ys
  {
    hide Le;
    SameMembers(xs, ys);
    if xs != [] {
      assert xs[0] in ys && ys[0] in xs;
      SameHead(xs, ys);
      TailMultiset(xs);
      TailMultiset(ys);
      SortedTail(xs);
      SortedTail(ys);
      hide Sorted;
      SortedUnique(xs[1..], ys[1..]);
      assert xs == [xs[0]] + xs[1..] && ys == [ys[0]] + ys[1..];
    }
  }

  lemma SortOfPermutation(xs: seq<string>, ys: seq<string>)
    requires multiset(xs) == multiset(ys)
    ensures Sort(xs) == Sort(ys)
  {
    SortSorts(xs);
    SortSorts(ys);
    SortedUnique(Sort(xs), Sort(ys));
  }

  lemma SortOfSorted(xs: seq<string>)
    requires Sorted(xs)
    ensures Sort(xs) == xs
  {
    SortSorts(xs);
    SortedUnique(Sort(xs), xs);
  }

  /** The order is that of dictionaries: a text comes before its continuations, and else the first difference
      decides. */
  lemma {:induction false} LeExact(p: string, x: string, c: char, y: string, d: char, z: string)
    requires c < d
    ensures Le(p, p + x) && (x != "" ==> !Le(p + x, p))
    ensures Le(p + [c] + y, p + [d] + z) && !Le(p + [d] + z, p + [c] + y)
  {
    if p != "" {
      LeExact(p[1..], x, c, y, d, z);
      assert (p + x)[1..] == p[1..] + x;
      assert (p + [c] + y)[1..] == p[1..] + [c] + y;
      assert (p + [d] + z)[1..] == p[1..] + [d] + z;
    }
  }
}
