/** Lists kept as comma-separated strings (internal/utils/utils.go, SliceString and StringSlice). */
module ListCodec {
  import opened Text
  import opened Sorting

  /** The trimmed elements that are not empty, in order. */
  function Clean(xs: seq<string>): seq<string> {
    if xs == [] then []
    else
      var x := TrimSpace(xs[|xs| - 1]);
      Clean(xs[..|xs| - 1]) + if x == "" then [] else [x]
  }

  function Sliced(xs: seq<string>): string { Join(Sort(Clean(xs)), ',') }

  function TrimAll(parts: seq<string>): (r: seq<string>)
    ensures |r| == |parts| && forall i :: 0 <= i < |parts| ==> r[i] == TrimSpace(parts[i])
  {
    seq(|parts|, i requires 0 <= i < |parts| => TrimSpace(parts[i]))
  }

  function Parts(str: string): seq<string> {
    if str == "" then []
    else
      var s := TrimSpace(str);
      if ',' !in s then [s] else TrimAll(Split(s, ','))
  }

  method SliceString(strs: seq<string>) returns (r: string)
    ensures r == Sliced(strs)
  {
    var res := [];
    for i := 0 to |strs|
      invariant res == Clean(strs[..i])
    {
      assert strs[..i + 1][..i] == strs[..i];
      var str := TrimSpace(strs[i]);
      if str == "" { continue; }
      res := res + [str];
    }
    assert strs[..|strs|] == strs;
    r := Join(Sort(res), ',');
  }

  method StringSlice(str: string) returns (parts: seq<string>)
    ensures parts == Parts(str)
  {
    if str == "" { return []; }
    var s := TrimSpace(str);
    if ',' !in s { return [s]; }
    parts := Split(s, ',');
    var i := 0;
    while i < |parts|
      invariant 0 <= i <= |parts| == |Split(s, ',')|
      invariant forall j :: 0 <= j < i ==> parts[j] == TrimSpace(Split(s, ',')[j])
      invariant forall j :: i <= j < |parts| ==> parts[j] == Split(s, ',')[j]
    {
      parts := parts[i := TrimSpace(parts[i])];
      i := i + 1;
    }
  }

  method SanitizeStringSlice(str: string) returns (r: string)
    ensures r == Sliced(Parts(str))
  {
    var parts := StringSlice(str);
    r := SliceString(parts);
  }

  /* ---------- what cleaning keeps ---------- */

  predicate CommaFree(xs: seq<string>) { forall i :: 0 <= i < |xs| ==> ',' !in xs[i] }

  /** A proper list element: trimmed, not empty, without commas. */
  predicate Proper(x: string) { x != "" && Trimmed(x) && ',' !in x }

  ghost predicate AllProper(xs: seq<string>) { forall i :: 0 <= i < |xs| ==> Proper(xs[i]) }

  lemma {:induction false} CleanMembers(xs: seq<string>, y: string)
    ensures y in Clean(xs) <==> y != "" && y in TrimAll(xs)
  {
    hide TrimSpace;
    if xs != [] {
      var n := |xs| - 1;
      CleanMembers(xs[..n], y);
      assert TrimAll(xs) == TrimAll(xs[..n]) + [TrimSpace(xs[n])];
    }
  }

  lemma CleanProper(xs: seq<string>)
    requires CommaFree(xs)
    ensures AllProper(Clean(xs))
  {
    hide TrimSpace;
    forall k | 0 <= k < |Clean(xs)| ensures Proper(Clean(xs)[k]) {
      var y := Clean(xs)[k];
      CleanMembers(xs, y);
      var i :| 0 <= i < |xs| && TrimAll(xs)[i] == y;
      TrimSpaceTrims(xs[i]);
    }
  }

  lemma {:induction false} CleanFixed(xs: seq<string>)
    requires AllProper(xs)
    ensures Clean(xs) == xs
  {
    hide TrimSpace, Trimmed;
    if xs != [] {
      var n := |xs| - 1;
      CleanFixed(xs[..n]);
      assert Proper(xs[n]);
      TrimSpaceFixed(xs[n]);
      assert xs == xs[..n] + [xs[n]];
    }
  }

  lemma {:induction false} CleanConcat(xs: seq<string>, ys: seq<string>)
    ensures Clean(xs + ys) == Clean(xs) + Clean(ys)
  {
    hide TrimSpace;
    if ys == [] {
      assert xs + ys == xs;
    } else {
      var n := |ys| - 1;
      CleanConcat(xs, ys[..n]);
      assert (xs + ys)[..|xs| + n] == xs + ys[..n] && (xs + ys)[|xs| + n] == ys[n];
    }
  }

  function Without(xs: seq<string>, i: nat): seq<string>
    requires i < |xs|
  {
    xs[..i] + xs[i + 1..]
  }

  lemma WithoutOne(xs: seq<string>, i: nat)
    requires i < |xs|
    ensures multiset(Without(xs, i)) == multiset(xs) - multiset{xs[i]}
  {
    assert xs == xs[..i] + [xs[i]] + xs[i + 1..];
  }

  lemma CleanWithoutOne(xs: seq<string>, i: nat)
    requires i < |xs|
    ensures multiset(Clean(xs)) == multiset(Clean([xs[i]])) + multiset(Clean(Without(xs, i)))
  {
    hide Clean;
    assert xs == xs[..i] + [xs[i]] + xs[i + 1..];
    CleanConcat(xs[..i], [xs[i]]);
    CleanConcat(xs[..i] + [xs[i]], xs[i + 1..]);
    CleanConcat(xs[..i], xs[i + 1..]);
  }

  lemma {:induction false} CleanOfPermutation(xs: seq<string>, ys: seq<string>)
    requires multiset(xs) == multiset(ys)
    ensures multiset(Clean(xs)) == multiset(Clean(ys))
  {
    hide Clean;
    SameMembers(xs, ys);
    if xs == [] {
      assert ys == [];
    } else {
      assert xs[0] in ys;
      var i :| 0 <= i < |ys| && ys[i] == xs[0];
      WithoutOne(xs, 0);
      WithoutOne(ys, i);
      CleanWithoutOne(xs, 0);
      CleanWithoutOne(ys, i);
      CleanOfPermutation(Without(xs, 0), Without(ys, i));
    }
  }

  /** The stored string does not depend on the order of the list. */
  lemma SlicedOfPermutation(xs: seq<string>, ys: seq<string>)
    requires multiset(xs) == multiset(ys)
    ensures Sliced(xs) == Sliced(ys)
  {
    CleanOfPermutation(xs, ys);
    SortOfPermutation(Clean(xs), Clean(ys));
  }

  /* ---------- round trips ---------- */

  lemma PartsClean(str: string)
    ensures forall i :: 0 <= i < |Parts(str)| ==> Trimmed(Parts(str)[i]) && ',' !in Parts(str)[i]
  {
    if str != "" {
      var s := TrimSpace(str);
      TrimSpaceTrims(str);
      if ',' in s {
        SplitPieces(s, ',');
        forall i | 0 <= i < |Split(s, ',')|
          ensures Trimmed(TrimSpace(Split(s, ',')[i])) && ',' !in TrimSpace(Split(s, ',')[i])
        {
          TrimSpaceTrims(Split(s, ',')[i]);
        }
      }
    }
  }

  lemma {:induction false} JoinTrimmed(xs: seq<string>)
    requires AllProper(xs) && xs != []
    ensures Join(xs, ',') != "" && Trimmed(Join(xs, ','))
    ensures Join(xs, ',')[0] == xs[0][0]
    ensures |xs| > 1 <==> ',' in Join(xs, ',')
  {
    assert Proper(xs[0]);
    if |xs| > 1 {
      JoinTrimmed(xs[1..]);
      var rest := Join(xs[1..], ',');
      assert Join(xs, ',')[|Join(xs, ',')| - 1] == rest[|rest| - 1];
      assert Join(xs, ',')[|xs[0]|] == ',';
    }
  }

  /** Reading back a joined list of proper elements. */
  lemma PartsOfJoin(xs: seq<string>)
    requires AllProper(xs)
    ensures Parts(Join(xs, ',')) == xs
  {
    if xs != [] {
      var s := Join(xs, ',');
      JoinTrimmed(xs);
      TrimSpaceFixed(s);
      if |xs| > 1 {
        SplitOfJoin(xs, ',');
        forall i | 0 <= i < |xs| ensures TrimSpace(xs[i]) == xs[i] { TrimSpaceFixed(xs[i]); }
      }
    }
  }

  lemma SortKeepsProper(xs: seq<string>)
    requires AllProper(xs)
    ensures AllProper(Sort(xs))
  {
    SortSorts(xs);
    SameMembers(Sort(xs), xs);
    forall i | 0 <= i < |Sort(xs)| ensures Proper(Sort(xs)[i]) {
      assert Sort(xs)[i] in xs;
    }
  }

  /** Storing a list and reading it back gives the sorted list of its trimmed non-empty elements. */
  lemma PartsOfSliced(xs: seq<string>)
    requires CommaFree(xs)
    ensures Parts(Sliced(xs)) == Sort(Clean(xs))
  {
    CleanProper(xs);
    SortKeepsProper(Clean(xs));
    PartsOfJoin(Sort(Clean(xs)));
  }

  /** Sanitizing twice is sanitizing once, for every string. */
  lemma SanitizeIdempotent(str: string)
    ensures Sliced(Parts(Sliced(Parts(str)))) == Sliced(Parts(str))
  {
    var xs := Parts(str);
    PartsClean(str);
    PartsOfSliced(xs);
    CleanProper(xs);
    SortKeepsProper(Clean(xs));
    CleanFixed(Sort(Clean(xs)));
    SortSorts(Clean(xs));
    SortOfSorted(Sort(Clean(xs)));
  }

  /** Commas are the exact limit: reading back gives that list if and only if no element holds one. */
  lemma ReadBackExact(xs: seq<string>)
    ensures Parts(Sliced(xs)) == Sort(Clean(xs)) <==> CommaFree(xs)
  {
    if CommaFree(xs) {
      PartsOfSliced(xs);
    } else {
      var i :| 0 <= i < |xs| && ',' in xs[i];
      var x := TrimSpace(xs[i]);
      TrimSpaceKeeps(xs[i], ',');
      assert TrimAll(xs)[i] == x;
      CleanMembers(xs, x);
      SortSorts(Clean(xs));
      SameMembers(Sort(Clean(xs)), Clean(xs));
      PartsClean(Sliced(xs));
      assert x in Sort(Clean(xs)) && x !in Parts(Sliced(xs));
    }
  }

  /** For example, a list whose one element holds a comma is read back as two elements. */
  lemma CommaSplits()
    ensures Parts(Sliced(["b,a"])) == ["b", "a"] && Sort(Clean(["b,a"])) == ["b,a"]
  {
    assert Split("b,a", ',') == ["b", "a"] by {
      assert "b,a" == "b" + [','] + "a";
      SplitFirst("b", "a", ',');
      SplitPieces("a", ',');
    }
    TrimSpaceFixed("b,a");
    TrimSpaceFixed("a");
    TrimSpaceFixed("b");
    assert Clean(["b,a"]) == ["b,a"];
    assert Sliced(["b,a"]) == "b,a";
  }

  /** How many elements of `xs` are `y` once trimmed. */
  function TrimmedTimes(xs: seq<string>, y: string): nat {
    if xs == [] then 0
    else TrimmedTimes(xs[..|xs| - 1], y) + if TrimSpace(xs[|xs| - 1]) == y then 1 else 0
  }

  /** Cleaning keeps every element that is not blank, trimmed, as often as it is there. */
  lemma {:induction false} CleanCounts(xs: seq<string>, y: string)
    ensures multiset(Clean(xs))[y] == if y == "" then 0 else TrimmedTimes(xs, y)
  {
    hide TrimSpace;
    if xs != [] { CleanCounts(xs[..|xs| - 1], y); }
  }

  lemma TrimSame(a: string, x: string, b: string)
    requires Blank(a) && Blank(b)
    ensures TrimSpace(a + x + b) == TrimSpace(x)
  {
    TrimSpaceSkips(a, x, b);
  }

  lemma TrimAllCons(x: string, rest: seq<string>)
    ensures TrimAll([x] + rest) == [TrimSpace(x)] + TrimAll(rest)
  {
    hide TrimSpace;
  }

  lemma TrimAllHead(xs: seq<string>)
    requires xs != []
    ensures TrimAll(xs) == [TrimSpace(xs[0])] + TrimAll(xs[1..])
  {
    assert xs == [xs[0]] + xs[1..];
    TrimAllCons(xs[0], xs[1..]);
  }

  /** A character before a text that is not a comma goes to its first piece. */
  lemma SplitCons(c: char, s: string)
    ensures var rest := Split(s, ',');
      Split([c] + s, ',') == if c == ',' then [""] + rest else [[c] + rest[0]] + rest[1..]
  {
    assert ([c] + s)[1..] == s;
  }

  /** White space before a text changes its pieces only by white space. */
  lemma {:induction false} PiecesAfter(a: string, s: string)
    requires Blank(a)
    ensures TrimAll(Split(a + s, ',')) == TrimAll(Split(s, ','))
  {
    hide TrimSpace, TrimAll, Split;
    if a == "" {
      assert a + s == s;
    } else {
      PiecesAfter(a[1..], s);
      assert a + s == [a[0]] + (a[1..] + s);
      SplitCons(a[0], a[1..] + s);
      var rest := Split(a[1..] + s, ',');
      TrimAllCons([a[0]] + rest[0], rest[1..]);
      TrimAllHead(rest);
      TrimSame([a[0]], rest[0], "");
      assert [a[0]] + rest[0] + "" == [a[0]] + rest[0];
    }
  }

  /** The first piece has got white space after it, the others are the same once trimmed. */
  ghost predicate PaddedPieces(xs: seq<string>, ys: seq<string>) {
    && xs != [] && ys != [] && TrimAll(xs[1..]) == TrimAll(ys[1..])
    && exists c :: Blank(c) && ys[0] == xs[0] + c
  }

  lemma PaddedTrims(xs: seq<string>, ys: seq<string>)
    requires PaddedPieces(xs, ys)
    ensures TrimAll(ys) == TrimAll(xs)
  {
    hide TrimSpace, TrimAll;
    var c :| Blank(c) && ys[0] == xs[0] + c;
    TrimAllHead(xs);
    TrimAllHead(ys);
    TrimSame("", xs[0], c);
    assert "" + xs[0] + c == ys[0];
  }

  lemma PaddedCons(h: char, xs: seq<string>, ys: seq<string>)
    requires PaddedPieces(xs, ys)
    ensures PaddedPieces([[h] + xs[0]] + xs[1..], [[h] + ys[0]] + ys[1..])
  {
    hide TrimAll;
    var c :| Blank(c) && ys[0] == xs[0] + c;
    assert [h] + ys[0] == ([h] + xs[0]) + c;
  }

  lemma PaddedEmpty(xs: seq<string>, ys: seq<string>)
    requires TrimAll(xs) == TrimAll(ys)
    ensures PaddedPieces([""] + xs, [""] + ys)
  {
    hide TrimAll;
    assert Blank("") && "" == "" + "";
    assert ([""] + xs)[1..] == xs && ([""] + ys)[1..] == ys;
  }

  lemma {:induction false} PiecesBefore(s: string, b: string)
    requires Blank(b)
    ensures PaddedPieces(Split(s, ','), Split(s + b, ','))
  {
    hide TrimSpace, TrimAll, PaddedPieces;
    if s == "" {
      assert s + b == b;
      SplitPieces(b, ',');
      OnePadded(b);
    } else {
      PiecesBefore(s[1..], b);
      assert s == [s[0]] + s[1..] && s + b == [s[0]] + (s[1..] + b);
      SplitCons(s[0], s[1..]);
      SplitCons(s[0], s[1..] + b);
      hide Split;
      var xs, ys := Split(s[1..], ','), Split(s[1..] + b, ',');
      if s[0] == ',' {
        PaddedTrims(xs, ys);
        PaddedEmpty(xs, ys);
      } else {
        PaddedCons(s[0], xs, ys);
      }
    }
  }

  lemma OnePadded(b: string)
    requires Blank(b)
    ensures PaddedPieces([""], [b])
  {
    assert b == "" + b;
  }

  /** Reading any text: the pieces between its commas, each trimmed, empty ones included; nothing for the empty text. */
  lemma PartsExact(pieces: seq<string>)
    requires pieces != [] && CommaFree(pieces) && Join(pieces, ',') != ""
    ensures Parts(Join(pieces, ',')) == TrimAll(pieces)
    ensures Parts("") == []
  {
    var str := Join(pieces, ',');
    SplitOfJoin(pieces, ',');
    var a, b := TrimSpaceFrame(str);
    var s := TrimSpace(str);
    PiecesBefore(a + s, b);
    PaddedTrims(Split(a + s, ','), Split(str, ','));
    PiecesAfter(a, s);
    SplitPieces(s, ',');
    TrimSpaceTrims(str);
    if ',' !in s { TrimSpaceFixed(s); }
    hide TrimSpace, Split, Join, Blank, Trimmed, PaddedPieces;
  }
}
