/** The rewriting of a comma-separated CC header by substring replacement, as `fixtofrom` does it
    (internal/bot/email.go). */
module Rewriting {
  import opened Text

  /** strings.ReplaceAll for a non-empty pattern. */
  function ReplaceAll(s: string, p: string, o: string): string
    requires p != ""
    decreases |s|
  {
    match Index(s, p)
    case None => s
    case Some(i) => s[..i] + o + ReplaceAll(s[i + |p|..], p, o)
  }

  /** The header after the senders in `order` have been replaced one after the other. */
  function Rewritten(order: seq<string>, cc: string, o: string): string
    requires forall i :: 0 <= i < |order| ==> order[i] != ""
  {
    if order == [] then cc
    else ReplaceAll(Rewritten(order[..|order| - 1], cc, o), order[|order| - 1], o)
  }

  /** What the rewriting is for: each address that is a sender becomes `o`, the others stay. */
  function Swapped(addrs: seq<string>, senders: set<string>, o: string): (r: seq<string>)
    ensures |r| == |addrs|
  {
    seq(|addrs|, i requires 0 <= i < |addrs| => if addrs[i] in senders then o else addrs[i])
  }

  function Each(addrs: seq<string>, p: string, o: string): (r: seq<string>)
    requires p != ""
    ensures |r| == |addrs|
  {
    seq(|addrs|, i requires 0 <= i < |addrs| => ReplaceAll(addrs[i], p, o))
  }

  // ---------- where a pattern occurs

  lemma OccursInFirst(x: string, y: string, p: string, j: nat)
    requires ',' !in p && p != "" && OccursAt(x + "," + y, p, j) && j <= |x|
    ensures OccursAt(x, p, j)
  {
    var s := x + "," + y;
    assert forall k :: 0 <= k < |p| ==> s[j..j + |p|][k] == s[j + k] && p[k] != ',';
    assert s[|x|] == ',' && s[j + (|x| - j)] == s[|x|];
    assert j + |p| <= |x|;
    assert x[j..j + |p|] == s[j..j + |p|];
  }

  lemma OccursInSecond(x: string, y: string, p: string, j: nat)
    ensures OccursAt(x + "," + y, p, |x| + 1 + j) <==> OccursAt(y, p, j)
  {
    var s := x + "," + y;
    if j + |p| <= |y| { assert s[|x| + 1 + j..|x| + 1 + j + |p|] == y[j..j + |p|]; }
  }

  lemma OccursFirst(x: string, y: string, p: string, j: nat)
    requires OccursAt(x, p, j)
    ensures OccursAt(x + "," + y, p, j)
  {
    assert (x + "," + y)[j..j + |p|] == x[j..j + |p|];
  }

  /** A comma-free pattern is found first on the left of a comma if it occurs there, else on the right. */
  lemma IndexAcrossComma(x: string, y: string, p: string)
    requires ',' !in p && p != ""
    ensures Index(x, p).Some? ==> Index(x + "," + y, p) == Index(x, p)
    ensures Index(x, p).None? && Index(y, p).Some? ==> Index(x + "," + y, p) == Some(|x| + 1 + Index(y, p).value)
    ensures Index(x, p).None? && Index(y, p).None? ==> Index(x + "," + y, p) == None
  {
    var s := x + "," + y;
    var k := Index(s, p);
    if Index(x, p).Some? { OccursFirst(x, y, p, Index(x, p).value); }
    if Index(y, p).Some? { OccursInSecond(x, y, p, Index(y, p).value); }
    if k.Some? {
      if k.value <= |x| {
        OccursInFirst(x, y, p, k.value);
      } else {
        OccursInSecond(x, y, p, k.value - |x| - 1);
      }
    }
  }

  lemma ReplaceAt(s: string, p: string, o: string, a: string, b: string)
    requires p != "" && Index(s, p) == Some(|a|) && s == a + p + b
    ensures ReplaceAll(s, p, o) == a + o + ReplaceAll(b, p, o)
  {
    assert s[..|a|] == a && s[|a| + |p|..] == b;
  }

  lemma {:induction false} ReplaceAcrossComma(x: string, y: string, p: string, o: string)
    requires ',' !in p && p != ""
    ensures ReplaceAll(x + "," + y, p, o) == ReplaceAll(x, p, o) + "," + ReplaceAll(y, p, o)
    decreases |x|
  {
    hide ReplaceAll, Index;
    IndexAcrossComma(x, y, p);
    match Index(x, p)
    case Some(i) =>
      var a, b := CutAt(x, p);
      assert x + "," + y == a + p + (b + "," + y);
      ReplaceAt(x + "," + y, p, o, a, b + "," + y);
      ReplaceAt(x, p, o, a, b);
      ReplaceAcrossComma(b, y, p, o);
      SumAcrossComma(a, o, ReplaceAll(b, p, o), ReplaceAll(y, p, o));
    case None =>
      NothingToReplace(x, p, o);
      if Index(y, p).Some? {
        var a, b := CutAt(y, p);
        assert x + "," + y == (x + "," + a) + p + b;
        ReplaceAt(x + "," + y, p, o, x + "," + a, b);
        ReplaceAt(y, p, o, a, b);
        SumAfterComma(x, a, o, ReplaceAll(b, p, o));
      } else {
        NothingToReplace(y, p, o);
        NothingToReplace(x + "," + y, p, o);
      }
  }

  lemma SumAcrossComma(a: string, o: string, b: string, y: string)
    ensures a + o + (b + "," + y) == (a + o + b) + "," + y
  {}

  lemma SumAfterComma(x: string, a: string, o: string, b: string)
    ensures (x + "," + a) + o + b == x + "," + (a + o + b)
  {}

  lemma CutAt(s: string, p: string) returns (a: string, b: string)
    requires Index(s, p).Some? && p != ""
    ensures s == a + p + b && |a| == Index(s, p).value && |b| < |s|
  {
    var i := Index(s, p).value;
    a, b := s[..i], s[i + |p|..];
  }

  /** Replacing in a comma-separated list replaces in each of its entries. */
  lemma {:induction false} ReplaceEach(addrs: seq<string>, p: string, o: string)
    requires ',' !in p && p != ""
    ensures ReplaceAll(Join(addrs, ','), p, o) == Join(Each(addrs, p, o), ',')
  {
    hide ReplaceAll;
    if addrs == [] {
      NothingToReplace("", p, o);
    } else if |addrs| > 1 {
      ReplaceEach(addrs[1..], p, o);
      ReplaceAcrossComma(addrs[0], Join(addrs[1..], ','), p, o);
      assert Each(addrs, p, o)[1..] == Each(addrs[1..], p, o);
    }
  }

  lemma NothingToReplace(s: string, p: string, o: string)
    requires p != "" && !Contains(s, p)
    ensures ReplaceAll(s, p, o) == s
  {}

  lemma ReplaceWhole(p: string, o: string)
    requires p != ""
    ensures ReplaceAll(p, p, o) == o
  {
    assert OccursAt(p, p, 0);
    assert Index(p, p) == Some(0);
    assert p[|p|..] == "";
    NothingToReplace("", p, o);
  }

  // ---------- one sender

  /** Replacing by something else changes every text in which the pattern occurs. */
  lemma {:induction false} ReplaceGrows(s: string, p: string, o: string)
    requires p != ""
    ensures |o| == |p| ==> |ReplaceAll(s, p, o)| == |s|
    ensures |o| > |p| ==> |ReplaceAll(s, p, o)| >= |s|
    ensures |o| < |p| ==> |ReplaceAll(s, p, o)| <= |s|
    decreases |s|
  {
    if Contains(s, p) { ReplaceGrows(s[Index(s, p).value + |p|..], p, o); }
  }

  lemma ReplaceChanges(s: string, p: string, o: string)
    requires p != "" && Contains(s, p) && p != o
    ensures ReplaceAll(s, p, o) != s
  {
    var i := Index(s, p).value;
    var rest := ReplaceAll(s[i + |p|..], p, o);
    ReplaceGrows(s[i + |p|..], p, o);
    var r := ReplaceAll(s, p, o);
    assert r == s[..i] + o + rest;
    if |o| == |p| {
      assert r[i..i + |p|] == o;
    }
  }

  lemma {:induction false} ReplaceIdentity(s: string, p: string)
    requires p != ""
    ensures ReplaceAll(s, p, p) == s
    decreases |s|
  {
    if Contains(s, p) {
      var i := Index(s, p).value;
      ReplaceIdentity(s[i + |p|..], p);
      assert s == s[..i] + p + s[i + |p|..];
    }
  }

  /** No address mentions the sender other than by being it. */
  predicate WholeOnly(addrs: seq<string>, p: string) {
    forall i :: 0 <= i < |addrs| && Contains(addrs[i], p) ==> addrs[i] == p
  }

  lemma {:induction false} JoinInjective(a: seq<string>, b: seq<string>)
    requires |a| == |b| && Join(a, ',') == Join(b, ',')
    requires forall i :: 0 <= i < |a| ==> ',' !in a[i] && ',' !in b[i]
    ensures a == b
  {
    if a != [] {
      SplitOfJoin(a, ',');
      SplitOfJoin(b, ',');
    }
  }

  lemma {:induction false} ReplaceCommaFree(s: string, p: string, o: string)
    requires p != "" && ',' !in s && ',' !in o
    ensures ',' !in ReplaceAll(s, p, o)
    decreases |s|
  {
    if Contains(s, p) { ReplaceCommaFree(s[Index(s, p).value + |p|..], p, o); }
  }

  lemma EntryExact(a: string, p: string, o: string)
    requires p != ""
    ensures ReplaceAll(a, p, o) == (if a == p then o else a) <==> p == o || !Contains(a, p) || a == p
  {
    if a == p {
      ReplaceWhole(p, o);
    } else if p == o {
      ReplaceIdentity(a, p);
    } else if Contains(a, p) {
      ReplaceChanges(a, p, o);
    } else {
      NothingToReplace(a, p, o);
    }
  }

  /** With one sender, the header becomes the list in which that sender, and nothing else, is replaced, exactly
      when no other address of the list contains the sender's as a substring (or the replacement is the sender). */
  lemma OneSenderExact(addrs: seq<string>, p: string, o: string)
    requires p != "" && ',' !in p && ',' !in o
    requires forall i :: 0 <= i < |addrs| ==> ',' !in addrs[i]
    ensures Rewritten([p], Join(addrs, ','), o) == Join(Swapped(addrs, {p}, o), ',') <==> p == o || WholeOnly(addrs, p)
  {
    hide ReplaceAll, Index;
    var each, swapped := Each(addrs, p, o), Swapped(addrs, {p}, o);
    ReplaceEach(addrs, p, o);
    assert [p][..0] == [];
    assert Rewritten([p], Join(addrs, ','), o) == Join(each, ',');
    forall i | 0 <= i < |addrs|
      ensures each[i] == swapped[i] <==> p == o || !Contains(addrs[i], p) || addrs[i] == p
      ensures ',' !in each[i] && ',' !in swapped[i]
    {
      EntryExact(addrs[i], p, o);
      ReplaceCommaFree(addrs[i], p, o);
    }
    if Join(each, ',') == Join(swapped, ',') { JoinInjective(each, swapped); }
    if p == o || WholeOnly(addrs, p) { assert each == swapped; }
  }

  // ---------- several senders, in any order

  lemma SwappedOneMore(addrs: seq<string>, done: set<string>, p: string, o: string)
    requires p != ""
    requires WholeOnly(addrs, p) && WholeOnly([o], p)
    ensures Each(Swapped(addrs, done, o), p, o) == Swapped(addrs, done + {p}, o)
  {
    hide ReplaceAll, Index;
    var a, b := Each(Swapped(addrs, done, o), p, o), Swapped(addrs, done + {p}, o);
    assert [o][0] == o;
    forall i | 0 <= i < |addrs|
      ensures a[i] == b[i]
    {
      EntryExact(Swapped(addrs, done, o)[i], p, o);
    }
  }

  /** When no address and no replacement mentions a sender other than by being it, the result is the intended
      list, whatever the order in which the senders are gone through. */
  lemma {:induction false} AnyOrderExact(order: seq<string>, addrs: seq<string>, o: string)
    requires forall i :: 0 <= i < |order| ==> order[i] != "" && ',' !in order[i]
    requires forall i :: 0 <= i < |order| ==> WholeOnly(addrs, order[i]) && WholeOnly([o], order[i])
    ensures Rewritten(order, Join(addrs, ','), o) == Join(Swapped(addrs, Members(order), o), ',')
  {
    if order == [] {
      assert Swapped(addrs, Members(order), o) == addrs;
    } else {
      var n := |order| - 1;
      AnyOrderExact(order[..n], addrs, o);
      ReplaceEach(Swapped(addrs, Members(order[..n]), o), order[n], o);
      SwappedOneMore(addrs, Members(order[..n]), order[n], o);
      assert order == order[..n] + [order[n]];
      assert Members(order) == Members(order[..n]) + {order[n]};
    }
  }

  lemma TooShort(s: string, p: string)
    requires |s| < |p|
    ensures !Contains(s, p)
  {}

  lemma IndexOfHead(p: string, t: string)
    ensures Index(p + t, p) == Some(0)
  {
    assert OccursAt(p + t, p, 0);
  }

  lemma ReplaceHead(p: string, t: string, o: string)
    requires p != "" && |t| < |p|
    ensures ReplaceAll(p + t, p, o) == o + t
  {
    hide ReplaceAll, Index;
    IndexOfHead(p, t);
    TooShort(t, p);
    NothingToReplace(t, p, o);
    assert p + t == "" + p + t;
    ReplaceAt(p + t, p, o, "", t);
    assert "" + o + t == o + t;
  }

  lemma RewrittenTwice(p: string, q: string, cc: string, o: string)
    requires p != "" && q != ""
    ensures Rewritten([p, q], cc, o) == ReplaceAll(ReplaceAll(cc, p, o), q, o)
  {
    var order := [p, q];
    assert order[..1] == [p] && [p][..0] == [];
    assert Rewritten([], cc, o) == cc;
    assert Rewritten([p], cc, o) == ReplaceAll(cc, p, o);
    assert Rewritten(order, cc, o) == ReplaceAll(Rewritten(order[..1], cc, o), q, o);
  }

  /** Otherwise the order can decide: for domains such as "a.co" and "a.com" one sender begins with another, and
      the two orders leave different headers. */
  lemma OrderDecides(p: string, t: string, o: string)
    requires 0 < |t| < |p| && |o| < |p|
    ensures Rewritten([p + t, p], p + t, o) == o
    ensures Rewritten([p, p + t], p + t, o) == o + t
  {
    hide ReplaceAll, Index, Rewritten;
    RewrittenTwice(p + t, p, p + t, o);
    RewrittenTwice(p, p + t, p + t, o);
    ReplaceWhole(p + t, o);
    TooShort(o, p);
    NothingToReplace(o, p, o);
    ReplaceHead(p, t, o);
    TooShort(o + t, p + t);
    NothingToReplace(o + t, p + t, o);
  }
}
