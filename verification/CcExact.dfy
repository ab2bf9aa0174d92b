/** When the rewriting of CC gives the intended list for every order in which Go may go through the senders
    (internal/bot/email.go, fixtofrom). */
module CcExact {
  import opened Text
  import opened Addresses
  import opened Rewriting
  import opened Replies
  import CanonicalList

  // ---------- one entry

  /** What the header becomes is what each of its entries becomes. */
  function RewrittenEach(order: seq<string>, addrs: seq<string>, o: string): (r: seq<string>)
    requires forall i :: 0 <= i < |order| ==> order[i] != ""
    ensures |r| == |addrs|
  {
    seq(|addrs|, i requires 0 <= i < |addrs| => Rewritten(order, addrs[i], o))
  }

  lemma {:induction false} RewrittenByEntry(order: seq<string>, addrs: seq<string>, o: string)
    requires forall i :: 0 <= i < |order| ==> order[i] != "" && ',' !in order[i]
    ensures Rewritten(order, Join(addrs, ','), o) == Join(RewrittenEach(order, addrs, o), ',')
  {
    hide ReplaceAll;
    if order == [] {
      assert RewrittenEach(order, addrs, o) == addrs;
    } else {
      var n := |order| - 1;
      RewrittenByEntry(order[..n], addrs, o);
      ReplaceEach(RewrittenEach(order[..n], addrs, o), order[n], o);
      assert Each(RewrittenEach(order[..n], addrs, o), order[n], o) == RewrittenEach(order, addrs, o);
    }
  }

  lemma {:induction false} RewrittenCons(s: string, rest: seq<string>, a: string, o: string)
    requires s != "" && forall i :: 0 <= i < |rest| ==> rest[i] != ""
    ensures forall i :: 0 <= i < |[s] + rest| ==> ([s] + rest)[i] != ""
    ensures Rewritten([s] + rest, a, o) == Rewritten(rest, ReplaceAll(a, s, o), o)
  {
    hide ReplaceAll;
    var order := [s] + rest;
    assert forall i :: 0 <= i < |order| ==> order[i] == if i == 0 then s else rest[i - 1];
    if rest == [] {
      assert order[..0] == [];
    } else {
      var n := |rest| - 1;
      RewrittenCons(s, rest[..n], a, o);
      assert order[..|order| - 1] == [s] + rest[..n];
    }
  }

  lemma {:induction false} RewrittenCommaFree(order: seq<string>, a: string, o: string)
    requires (forall i :: 0 <= i < |order| ==> order[i] != "") && ',' !in a && ',' !in o
    ensures ',' !in Rewritten(order, a, o)
  {
    hide ReplaceAll;
    if order != [] {
      RewrittenCommaFree(order[..|order| - 1], a, o);
      ReplaceCommaFree(Rewritten(order[..|order| - 1], a, o), order[|order| - 1], o);
    }
  }

  // ---------- an address with one '@' and a sender

  lemma SenderHasAt(e: string, m: string, d: string)
    requires Contains(e, m + "@" + d)
    ensures '@' in e
  {
    hide IndexFrom;
    var a, b := CutAt(e, m + "@" + d);
    assert e[|a| + |m|] == '@';
  }

  lemma NoAtNoSender(e: string, m: string, d: string)
    requires '@' !in e
    ensures !Contains(e, m + "@" + d)
  {
    if Contains(e, m + "@" + d) { SenderHasAt(e, m, d); }
  }

  /** A sender in an address: the mailbox ends its local part and the domain begins its own. */
  lemma SenderInside(l: string, r: string, m: string, d: string)
    requires '@' !in l && '@' !in r && '@' !in m && '@' !in d && Contains(l + "@" + r, m + "@" + d)
    ensures |m| <= |l| && l == l[..|l| - |m|] + m && d <= r
    ensures Index(l + "@" + r, m + "@" + d) == Some(|l| - |m|)
  {
    hide IndexFrom;
    var a, b := CutAt(l + "@" + r, m + "@" + d);
    assert l + "@" + r == (a + m) + "@" + (d + b);
    AtAroundCut(a, m, d, b, l, r);
    CutUnique(l, r, a + m, d + b);
    assert l[..|l| - |m|] == a;
  }

  lemma AtAroundCut(a: string, m: string, d: string, b: string, l: string, r: string)
    requires '@' !in l && '@' !in r && l + "@" + r == (a + m) + "@" + (d + b)
    ensures '@' !in d + b
  {
    LastAt(l, r);
    var e := l + "@" + r;
    assert e[|a + m|] == '@';
    assert forall i :: 0 <= i < |l| ==> e[i] == l[i];
    assert |a + m| == |l|;
    assert d + b == e[|l| + 1..];
  }

  /** One replacement: the local part's end and the domain's beginning are exchanged. */
  lemma SenderReplaced(l: string, r: string, m: string, d: string, o: string) returns (x: string, y: string)
    requires '@' !in l && '@' !in r && '@' !in m && '@' !in d && Contains(l + "@" + r, m + "@" + d)
    ensures l == x + m && r == d + y && '@' !in x && '@' !in y
    ensures ReplaceAll(l + "@" + r, m + "@" + d, o) == x + o + y
  {
    var e, s := l + "@" + r, m + "@" + d;
    SenderInside(l, r, m, d);
    x, y := l[..|l| - |m|], r[|d|..];
    assert r == d + y;
    assert e == x + s + y;
    hide ReplaceAll, Index;
    ReplaceAt(e, s, o, x, y);
    NoAtNoSender(y, m, d);
    NothingToReplace(y, s, o);
  }

  // ---------- what no order can repair

  ghost predicate AreSenders(order: seq<string>, m: string) {
    forall i :: 0 <= i < |order| ==> order[i] != "" && exists d :: '@' !in d && order[i] == m + "@" + d
  }

  lemma {:induction false} Untouched(order: seq<string>, m: string, e: string, o: string)
    requires AreSenders(order, m) && forall d :: '@' !in d ==> !Contains(e, m + "@" + d)
    ensures Rewritten(order, e, o) == e
  {
    hide ReplaceAll, Index;
    if order != [] {
      var n := |order| - 1;
      assert AreSenders(order[..n], m) by { assert forall i :: 0 <= i < n ==> order[..n][i] == order[i]; }
      Untouched(order[..n], m, e, o);
      NothingToReplace(e, order[n], o);
    }
  }

  /** Once the mailbox x + m has been exchanged, the local part never is x + m again. */
  predicate Moved(l: string, x: string, m: string, lo: string) {
    && (|lo| > |m| ==> |l| >= |x| + |lo|)
    && (|lo| < |m| ==> |l| <= |x| + |lo|)
    && (|lo| == |m| ==> l == x + lo)
  }

  predicate EndsAtSign(h: string) { h == "" || h[|h| - 1] == '@' }

  /** `e` has come from `a` by exchanges, the leftmost of them at this '@': up to h they agree, and the piece before the
      '@', which was wl + m, now is ul. */
  predicate AstrayBy(e: string, a: string, m: string, lo: string, h: string, wl: string, ul: string) {
    && EndsAtSign(h) && '@' !in wl && '@' !in ul && Moved(ul, wl, m, lo)
    && h + (wl + m) + "@" <= a && h + ul + "@" <= e
  }

  ghost predicate Astray(e: string, a: string, m: string, lo: string) {
    exists h, wl, ul :: AstrayBy(e, a, m, lo, h, wl, ul)
  }

  lemma PieceThenRest(e: string, x: string, l: string, r: string, z: string)
    requires e == x + (l + "@" + r) + z
    ensures x + l + "@" <= e
  {
    assert e == (x + l + "@") + (r + z);
  }

  /** The first replacement in an address with any number of '@'. */
  lemma FirstReplaced(e: string, s: string, m: string, d: string, lo: string, ro: string) returns (x: string)
    requires s == m + "@" + d && s != "" && Contains(e, s)
    ensures x + m + "@" <= e && x + lo + "@" <= ReplaceAll(e, s, lo + "@" + ro)
  {
    hide ReplaceAll, IndexFrom;
    var y: string;
    x, y := CutAt(e, s);
    PieceThenRest(e, x, m, d, y);
    var r := ReplaceAll(e, s, lo + "@" + ro);
    var z := ReplaceAll(y, s, lo + "@" + ro);
    assert r == x + (lo + "@" + ro) + z by { ReplaceAt(e, s, lo + "@" + ro, x, y); }
    PieceThenRest(r, x, lo, ro, z);
  }

  /** The piece after the last '@'. */
  lemma LastPiece(x: string) returns (h: string, l: string)
    ensures x == h + l && EndsAtSign(h) && '@' !in l
  {
    match LastIndex(x, '@')
    case None => h, l := "", x;
    case Some(i) => h, l := x[..i + 1], x[i + 1..];
  }

  lemma AstrayFrom(e: string, a: string, x: string, m: string, lo: string)
    requires '@' !in lo && x + m + "@" <= a && x + lo + "@" <= e
    ensures Astray(e, a, m, lo)
  {
    var h, wl := LastPiece(x);
    assert h + (wl + m) + "@" == x + m + "@" && h + (wl + lo) + "@" == x + lo + "@";
    assert '@' !in wl + lo;
    assert AstrayBy(e, a, m, lo, h, wl, wl + lo);
  }

  /** Two beginnings of one text that end in '@', the second after an '@'-free piece: the first is not longer, or it is
      shorter than that piece leaves room for, or they are the same. */
  lemma AtSigns(e: string, u: string, h: string, l: string)
    requires u + "@" <= e && h + l + "@" <= e && '@' !in l
    ensures |u| >= |h + l| || |u| < |h|
    ensures |u| == |h + l| ==> u == h + l
    ensures |u| < |h| ==> u + "@" <= h
    ensures |u| > |h + l| ==> h + l + "@" <= u
  {
    assert e[|u|] == '@' && e[|h + l|] == '@';
    assert forall i :: 0 <= i < |l| ==> e[|h| + i] == l[i];
    assert u == e[..|u|] && h + l == e[..|h + l|] && h == e[..|h|];
  }

  lemma MailboxInPiece(x: string, m: string, h: string, l: string) returns (l': string)
    requires x + m == h + l && EndsAtSign(h) && '@' !in m
    ensures l == l' + m && x == h + l'
  {
    var e := x + m;
    assert forall i :: 0 <= i < |m| ==> e[|x| + i] == m[i];
    if h != "" { assert e[|h| - 1] == '@'; }
    assert |h| <= |x|;
    l' := x[|h|..];
    assert x == e[..|x|] && h == e[..|h|] && l == e[|h|..];
  }

  lemma AstrayStep(e: string, a: string, s: string, m: string, d: string, lo: string, ro: string)
    requires s == m + "@" + d && s != "" && '@' !in m && '@' !in lo && lo != m && Astray(e, a, m, lo)
    ensures Astray(ReplaceAll(e, s, lo + "@" + ro), a, m, lo)
  {
    hide ReplaceAll, Index, Moved;
    if !Contains(e, s) {
      NothingToReplace(e, s, lo + "@" + ro);
    } else {
      var e' := ReplaceAll(e, s, lo + "@" + ro);
      var h, wl, ul :| AstrayBy(e, a, m, lo, h, wl, ul);
      var x := FirstReplaced(e, s, m, d, lo, ro);
      AtSigns(e, x + m, h, ul);
      if |x + m| == |h + ul| {
        var l := MailboxInPiece(x, m, h, ul);
        MovedStep(ul, l, wl, m, lo);
        assert h + (l + lo) + "@" == x + lo + "@";
        assert '@' !in l + lo;
        assert AstrayBy(e', a, m, lo, h, wl, l + lo);
      } else if |x + m| < |h| {
        assert h <= h + (wl + m) + "@";
        AstrayFrom(e', a, x, m, lo);
      } else {
        BeforeMailbox(x, m, h + ul);
        assert x <= x + lo + "@";
        assert AstrayBy(e', a, m, lo, h, wl, ul);
      }
    }
  }

  lemma BeforeMailbox(x: string, m: string, u: string)
    requires u + "@" <= x + m && '@' !in m
    ensures u + "@" <= x
  {
    var e := x + m;
    assert e[|u|] == '@';
    assert forall i :: 0 <= i < |m| ==> e[|x| + i] == m[i];
    assert |u| < |x|;
    assert x == e[..|x|] && u + "@" == e[..|u| + 1];
  }

  lemma SameEnd(x: string, a: string, y: string, b: string)
    requires |a| == |b| && x + a == y + b
    ensures a == b
  {
    assert a == (x + a)[|x + a| - |a|..];
    assert b == (y + b)[|y + b| - |b|..];
  }

  lemma MovedStep(l: string, x': string, x: string, m: string, lo: string)
    requires Moved(l, x, m, lo) && lo != m && l == x' + m
    ensures Moved(x' + lo, x, m, lo)
  {
    if |lo| == |m| { SameEnd(x, lo, x', m); }
  }

  lemma {:induction false} StaysAstray(order: seq<string>, e: string, a: string, m: string, lo: string, ro: string)
    requires AreSenders(order, m) && '@' !in m && '@' !in lo && lo != m && Astray(e, a, m, lo)
    ensures Astray(Rewritten(order, e, lo + "@" + ro), a, m, lo)
  {
    hide ReplaceAll, Astray;
    if order != [] {
      var n := |order| - 1;
      assert AreSenders(order[..n], m) by { assert forall i :: 0 <= i < n ==> order[..n][i] == order[i]; }
      StaysAstray(order[..n], e, a, m, lo, ro);
      var d :| '@' !in d && order[n] == m + "@" + d;
      AstrayStep(Rewritten(order[..n], e, lo + "@" + ro), a, order[n], m, d, lo, ro);
    }
  }

  lemma AstrayNotBack(e: string, a: string, m: string, lo: string)
    requires Astray(e, a, m, lo) && lo != m && '@' !in m
    ensures e != a
  {
    var h, wl, ul :| AstrayBy(e, a, m, lo, h, wl, ul);
    if e == a {
      assert '@' !in wl + m;
      AtSigns(e, h + ul, h, wl + m);
      AtSigns(e, h + (wl + m), h, ul);
      SamePiece(h, ul, wl + m);
      if |lo| == |m| { SameEnd(wl, lo, wl, m); }
    }
  }

  lemma SamePiece(h: string, a: string, b: string)
    requires h + a == h + b
    ensures a == b
  {
    assert a == (h + a)[|h|..] && b == (h + b)[|h|..];
  }

  // ---------- counting '@'

  function Ats(s: string): nat { if s == "" then 0 else (if s[0] == '@' then 1 else 0) + Ats(s[1..]) }

  lemma {:induction false} AtsSum(a: string, b: string)
    ensures Ats(a + b) == Ats(a) + Ats(b)
  {
    if a == "" {
      assert a + b == b;
    } else {
      assert (a + b)[1..] == a[1..] + b;
      AtsSum(a[1..], b);
    }
  }

  lemma {:induction false} AtsNone(s: string)
    ensures Ats(s) == 0 <==> '@' !in s
  {
    if s != "" {
      AtsNone(s[1..]);
      assert s == [s[0]] + s[1..];
    }
  }

  lemma AtsSender(s: string, m: string, d: string)
    requires s == m + "@" + d && '@' !in m && '@' !in d
    ensures Ats(s) == 1
  {
    AtsSum(m + "@", d);
    AtsSum(m, "@");
    AtsNone(m);
    AtsNone(d);
    assert Ats("@") == 1 by { assert "@"[1..] == ""; }
  }

  /** Replacing a sender changes the number of '@' as the replacement has more or fewer than one. */
  lemma {:induction false} AtsReplaced(e: string, s: string, o: string)
    requires s != "" && Ats(s) == 1
    ensures var r := ReplaceAll(e, s, o);
      && (Ats(o) == 0 ==> Ats(r) <= Ats(e) && (Contains(e, s) ==> Ats(r) < Ats(e)))
      && (Ats(o) >= 1 ==> Ats(r) >= Ats(e))
      && (Ats(o) >= 2 && Contains(e, s) ==> Ats(r) > Ats(e))
    decreases |e|
  {
    hide ReplaceAll, IndexFrom;
    if Contains(e, s) {
      var x, y := CutAt(e, s);
      ReplaceAt(e, s, o, x, y);
      AtsReplaced(y, s, o);
      AtsSum(x + s, y);
      AtsSum(x, s);
      AtsSum(x + o, ReplaceAll(y, s, o));
      AtsSum(x, o);
    } else {
      NothingToReplace(e, s, o);
    }
  }

  lemma {:induction false} AtsRewritten(order: seq<string>, m: string, e: string, o: string)
    requires AreSenders(order, m) && '@' !in m
    ensures Ats(o) == 0 ==> Ats(Rewritten(order, e, o)) <= Ats(e)
    ensures Ats(o) >= 1 ==> Ats(Rewritten(order, e, o)) >= Ats(e)
  {
    hide ReplaceAll;
    if order != [] {
      var n := |order| - 1;
      assert AreSenders(order[..n], m) by { assert forall i :: 0 <= i < n ==> order[..n][i] == order[i]; }
      AtsRewritten(order[..n], m, e, o);
      var d :| '@' !in d && order[n] == m + "@" + d;
      AtsSender(order[n], m, d);
      AtsReplaced(Rewritten(order[..n], e, o), order[n], o);
    }
  }

  /** An entry that should be o and is followed by something, where o has more than one '@': it stays so, or gets
      more. */
  lemma {:induction false} ManyAts(order: seq<string>, m: string, y: string, o: string)
    requires AreSenders(order, m) && '@' !in m && '@' !in y && Ats(o) >= 2
    ensures var e := Rewritten(order, o + y, o); e == o + y || Ats(e) > Ats(o)
  {
    hide ReplaceAll, Index;
    if order != [] {
      var n := |order| - 1;
      assert AreSenders(order[..n], m) by { assert forall i :: 0 <= i < n ==> order[..n][i] == order[i]; }
      ManyAts(order[..n], m, y, o);
      var e := Rewritten(order[..n], o + y, o);
      var d :| '@' !in d && order[n] == m + "@" + d;
      AtsSender(order[n], m, d);
      AtsReplaced(e, order[n], o);
      AtsSum(o, y);
      AtsNone(y);
      if !Contains(e, order[n]) { NothingToReplace(e, order[n], o); }
    }
  }

  // ---------- an original From with one '@'

  /** An entry that should be o = lo@ro: it is followed by something, or its local part has grown. */
  ghost predicate Overgrown(e: string, m: string, lo: string, ro: string) {
    || (exists y :: y != "" && '@' !in y && e == lo + "@" + (ro + y))
    || (exists l, r :: '@' !in l && '@' !in r && e == l + "@" + r && |l| > |lo| > |m|)
  }

  lemma OvergrownStep(e: string, m: string, d: string, lo: string, ro: string)
    requires '@' !in m && '@' !in d && '@' !in lo && '@' !in ro && lo != m && Overgrown(e, m, lo, ro)
    ensures Overgrown(ReplaceAll(e, m + "@" + d, lo + "@" + ro), m, lo, ro)
  {
    hide ReplaceAll, Index;
    var s, o := m + "@" + d, lo + "@" + ro;
    if !Contains(e, s) {
      NothingToReplace(e, s, o);
    } else if y :| y != "" && '@' !in y && e == lo + "@" + (ro + y) {
      GrownBy(e, lo, ro + y, s, m, d, lo, ro);
    } else {
      var l, r :| '@' !in l && '@' !in r && e == l + "@" + r && |l| > |lo| > |m|;
      GrownBy(e, l, r, s, m, d, lo, ro);
    }
  }

  lemma GrownLocal(x: string, m: string, lo: string, l: string)
    requires l == x + m && lo != m && (l == lo || |l| > |lo| > |m|)
    ensures |x| > 0 && |lo| > |m|
  {
    if l == lo && |m| == |lo| { SameEnd("", lo, x, m); }
  }

  lemma GrownBy(e: string, l: string, r: string, s: string, m: string, d: string, lo: string, ro: string)
    requires '@' !in l && '@' !in r && '@' !in m && '@' !in d && '@' !in lo && '@' !in ro && lo != m
    requires e == l + "@" + r && s == m + "@" + d && s != "" && Contains(e, s) && (l == lo || |l| > |lo| > |m|)
    ensures Overgrown(ReplaceAll(e, s, lo + "@" + ro), m, lo, ro)
  {
    hide ReplaceAll, Index, Overgrown;
    var x, y := SenderReplaced(l, r, m, d, lo + "@" + ro);
    assert |x| > 0 && |lo| > |m| by { GrownLocal(x, m, lo, l); }
    GrownShape(ReplaceAll(e, s, lo + "@" + ro), x, y, m, lo, ro);
  }

  lemma GrownShape(e: string, x: string, y: string, m: string, lo: string, ro: string)
    requires e == x + (lo + "@" + ro) + y && '@' !in x && '@' !in y && '@' !in lo && '@' !in ro && |x| > 0 && |lo| > |m|
    ensures Overgrown(e, m, lo, ro)
  {
    assert x + (lo + "@" + ro) + y == (x + lo) + "@" + (ro + y);
    assert '@' !in x + lo && '@' !in ro + y;
  }

  lemma {:induction false} StaysOvergrown(order: seq<string>, e: string, m: string, lo: string, ro: string)
    requires AreSenders(order, m) && '@' !in m && '@' !in lo && '@' !in ro && lo != m && Overgrown(e, m, lo, ro)
    ensures Overgrown(Rewritten(order, e, lo + "@" + ro), m, lo, ro)
  {
    hide ReplaceAll, Overgrown;
    if order != [] {
      var n := |order| - 1;
      assert AreSenders(order[..n], m) by { assert forall i :: 0 <= i < n ==> order[..n][i] == order[i]; }
      StaysOvergrown(order[..n], e, m, lo, ro);
      var d :| '@' !in d && order[n] == m + "@" + d;
      OvergrownStep(Rewritten(order[..n], e, lo + "@" + ro), m, d, lo, ro);
    }
  }

  lemma OvergrownIsOther(e: string, m: string, lo: string, ro: string)
    requires Overgrown(e, m, lo, ro) && '@' !in lo && '@' !in ro
    ensures e != lo + "@" + ro
  {
    if e == lo + "@" + ro {
      if l, r :| '@' !in l && '@' !in r && e == l + "@" + r && |l| > |lo| > |m| {
        CutUnique(l, r, lo, ro);
      }
    }
  }

  // ---------- the exact condition

  predicate Intended(a: string, senders: set<string>, o: string, result: string) {
    result == if a in senders then o else a
  }

  /** No address contains a sender other than by being it; and if an address is a sender, the original From, which takes
      its place, contains no other sender. */
  ghost predicate Clear(addrs: seq<string>, senders: set<string>, o: string) {
    && (forall s :: s in senders ==> WholeOnly(addrs, s))
    && (forall a, s :: a in addrs && a in senders && s in senders && s != a ==> !Contains(o, s))
  }

  lemma {:induction false} ClearEntry(order: seq<string>, a: string, senders: set<string>, o: string)
    requires NoDuplicates(order) && forall i :: 0 <= i < |order| ==> order[i] in senders && order[i] != ""
    requires forall s :: s in senders && Contains(a, s) ==> a == s
    requires a in senders ==> forall s :: s in senders && s != a ==> !Contains(o, s)
    ensures Rewritten(order, a, o) == if a in order then o else a
  {
    hide ReplaceAll, Index;
    if order != [] {
      var n := |order| - 1;
      var s := order[n];
      ClearEntry(order[..n], a, senders, o);
      assert order == order[..n] + [s];
      if a in order[..n] {
        NothingToReplace(o, s, o);
      } else if a == s {
        ReplaceWhole(s, o);
      } else {
        NothingToReplace(a, s, o);
      }
    }
  }

  /** An address that contains a sender other than by being it, with that sender's turn first. */
  lemma ContainedIsBad(rest: seq<string>, a: string, s: string, m: string, d: string, senders: set<string>, o: string)
    requires AreSenders(rest, m) && '@' !in m && '@' !in d && s == m + "@" + d && s != ""
    requires !(m + "@" <= o) && (forall x :: x in senders ==> exists d' :: '@' !in d' && x == m + "@" + d')
    requires Contains(a, s) && a != s
    ensures !Intended(a, senders, o, Rewritten(rest, ReplaceAll(a, s, o), o))
  {
    hide ReplaceAll, Index;
    if a in senders {
      var d' :| '@' !in d' && a == m + "@" + d';
      SenderIsBad(rest, a, s, m, d, d', o);
    } else {
      OtherIsBad(rest, a, s, m, d, o);
    }
  }

  lemma OtherIsBad(rest: seq<string>, a: string, s: string, m: string, d: string, o: string)
    requires AreSenders(rest, m) && '@' !in m && '@' !in d && s == m + "@" + d && s != "" && Contains(a, s)
    requires !(m + "@" <= o)
    ensures Rewritten(rest, ReplaceAll(a, s, o), o) != a
  {
    hide ReplaceAll, Index;
    var e := ReplaceAll(a, s, o);
    if '@' !in o {
      AtsSender(s, m, d);
      AtsReplaced(a, s, o);
      AtsNone(o);
      AtsRewritten(rest, m, e, o);
    } else {
      var lo, ro := FirstPiece(o);
      assert lo + "@" <= o;
      var x := FirstReplaced(a, s, m, d, lo, ro);
      AstrayFrom(e, a, x, m, lo);
      StaysAstray(rest, e, a, m, lo, ro);
      AstrayNotBack(Rewritten(rest, e, o), a, m, lo);
    }
  }

  /** A sender that begins with another one: what follows it is left over. */
  lemma SenderIsBad(rest: seq<string>, a: string, s: string, m: string, d: string, d': string, o: string)
    requires AreSenders(rest, m) && '@' !in m && '@' !in d && '@' !in d' && s == m + "@" + d && s != ""
    requires a == m + "@" + d' && Contains(a, s) && a != s && !(m + "@" <= o)
    ensures Rewritten(rest, ReplaceAll(a, s, o), o) != o
  {
    hide ReplaceAll, Index;
    var x, y := SenderReplaced(m, d', m, d, o);
    assert x == "";
    var e := ReplaceAll(a, s, o);
    assert e == o + y;
    assert y != "";
    if '@' !in o {
      assert '@' !in e;
      forall d'' | '@' !in d'' ensures !Contains(e, m + "@" + d'') { NoAtNoSender(e, m, d''); }
      Untouched(rest, m, e, o);
    } else {
      var lo, ro := FirstPiece(o);
      assert lo + "@" <= o;
      if '@' !in ro {
        assert e == lo + "@" + (ro + y);
        assert Overgrown(e, m, lo, ro);
        StaysOvergrown(rest, e, m, lo, ro);
        OvergrownIsOther(Rewritten(rest, e, o), m, lo, ro);
      } else {
        AtsTwo(o, lo, ro);
        ManyAts(rest, m, y, o);
      }
    }
  }

  lemma AtsTwo(o: string, lo: string, ro: string)
    requires o == lo + "@" + ro && '@' in ro
    ensures Ats(o) >= 2
  {
    AtsSum(lo + "@", ro);
    AtsSum(lo, "@");
    AtsNone(ro);
    assert Ats("@") == 1 by { assert "@"[1..] == ""; }
  }

  /** The piece before the first '@'. */
  lemma {:induction false} FirstPiece(o: string) returns (l: string, r: string)
    requires '@' in o
    ensures o == l + "@" + r && '@' !in l
  {
    if o[0] == '@' {
      l, r := "", o[1..];
    } else {
      assert o == [o[0]] + o[1..];
      l, r := FirstPiece(o[1..]);
      l := [o[0]] + l;
    }
  }

  /** A sender is replaced by an original From that contains another sender, whose turn comes next. */
  lemma ReplacedIsBad(rest: seq<string>, s: string, m: string, d: string, o: string)
    requires AreSenders(rest, m) && '@' !in m && '@' !in d && s == m + "@" + d && s != ""
    requires !(m + "@" <= o) && Contains(o, s)
    ensures Rewritten(rest, ReplaceAll(o, s, o), o) != o
  {
    hide ReplaceAll, Index;
    SenderHasAt(o, m, d);
    var lo, ro := FirstPiece(o);
    assert lo + "@" <= o;
    var e := ReplaceAll(o, s, o);
    if '@' !in ro {
      GrownBy(o, lo, ro, s, m, d, lo, ro);
      StaysOvergrown(rest, e, m, lo, ro);
      OvergrownIsOther(Rewritten(rest, e, o), m, lo, ro);
    } else {
      AtsTwo(o, lo, ro);
      AtsSender(s, m, d);
      AtsReplaced(o, s, o);
      AtsRewritten(rest, m, e, o);
    }
  }

  lemma FirstInOrder(s: string, senders: set<string>, m: string) returns (rest: seq<string>)
    requires s in senders && forall x :: x in senders ==> x != "" && exists d :: '@' !in d && x == m + "@" + d
    ensures IsOrder([s] + rest, senders) && AreSenders(rest, m)
  {
    rest := CanonicalList.Enumerate(senders - {s});
    assert forall i :: 0 <= i < |rest| ==> rest[i] in Members(rest);
    CanonicalList.MembersConcat([s], rest);
    assert Members([s]) == {s};
  }

  lemma FirstTwoInOrder(a: string, s: string, senders: set<string>, m: string) returns (rest: seq<string>)
    requires a in senders && s in senders && a != s
    requires forall x :: x in senders ==> x != "" && exists d :: '@' !in d && x == m + "@" + d
    ensures IsOrder([a] + ([s] + rest), senders) && AreSenders([s] + rest, m) && AreSenders(rest, m)
  {
    var others := senders - {a};
    rest := FirstInOrder(s, others, m);
    assert forall i :: 0 <= i < |[s] + rest| ==> ([s] + rest)[i] in Members([s] + rest);
    CanonicalList.MembersConcat([a], [s] + rest);
    assert Members([a]) == {a};
  }

  /** Under these conditions every order gives the intended list. */
  lemma ClearIsEnough(senders: set<string>, addrs: seq<string>, o: string, result: string)
    requires Clear(addrs, senders, o) && RewrittenSomehow(senders, Join(addrs, ','), o, result)
    requires forall s :: s in senders ==> ',' !in s
    ensures result == Join(Swapped(addrs, senders, o), ',')
  {
    hide Rewritten, Index;
    var order :| IsOrder(order, senders) && (forall i :: 0 <= i < |order| ==> order[i] != "")
                 && result == Rewritten(order, Join(addrs, ','), o);
    assert forall i :: 0 <= i < |order| ==> order[i] in Members(order);
    RewrittenByEntry(order, addrs, o);
    forall i | 0 <= i < |addrs|
      ensures RewrittenEach(order, addrs, o)[i] == Swapped(addrs, senders, o)[i]
    {
      assert addrs[i] in addrs;
      ClearEntry(order, addrs[i], senders, o);
      assert addrs[i] in order <==> addrs[i] in Members(order);
    }
    assert RewrittenEach(order, addrs, o) == Swapped(addrs, senders, o);
  }

  /** If the header is as intended for this order, so is every entry. */
  lemma IntendedEntry(order: seq<string>, senders: set<string>, addrs: seq<string>, o: string, i: nat)
    requires (forall k :: 0 <= k < |order| ==> order[k] != "" && ',' !in order[k]) && ',' !in o
    requires (forall k :: 0 <= k < |addrs| ==> ',' !in addrs[k]) && i < |addrs|
    requires Rewritten(order, Join(addrs, ','), o) == Join(Swapped(addrs, senders, o), ',')
    ensures Intended(addrs[i], senders, o, Rewritten(order, addrs[i], o))
  {
    hide Rewritten;
    var each, swapped := RewrittenEach(order, addrs, o), Swapped(addrs, senders, o);
    RewrittenByEntry(order, addrs, o);
    forall k | 0 <= k < |addrs| ensures ',' !in each[k] && ',' !in swapped[k] {
      RewrittenCommaFree(order, addrs[k], o);
    }
    JoinInjective(each, swapped);
    assert each[i] == swapped[i];
  }

  /** Every order leaves the header as intended. */
  ghost predicate AlwaysIntended(senders: set<string>, addrs: seq<string>, o: string) {
    forall result :: RewrittenSomehow(senders, Join(addrs, ','), o, result) ==>
      result == Join(Swapped(addrs, senders, o), ',')
  }

  predicate Named(s: string) { s != "" && ',' !in s }

  lemma OrderIntended(order: seq<string>, senders: set<string>, addrs: seq<string>, o: string, i: nat)
    requires AlwaysIntended(senders, addrs, o) && IsOrder(order, senders) && ',' !in o
    requires forall s :: s in senders ==> Named(s)
    requires (forall k :: 0 <= k < |addrs| ==> ',' !in addrs[k]) && i < |addrs|
    ensures forall k :: 0 <= k < |order| ==> order[k] != ""
    ensures Intended(addrs[i], senders, o, Rewritten(order, addrs[i], o))
  {
    hide Rewritten;
    assert forall k :: 0 <= k < |order| ==> order[k] in Members(order);
    assert RewrittenSomehow(senders, Join(addrs, ','), o, Rewritten(order, Join(addrs, ','), o));
    IntendedEntry(order, senders, addrs, o, i);
  }

  lemma AlwaysMeansWhole(senders: set<string>, m: string, addrs: seq<string>, o: string, s: string, i: nat)
    requires AlwaysIntended(senders, addrs, o) && '@' !in m && !(m + "@" <= o) && ',' !in o
    requires forall x :: x in senders ==> Named(x) && exists d :: '@' !in d && x == m + "@" + d
    requires forall k :: 0 <= k < |addrs| ==> ',' !in addrs[k]
    requires s in senders && i < |addrs| && Contains(addrs[i], s)
    ensures addrs[i] == s
  {
    hide Rewritten, ReplaceAll, Index, AlwaysIntended;
    var rest := FirstInOrder(s, senders, m);
    OrderIntended([s] + rest, senders, addrs, o, i);
    RewrittenCons(s, rest, addrs[i], o);
    if addrs[i] != s {
      var d :| '@' !in d && s == m + "@" + d;
      ContainedIsBad(rest, addrs[i], s, m, d, senders, o);
    }
  }

  lemma AlwaysMeansApart(senders: set<string>, m: string, addrs: seq<string>, o: string, a: string, s: string)
    requires AlwaysIntended(senders, addrs, o) && '@' !in m && !(m + "@" <= o) && ',' !in o
    requires forall x :: x in senders ==> Named(x) && exists d :: '@' !in d && x == m + "@" + d
    requires forall k :: 0 <= k < |addrs| ==> ',' !in addrs[k]
    requires a in addrs && a in senders && s in senders && s != a
    ensures !Contains(o, s)
  {
    hide Rewritten, ReplaceAll, Index, AlwaysIntended;
    var i :| 0 <= i < |addrs| && addrs[i] == a;
    var rest := FirstTwoInOrder(a, s, senders, m);
    OrderIntended([a] + ([s] + rest), senders, addrs, o, i);
    RewrittenCons(a, [s] + rest, a, o);
    ReplaceWhole(a, o);
    RewrittenCons(s, rest, o, o);
    if Contains(o, s) {
      var d :| '@' !in d && s == m + "@" + d;
      ReplacedIsBad(rest, s, m, d, o);
    }
  }

  /** For every list of addresses, whatever the number of configured domains: all orders leave CC as intended if and
      only if no address contains a sender other than by being it, and an original From that takes a sender's place
      contains no other one. The original From is not of the room's own mailbox. */
  lemma EveryOrderExact(mailbox: string, domains: seq<string>, addrs: seq<string>, o: string)
    requires '@' !in mailbox && ',' !in mailbox && forall d :: d in domains ==> '@' !in d && ',' !in d
    requires forall i :: 0 <= i < |addrs| ==> ',' !in addrs[i]
    requires ',' !in o && !(mailbox + "@" <= o)
    ensures AlwaysIntended(Senders(mailbox, domains), addrs, o) <==> Clear(addrs, Senders(mailbox, domains), o)
  {
    hide Index, RewrittenSomehow;
    var senders := Senders(mailbox, domains);
    SenderNotEmpty(mailbox, domains);
    assert forall x :: x in senders ==> Named(x) && exists d :: '@' !in d && x == mailbox + "@" + d;
    if Clear(addrs, senders, o) {
      forall result | RewrittenSomehow(senders, Join(addrs, ','), o, result)
        ensures result == Join(Swapped(addrs, senders, o), ',')
      {
        ClearIsEnough(senders, addrs, o, result);
      }
    }
    if AlwaysIntended(senders, addrs, o) {
      forall s, i | s in senders && 0 <= i < |addrs| && Contains(addrs[i], s)
        ensures addrs[i] == s
      {
        AlwaysMeansWhole(senders, mailbox, addrs, o, s, i);
      }
      forall a, s | a in addrs && a in senders && s in senders && s != a
        ensures !Contains(o, s)
      {
        AlwaysMeansApart(senders, mailbox, addrs, o, a, s);
      }
    }
  }

  lemma SenderReplacedAt(x: string, m: string, d: string, y: string, o: string)
    requires '@' !in x && '@' !in m && '@' !in d && '@' !in y
    ensures ReplaceAll((x + m) + "@" + (d + y), m + "@" + d, o) == x + o + y
  {
    var s := m + "@" + d;
    var e := (x + m) + "@" + (d + y);
    assert e == x + s + y;
    assert e[|x|..|x| + |s|] == s;
    assert OccursAt(e, s, |x|);
    hide ReplaceAll, IndexFrom;
    var x', y' := SenderReplaced(x + m, d + y, m, d, o);
    assert x' == (x' + m)[..|x'|] && x == (x + m)[..|x|] && y' == (d + y')[|d|..] && y == (d + y)[|d|..];
  }

  /** An original From of the room's own mailbox is a different matter: here every order gives the intended list,
      although the one address contains both senders. */
  lemma OwnMailboxBack(m: string)
    requires '@' !in m
    ensures var a, s, t, o := "x" + m + "@" + "abb", m + "@" + "a", m + "@" + "abb", m + "@" + "ab";
      Rewritten([s, t], a, o) == a && Rewritten([t, s], a, o) == a
  {
    hide ReplaceAll, Rewritten;
    var l := "x" + m;
    var a, s, t, o := l + "@" + "abb", m + "@" + "a", m + "@" + "abb", m + "@" + "ab";
    RewrittenTwice(s, t, a, o);
    RewrittenTwice(t, s, a, o);
    assert "a" + "bb" == "abb" && "abb" + "b" == "abbb" && "abb" + "" == "abb" && "a" + "b" == "ab";
    SenderReplacedAt("x", m, "a", "bb", o);
    assert "x" + o + "bb" == l + "@" + "abbb";
    SenderReplacedAt("x", m, "abb", "b", o);
    assert "x" + o + "b" == a;
    SenderReplacedAt("x", m, "abb", "", o);
    assert "x" + o + "" == l + "@" + "ab";
    SenderReplacedAt("x", m, "a", "b", o);
  }
}
