/** A room's settings, a map of strings to strings (internal/bot/config/room.go). */
module RoomConfig {
  import opened Text

  type Options = map<string, string>

  const SPAMLIST := "spamlist"
  const EMAILS := "spamlist:emails"
  const LOCALPARTS := "spamlist:localparts"
  const HOSTS := "spamlist:hosts"
  const MAILBOX := "mailbox"
  const ALIASES := "aliases"
  const ACTIVE := ".active"

  /** `Get`: a missing option reads as the empty string. (`Get` and `Set` also trim and lower-case the
      option's name, which changes none of the names above.) */
  function Lookup(cfg: Options, key: string): string { if key in cfg then cfg[key] else "" }

  lemma KeysDiffer()
    ensures SPAMLIST !in {EMAILS, LOCALPARTS, HOSTS, MAILBOX, ALIASES, ACTIVE}
    ensures MAILBOX !in {EMAILS, LOCALPARTS, HOSTS} && ALIASES !in {EMAILS, LOCALPARTS, HOSTS}
    ensures ACTIVE !in {EMAILS, LOCALPARTS, HOSTS, MAILBOX, ALIASES} && MAILBOX != ALIASES
  {
    assert |SPAMLIST| == 8 && |EMAILS| == 15 && |LOCALPARTS| == 19 && |HOSTS| == 14;
    assert |MAILBOX| == 7 && |ALIASES| == 7 && |ACTIVE| == 7;
    assert MAILBOX[0] == 'm' && ALIASES[0] == 'a' && ACTIVE[0] == '.';
  }

  /** utils.Bool */
  predicate Truthy(s: string) { var l := ToLower(s); l == "1" || l == "true" || l == "yes" }

  /** The values that switch an option on, in any case. */
  lemma TruthyExact(s: string)
    ensures Truthy(s) <==> s == "1" || SameButCase(s, "true") || SameButCase(s, "yes")
  {
    assert ToLower("1") == "1" && ToLower("true") == "true" && ToLower("yes") == "yes";
    ToLowerExact(s, "1");
    ToLowerExact(s, "true");
    ToLowerExact(s, "yes");
    hide ToLower;
    assert SameButCase(s, "1") <==> s == "1" by { OneHasNoCase(s); }
  }

  lemma OneHasNoCase(s: string)
    ensures SameButCase(s, "1") <==> s == "1"
  {
    forall i | 0 <= i < 26 ensures UPPER_CASE[i] != '1' && LOWER_CASE[i] != '1' { Alphabet(i); }
  }
}

/** Lists in canonical form: sorted, without duplicates, of proper elements. */
module CanonicalList {
  import opened Text
  import opened Sorting
  import opened ListCodec

  lemma MembersConcat(xs: seq<string>, ys: seq<string>)
    ensures Members(xs + ys) == Members(xs) + Members(ys)
  {
    forall x | x in Members(xs) + Members(ys) ensures x in xs + ys {
      if x in xs {
        var i :| 0 <= i < |xs| && xs[i] == x;
        assert (xs + ys)[i] == x;
      } else {
        var i :| 0 <= i < |ys| && ys[i] == x;
        assert (xs + ys)[|xs| + i] == x;
      }
    }
  }

  lemma MembersSnoc(xs: seq<string>, x: string)
    ensures Members(xs + [x]) == Members(xs) + {x}
  {
    MembersConcat(xs, [x]);
  }

  function Elements(str: string): set<string> { Members(Parts(str)) }

  ghost predicate Canonical(str: string) {
    && AllProper(Parts(str)) && Sorted(Parts(str)) && NoDuplicates(Parts(str))
    && Join(Parts(str), ',') == str
  }

  lemma {:induction false} NoDupMultiset(xs: seq<string>)
    requires NoDuplicates(xs)
    ensures multiset(xs) == multiset(Members(xs))
  {
    if xs != [] {
      var n := |xs| - 1;
      NoDupMultiset(xs[..n]);
      assert xs == xs[..n] + [xs[n]];
      assert xs[n] !in Members(xs[..n]);
      MembersConcat(xs[..n], [xs[n]]);
    }
  }

  lemma {:induction false} MultisetNoDup(xs: seq<string>, ys: seq<string>)
    requires multiset(xs) == multiset(ys) && NoDuplicates(xs)
    ensures NoDuplicates(ys) && Members(ys) == Members(xs)
  {
    SameMembers(xs, ys);
    NoDupMultiset(xs);
    forall i, j | 0 <= i < j < |ys| ensures ys[i] != ys[j] {
      var a, b := ys[..j], ys[j..];
      assert ys == a + b && b[0] == ys[j] && a[i] == ys[i];
      assert multiset(ys)[ys[j]] <= 1 && multiset(b)[ys[j]] >= 1;
      assert ys[j] !in multiset(a);
    }
  }

  /** Storing a list of distinct proper elements gives a canonical string with just these elements. */
  lemma SlicedCanonical(xs: seq<string>)
    requires AllProper(xs) && NoDuplicates(xs)
    ensures Canonical(Sliced(xs)) && Elements(Sliced(xs)) == Members(xs)
  {
    CleanFixed(xs);
    SortSorts(xs);
    MultisetNoDup(xs, Sort(xs));
    SortKeepsProper(xs);
    PartsOfJoin(Sort(xs));
  }

  /** A canonical string is determined by its elements. */
  lemma CanonicalUnique(a: string, b: string)
    requires Canonical(a) && Canonical(b) && Elements(a) == Elements(b)
    ensures a == b
  {
    NoDupMultiset(Parts(a));
    NoDupMultiset(Parts(b));
    SortedUnique(Parts(a), Parts(b));
  }

  /** Any two enumerations of one set are stored alike. */
  lemma SlicedOfSameSet(xs: seq<string>, ys: seq<string>)
    requires NoDuplicates(xs) && NoDuplicates(ys) && Members(xs) == Members(ys)
    ensures Sliced(xs) == Sliced(ys)
  {
    NoDupMultiset(xs);
    NoDupMultiset(ys);
    SlicedOfPermutation(xs, ys);
  }

  /** Some enumeration of a set. */
  ghost function Enumerate(s: set<string>): (xs: seq<string>)
    ensures NoDuplicates(xs) && Members(xs) == s
  {
    if s == {} then []
    else
      var x :| x in s;
      var rest := Enumerate(s - {x});
      assert forall i :: 0 <= i < |rest| ==> rest[i] in Members(rest);
      MembersConcat([x], rest);
      [x] + rest
  }

  /** The string under which a set is stored. */
  ghost function Stored(s: set<string>): string { Sliced(Enumerate(s)) }

  lemma StoredCanonical(s: set<string>)
    requires forall x :: x in s ==> Proper(x)
    ensures Canonical(Stored(s)) && Elements(Stored(s)) == s
  {
    var xs := Enumerate(s);
    forall i | 0 <= i < |xs| ensures Proper(xs[i]) { assert xs[i] in Members(xs); }
    SlicedCanonical(xs);
  }

  /** A Go map used as a set, listed in whatever order the map gives. */
  method MapKeysInAnyOrder(s: set<string>) returns (xs: seq<string>)
    ensures NoDuplicates(xs) && Members(xs) == s
  {
    xs := [];
    var rest := s;
    while rest != {}
      invariant NoDuplicates(xs) && Members(xs) == s - rest && rest <= s
      decreases rest
    {
      var x :| x in rest;
      assert forall i :: 0 <= i < |xs| ==> xs[i] in Members(xs);
      MembersConcat(xs, [x]);
      xs := xs + [x];
      rest := rest - {x};
    }
  }
}
