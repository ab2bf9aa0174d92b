/** The spamlist of a room: its migration from three older settings (internal/bot/config/room.go) and
    the owner's commands on it (internal/bot/command_owner.go). */
module Spamlist {
  import opened Text
  import opened ListCodec
  import opened RoomConfig
  import opened CanonicalList

  /* ---------- migration ---------- */

  function NonEmpty(xs: seq<string>): set<string> { set x | x in xs && x != "" }

  function AnyHost(localparts: set<string>): set<string> { set x | x in localparts :: x + "@*" }

  function AnyLocalpart(hosts: set<string>): set<string> { set x | x in hosts :: "*@" + x }

  /** What the four settings list, in the spamlist's notation. */
  function Listed(cfg: Options): set<string> {
    NonEmpty(Parts(Lookup(cfg, EMAILS)))
    + AnyHost(NonEmpty(Parts(Lookup(cfg, LOCALPARTS))))
    + AnyLocalpart(NonEmpty(Parts(Lookup(cfg, HOSTS))))
    + NonEmpty(Parts(Lookup(cfg, SPAMLIST)))
  }

  ghost function Migrated(cfg: Options): Options {
    (cfg - {EMAILS, LOCALPARTS, HOSTS})[SPAMLIST := Stored(Listed(cfg))]
  }

  lemma NonEmptyNext(xs: seq<string>, i: nat)
    requires i < |xs|
    ensures NonEmpty(xs[..i + 1]) == NonEmpty(xs[..i]) + if xs[i] == "" then {} else {xs[i]}
  {
    assert xs[..i + 1] == xs[..i] + [xs[i]];
  }

  /** The part of the migration that fills `uniq`. */
  method CollectListed(emails: seq<string>, localparts: seq<string>, hosts: seq<string>, list: seq<string>)
    returns (uniq: set<string>)
    ensures uniq == NonEmpty(emails) + AnyHost(NonEmpty(localparts)) + AnyLocalpart(NonEmpty(hosts)) + NonEmpty(list)
  {
    uniq := {};
    for i := 0 to |emails|
      invariant uniq == NonEmpty(emails[..i])
    {
      NonEmptyNext(emails, i);
      if emails[i] != "" { uniq := uniq + {emails[i]}; }
    }
    ghost var a := uniq;
    for i := 0 to |localparts|
      invariant uniq == a + AnyHost(NonEmpty(localparts[..i]))
    {
      NonEmptyNext(localparts, i);
      if localparts[i] != "" { uniq := uniq + {localparts[i] + "@*"}; }
    }
    ghost var b := uniq;
    for i := 0 to |hosts|
      invariant uniq == b + AnyLocalpart(NonEmpty(hosts[..i]))
    {
      NonEmptyNext(hosts, i);
      if hosts[i] != "" { uniq := uniq + {"*@" + hosts[i]}; }
    }
    ghost var c := uniq;
    for i := 0 to |list|
      invariant uniq == c + NonEmpty(list[..i])
    {
      NonEmptyNext(list, i);
      if list[i] != "" { uniq := uniq + {list[i]}; }
    }
    assert emails[..|emails|] == emails && localparts[..|localparts|] == localparts;
    assert hosts[..|hosts|] == hosts && list[..|list|] == list;
  }

  lemma PartsProper(str: string)
    ensures forall x :: x in NonEmpty(Parts(str)) ==> Proper(x)
  {
    PartsClean(str);
  }

  lemma ListedProper(cfg: Options)
    ensures forall x :: x in Listed(cfg) ==> Proper(x)
  {
    PartsProper(Lookup(cfg, EMAILS));
    PartsProper(Lookup(cfg, LOCALPARTS));
    PartsProper(Lookup(cfg, HOSTS));
    PartsProper(Lookup(cfg, SPAMLIST));
  }

  /** The migrated spamlist is canonical and lists exactly what the four settings listed; the three old
      settings are gone and no other option changes. */
  lemma MigrationExact(cfg: Options)
    ensures var cfg' := Migrated(cfg);
      && Canonical(Lookup(cfg', SPAMLIST)) && Elements(Lookup(cfg', SPAMLIST)) == Listed(cfg)
      && cfg'.Keys == cfg.Keys - {EMAILS, LOCALPARTS, HOSTS} + {SPAMLIST}
      && forall k :: k in cfg' && k != SPAMLIST ==> cfg'[k] == cfg[k]
  {
    ListedProper(cfg);
    StoredCanonical(Listed(cfg));
  }

  lemma NonEmptyOfProper(xs: seq<string>)
    requires AllProper(xs)
    ensures NonEmpty(xs) == Members(xs)
  {
    forall x | x in xs ensures x != "" {
      var i :| 0 <= i < |xs| && xs[i] == x;
    }
  }

  lemma NothingListed()
    ensures NonEmpty(Parts("")) == {} && AnyHost({}) == {} && AnyLocalpart({}) == {}
  {
  }

  lemma ListedAfterMigration(cfg: Options)
    ensures Listed(Migrated(cfg)) == Listed(cfg)
  {
    var cfg' := Migrated(cfg);
    MigrationExact(cfg);
    KeysDiffer();
    assert Lookup(cfg', EMAILS) == "" && Lookup(cfg', LOCALPARTS) == "" && Lookup(cfg', HOSTS) == "";
    NothingListed();
    NonEmptyOfProper(Parts(Lookup(cfg', SPAMLIST)));
    hide Migrated, Lookup, NonEmpty, AnyHost, AnyLocalpart, Parts;
  }

  /** A second migration changes nothing, whatever the settings were. */
  lemma MigrationIdempotent(cfg: Options)
    ensures Migrated(Migrated(cfg)) == Migrated(cfg)
  {
    ListedAfterMigration(cfg);
    KeysDiffer();
    hide Listed, Stored;
    var cfg' := Migrated(cfg);
    assert cfg' - {EMAILS, LOCALPARTS, HOSTS} == cfg';
  }

  /* ---------- the owner's commands ---------- */

  /** The list after `spam:add`: items not yet there are appended, trimmed. */
  function AddItems(list: seq<string>, items: seq<string>): seq<string> {
    if items == [] then list
    else
      var before := AddItems(list, items[..|items| - 1]);
      var item := TrimSpace(items[|items| - 1]);
      if item in before then before else before + [item]
  }

  function FirstIndex(xs: seq<string>, x: string): (r: Option<nat>)
    ensures r.Some? ==> r.value < |xs| && xs[r.value] == x
    ensures r.None? ==> x !in xs
  {
    if xs == [] then None
    else if xs[0] == x then Some(0)
    else
      match FirstIndex(xs[1..], x)
      case None => None
      case Some(i) => Some(i + 1)
  }

  /** The positions that `spam:remove` drops: the first occurrence of each trimmed item. */
  function Doomed(list: seq<string>, items: seq<string>): set<nat> {
    if items == [] then {}
    else
      var found := FirstIndex(list, TrimSpace(items[|items| - 1]));
      Doomed(list, items[..|items| - 1]) + if found.Some? then {found.value} else {}
  }

  function Spared(list: seq<string>, doomed: set<nat>): seq<string> {
    if list == [] then []
    else Spared(list[..|list| - 1], doomed) + if |list| - 1 in doomed then [] else [list[|list| - 1]]
  }

  datatype Command = Add(items: seq<string>) | Remove(items: seq<string>) | Reset

  /** The stored string after a command. */
  function Obeyed(str: string, c: Command): string {
    match c
    case Add(items) => if items == [] then str else Sliced(AddItems(Parts(str), items))
    case Remove(items) =>
      var doomed := Doomed(Parts(str), items);
      if doomed == {} then str else Sliced(Spared(Parts(str), doomed))
    case Reset => if Parts(str) == [] then str else ""
  }

  /** The items a command names, as the list holds them. */
  function Named(items: seq<string>): set<string> { Members(TrimAll(items)) - {""} }

  /** What a command does to the set of listed addresses. */
  function Meant(s: set<string>, c: Command): set<string> {
    match c
    case Add(items) => s + Named(items)
    case Remove(items) => s - Named(items)
    case Reset => {}
  }

  predicate PlainCommand(c: Command) { c.Reset? || CommaFree(c.items) }

  /** A list element that may be empty. */
  predicate Tidy(x: string) { Trimmed(x) && ',' !in x }

  ghost predicate AllTidy(xs: seq<string>) { forall i :: 0 <= i < |xs| ==> Tidy(xs[i]) }

  lemma Append(xs: seq<string>, x: string)
    requires NoDuplicates(xs) && AllTidy(xs) && x !in Members(xs) && Tidy(x)
    ensures NoDuplicates(xs + [x]) && AllTidy(xs + [x]) && Members(xs + [x]) == Members(xs) + {x}
  {
    MembersConcat(xs, [x]);
    assert forall i :: 0 <= i < |xs| ==> xs[i] in Members(xs);
  }

  lemma {:induction false} AddItemsMembers(list: seq<string>, items: seq<string>)
    requires NoDuplicates(list) && AllTidy(list) && CommaFree(items)
    ensures var r := AddItems(list, items);
      NoDuplicates(r) && AllTidy(r) && Members(r) == Members(list) + Members(TrimAll(items))
  {
    hide TrimSpace, NoDuplicates, AllTidy;
    if items != [] {
      var n := |items| - 1;
      AddItemsMembers(list, items[..n]);
      var before := AddItems(list, items[..n]);
      var item := TrimSpace(items[n]);
      TrimSpaceTrims(items[n]);
      assert TrimAll(items) == TrimAll(items[..n]) + [item];
      MembersConcat(TrimAll(items[..n]), [item]);
      if item !in before { Append(before, item); }
    }
  }

  lemma ProperSnoc(c: seq<string>, x: string)
    requires AllProper(c) && NoDuplicates(c) && Proper(x) && x !in Members(c)
    ensures AllProper(c + [x]) && NoDuplicates(c + [x]) && Members(c + [x]) == Members(c) + {x}
  {
    hide Proper;
    MembersSnoc(c, x);
    assert forall i :: 0 <= i < |c| ==> c[i] in Members(c);
  }

  lemma {:induction false} CleanOfTidy(xs: seq<string>)
    requires NoDuplicates(xs) && AllTidy(xs)
    ensures AllProper(Clean(xs)) && NoDuplicates(Clean(xs)) && Members(Clean(xs)) == Members(xs) - {""}
  {
    hide TrimSpace, Trimmed, AllProper;
    if xs == [] {
      assert Clean(xs) == [];
      NoneProper();
    } else {
      var n := |xs| - 1;
      var x, c := xs[n], Clean(xs[..n]);
      FrontTidy(xs, n);
      CleanOfTidy(xs[..n]);
      assert Tidy(x);
      TrimSpaceFixed(x);
      assert Clean(xs) == if x == "" then c else c + [x];
      hide Clean, NoDuplicates, AllTidy;
      if x != "" {
        assert Proper(x);
        ProperSnoc(c, x);
      }
    }
  }

  lemma FrontTidy(xs: seq<string>, n: nat)
    requires NoDuplicates(xs) && AllTidy(xs) && |xs| == n + 1
    ensures NoDuplicates(xs[..n]) && AllTidy(xs[..n]) && xs[n] !in Members(xs[..n])
    ensures Members(xs) == Members(xs[..n]) + {xs[n]}
  {
    hide Tidy;
    assert xs == xs[..n] + [xs[n]];
    MembersSnoc(xs[..n], xs[n]);
  }

  lemma NoneProper()
    ensures AllProper([])
  {}

  lemma SlicedOfTidy(xs: seq<string>)
    requires NoDuplicates(xs) && AllTidy(xs)
    ensures Canonical(Sliced(xs)) && Elements(Sliced(xs)) == Members(xs) - {""}
  {
    CleanOfTidy(xs);
    CleanFixed(Clean(xs));
    SlicedCanonical(Clean(xs));
  }

  lemma {:induction false} DoomedExact(list: seq<string>, items: seq<string>, i: nat)
    requires NoDuplicates(list) && i < |list|
    ensures i in Doomed(list, items) <==> list[i] in TrimAll(items)
  {
    hide TrimSpace;
    if items != [] {
      var n := |items| - 1;
      DoomedExact(list, items[..n], i);
      assert TrimAll(items) == TrimAll(items[..n]) + [TrimSpace(items[n])];
    }
  }

  lemma {:induction false} SparedMembers(list: seq<string>, doomed: set<nat>, gone: set<string>)
    requires NoDuplicates(list) && AllProper(list)
    requires forall i :: 0 <= i < |list| ==> (i in doomed <==> list[i] in gone)
    ensures var r := Spared(list, doomed);
      NoDuplicates(r) && AllTidy(r) && Members(r) == Members(list) - gone && "" !in Members(r)
  {
    if list != [] {
      var n := |list| - 1;
      var x := list[n];
      assert list == list[..n] + [x];
      assert x !in Members(list[..n]) && Proper(x);
      assert n in doomed <==> x in gone;
      SparedMembers(list[..n], doomed, gone);
      MembersSnoc(list[..n], x);
      hide NoDuplicates, AllTidy, AllProper, Members;
      var r := Spared(list[..n], doomed);
      if n in doomed {
        assert Spared(list, doomed) == r + [] == r;
      } else {
        Append(r, x);
      }
    }
  }

  lemma CanonicalTidy(str: string)
    requires Canonical(str)
    ensures NoDuplicates(Parts(str)) && AllTidy(Parts(str)) && "" !in Members(Parts(str))
  {
    var list := Parts(str);
    assert forall i :: 0 <= i < |list| ==> Proper(list[i]);
  }

  lemma AddObeyed(str: string, items: seq<string>)
    requires Canonical(str) && CommaFree(items) && items != []
    ensures var r := Sliced(AddItems(Parts(str), items));
      Canonical(r) && Elements(r) == Elements(str) + Named(items)
  {
    hide Canonical, Parts, AddItems, Sliced, NoDuplicates, AllTidy, Members, TrimAll;
    CanonicalTidy(str);
    AddItemsMembers(Parts(str), items);
    SlicedOfTidy(AddItems(Parts(str), items));
  }

  lemma RemoveObeyed(str: string, items: seq<string>)
    requires Canonical(str)
    ensures var r := Obeyed(str, Remove(items));
      Canonical(r) && Elements(r) == Elements(str) - Named(items)
  {
    var list := Parts(str);
    var doomed := Doomed(list, items);
    forall i | 0 <= i < |list| ensures i in doomed <==> list[i] in Named(items) {
      DoomedExact(list, items, i);
      assert Proper(list[i]);
    }
    if doomed == {} {
      forall x | x in Elements(str) ensures x !in Named(items) {
        var i :| 0 <= i < |list| && list[i] == x;
      }
    } else {
      SparedMembers(list, doomed, Named(items));
      SlicedOfTidy(Spared(list, doomed));
    }
  }

  /** Every command keeps a canonical list canonical and does to its elements what it means. */
  lemma CommandExact(str: string, c: Command)
    requires Canonical(str) && PlainCommand(c)
    ensures Canonical(Obeyed(str, c)) && Elements(Obeyed(str, c)) == Meant(Elements(str), c)
  {
    match c
    case Add(items) => if items != [] { AddObeyed(str, items); }
    case Remove(items) => RemoveObeyed(str, items);
    case Reset => assert Parts("") == [];
  }

  /** Commas are the exact limit: `spam:add` does what it means if and only if no item holds one. */
  lemma AddExactIff(str: string, items: seq<string>)
    requires Canonical(str)
    ensures Elements(Obeyed(str, Add(items))) == Meant(Elements(str), Add(items)) <==> CommaFree(items)
  {
    if CommaFree(items) {
      CommandExact(str, Add(items));
    } else {
      var i :| 0 <= i < |items| && ',' in items[i];
      var x := TrimSpace(items[i]);
      TrimSpaceKeeps(items[i], ',');
      assert TrimAll(items)[i] == x;
      assert x in Named(items);
      PartsClean(Obeyed(str, Add(items)));
      assert x !in Elements(Obeyed(str, Add(items)));
    }
  }

  function ObeyAll(str: string, run: seq<Command>): string {
    if run == [] then str else Obeyed(ObeyAll(str, run[..|run| - 1]), run[|run| - 1])
  }

  function MeantByAll(s: set<string>, run: seq<Command>): set<string> {
    if run == [] then s else Meant(MeantByAll(s, run[..|run| - 1]), run[|run| - 1])
  }

  /** Every run of commands with comma-free items refines the same run on plain sets. */
  lemma {:induction false} EveryRunExact(str: string, run: seq<Command>)
    requires Canonical(str) && forall i :: 0 <= i < |run| ==> PlainCommand(run[i])
    ensures Canonical(ObeyAll(str, run)) && Elements(ObeyAll(str, run)) == MeantByAll(Elements(str), run)
  {
    if run != [] {
      EveryRunExact(str, run[..|run| - 1]);
      CommandExact(ObeyAll(str, run[..|run| - 1]), run[|run| - 1]);
    }
  }

  /** Adding fresh items and removing them again restores the stored string, character by character. */
  lemma AddThenRemove(str: string, items: seq<string>)
    requires Canonical(str) && CommaFree(items) && Elements(str) !! Named(items)
    ensures Obeyed(Obeyed(str, Add(items)), Remove(items)) == str
  {
    CommandExact(str, Add(items));
    CommandExact(Obeyed(str, Add(items)), Remove(items));
    CanonicalUnique(Obeyed(Obeyed(str, Add(items)), Remove(items)), str);
  }

  /** The settings of one room, changed in place. */
  class Room {
    var options: Options

    constructor (options: Options)
      ensures this.options == options
    {
      this.options := options;
    }

    method MigrateSpamlistSettings()
      modifies this
      ensures options == Migrated(old(options))
    {
      var emails := StringSlice(Lookup(options, EMAILS));
      var localparts := StringSlice(Lookup(options, LOCALPARTS));
      var hosts := StringSlice(Lookup(options, HOSTS));
      var list := StringSlice(Lookup(options, SPAMLIST));
      options := options - {EMAILS, LOCALPARTS, HOSTS};

      var uniq := CollectListed(emails, localparts, hosts, list);
      var spamlist := MapKeysInAnyOrder(uniq);
      var value := SliceString(spamlist);
      SlicedOfSameSet(spamlist, Enumerate(uniq));
      options := options[SPAMLIST := value];
    }

    /** `kept` is false when the settings cannot be read, or when the process does not see the change afterwards: it
        sees it while its cache holds the settings, even if the server refused them. */
    method RunSpamlistAdd(items: seq<string>, kept: bool)
      modifies this
      ensures options == if kept && items != []
                         then old(options)[SPAMLIST := Obeyed(Lookup(old(options), SPAMLIST), Add(items))]
                         else old(options)
    {
      if items == [] || !kept { return; }
      var spamlist := StringSlice(Lookup(options, SPAMLIST));
      ghost var list := spamlist;
      for i := 0 to |items|
        invariant spamlist == AddItems(list, items[..i])
      {
        assert items[..i + 1][..i] == items[..i];
        var newItem := TrimSpace(items[i]);
        if newItem in spamlist { continue; }
        spamlist := spamlist + [newItem];
      }
      assert items[..|items|] == items;
      var value := SliceString(spamlist);
      options := options[SPAMLIST := value];
    }

    method RunSpamlistRemove(items: seq<string>, kept: bool)
      modifies this
      ensures options == if kept && Doomed(Parts(Lookup(old(options), SPAMLIST)), items) != {}
                         then old(options)[SPAMLIST := Obeyed(Lookup(old(options), SPAMLIST), Remove(items))]
                         else old(options)
    {
      if items == [] || !kept { return; }
      var spamlist := StringSlice(Lookup(options, SPAMLIST));
      var toRemove: set<nat> := {};
      for i := 0 to |items|
        invariant toRemove == Doomed(spamlist, items[..i])
      {
        assert items[..i + 1][..i] == items[..i];
        var idx := FirstIndex(spamlist, TrimSpace(items[i]));
        if idx.None? { continue; }
        toRemove := toRemove + {idx.value};
      }
      assert items[..|items|] == items;
      if toRemove == {} { return; }
      var updated := [];
      for i := 0 to |spamlist|
        invariant updated == Spared(spamlist[..i], toRemove)
      {
        assert spamlist[..i + 1][..i] == spamlist[..i];
        if i in toRemove { continue; }
        updated := updated + [spamlist[i]];
      }
      assert spamlist[..|spamlist|] == spamlist;
      var value := SliceString(updated);
      options := options[SPAMLIST := value];
    }

    method RunSpamlistReset(kept: bool)
      modifies this
      ensures options == if kept && Parts(Lookup(old(options), SPAMLIST)) != []
                         then old(options)[SPAMLIST := Obeyed(Lookup(old(options), SPAMLIST), Reset)]
                         else old(options)
    {
      if !kept { return; }
      var spamlist := StringSlice(Lookup(options, SPAMLIST));
      if |spamlist| == 0 { return; }
      options := options[SPAMLIST := ""];
    }
  }

  /** The migrated list, for settings that hold lists of proper elements: the emails, the local parts with "@*" after
      them, the hosts with "*@" before them and the old list, and nothing else. */
  lemma MigratedEntries(cfg: Options, emails: seq<string>, localparts: seq<string>, hosts: seq<string>,
                        list: seq<string>, x: string)
    requires AllProper(emails) && AllProper(localparts) && AllProper(hosts) && AllProper(list)
    requires Lookup(cfg, "spamlist:emails") == Join(emails, ',')
    requires Lookup(cfg, "spamlist:localparts") == Join(localparts, ',')
    requires Lookup(cfg, "spamlist:hosts") == Join(hosts, ',')
    requires Lookup(cfg, "spamlist") == Join(list, ',')
    ensures x in Parts(Lookup(Migrated(cfg), "spamlist")) <==>
      || x in emails || x in list
      || (exists y :: y in localparts && x == y + "@*")
      || (exists y :: y in hosts && x == "*@" + y)
  {
    MigrationExact(cfg);
    ListedEntries(cfg, emails, localparts, hosts, list, x);
    hide Migrated, Listed, Parts, Join, AllProper, Canonical;
  }

  lemma ListedEntries(cfg: Options, emails: seq<string>, localparts: seq<string>, hosts: seq<string>,
                      list: seq<string>, x: string)
    requires AllProper(emails) && AllProper(localparts) && AllProper(hosts) && AllProper(list)
    requires Lookup(cfg, EMAILS) == Join(emails, ',') && Lookup(cfg, LOCALPARTS) == Join(localparts, ',')
    requires Lookup(cfg, HOSTS) == Join(hosts, ',') && Lookup(cfg, SPAMLIST) == Join(list, ',')
    ensures x in Listed(cfg) <==>
      || x in emails || x in list
      || (exists y :: y in localparts && x == y + "@*")
      || (exists y :: y in hosts && x == "*@" + y)
  {
    hide Parts, Join, AllProper, NonEmpty, Lookup;
    PartsOfJoin(emails);
    PartsOfJoin(localparts);
    PartsOfJoin(hosts);
    PartsOfJoin(list);
    NonEmptyOfProper(emails);
    NonEmptyOfProper(localparts);
    NonEmptyOfProper(hosts);
    NonEmptyOfProper(list);
  }
}
