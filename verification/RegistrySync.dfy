/** What a sync makes of the index (internal/bot/data.go). */
module RegistrySync {
  import opened Text
  import opened ListCodec
  import opened RoomConfig
  import opened Registry

  /** The last joined room that claims `name`. */
  function LastClaimant(b: Book, joined: seq<RoomId>, name: string): Option<RoomId> {
    if joined == [] then None
    else
      var n := |joined| - 1;
      if Claims(CfgOf(b, joined[n]), name) then Some(joined[n]) else LastClaimant(b, joined[..n], name)
  }

  function At(rooms: map<string, RoomId>, name: string): Option<RoomId> {
    if name in rooms then Some(rooms[name]) else None
  }

  /** Migrated settings need no further migration, and the names in them are as before. */
  lemma MigratedOnce(cfg: Options)
    ensures !OldSpamlist(MigratedCfg(cfg)) && MigratedCfg(MigratedCfg(cfg)) == MigratedCfg(cfg)
    ensures forall k :: k in {MAILBOX, ALIASES} ==> Lookup(MigratedCfg(cfg), k) == Lookup(cfg, k)
  {
    KeysDiffer();
    if OldSpamlist(cfg) {
      Spamlist.MigrationExact(WithActive(cfg));
    }
  }

  /** The names that the settings list, active or not. */
  predicate Lists(cfg: Options, name: string) {
    && Lookup(cfg, MAILBOX) != ""
    && (name == Norm(Lookup(cfg, MAILBOX))
        || exists i :: 0 <= i < |Parts(Lookup(cfg, ALIASES))| && name == Norm(Parts(Lookup(cfg, ALIASES))[i]))
  }

  /** A joined room claims the names it lists unless its settings say outright that it is not active. */
  lemma ActiveByDefault(cfg: Options, name: string)
    ensures Claims(MigratedCfg(cfg), name) <==> Lists(cfg, name) && (ACTIVE in cfg ==> Truthy(cfg[ACTIVE]))
  {
    MigratedOnce(cfg);
    ActiveKept(cfg);
    hide MigratedCfg, Norm, Parts;
  }

  lemma ActiveKept(cfg: Options)
    ensures ACTIVE in MigratedCfg(cfg)
    ensures MigratedCfg(cfg)[ACTIVE] == if ACTIVE in cfg then cfg[ACTIVE] else "true"
    ensures Truthy("true")
  {
    KeysDiffer();
    assert ToLower("true") == "true";
    if OldSpamlist(cfg) { Spamlist.MigrationExact(WithActive(cfg)); }
  }

  lemma {:induction false} StoreAliasesAt(rooms: map<string, RoomId>, aliases: seq<string>, room: RoomId, name: string)
    ensures At(StoreAliases(rooms, aliases, room), name) ==
            if exists i :: 0 <= i < |aliases| && name == Norm(aliases[i]) then Some(room) else At(rooms, name)
  {
    hide Norm;
    if aliases != [] {
      var n := |aliases| - 1;
      StoreAliasesAt(rooms, aliases[..n], room, name);
      if exists i :: 0 <= i < |aliases| && name == Norm(aliases[i]) {
        var i :| 0 <= i < |aliases| && name == Norm(aliases[i]);
        if i < n { assert name == Norm(aliases[..n][i]); }
      }
      if exists i :: 0 <= i < n && name == Norm(aliases[..n][i]) {
        var i :| 0 <= i < n && name == Norm(aliases[..n][i]);
        assert name == Norm(aliases[i]);
      }
    }
  }

  /** One round changes the settings of its room as the migration does, and the names it claims. */
  lemma SyncOneExact(b: Book, room: RoomId, name: string)
    ensures var b' := SyncOne(b, room, UP, true);
      && (forall r :: CfgOf(b', r) == if r == room then MigratedCfg(CfgOf(b, r)) else CfgOf(b, r))
      && b'.cfgs.Keys == b.cfgs.Keys + {room}
      && At(b'.rooms, name) == if Claims(CfgOf(b', room), name) then Some(room) else At(b.rooms, name)
  {
    hide Norm;
    var cfg := CfgOf(b, room);
    var b1 := Save(b, room, MigratedCfg(cfg), UP);
    var cfg1 := CfgOf(b1, room);
    assert cfg1 == MigratedCfg(cfg);
    hide MigratedCfg, Truthy;
    if Lookup(cfg1, MAILBOX) != "" && Truthy(Lookup(cfg1, ACTIVE)) {
      var mailbox := Norm(Lookup(cfg1, MAILBOX));
      StoreAliasesAt(b1.rooms[mailbox := room], Parts(Lookup(cfg1, ALIASES)), room, name);
    }
  }

  lemma {:induction false} SyncCfgs(b: Book, joined: seq<RoomId>, r: RoomId)
    ensures CfgOf(Sync(b, joined), r) == if r in joined then MigratedCfg(CfgOf(b, r)) else CfgOf(b, r)
    ensures Sync(b, joined).cfgs.Keys == b.cfgs.Keys + Members(joined)
  {
    hide SyncOne, MigratedCfg, CfgOf;
    if joined != [] {
      var n := |joined| - 1;
      SyncCfgs(b, joined[..n], r);
      SyncOneExact(Sync(b, joined[..n]), joined[n], "");
      MigratedOnce(CfgOf(b, r));
      assert joined == joined[..n] + [joined[n]];
    }
  }

  /** After a sync the settings are migrated, every claimed name leads to the last joined room that
      claims it, and every other name is as before. */
  lemma {:induction false} SyncExact(b: Book, joined: seq<RoomId>, name: string)
    ensures var b' := Sync(b, joined);
      && (forall r :: CfgOf(b', r) == if r in joined then MigratedCfg(CfgOf(b, r)) else CfgOf(b, r))
      && b'.cfgs.Keys == b.cfgs.Keys + Members(joined)
      && At(b'.rooms, name) ==
         if LastClaimant(b', joined, name).Some? then LastClaimant(b', joined, name) else At(b.rooms, name)
  {
    hide SyncOne, MigratedCfg, CfgOf, Claims;
    forall r ensures CfgOf(Sync(b, joined), r) == if r in joined then MigratedCfg(CfgOf(b, r)) else CfgOf(b, r) {
      SyncCfgs(b, joined, r);
    }
    SyncCfgs(b, joined, "");
    if joined != [] {
      var n := |joined| - 1;
      var b1, b' := Sync(b, joined[..n]), Sync(b, joined);
      SyncExact(b, joined[..n], name);
      SyncOneExact(b1, joined[n], name);
      forall r | r in joined[..n] ensures CfgOf(b', r) == CfgOf(b1, r) {
        SyncCfgs(b, joined[..n], r);
        SyncCfgs(b, joined, r);
      }
      SameClaimants(b1, b', joined[..n], name);
    }
  }

  lemma {:induction false} SameClaimants(b: Book, b': Book, joined: seq<RoomId>, name: string)
    requires forall r :: r in joined ==> CfgOf(b', r) == CfgOf(b, r)
    ensures LastClaimant(b', joined, name) == LastClaimant(b, joined, name)
  {
    if joined != [] {
      assert joined[|joined| - 1] in joined;
      SameClaimants(b, b', joined[..|joined| - 1], name);
    }
  }

  lemma BooksEqual(b: Book, b': Book)
    requires forall name :: At(b.rooms, name) == At(b'.rooms, name)
    requires b.cfgs.Keys == b'.cfgs.Keys && forall r :: CfgOf(b, r) == CfgOf(b', r)
    ensures b == b'
  {
    forall name ensures name in b.rooms <==> name in b'.rooms { assert At(b.rooms, name) == At(b'.rooms, name); }
    forall name | name in b.rooms ensures b.rooms[name] == b'.rooms[name] {
      assert At(b.rooms, name) == At(b'.rooms, name);
    }
    forall r | r in b.cfgs ensures b.cfgs[r] == b'.cfgs[r] { assert CfgOf(b, r) == CfgOf(b', r); }
    assert b.rooms == b'.rooms && b.cfgs == b'.cfgs;
  }

  /** An immediate second sync changes neither the index nor the settings. */
  lemma SyncTwice(b: Book, joined: seq<RoomId>)
    ensures Sync(Sync(b, joined), joined) == Sync(b, joined)
  {
    var b1 := Sync(b, joined);
    var b2 := Sync(b1, joined);
    SyncExact(b, joined, "");
    SyncExact(b1, joined, "");
    forall r ensures CfgOf(b2, r) == CfgOf(b1, r) { MigratedOnce(CfgOf(b, r)); }
    hide MigratedCfg, CfgOf, Sync;
    forall name ensures At(b2.rooms, name) == At(b1.rooms, name) {
      SyncExact(b, joined, name);
      SyncExact(b1, joined, name);
      SameClaimants(b1, b2, joined, name);
    }
    BooksEqual(b2, b1);
  }

  /** No two joined rooms claim one name. */
  ghost predicate Disjoint(b: Book, joined: seq<RoomId>) {
    forall r, q, name :: r in joined && q in joined && Claims(CfgOf(b, r), name) && Claims(CfgOf(b, q), name) ==> r == q
  }

  lemma {:induction false} ClaimantClaims(b: Book, joined: seq<RoomId>, name: string)
    ensures var c := LastClaimant(b, joined, name);
      && (c.Some? ==> c.value in joined && Claims(CfgOf(b, c.value), name))
      && (c.None? ==> forall r :: r in joined ==> !Claims(CfgOf(b, r), name))
  {
    if joined != [] {
      var n := |joined| - 1;
      assert joined == joined[..n] + [joined[n]];
      ClaimantClaims(b, joined[..n], name);
    }
  }

  /** With disjoint claims the order in which the rooms were joined does not matter. */
  lemma SyncOrderFree(b: Book, joined: seq<RoomId>, other: seq<RoomId>)
    requires forall r :: r in joined <==> r in other
    requires Disjoint(Sync(b, joined), joined)
    ensures Sync(b, joined) == Sync(b, other)
  {
    var b1, b2 := Sync(b, joined), Sync(b, other);
    SyncExact(b, joined, "");
    SyncExact(b, other, "");
    assert forall r :: CfgOf(b1, r) == CfgOf(b2, r);
    hide MigratedCfg, CfgOf, Sync, Claims;
    forall name ensures At(b1.rooms, name) == At(b2.rooms, name) {
      SyncExact(b, joined, name);
      SyncExact(b, other, name);
      SameClaimants(b1, b2, other, name);
      ClaimantClaims(b1, joined, name);
      ClaimantClaims(b1, other, name);
    }
    BooksEqual(b1, b2);
  }

  /** And without it the order decides: two rooms that claim one name trade it with their places. */
  lemma ClashFollowsOrder(b: Book, r: RoomId, q: RoomId, name: string)
    requires r != q && Claims(MigratedCfg(CfgOf(b, r)), name) && Claims(MigratedCfg(CfgOf(b, q)), name)
    ensures At(Sync(b, [r, q]).rooms, name) == Some(q) && At(Sync(b, [q, r]).rooms, name) == Some(r)
  {
    SyncExact(b, [r, q], name);
    SyncExact(b, [q, r], name);
  }

  // ---------- names as they are written

  /** A name as the index holds it: without upper-case letters. */
  predicate LowerCase(s: string) { forall i :: 0 <= i < 26 ==> UPPER_CASE[i] !in s }

  /** White space around a name and the case of its letters make no difference to the index. */
  lemma NormExact(a: string, x: string, b: string, name: string)
    requires Blank(a) && Blank(b) && Trimmed(x)
    ensures Norm(a + x + b) == name <==> SameButCase(x, name) && LowerCase(name)
  {
    TrimSpaceSkips(a, x, b);
    TrimSpaceFixed(x);
    ToLowerExact(x, name);
    ToLowerExact(name, name);
    hide TrimSpace, SameButCase;
    if LowerCase(name) { LowerUnchanged(name); }
  }

  lemma LowerUnchanged(name: string)
    requires LowerCase(name)
    ensures ToLower(name) == name
  {
    forall k | 0 <= k < |name| ensures !('A' <= name[k] <= 'Z') {
      assert name[k] in name;
      if 'A' <= name[k] <= 'Z' { UpperLetter(name[k]); }
    }
    LowerAlready(name);
  }

  lemma UpperLetter(c: char)
    requires 'A' <= c <= 'Z'
    ensures exists i :: 0 <= i < 26 && UPPER_CASE[i] == c
  {
    Alphabet(c as int - 'A' as int);
  }

  lemma LowerAlready(s: string)
    requires forall k :: 0 <= k < |s| ==> !('A' <= s[k] <= 'Z')
    ensures ToLower(s) == s
  {}

  lemma ProperNorm(alias: string, name: string)
    requires Proper(alias)
    ensures Norm(alias) == name <==> SameButCase(alias, name) && LowerCase(name)
  {
    assert "" + alias + "" == alias;
    hide Norm, SameButCase, LowerCase;
    NormExact("", alias, "", name);
  }

  lemma SomeNorm(aliases: seq<string>, name: string)
    requires AllProper(aliases)
    ensures (exists i :: 0 <= i < |aliases| && name == Norm(aliases[i])) <==>
      LowerCase(name) && exists i :: 0 <= i < |aliases| && SameButCase(aliases[i], name)
  {
    hide Norm, SameButCase, LowerCase, Proper;
    forall i | 0 <= i < |aliases|
      ensures Norm(aliases[i]) == name <==> SameButCase(aliases[i], name) && LowerCase(name)
    {
      ProperNorm(aliases[i], name);
    }
  }

  /** The names that settings list: the mailbox and the aliases between commas, in any case, with any white space around
      the mailbox. */
  lemma ListsExact(cfg: Options, a: string, x: string, b: string, aliases: seq<string>, name: string)
    requires Blank(a) && Blank(b) && Trimmed(x) && AllProper(aliases)
    requires Lookup(cfg, MAILBOX) == a + x + b && Lookup(cfg, ALIASES) == Join(aliases, ',')
    ensures Lists(cfg, name) <==>
      && a + x + b != "" && LowerCase(name)
      && (SameButCase(x, name) || exists i :: 0 <= i < |aliases| && SameButCase(aliases[i], name))
  {
    PartsOfJoin(aliases);
    hide Norm, Parts, Join, SameButCase, LowerCase, Blank, Trimmed, AllProper, Lookup;
    NormExact(a, x, b, name);
    SomeNorm(aliases, name);
  }

  /** After a sync no joined room has any of the three old spam settings, and every room that had one has the
      spamlist that its migration gives; the other options are as before, but for a missing active flag. */
  lemma SyncedSettings(b: Book, joined: seq<RoomId>, r: RoomId)
    requires r in joined
    ensures var cfg, cfg' := CfgOf(b, r), CfgOf(Sync(b, joined), r);
      && Lookup(cfg', "spamlist:emails") == "" && Lookup(cfg', "spamlist:localparts") == ""
      && Lookup(cfg', "spamlist:hosts") == ""
      && Lookup(cfg', "spamlist") ==
         (if Lookup(cfg, "spamlist:emails") == Lookup(cfg, "spamlist:localparts") == Lookup(cfg, "spamlist:hosts") == ""
          then Lookup(cfg, "spamlist")
          else Lookup(Spamlist.Migrated(cfg), "spamlist"))
      && Lookup(cfg', ".active") == (if ".active" in cfg then cfg[".active"] else "true")
      && forall k :: k !in {"spamlist", "spamlist:emails", "spamlist:localparts", "spamlist:hosts", ".active"} ==>
           Lookup(cfg', k) == Lookup(cfg, k)
  {
    SyncCfgs(b, joined, r);
    MigratedOnce(CfgOf(b, r));
    hide Sync;
    MigratedSettings(CfgOf(b, r));
  }

  lemma MigratedSettings(cfg: Options)
    ensures var cfg' := MigratedCfg(cfg);
      && (OldSpamlist(cfg) ==> Lookup(cfg', SPAMLIST) == Lookup(Spamlist.Migrated(cfg), SPAMLIST))
      && (!OldSpamlist(cfg) ==> Lookup(cfg', SPAMLIST) == Lookup(cfg, SPAMLIST))
      && Lookup(cfg', ACTIVE) == (if ACTIVE in cfg then cfg[ACTIVE] else "true")
      && forall k :: k !in {SPAMLIST, EMAILS, LOCALPARTS, HOSTS, ACTIVE} ==> Lookup(cfg', k) == Lookup(cfg, k)
  {
    KeysDiffer();
    Spamlist.MigrationExact(WithActive(cfg));
    SameMigration(cfg);
    hide Spamlist.Listed, Spamlist.Migrated;
  }

  lemma SameMigration(cfg: Options)
    ensures Lookup(Spamlist.Migrated(WithActive(cfg)), SPAMLIST) == Lookup(Spamlist.Migrated(cfg), SPAMLIST)
  {
    KeysDiffer();
    assert Spamlist.Listed(WithActive(cfg)) == Spamlist.Listed(cfg);
    hide Spamlist.Listed;
  }
}
