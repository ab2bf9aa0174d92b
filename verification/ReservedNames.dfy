/** Reserved mailbox names stay free, although aliases are stored as one string and split only at sync
    (internal/bot/command_owner.go, internal/bot/access.go, internal/bot/data.go). */
module ReservedNames {
  import opened Text
  import opened ListCodec
  import opened RoomConfig
  import opened Registry
  import opened RegistrySync

  /** One step of the bot; a sync is a sequence of `Round`s. Any store access may fail. */
  datatype Op =
    | Mailbox(room: RoomId, sender: string, value: string, st: Store)
    | Aliases(room: RoomId, sender: string, value: string, st: Store)
    | Stop(room: RoomId, st: Store)
    | Delete(name: string, st: Store)
    | Round(room: RoomId, before: Store, after: bool)

  ghost function Do(b: Book, reserved: seq<string>, op: Op): Book {
    match op
    case Mailbox(room, sender, value, st) => SetMailboxTo(b, reserved, room, sender, value, st)
    case Aliases(room, sender, value, st) => SetAliasesTo(b, reserved, room, sender, value, st)
    case Stop(room, st) => Stopped(b, room, st)
    case Delete(name, st) => Deleted(b, name, st)
    case Round(room, before, after) => SyncOne(b, room, before, after)
  }

  ghost function DoAll(b: Book, reserved: seq<string>, run: seq<Op>): Book {
    if run == [] then b else Do(DoAll(b, reserved, run[..|run| - 1]), reserved, run[|run| - 1])
  }

  /** No name that the settings would claim at a sync is reserved. */
  predicate CfgFree(cfg: Options, reserved: seq<string>) {
    && (Lookup(cfg, MAILBOX) != "" ==> Norm(Lookup(cfg, MAILBOX)) !in reserved)
    && AliasesFree(Lookup(cfg, ALIASES), reserved)
  }

  predicate AliasesFree(value: string, reserved: seq<string>) {
    forall i :: 0 <= i < |Parts(value)| ==> Norm(Parts(value)[i]) !in reserved
  }

  ghost predicate Free(b: Book, reserved: seq<string>) {
    && (forall name :: name in b.rooms ==> name !in reserved)
    && (forall room :: CfgFree(CfgOf(b, room), reserved))
  }

  /** Lower case and without white space, as commands are parsed for the most part. */
  predicate PlainName(s: string) { forall i :: 0 <= i < |s| ==> !IsSpace(s[i]) && !('A' <= s[i] <= 'Z') }

  predicate PlainOp(op: Op) { op.Mailbox? || op.Aliases? ==> PlainName(op.value) }

  lemma NormOfPlain(s: string)
    requires PlainName(s)
    ensures TrimSpace(s) == s && Norm(s) == s
  {
    TrimSpaceFixed(s);
  }

  lemma PieceOfPlain(s: string, i: nat)
    requires PlainName(s) && i < |Split(s, ',')|
    ensures PlainName(Split(s, ',')[i])
  {
    var piece := Split(s, ',')[i];
    forall k | 0 <= k < |piece| ensures !IsSpace(piece[k]) && !('A' <= piece[k] <= 'Z') {
      SplitCharacters(s, ',', i, piece[k]);
    }
  }

  /** For plain values the pieces checked by the command are the pieces read at sync. */
  lemma PartsOfPlain(s: string)
    requires PlainName(s)
    ensures forall i :: 0 <= i < |Parts(s)| ==> Parts(s)[i] in Split(s, ',') && Norm(Parts(s)[i]) == Parts(s)[i]
  {
    NormOfPlain(s);
    if s != "" {
      SplitPieces(s, ',');
      forall i | 0 <= i < |Split(s, ',')|
        ensures TrimSpace(Split(s, ',')[i]) == Split(s, ',')[i] && Norm(Split(s, ',')[i]) == Split(s, ',')[i]
      {
        PieceOfPlain(s, i);
        NormOfPlain(Split(s, ',')[i]);
      }
    }
  }

  lemma PartsOfEmpty()
    ensures Parts("") == []
  {
  }

  lemma StopKeepsFree(b: Book, b': Book, reserved: seq<string>, room: RoomId)
    requires Free(b, reserved) && b'.rooms.Keys <= b.rooms.Keys
    requires b'.cfgs == b.cfgs || b'.cfgs == b.cfgs[room := map[]]
    ensures Free(b', reserved)
  {
    PartsOfEmpty();
    hide Parts, Norm;
    forall r ensures CfgFree(CfgOf(b', r), reserved) { assert CfgFree(CfgOf(b, r), reserved); }
  }

  /** What an accepted `mailbox` command leads to: exactly when the new name's normal form is reserved
      is a reserved name claimed. */
  lemma MailboxExact(b: Book, reserved: seq<string>, room: RoomId, sender: string, value: string)
    requires Free(b, reserved) && !Refused(b, reserved, value, room)
    ensures Free(SetMailboxTo(b, reserved, room, sender, value, UP), reserved) <==>
            (value != "" ==> Norm(value) !in reserved)
  {
    hide Parts, Norm;
    KeysDiffer();
    var b' := SetMailboxTo(b, reserved, room, sender, value, UP);
    assert CfgFree(CfgOf(b, room), reserved);
    assert OWNER != MAILBOX && OWNER != ALIASES by { assert |OWNER| == 5 && |MAILBOX| == 7 && |ALIASES| == 7; }
    assert Lookup(CfgOf(b', room), MAILBOX) == value;
    assert Lookup(CfgOf(b', room), ALIASES) == Lookup(CfgOf(b, room), ALIASES);
    forall r | r != room ensures CfgFree(CfgOf(b', r), reserved) { assert CfgOf(b', r) == CfgOf(b, r); }
  }

  /** The same for `aliases`: the command checks the pieces as typed, a sync claims their normal forms. */
  lemma AliasesExact(b: Book, reserved: seq<string>, room: RoomId, sender: string, value: string)
    requires Free(b, reserved) && value !in reserved
    requires forall a :: a in Split(value, ',') ==> !Refused(b, reserved, a, room)
    ensures Free(SetAliasesTo(b, reserved, room, sender, value, UP), reserved) <==> AliasesFree(value, reserved)
  {
    hide Parts, Norm, Split;
    KeysDiffer();
    var b' := SetAliasesTo(b, reserved, room, sender, value, UP);
    assert CfgFree(CfgOf(b, room), reserved);
    assert OWNER != MAILBOX && OWNER != ALIASES by { assert |OWNER| == 5 && |MAILBOX| == 7 && |ALIASES| == 7; }
    assert Lookup(CfgOf(b', room), ALIASES) == value;
    assert Lookup(CfgOf(b', room), MAILBOX) == Lookup(CfgOf(b, room), MAILBOX);
    forall r | r != room ensures CfgFree(CfgOf(b', r), reserved) { assert CfgOf(b', r) == CfgOf(b, r); }
  }

  lemma FreeMix(b: Book, b1: Book, b2: Book, reserved: seq<string>)
    requires Free(b1, reserved) && Free(b2, reserved) && b.rooms == b1.rooms && b.cfgs == b2.cfgs
    ensures Free(b, reserved)
  {
    forall r ensures CfgFree(CfgOf(b, r), reserved) { assert CfgOf(b, r) == CfgOf(b2, r); }
  }

  lemma MailboxKeepsFree(b: Book, reserved: seq<string>, room: RoomId, sender: string, value: string, st: Store)
    requires Free(b, reserved) && PlainName(value)
    ensures Free(SetMailboxTo(b, reserved, room, sender, value, st), reserved)
  {
    if !Refused(b, reserved, value, room) && st.canRead {
      NormOfPlain(value);
      MailboxExact(b, reserved, room, sender, value);
      var up := SetMailboxTo(b, reserved, room, sender, value, UP);
      FreeMix(SetMailboxTo(b, reserved, room, sender, value, st), up, if st.kept then up else b, reserved);
    }
  }

  /** Pieces that pass the check make the whole value and its pieces at sync free. */
  lemma CheckedIsFree(reserved: seq<string>, value: string)
    requires PlainName(value) && CommaFree(reserved) && (forall a :: a in Split(value, ',') ==> a !in reserved)
    ensures value !in reserved && AliasesFree(value, reserved)
  {
    PartsOfPlain(value);
    SplitPieces(value, ',');
    hide Parts, Split, Norm;
    if ',' in value {
      assert forall i :: 0 <= i < |reserved| ==> ',' !in reserved[i];
    } else {
      assert Split(value, ',')[0] == value;
    }
  }

  lemma AliasesKeepFree(b: Book, reserved: seq<string>, room: RoomId, sender: string, value: string, st: Store)
    requires Free(b, reserved) && PlainName(value) && CommaFree(reserved)
    ensures Free(SetAliasesTo(b, reserved, room, sender, value, st), reserved)
  {
    hide Parts, Split, Free, AliasesFree, PlainName, CommaFree;
    if !(exists a :: a in Split(value, ',') && Refused(b, reserved, a, room)) && st.canRead {
      CheckedIsFree(reserved, value);
      AliasesExact(b, reserved, room, sender, value);
      var up := SetAliasesTo(b, reserved, room, sender, value, UP);
      FreeMix(SetAliasesTo(b, reserved, room, sender, value, st), up, if st.kept then up else b, reserved);
    }
  }

  lemma {:induction false} StoreAliasesFree(rooms: map<string, RoomId>, aliases: seq<string>, room: RoomId,
                                            reserved: seq<string>)
    requires forall name :: name in rooms ==> name !in reserved
    requires forall i :: 0 <= i < |aliases| ==> Norm(aliases[i]) !in reserved
    ensures forall name :: name in StoreAliases(rooms, aliases, room) ==> name !in reserved
  {
    hide Norm;
    if aliases != [] { StoreAliasesFree(rooms, aliases[..|aliases| - 1], room, reserved); }
  }

  lemma RoundKeepsFree(b: Book, reserved: seq<string>, room: RoomId, before: Store, after: bool)
    requires Free(b, reserved)
    ensures Free(SyncOne(b, room, before, after), reserved)
  {
    var cfg := CfgOf(b, room);
    MigratedOnce(cfg);
    var b1 := if before.canRead then Save(b, room, MigratedCfg(cfg), before) else b;
    var b' := SyncOne(b, room, before, after);
    hide MigratedCfg, Norm, Parts, Truthy;
    forall r ensures CfgFree(CfgOf(b1, r), reserved) { assert CfgFree(CfgOf(b, r), reserved); }
    var cfg1 := CfgOf(b1, room);
    assert CfgFree(cfg1, reserved);
    if after && Lookup(cfg1, MAILBOX) != "" && Truthy(Lookup(cfg1, ACTIVE)) {
      StoreAliasesFree(b1.rooms[Norm(Lookup(cfg1, MAILBOX)) := room], Parts(Lookup(cfg1, ALIASES)), room, reserved);
    }
    assert b'.cfgs == b1.cfgs;
    forall r ensures CfgFree(CfgOf(b', r), reserved) { assert CfgOf(b', r) == CfgOf(b1, r); }
  }

  lemma StepKeepsFree(b: Book, reserved: seq<string>, op: Op)
    requires Free(b, reserved) && CommaFree(reserved) && PlainOp(op)
    ensures Free(Do(b, reserved, op), reserved)
  {
    match op
    case Mailbox(room, sender, value, st) => MailboxKeepsFree(b, reserved, room, sender, value, st);
    case Aliases(room, sender, value, st) => AliasesKeepFree(b, reserved, room, sender, value, st);
    case Stop(room, st) => StopKeepsFree(b, Stopped(b, room, st), reserved, room);
    case Delete(name, st) =>
      StopKeepsFree(b, Deleted(b, name, st), reserved, if name in b.rooms then b.rooms[name] else "");
    case Round(room, before, after) => RoundKeepsFree(b, reserved, room, before, after);
  }

  /** Over every run of commands and syncs no reserved name is ever mapped, nor claimed in the settings. */
  lemma {:induction false} EveryRunKeepsFree(b: Book, reserved: seq<string>, run: seq<Op>)
    requires Free(b, reserved) && CommaFree(reserved) && forall i :: 0 <= i < |run| ==> PlainOp(run[i])
    ensures Free(DoAll(b, reserved, run), reserved)
  {
    if run != [] {
      EveryRunKeepsFree(b, reserved, run[..|run| - 1]);
      StepKeepsFree(DoAll(b, reserved, run[..|run| - 1]), reserved, run[|run| - 1]);
    }
  }

  lemma TabTrims(name: string)
    requires PlainName(name) && name != "" && ',' !in name
    ensures Parts("\t" + name) == [name] && Norm(name) == name && Split("\t" + name, ',') == ["\t" + name]
  {
    var value := "\t" + name;
    NormOfPlain(name);
    assert value[1..] == name;
    assert TrimLeft(name) == name && TrimLeft(value) == TrimLeft(value[1..]);
    SplitPieces(value, ',');
  }

  lemma TwoSteps(b: Book, reserved: seq<string>, first: Op, second: Op)
    ensures DoAll(b, reserved, [first, second]) == Do(Do(b, reserved, first), reserved, second)
  {
    hide Do;
    var run := [first, second];
    assert run[..1] == [first] && [first][..0] == [];
    assert DoAll(b, reserved, [first]) == Do(DoAll(b, reserved, []), reserved, first);
  }

  lemma TabPassesCheck(b: Book, name: string, reserved: seq<string>, room: RoomId, sender: string)
    requires PlainName(name) && name != "" && ',' !in name
    requires "\t" + name !in reserved && !Taken(b, "\t" + name, room)
    ensures CfgOf(SetAliasesTo(b, reserved, room, sender, "\t" + name, UP), room) ==
            CfgOf(b, room)[ALIASES := "\t" + name][OWNER := sender]
  {
    TabTrims(name);
    hide Parts, Norm, Split;
    assert forall a :: a in Split("\t" + name, ',') ==> a == "\t" + name;
  }

  /** White space is why plain values are needed: a tab before a reserved name passes the check of
      `aliases` and is trimmed away at the next sync. */
  lemma TabTakesReserved(b: Book, name: string, reserved: seq<string>, room: RoomId, sender: string)
    requires PlainName(name) && name != "" && ',' !in name && name in reserved
    requires "\t" + name !in reserved && !Taken(b, "\t" + name, room)
    requires var cfg := CfgOf(b, room); Lookup(cfg, MAILBOX) != "" && Truthy(Lookup(cfg, ACTIVE)) && !OldSpamlist(cfg)
    ensures name in DoAll(b, reserved, [Aliases(room, sender, "\t" + name, UP), Round(room, UP, true)]).rooms
  {
    var value := "\t" + name;
    TwoSteps(b, reserved, Aliases(room, sender, value, UP), Round(room, UP, true));
    TabTrims(name);
    TabPassesCheck(b, name, reserved, room, sender);
    AliasOnly(CfgOf(b, room), value, sender);
    hide SetAliasesTo, SyncOne, DoAll, Parts, Norm, Truthy, CfgOf, Lookup, MigratedCfg, Claims;
    var b1 := SetAliasesTo(b, reserved, room, sender, value, UP);
    SyncOneExact(b1, room, name);
    TabClaims(CfgOf(b1, room), name);
  }

  lemma TabClaims(cfg: Options, name: string)
    requires Lookup(cfg, MAILBOX) != "" && Truthy(Lookup(cfg, ACTIVE)) && Parts(Lookup(cfg, ALIASES)) == [name]
    requires Norm(name) == name
    ensures Claims(MigratedCfg(cfg), name)
  {
    assert !Truthy("") by { assert ToLower("") == ""; }
    assert Parts(Lookup(cfg, ALIASES))[0] == name;
    hide Parts, Norm, MigratedCfg, Truthy;
    ActiveByDefault(cfg, name);
  }

  lemma AliasOnly(cfg: Options, value: string, sender: string)
    ensures var cfg1 := cfg[ALIASES := value][OWNER := sender];
      && Lookup(cfg1, MAILBOX) == Lookup(cfg, MAILBOX) && Lookup(cfg1, ACTIVE) == Lookup(cfg, ACTIVE)
      && Lookup(cfg1, ALIASES) == value && OldSpamlist(cfg1) == OldSpamlist(cfg)
  {
    KeysDiffer();
    assert |OWNER| == 5 && |MAILBOX| == 7 && |ALIASES| == 7 && |ACTIVE| == 7;
    assert |EMAILS| == 15 && |LOCALPARTS| == 19 && |HOSTS| == 14;
  }
}
