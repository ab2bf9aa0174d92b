/** What the registry commands do to the index and the settings, name by name (internal/bot/command_owner.go,
    internal/bot/command_admin.go, internal/bot/activation.go). */
module RegistryExact {
  import opened Text
  import opened ListCodec
  import opened RoomConfig
  import opened Registry
  import opened RegistrySync
  import opened ReservedNames

  /** The name is not reserved, and is mapped to no other room. */
  predicate Available(b: Book, reserved: seq<string>, name: string, room: RoomId) {
    && (forall i :: 0 <= i < |reserved| ==> reserved[i] != name)
    && (At(b.rooms, name) == None || At(b.rooms, name) == Some("") || At(b.rooms, name) == Some(room))
  }

  /** An option of a room, "" if it is not set. */
  function Setting(b: Book, room: RoomId, key: string): string {
    if room in b.cfgs && key in b.cfgs[room] then b.cfgs[room][key] else ""
  }

  /** Only this room's settings have changed, and in them only these options. */
  ghost predicate OnlySet(b: Book, b': Book, room: RoomId, keys: set<string>) {
    && (forall r :: r != room ==> CfgOf(b', r) == CfgOf(b, r))
    && (forall k :: k !in keys ==> Setting(b', room, k) == Setting(b, room, k))
  }

  lemma OneOp(b: Book, reserved: seq<string>, run: seq<Op>, op: Op)
    ensures DoAll(b, reserved, run + [op]) == Do(DoAll(b, reserved, run), reserved, op)
  {
    assert (run + [op])[..|run + [op]| - 1] == run;
    hide Do;
  }

  /** `mailbox`, after any commands and syncs: an available name is mapped to the room, the room's old mailbox is no
      longer mapped if it is another name, every other name is as before, and the room's settings hold mailbox,
      owner and active flag. A name that is not available changes nothing. */
  lemma MailboxEffect(b0: Book, reserved: seq<string>, run: seq<Op>, room: RoomId, sender: string, value: string)
    ensures var b, b' := DoAll(b0, reserved, run), DoAll(b0, reserved, run + [Mailbox(room, sender, value, UP)]);
      && (!Available(b, reserved, value, room) ==> b' == b)
      && (Available(b, reserved, value, room) ==>
            && At(b'.rooms, value) == Some(room)
            && (forall name :: name != value && name == Setting(b, room, "mailbox") != "" ==>
                  At(b'.rooms, name) == None)
            && (forall name :: name != value && (name != Setting(b, room, "mailbox") || name == "") ==>
                  At(b'.rooms, name) == At(b.rooms, name))
            && Setting(b', room, "mailbox") == value && Setting(b', room, "owner") == sender
            && Setting(b', room, ".active") == "true"
            && OnlySet(b, b', room, {"mailbox", "owner", ".active"}))
  {
    OneOp(b0, reserved, run, Mailbox(room, sender, value, UP));
    KeysApart();
    hide DoAll;
  }

  lemma KeysApart()
    ensures MAILBOX != OWNER && MAILBOX != ACTIVE && OWNER != ACTIVE && ALIASES != OWNER
  {
    KeysDiffer();
    assert |OWNER| == 5 && |MAILBOX| == 7 && |ALIASES| == 7 && |ACTIVE| == 7;
  }

  /** `aliases` with these comma-free pieces: accepted if and only if every piece is available. Then the room's old
      alias string is no longer mapped, the whole new one is mapped to the room if some piece is not among the old
      aliases, every other name is as before, and the settings hold aliases and owner. */
  lemma AliasesEffect(b0: Book, reserved: seq<string>, run: seq<Op>, room: RoomId, sender: string, pieces: seq<string>)
    requires pieces != [] && CommaFree(pieces)
    ensures var value := Join(pieces, ',');
      var b, b' := DoAll(b0, reserved, run), DoAll(b0, reserved, run + [Aliases(room, sender, value, UP)]);
      var previous := Setting(b, room, "aliases");
      var added := exists i :: 0 <= i < |pieces| && pieces[i] !in Parts(previous);
      && ((exists i :: 0 <= i < |pieces| && !Available(b, reserved, pieces[i], room)) ==> b' == b)
      && ((forall i :: 0 <= i < |pieces| ==> Available(b, reserved, pieces[i], room)) ==>
            && (added ==> At(b'.rooms, value) == Some(room))
            && (forall name :: (!added || name != value) && name == previous != "" ==> At(b'.rooms, name) == None)
            && (forall name :: (!added || name != value) && (name != previous || name == "") ==>
                  At(b'.rooms, name) == At(b.rooms, name))
            && Setting(b', room, "aliases") == value && Setting(b', room, "owner") == sender
            && OnlySet(b, b', room, {"aliases", "owner"}))
  {
    var value := Join(pieces, ',');
    OneOp(b0, reserved, run, Aliases(room, sender, value, UP));
    SplitOfJoin(pieces, ',');
    hide DoAll, Split, Join, Parts;
    AliasesDone(DoAll(b0, reserved, run), reserved, room, sender, value, pieces);
  }

  /** What an accepted `aliases` makes of the index. */
  function Renamed(rooms: map<string, RoomId>, previous: string, value: string, room: RoomId, added: bool)
    : map<string, RoomId>
  {
    var rooms1 := if previous == "" then rooms else rooms - {previous};
    if added then rooms1[value := room] else rooms1
  }

  lemma AliasesCase(b: Book, reserved: seq<string>, room: RoomId, sender: string, value: string, pieces: seq<string>)
    requires Split(value, ',') == pieces
    ensures var b' := Do(b, reserved, Aliases(room, sender, value, UP));
      var previous := Setting(b, room, "aliases");
      var added := exists i :: 0 <= i < |pieces| && pieces[i] !in Parts(previous);
      if forall i :: 0 <= i < |pieces| ==> Available(b, reserved, pieces[i], room)
      then
        && b'.rooms == Renamed(b.rooms, previous, value, room, added)
        && b'.cfgs == b.cfgs[room := CfgOf(b, room)[ALIASES := value][OWNER := sender]]
      else b' == b
  {
    hide Split, Parts;
    forall i | 0 <= i < |pieces|
      ensures Available(b, reserved, pieces[i], room) <==> !Refused(b, reserved, pieces[i], room)
    {
      AvailableExact(b, reserved, pieces[i], room);
    }
    hide Available, Refused;
    assert forall a :: a in pieces <==> exists i :: 0 <= i < |pieces| && pieces[i] == a;
  }

  lemma RenamedAt(rooms: map<string, RoomId>, previous: string, value: string, room: RoomId, added: bool)
    ensures var rooms' := Renamed(rooms, previous, value, room, added);
      && (added ==> At(rooms', value) == Some(room))
      && (forall name :: (!added || name != value) && name == previous != "" ==> At(rooms', name) == None)
      && (forall name :: (!added || name != value) && (name != previous || name == "") ==>
            At(rooms', name) == At(rooms, name))
  {}

  lemma AliasesSet(b: Book, b': Book, room: RoomId, sender: string, value: string)
    requires b'.cfgs == b.cfgs[room := CfgOf(b, room)[ALIASES := value][OWNER := sender]]
    ensures Setting(b', room, "aliases") == value && Setting(b', room, "owner") == sender
    ensures OnlySet(b, b', room, {"aliases", "owner"})
  {
    KeysApart();
  }

  lemma AliasesDone(b: Book, reserved: seq<string>, room: RoomId, sender: string, value: string, pieces: seq<string>)
    requires Split(value, ',') == pieces
    ensures var b' := Do(b, reserved, Aliases(room, sender, value, UP));
      var previous := Setting(b, room, "aliases");
      var added := exists i :: 0 <= i < |pieces| && pieces[i] !in Parts(previous);
      && ((exists i :: 0 <= i < |pieces| && !Available(b, reserved, pieces[i], room)) ==> b' == b)
      && ((forall i :: 0 <= i < |pieces| ==> Available(b, reserved, pieces[i], room)) ==>
            && (added ==> At(b'.rooms, value) == Some(room))
            && (forall name :: (!added || name != value) && name == previous != "" ==> At(b'.rooms, name) == None)
            && (forall name :: (!added || name != value) && (name != previous || name == "") ==>
                  At(b'.rooms, name) == At(b.rooms, name))
            && Setting(b', room, "aliases") == value && Setting(b', room, "owner") == sender
            && OnlySet(b, b', room, {"aliases", "owner"}))
  {
    AliasesCase(b, reserved, room, sender, value, pieces);
    hide Split, Parts, Do, Available, Renamed, At, Setting, OnlySet, CfgOf;
    var b' := Do(b, reserved, Aliases(room, sender, value, UP));
    var previous := Setting(b, room, "aliases");
    var added := exists i :: 0 <= i < |pieces| && pieces[i] !in Parts(previous);
    if forall i :: 0 <= i < |pieces| ==> Available(b, reserved, pieces[i], room) {
      RenamedAt(b.rooms, previous, value, room, added);
      AliasesSet(b, b', room, sender, value);
    }
  }

  lemma AvailableExact(b: Book, reserved: seq<string>, name: string, room: RoomId)
    ensures Available(b, reserved, name, room) <==> !Refused(b, reserved, name, room)
  {
    assert name in reserved <==> exists i :: 0 <= i < |reserved| && reserved[i] == name;
  }

  /** A name that belongs to one room stays with it when another room sets its mailbox or its aliases, whatever the
      value and whatever becomes of the write; unless that name is what the other room has stored as its own mailbox
      or alias string. */
  lemma OthersKeepTheirNames(b0: Book, reserved: seq<string>, run: seq<Op>, op: Op, name: string, owner: RoomId)
    requires op.Mailbox? || op.Aliases?
    requires var b := DoAll(b0, reserved, run);
      && At(b.rooms, name) == Some(owner) && owner != "" && owner != op.room
      && name != Setting(b, op.room, if op.Mailbox? then "mailbox" else "aliases")
      && (op.Aliases? ==> op.value != name || ',' !in name)
    ensures At(DoAll(b0, reserved, run + [op]).rooms, name) == Some(owner)
  {
    OneOp(b0, reserved, run, op);
    if op.Aliases? && op.value == name {
      SplitPieces(name, ',');
      assert Split(name, ',')[0] == name;
    }
    hide DoAll, Split, Parts;
  }

  /** `stop`: the room's mailbox is no longer mapped and its settings are empty; every other name, the room's aliases
      included, is as before. Without a mailbox nothing changes. */
  lemma StopEffect(b0: Book, reserved: seq<string>, run: seq<Op>, room: RoomId)
    ensures var b, b' := DoAll(b0, reserved, run), DoAll(b0, reserved, run + [Stop(room, UP)]);
      var mailbox := Setting(b, room, "mailbox");
      && (mailbox == "" ==> b' == b)
      && (mailbox != "" ==>
            && At(b'.rooms, mailbox) == None
            && (forall name :: name != mailbox ==> At(b'.rooms, name) == At(b.rooms, name))
            && (forall k :: Setting(b', room, k) == "")
            && (forall r :: r != room ==> CfgOf(b', r) == CfgOf(b, r)))
  {
    OneOp(b0, reserved, run, Stop(room, UP));
    hide DoAll;
  }

  /** `delete`: the name is no longer mapped and the settings of its room are empty; every other name is as before.
      A name that is not mapped changes nothing. */
  lemma DeleteEffect(b0: Book, reserved: seq<string>, run: seq<Op>, name: string)
    ensures var b, b' := DoAll(b0, reserved, run), DoAll(b0, reserved, run + [Delete(name, UP)]);
      && (At(b.rooms, name) == None ==> b' == b)
      && (At(b.rooms, name).Some? ==>
            && At(b'.rooms, name) == None
            && (forall x :: x != name ==> At(b'.rooms, x) == At(b.rooms, x))
            && (forall k :: Setting(b', At(b.rooms, name).value, k) == "")
            && (forall r :: r != At(b.rooms, name).value ==> CfgOf(b', r) == CfgOf(b, r)))
  {
    OneOp(b0, reserved, run, Delete(name, UP));
    hide DoAll;
  }

  /** The exception is real: the pieces of an alias string are checked, the string itself is not, and is what gets
      mapped. Two rooms that set the same two free aliases take the index entry from each other. */
  lemma SharedAliasString(b: Book, reserved: seq<string>, owner: RoomId, other: RoomId, sender: string, x: string,
                          y: string)
    requires ',' !in x && ',' !in y && Setting(b, other, "aliases") == ""
    requires Available(b, reserved, x, other) && Available(b, reserved, y, other)
    requires At(b.rooms, Join([x, y], ',')) == Some(owner)
    ensures var value := Join([x, y], ',');
      At(DoAll(b, reserved, [Aliases(other, sender, value, UP)]).rooms, value) == Some(other)
  {
    var pieces := [x, y];
    assert [] + [Aliases(other, sender, Join(pieces, ','), UP)] == [Aliases(other, sender, Join(pieces, ','), UP)];
    assert DoAll(b, reserved, []) == b;
    hide DoAll, Available, OnlySet;
    AliasesEffect(b, reserved, [], other, sender, pieces);
    assert Parts("") == [];
    assert pieces[0] !in Parts(Setting(b, other, "aliases"));
    assert forall i :: 0 <= i < |pieces| ==> pieces[i] == x || pieces[i] == y;
  }

  /** The commands with a store that fails: settings that cannot be read stop them, except `delete`, which does not
      read any; a change of the settings that is not kept leaves the index as if it were. */
  lemma StoreEffect(b: Book, reserved: seq<string>, op: Op)
    requires !op.Round?
    ensures var up := op.(st := UP); var b', done := Do(b, reserved, op), Do(b, reserved, up);
      && (!op.st.canRead && !op.Delete? ==> b' == b)
      && (op.st.canRead || op.Delete? ==> b'.rooms == done.rooms && b'.cfgs == if op.st.kept then done.cfgs else b.cfgs)
  {
    hide Split, Parts, Refused;
  }

  /** One round of a sync when the settings cannot be read, before or after the migration: what cannot be read is
      neither migrated nor mapped. Of a change that is not kept nothing is seen. */
  lemma RoundEffect(b: Book, room: RoomId, before: Store, after: bool)
    ensures var b' := SyncOne(b, room, before, after);
      && (!after ==> b'.rooms == b.rooms)
      && (!before.canRead || !before.kept ==> b'.cfgs == b.cfgs)
      && (forall r :: r != room ==> CfgOf(b', r) == CfgOf(b, r))
      && (before.canRead && before.kept ==> b'.cfgs == SyncOne(b, room, UP, true).cfgs)
      && (before.canRead && before.kept && after ==> b' == SyncOne(b, room, UP, true))
      && (after ==> forall name ::
            (At(b'.rooms, name) == if Claims(CfgOf(b', room), name) then Some(room) else At(b.rooms, name)))
  {
    hide MigratedCfg, Norm, Parts, Truthy;
    var cfg := CfgOf(SyncOne(b, room, before, after), room);
    if after && Lookup(cfg, MAILBOX) != "" && Truthy(Lookup(cfg, ACTIVE)) {
      forall name ensures At(AddRoomTo(b.rooms, room, cfg), name) ==
        if Claims(cfg, name) then Some(room) else At(b.rooms, name)
      {
        StoreAliasesAt(b.rooms[Norm(Lookup(cfg, MAILBOX)) := room], Parts(Lookup(cfg, ALIASES)), room, name);
      }
    }
    hide StoreAliases;
  }
}
