/** The index of mailbox names to rooms, and the room settings it is built from
    (internal/bot/data.go, internal/bot/command_owner.go, internal/bot/command_admin.go). */
module Registry {
  import opened Text
  import opened ListCodec
  import opened RoomConfig
  import Spamlist

  type RoomId = string

  const OWNER := "owner"

  /** The in-memory index and the settings of all rooms as the process sees them: through a cache in front of the
      store, whose maps are changed in place. */
  datatype Book = Book(rooms: map<string, RoomId>, cfgs: map<RoomId, Options>)

  function CfgOf(b: Book, room: RoomId): Options { if room in b.cfgs then b.cfgs[room] else map[] }

  /** Whether the settings of a room can be read, and whether the process sees a change of them afterwards. It does as
      long as its cache holds them, even if the server refused the change; once they are dropped from the cache, the
      settings are those of the server again. */
  datatype Store = Store(canRead: bool, kept: bool)

  function Save(b: Book, room: RoomId, cfg: Options, st: Store): Book {
    if st.kept then b.(cfgs := b.cfgs[room := cfg]) else b
  }

  /* ---------- commands ---------- */

  predicate Taken(b: Book, name: string, room: RoomId) {
    name in b.rooms && b.rooms[name] != "" && b.rooms[name] != room
  }

  predicate Refused(b: Book, reserved: seq<string>, name: string, room: RoomId) {
    Taken(b, name, room) || name in reserved
  }

  function DropName(b: Book, name: string): Book {
    if name == "" then b else b.(rooms := b.rooms - {name})
  }

  function Activate(b: Book, name: string, room: RoomId): Book { b.(rooms := b.rooms[name := room]) }

  function SetMailboxTo(b: Book, reserved: seq<string>, room: RoomId, sender: string, value: string, st: Store): Book {
    if Refused(b, reserved, value, room) || !st.canRead then b
    else
      var cfg := CfgOf(b, room);
      var b1 := Activate(DropName(b, Lookup(cfg, MAILBOX)), value, room);
      Save(b1, room, cfg[MAILBOX := value][OWNER := sender][ACTIVE := "true"], st)
  }

  /** The whole comma string is activated, once for every alias that is not listed already. */
  function SetAliasesTo(b: Book, reserved: seq<string>, room: RoomId, sender: string, value: string, st: Store): Book {
    var aliases := Split(value, ',');
    if (exists a :: a in aliases && Refused(b, reserved, a, room)) || !st.canRead then b
    else
      var cfg := CfgOf(b, room);
      var previous := Lookup(cfg, ALIASES);
      var b1 := DropName(b, previous);
      var b2 := if exists a :: a in aliases && a !in Parts(previous) then Activate(b1, value, room) else b1;
      Save(b2, room, cfg[ALIASES := value][OWNER := sender], st)
  }

  function Stopped(b: Book, room: RoomId, st: Store): Book {
    var mailbox := Lookup(CfgOf(b, room), MAILBOX);
    if !st.canRead || mailbox == "" then b
    else Save(DropName(b, mailbox), room, map[], st)
  }

  /** `name` is the mailbox part of the command's argument. */
  function Deleted(b: Book, name: string, st: Store): Book {
    if name !in b.rooms then b
    else Save(b.(rooms := b.rooms - {name}), b.rooms[name], map[], st)
  }

  /* ---------- synchronisation ---------- */

  function Norm(name: string): string { ToLower(TrimSpace(name)) }

  predicate OldSpamlist(cfg: Options) {
    Lookup(cfg, EMAILS) != "" || Lookup(cfg, LOCALPARTS) != "" || Lookup(cfg, HOSTS) != ""
  }

  function WithActive(cfg: Options): Options { if ACTIVE in cfg then cfg else cfg[ACTIVE := "true"] }

  /** The settings that the process sees after `migrateRoomSettings`. The active flag is set on the cached map itself;
      only a spamlist migration sends it to the store as well. */
  ghost function MigratedCfg(cfg: Options): Options {
    if OldSpamlist(cfg) then Spamlist.Migrated(WithActive(cfg)) else WithActive(cfg)
  }

  lemma WithActiveKeeps(cfg: Options)
    ensures OldSpamlist(WithActive(cfg)) == OldSpamlist(cfg)
  {
    KeysDiffer();
  }

  predicate Claims(cfg: Options, name: string) {
    && Lookup(cfg, MAILBOX) != "" && Truthy(Lookup(cfg, ACTIVE))
    && (name == Norm(Lookup(cfg, MAILBOX))
        || exists i :: 0 <= i < |Parts(Lookup(cfg, ALIASES))| && name == Norm(Parts(Lookup(cfg, ALIASES))[i]))
  }

  function StoreAliases(rooms: map<string, RoomId>, aliases: seq<string>, room: RoomId): map<string, RoomId> {
    if aliases == [] then rooms
    else StoreAliases(rooms, aliases[..|aliases| - 1], room)[Norm(aliases[|aliases| - 1]) := room]
  }

  function AddRoomTo(rooms: map<string, RoomId>, room: RoomId, cfg: Options): map<string, RoomId> {
    StoreAliases(rooms[Norm(Lookup(cfg, MAILBOX)) := room], Parts(Lookup(cfg, ALIASES)), room)
  }

  /** One round of the sync loop. `before` tells what becomes of the migration, `after` whether the settings can be
      read again. */
  ghost function SyncOne(b: Book, room: RoomId, before: Store, after: bool): Book {
    var cfg := CfgOf(b, room);
    var b1 := if before.canRead then Save(b, room, MigratedCfg(cfg), before) else b;
    var cfg1 := CfgOf(b1, room);
    if after && Lookup(cfg1, MAILBOX) != "" && Truthy(Lookup(cfg1, ACTIVE))
    then b1.(rooms := AddRoomTo(b1.rooms, room, cfg1))
    else b1
  }

  const UP := Store(true, true)

  /** A sync over the joined rooms, with a reliable store. */
  ghost function Sync(b: Book, joined: seq<RoomId>): Book {
    if joined == [] then b
    else SyncOne(Sync(b, joined[..|joined| - 1]), joined[|joined| - 1], UP, true)
  }

  lemma SaveTwice(b: Book, room: RoomId, first: Options, second: Options, st: Store)
    ensures Save(Save(b, room, first, st), room, second, st) == Save(b, room, second, st)
  {}

  method MigrateSpamlist(cfg: Options) returns (r: Options)
    ensures r == Spamlist.Migrated(cfg)
  {
    var room := new Spamlist.Room(cfg);
    room.MigrateSpamlistSettings();
    return room.options;
  }

  /* ---------- the bot ---------- */

  class Bot {
    const reserved: seq<string>
    var rooms: map<string, RoomId>
    var cfgs: map<RoomId, Options>

    ghost function Contents(): Book reads this { Book(rooms, cfgs) }

    constructor (reserved: seq<string>)
      ensures this.reserved == reserved && Contents() == Book(map[], map[])
    {
      this.reserved := reserved;
      rooms, cfgs := map[], map[];
    }

    method IsReserved(mailbox: string) returns (r: bool)
      ensures r <==> mailbox in reserved
    {
      for i := 0 to |reserved|
        invariant mailbox !in reserved[..i]
      {
        if mailbox == reserved[i] { return true; }
      }
      return false;
    }

    method SetMailbox(room: RoomId, sender: string, value: string, st: Store)
      modifies this
      ensures Contents() == SetMailboxTo(old(Contents()), reserved, room, sender, value, st)
    {
      var r := IsReserved(value);
      if (value in rooms && rooms[value] != "" && rooms[value] != room) || r { return; }
      if !st.canRead { return; }
      var cfg := if room in cfgs then cfgs[room] else map[];
      var previous := Lookup(cfg, MAILBOX);
      cfg := cfg[MAILBOX := value][OWNER := sender];
      if previous != "" { rooms := rooms - {previous}; }
      rooms := rooms[value := room];
      cfg := cfg[ACTIVE := "true"];
      if st.kept { cfgs := cfgs[room := cfg]; }
    }

    method SetAliases(room: RoomId, sender: string, value: string, st: Store)
      modifies this
      ensures Contents() == SetAliasesTo(old(Contents()), reserved, room, sender, value, st)
    {
      hide Split, Parts;
      var aliases := Split(value, ',');
      for i := 0 to |aliases|
        invariant forall j :: 0 <= j < i ==> !Refused(old(Contents()), reserved, aliases[j], room)
        invariant Contents() == old(Contents())
      {
        var alias := aliases[i];
        var r := IsReserved(alias);
        if (alias in rooms && rooms[alias] != "" && rooms[alias] != room) || r {
          assert alias in aliases && Refused(old(Contents()), reserved, alias, room);
          return;
        }
      }
      if !st.canRead { return; }
      var cfg := if room in cfgs then cfgs[room] else map[];
      var previous := Lookup(cfg, ALIASES);
      var oldAliases := StringSlice(previous);
      cfg := cfg[ALIASES := value][OWNER := sender];
      if previous != "" { rooms := rooms - {previous}; }
      ghost var b1 := Contents();
      for i := 0 to |aliases|
        invariant cfgs == old(cfgs)
        invariant rooms ==
          if exists j :: 0 <= j < i && aliases[j] !in oldAliases then b1.rooms[value := room] else b1.rooms
      {
        if aliases[i] !in oldAliases { rooms := rooms[value := room]; }
      }
      if st.kept { cfgs := cfgs[room := cfg]; }
    }

    method RunStop(room: RoomId, st: Store)
      modifies this
      ensures Contents() == Stopped(old(Contents()), room, st)
    {
      if !st.canRead { return; }
      var cfg := if room in cfgs then cfgs[room] else map[];
      var mailbox := Lookup(cfg, MAILBOX);
      if mailbox == "" { return; }
      rooms := rooms - {mailbox};
      if st.kept { cfgs := cfgs[room := map[]]; }
    }

    method RunDelete(name: string, st: Store)
      modifies this
      ensures Contents() == Deleted(old(Contents()), name, st)
    {
      if name !in rooms { return; }
      var room := rooms[name];
      rooms := rooms - {name};
      if st.kept { cfgs := cfgs[room := map[]]; }
    }

    method AddRoom(room: RoomId, cfg: Options)
      modifies this`rooms
      ensures rooms == AddRoomTo(old(rooms), room, cfg)
    {
      rooms := rooms[Norm(Lookup(cfg, MAILBOX)) := room];
      ghost var base := rooms;
      var aliases := StringSlice(Lookup(cfg, ALIASES));
      for i := 0 to |aliases|
        invariant rooms == StoreAliases(base, aliases[..i], room)
      {
        assert aliases[..i + 1][..i] == aliases[..i];
        rooms := rooms[Norm(aliases[i]) := room];
      }
      assert aliases[..|aliases|] == aliases;
    }

    /** A room is active unless its settings say otherwise; the cached settings themselves are changed. */
    method MarkActive(room: RoomId, st: Store) returns (seen: Options)
      modifies this`cfgs
      ensures seen == WithActive(CfgOf(old(Contents()), room))
      ensures Contents() == Save(old(Contents()), room, seen, st)
    {
      seen := if room in cfgs then cfgs[room] else map[];
      if ACTIVE !in seen {
        seen := seen[ACTIVE := "true"];
        if st.kept { cfgs := cfgs[room := seen]; }
      }
    }

    method MigrateRoomSettings(room: RoomId, st: Store)
      modifies this`cfgs
      ensures var b := old(Contents());
        Contents() == if st.canRead then Save(b, room, MigratedCfg(CfgOf(b, room)), st) else b
    {
      if !st.canRead { return; }
      hide WithActive, CfgOf, Spamlist.Migrated, Lookup;
      WithActiveKeeps(CfgOf(Contents(), room));
      ghost var b := Contents();
      var seen := MarkActive(room, st);
      if Lookup(seen, EMAILS) == "" && Lookup(seen, LOCALPARTS) == "" && Lookup(seen, HOSTS) == "" { return; }
      var cfg := MigrateSpamlist(seen);
      SaveTwice(b, room, seen, cfg, st);
      if st.kept { cfgs := cfgs[room := cfg]; }
    }

    /** With a reliable store; `AdminRooms` is not part of this model. */
    method SyncRooms(joined: seq<RoomId>)
      modifies this
      ensures Contents() == Sync(old(Contents()), joined)
    {
      for i := 0 to |joined|
        invariant Contents() == Sync(old(Contents()), joined[..i])
      {
        assert joined[..i + 1][..i] == joined[..i];
        var room := joined[i];
        MigrateRoomSettings(room, UP);
        var cfg := if room in cfgs then cfgs[room] else map[];
        if Lookup(cfg, MAILBOX) != "" && Truthy(Lookup(cfg, ACTIVE)) {
          AddRoom(room, cfg);
        }
      }
      assert joined[..|joined|] == joined;
    }
  }
}
