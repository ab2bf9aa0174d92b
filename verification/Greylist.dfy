/** The greylist: a host is put off until a fixed time after its first contact
    (internal/bot/access.go, IsGreylisted; internal/bot/config/lists.go; internal/utils/utils.go, AddrIP). */
module Greylist {
  import opened Text

  /** Times are in nanoseconds. */
  type Time = int

  const SECOND: int := 1_000_000_000
  const MINUTE: int := 60 * SECOND

  /** The parts that are foreign code: RFC 1123 time stamps and the splitting of network addresses. */
  datatype Lib = Lib(format: Time -> string, parse: string -> Option<Time>, splitHost: string -> string)

  function ToSecond(t: Time): Time { t - t % SECOND }

  /** A stamp reads back as its time, cut to the second. */
  ghost predicate Faithful(lib: Lib) {
    forall t :: lib.format(t) != "" && lib.parse(lib.format(t)) == Some(ToSecond(t))
  }

  type List = map<string, string>

  /** The key of an address: its host, or the whole text if it has none. */
  function AddrIP(lib: Lib, addr: string): string {
    var host := lib.splitHost(addr);
    if host != "" then host else addr
  }

  function Since(lib: Lib, list: List, key: string): Option<Time> {
    if key !in list || list[key] == "" then None else lib.parse(list[key])
  }

  function Noted(lib: Lib, list: List, key: string, now: Time): List {
    if key in list then list else list[key := lib.format(now)]
  }

  /** The verdict on a contact at time `now`, and the list afterwards. */
  function Judge(lib: Lib, list: List, minutes: int, addr: string, now: Time, kept: bool): (List, bool) {
    var key := AddrIP(lib, addr);
    if minutes == 0 then (list, false)
    else
      match Since(lib, list, key)
      case None => (if kept then Noted(lib, list, key, now) else list, true)
      case Some(at) => (list, at + minutes * MINUTE > now)
  }

  class Bot {
    const lib: Lib
    var greylist: List

    constructor (lib: Lib)
      ensures this.lib == lib && greylist == map[]
    {
      this.lib := lib;
      greylist := map[];
    }

    /** `kept` tells whether the process sees the new entry afterwards: it does while its cache holds the list, even if
        the server refused it. */
    method IsGreylisted(minutes: int, addr: string, now: Time, kept: bool) returns (r: bool)
      modifies this
      ensures (greylist, r) == Judge(lib, old(greylist), minutes, addr, now, kept)
    {
      if minutes == 0 { return false; }
      var list := greylist;
      var key := AddrIP(lib, addr);
      var greylistedAt := if key !in list || list[key] == "" then None else lib.parse(list[key]);
      if greylistedAt.None? {
        if key !in list { list := list[key := lib.format(now)]; }
        if kept { greylist := list; }
        return true;
      }
      return greylistedAt.value + minutes * MINUTE > now;
    }
  }

  datatype Contact = Contact(addr: string, now: Time)

  function ListAfter(lib: Lib, list: List, minutes: int, run: seq<Contact>): List {
    if run == [] then list
    else
      var n := |run| - 1;
      Judge(lib, ListAfter(lib, list, minutes, run[..n]), minutes, run[n].addr, run[n].now, true).0
  }

  /** The verdict on the i-th contact of a run. */
  function Verdict(lib: Lib, list: List, minutes: int, run: seq<Contact>, i: nat): bool
    requires i < |run|
  {
    Judge(lib, ListAfter(lib, list, minutes, run[..i]), minutes, run[i].addr, run[i].now, true).1
  }

  /** When a host counts as first seen: its old stamp, or its first contact cut to the second. */
  function FirstSeen(lib: Lib, list: List, run: seq<Contact>, key: string): Option<Time> {
    if key in list then Since(lib, list, key)
    else if run == [] then None
    else
      var n := |run| - 1;
      var earlier := FirstSeen(lib, list, run[..n], key);
      if earlier.Some? || AddrIP(lib, run[n].addr) != key then earlier else Some(ToSecond(run[n].now))
  }

  ghost predicate Readable(lib: Lib, list: List) {
    forall key :: key in list ==> Since(lib, list, key).Some?
  }

  /** The list after a run holds exactly the first contact of every host, readable; later contacts and
      other ports of a host never move it. */
  lemma {:induction false} FirstContactStays(lib: Lib, list: List, minutes: int, run: seq<Contact>, key: string)
    requires Faithful(lib) && Readable(lib, list) && minutes != 0
    ensures Readable(lib, ListAfter(lib, list, minutes, run))
    ensures Since(lib, ListAfter(lib, list, minutes, run), key) == FirstSeen(lib, list, run, key)
  {
    if run != [] {
      var n := |run| - 1;
      FirstContactStays(lib, list, minutes, run[..n], key);
      FirstContactStays(lib, list, minutes, run[..n], AddrIP(lib, run[n].addr));
    }
  }

  /** For every run and every contact in it: the host is put off if and only if less than the configured
      time has passed since its first contact, cut to the second. */
  lemma GreylistExact(lib: Lib, list: List, minutes: int, run: seq<Contact>, i: nat)
    requires Faithful(lib) && Readable(lib, list) && minutes > 0 && i < |run|
    ensures var first := FirstSeen(lib, list, run[..i + 1], AddrIP(lib, run[i].addr));
      first.Some? && (Verdict(lib, list, minutes, run, i) <==> run[i].now < first.value + minutes * MINUTE)
  {
    var key := AddrIP(lib, run[i].addr);
    FirstContactStays(lib, list, minutes, run[..i], key);
    assert run[..i + 1][..i] == run[..i];
    assert minutes * MINUTE >= MINUTE;
  }

  /** A stamp that cannot be read is never replaced: its host is put off for ever. */
  lemma {:induction false} UnreadableStampSticks(lib: Lib, list: List, minutes: int, run: seq<Contact>, i: nat)
    requires Faithful(lib) && minutes != 0 && i < |run|
    requires AddrIP(lib, run[i].addr) in list && Since(lib, list, AddrIP(lib, run[i].addr)).None?
    ensures Verdict(lib, list, minutes, run, i)
  {
    KeyKept(lib, list, minutes, run[..i], AddrIP(lib, run[i].addr));
  }

  lemma {:induction false} KeyKept(lib: Lib, list: List, minutes: int, run: seq<Contact>, key: string)
    requires key in list
    ensures key in ListAfter(lib, list, minutes, run) && ListAfter(lib, list, minutes, run)[key] == list[key]
  {
    if run != [] { KeyKept(lib, list, minutes, run[..|run| - 1], key); }
  }

  // ---------- by host

  /** The contact comes from this host, from whatever port. */
  predicate From(lib: Lib, c: Contact, host: string) { lib.splitHost(c.addr) == host }

  /** An address without a host is its own key, which could be the name of a host. */
  predicate Bare(lib: Lib, c: Contact, host: string) { lib.splitHost(c.addr) == "" && c.addr == host }

  lemma KeyOf(lib: Lib, c: Contact, host: string)
    requires host != ""
    ensures AddrIP(lib, c.addr) == host <==> From(lib, c, host) || Bare(lib, c, host)
  {}

  lemma {:induction false} FirstSeenAt(lib: Lib, list: List, run: seq<Contact>, host: string, i: nat)
    requires host != "" && host !in list && i < |run| && From(lib, run[i], host)
    requires forall k :: 0 <= k < i ==> !From(lib, run[k], host) && !Bare(lib, run[k], host)
    ensures FirstSeen(lib, list, run, host) == Some(ToSecond(run[i].now))
  {
    var n := |run| - 1;
    KeyOf(lib, run[n], host);
    if i < n {
      assert forall k :: 0 <= k <= i ==> run[..n][k] == run[k];
      FirstSeenAt(lib, list, run[..n], host, i);
    } else {
      NotSeen(lib, list, run[..n], host);
    }
  }

  lemma {:induction false} NotSeen(lib: Lib, list: List, run: seq<Contact>, host: string)
    requires host != "" && host !in list
    requires forall k :: 0 <= k < |run| ==> !From(lib, run[k], host) && !Bare(lib, run[k], host)
    ensures FirstSeen(lib, list, run, host) == None
  {
    if run != [] {
      KeyOf(lib, run[|run| - 1], host);
      NotSeen(lib, list, run[..|run| - 1], host);
    }
  }

  /** A host not in the list, first seen at contact `i`: each of its contacts from then on, from whatever port, is
      put off if and only if it comes before that time, cut to the second, plus the configured minutes. */
  lemma HostExact(lib: Lib, list: List, minutes: int, run: seq<Contact>, i: nat, j: nat, host: string)
    requires Faithful(lib) && Readable(lib, list) && minutes > 0 && i <= j < |run| && host != "" && host !in list
    requires From(lib, run[i], host) && From(lib, run[j], host)
    requires forall k :: 0 <= k < i ==> !From(lib, run[k], host) && !Bare(lib, run[k], host)
    ensures Verdict(lib, list, minutes, run, j) <==>
      run[j].now < run[i].now - run[i].now % 1_000_000_000 + minutes * 60_000_000_000
  {
    GreylistExact(lib, list, minutes, run, j);
    assert forall k :: 0 <= k <= i ==> run[..j + 1][k] == run[k];
    FirstSeenAt(lib, list, run[..j + 1], host, i);
    KeyOf(lib, run[j], host);
    hide Verdict, Faithful, Readable, FirstSeen;
  }

  lemma OneLater(lib: Lib, list: List, run: seq<Contact>, c: Contact, host: string)
    requires host !in list
    ensures FirstSeen(lib, list, run + [c], host) ==
      if FirstSeen(lib, list, run, host).Some? || AddrIP(lib, c.addr) != host then FirstSeen(lib, list, run, host)
      else Some(ToSecond(c.now))
  {
    assert (run + [c])[..|run|] == run;
  }

  /** The contacts of another host make no difference: without one of them the verdict is the same. */
  lemma {:induction false} OtherHostsApart(lib: Lib, list: List, run: seq<Contact>, k: nat, host: string)
    requires host != "" && k < |run| && !From(lib, run[k], host) && !Bare(lib, run[k], host)
    ensures FirstSeen(lib, list, run[..k] + run[k + 1..], host) == FirstSeen(lib, list, run, host)
  {
    if host !in list {
      var n := |run| - 1;
      KeyOf(lib, run[k], host);
      assert run == run[..n] + [run[n]];
      OneLater(lib, list, run[..n], run[n], host);
      hide FirstSeen, AddrIP, From, Bare;
      if k < n {
        assert run[..k] + run[k + 1..] == (run[..n][..k] + run[..n][k + 1..]) + [run[n]];
        OneLater(lib, list, run[..n][..k] + run[..n][k + 1..], run[n], host);
        OtherHostsApart(lib, list, run[..n], k, host);
      } else {
        assert run[..k] + run[k + 1..] == run[..n];
      }
    }
  }

  lemma VerdictApart(lib: Lib, list: List, minutes: int, run: seq<Contact>, k: nat, j: nat, host: string)
    requires Faithful(lib) && Readable(lib, list) && minutes > 0 && k < j < |run| && host != ""
    requires From(lib, run[j], host) && !From(lib, run[k], host) && !Bare(lib, run[k], host)
    ensures Verdict(lib, list, minutes, run[..k] + run[k + 1..], j - 1) == Verdict(lib, list, minutes, run, j)
  {
    var short := run[..k] + run[k + 1..];
    GreylistExact(lib, list, minutes, run, j);
    GreylistExact(lib, list, minutes, short, j - 1);
    OtherHostsApart(lib, list, run[..j + 1], k, host);
    assert short[..j] == run[..j + 1][..k] + run[..j + 1][k + 1..];
    assert short[j - 1] == run[j] && run[..j + 1][k] == run[k];
    KeyOf(lib, run[j], host);
    hide Verdict, Faithful, Readable, FirstSeen;
  }

  /** With zero minutes nobody is put off and nothing is noted. */
  lemma {:induction false} Disabled(lib: Lib, list: List, run: seq<Contact>)
    ensures ListAfter(lib, list, 0, run) == list
    ensures forall i :: 0 <= i < |run| ==> !Verdict(lib, list, 0, run, i)
  {
    if run != [] { Disabled(lib, list, run[..|run| - 1]); }
  }

  /** A new entry that is not kept changes nothing but is put off all the same; a host that is in the list is judged
      by its entry, kept or not. */
  lemma NotKept(lib: Lib, list: List, minutes: int, addr: string, now: Time)
    ensures Judge(lib, list, minutes, addr, now, false) == (list, Judge(lib, list, minutes, addr, now, true).1)
  {}
}
