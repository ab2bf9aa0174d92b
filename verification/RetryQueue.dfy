/** The queue's own methods as they run on their own, under the locks they take: the store is updated
    in place, any access may fail, and the passes of `Process` drain the queue
    (internal/bot/queue/queue.go, internal/bot/queue/manager.go). */
module RetryQueue {
  import opened Text
  import opened QueueStore

  /* ---------- what a pass computes ---------- */

  /** The queue's records and the calls of the mail sender. */
  datatype Shelf = Shelf(index: map<Id, Key>, items: map<Key, Record>, wire: seq<Sent>)

  /** An entry that a pass came across, and what the mail sender would answer for it. */
  datatype Attempt = Attempt(id: Id, reply: Reply)

  ghost predicate Sane(s: Shelf) {
    forall id :: id in s.index ==> s.index[id] == ItemKey(id) && Complete(Fetch(s.items, ItemKey(id)), id)
  }

  function Removed(s: Shelf, id: Id): Shelf {
    s.(index := s.index - {id}, items := s.items[ItemKey(id) := Blank])
  }

  function SentFor(id: Id, item: Record, reply: Reply): Sent
    requires item.Full?
  {
    Sent(id, item.from, item.to, item.data, RelayOf(item), true, reply)
  }

  /** One entry with a reliable store: given up, delivered, or kept with one more failed attempt. */
  function TryOne(s: Shelf, retries: int, a: Attempt): Shelf {
    var item := Fetch(s.items, ItemKey(a.id));
    if Attempts(item).None? then s
    else
      var n := Attempts(item).value;
      if n > retries then Removed(s, a.id)
      else
        var s1 := s.(wire := s.wire + [SentFor(a.id, item, a.reply)]);
        if a.reply.Accepted? then Removed(s1, a.id)
        else s1.(items := s.items[ItemKey(a.id) := item.(attempts := Itoa(n + 1))])
  }

  function PassOf(s: Shelf, retries: int, tries: seq<Attempt>): Shelf {
    if tries == [] then s
    else TryOne(PassOf(s, retries, tries[..|tries| - 1]), retries, tries[|tries| - 1])
  }

  /** How many entries a pass tries: one more than the batch size, if there are that many. */
  function Quota(listed: nat, batch: int): nat {
    var most := if batch < 0 then 0 else batch + 1;
    if listed < most then listed else most
  }

  ghost predicate EachOnce(tries: seq<Attempt>, index: map<Id, Key>) {
    && (forall i :: 0 <= i < |tries| ==> tries[i].id in index)
    && (forall i, j :: 0 <= i < j < |tries| ==> tries[i].id != tries[j].id)
  }

  /** `s'` is the result of one pass over `s`, for some order of the index and some answers. */
  ghost predicate PassRel(s: Shelf, s': Shelf, batch: int, retries: int) {
    exists tries :: |tries| == Quota(|s.index|, batch) && EachOnce(tries, s.index) && s' == PassOf(s, retries, tries)
  }

  /* ---------- draining ---------- */

  /** What an entry can still cost: its remaining sends and its removal. */
  function Weight(s: Shelf, retries: int, id: Id): (w: int)
    ensures w >= 1
  {
    var a := Attempts(Fetch(s.items, ItemKey(id)));
    if a.None? || retries + 2 - a.value < 1 then 1 else retries + 2 - a.value
  }

  function Weights(s: Shelf, retries: int): map<Id, int> {
    map id | id in s.index :: Weight(s, retries, id)
  }

  ghost function Total(m: map<Id, int>): int {
    if m == map[] then 0
    else var k :| k in m; m[k] + Total(m - {k})
  }

  /** The potential of a queue. */
  ghost function Potential(s: Shelf, retries: int): int { Total(Weights(s, retries)) }

  lemma {:induction false} TotalSplit(m: map<Id, int>, k: Id)
    requires k in m
    ensures Total(m) == m[k] + Total(m - {k})
    decreases |m|
  {
    var j :| j in m && Total(m) == m[j] + Total(m - {j});
    if j != k {
      TotalSplit(m - {j}, k);
      TotalSplit(m - {k}, j);
      assert m - {j} - {k} == m - {k} - {j};
    }
  }

  lemma {:induction false} TotalAtLeastSize(m: map<Id, int>)
    requires forall k :: k in m ==> m[k] >= 1
    ensures Total(m) >= |m|
    decreases |m|
  {
    if m != map[] {
      var k :| k in m;
      TotalSplit(m, k);
      TotalAtLeastSize(m - {k});
    }
  }

  lemma TryKeepsSane(s: Shelf, retries: int, a: Attempt)
    requires Sane(s) && a.id in s.index
    ensures Sane(TryOne(s, retries, a))
    ensures forall id :: id != a.id ==> (id in TryOne(s, retries, a).index <==> id in s.index)
  {
    var item := Fetch(s.items, ItemKey(a.id));
    var n := Attempts(item).value;
    BumpComplete(item, a.id, n + 1);
  }

  /** The other entries keep their weight; the one tried leaves or loses one. */
  lemma TryWeights(s: Shelf, retries: int, a: Attempt)
    requires Sane(s) && a.id in s.index
    ensures var s' := TryOne(s, retries, a);
      && (forall id :: id != a.id ==> (id in s'.index <==> id in s.index))
      && (forall id :: id != a.id ==> Weight(s', retries, id) == Weight(s, retries, id))
      && (a.id in s'.index ==> Weight(s', retries, a.id) == Weight(s, retries, a.id) - 1)
  {
    var item := Fetch(s.items, ItemKey(a.id));
    assert Complete(item, a.id);
    var n := Attempts(item).value;
    BumpComplete(item, a.id, n + 1);
    hide Complete, Attempts;
  }

  lemma TotalLess(m: map<Id, int>, m': map<Id, int>, k: Id)
    requires k in m && m[k] >= 1 && (k in m' ==> m'[k] == m[k] - 1)
    requires m' - {k} == m - {k}
    ensures Total(m') < Total(m)
  {
    hide Total;
    TotalSplit(m, k);
    if k in m' {
      TotalSplit(m', k);
    } else {
      assert m' - {k} == m';
    }
  }

  /** Trying a listed entry lowers the potential, whatever the answer. */
  lemma TryDrains(s: Shelf, retries: int, a: Attempt)
    requires Sane(s) && a.id in s.index
    ensures Potential(TryOne(s, retries, a), retries) < Potential(s, retries)
  {
    var s' := TryOne(s, retries, a);
    var w, w' := Weights(s, retries), Weights(s', retries);
    TryWeights(s, retries, a);
    hide TryOne, Weight, Sane, Total;
    assert w'.Keys - {a.id} == w.Keys - {a.id};
    forall id | id in w && id != a.id ensures id in w' && w'[id] == w[id] {
      assert Weight(s', retries, id) == Weight(s, retries, id);
    }
    assert w' - {a.id} == w - {a.id};
    TotalLess(w, w', a.id);
  }

  lemma {:induction false} PassKeepsSane(s: Shelf, retries: int, tries: seq<Attempt>)
    requires Sane(s) && EachOnce(tries, s.index)
    ensures Sane(PassOf(s, retries, tries))
    ensures PassOf(s, retries, tries).index.Keys <= s.index.Keys
    ensures forall id :: id in s.index && (forall i :: 0 <= i < |tries| ==> tries[i].id != id)
                         ==> id in PassOf(s, retries, tries).index
  {
    hide Sane, TryOne;
    if tries != [] {
      var n := |tries| - 1;
      PassKeepsSane(s, retries, tries[..n]);
      TryKeepsSane(PassOf(s, retries, tries[..n]), retries, tries[n]);
    }
  }

  lemma {:induction false} PassDrains(s: Shelf, retries: int, tries: seq<Attempt>)
    requires Sane(s) && EachOnce(tries, s.index)
    ensures Potential(PassOf(s, retries, tries), retries) + |tries| <= Potential(s, retries)
  {
    hide Sane, TryOne, Potential;
    if tries != [] {
      var n := |tries| - 1;
      PassDrains(s, retries, tries[..n]);
      PassKeepsSane(s, retries, tries[..n]);
      TryDrains(PassOf(s, retries, tries[..n]), retries, tries[n]);
    }
  }

  /** Each pass lowers the potential by at least the number of entries it tries, for any order of the
      index and any answers of the mail sender. */
  lemma EachPassDrains(s: Shelf, s': Shelf, batch: int, retries: int)
    requires Sane(s) && PassRel(s, s', batch, retries)
    ensures Sane(s') && Potential(s', retries) + Quota(|s.index|, batch) <= Potential(s, retries)
    ensures s'.index.Keys <= s.index.Keys
  {
    var tries :| |tries| == Quota(|s.index|, batch) && EachOnce(tries, s.index) && s' == PassOf(s, retries, tries);
    PassKeepsSane(s, retries, tries);
    PassDrains(s, retries, tries);
  }

  /** Successive passes with no `Add` in between. */
  ghost predicate Passes(shelves: seq<Shelf>, batch: int, retries: int) {
    forall i :: 0 <= i < |shelves| - 1 ==> PassRel(shelves[i], shelves[i + 1], batch, retries)
  }

  lemma {:induction false} DrainBound(shelves: seq<Shelf>, batch: int, retries: int)
    requires shelves != [] && Sane(shelves[0]) && Passes(shelves, batch, retries) && batch >= 0
    ensures var last := shelves[|shelves| - 1];
      && Sane(last)
      && (last.index == map[] || Potential(last, retries) + |shelves| - 1 <= Potential(shelves[0], retries))
    decreases |shelves|
  {
    hide Sane, PassRel, Potential, Total;
    var n := |shelves| - 1;
    if n > 0 {
      var before := shelves[..n];
      forall i | 0 <= i < |before| - 1 ensures PassRel(before[i], before[i + 1], batch, retries) {
        assert PassRel(shelves[i], shelves[i + 1], batch, retries);
      }
      DrainBound(before, batch, retries);
      assert PassRel(shelves[n - 1], shelves[n], batch, retries);
      EachPassDrains(shelves[n - 1], shelves[n], batch, retries);
    }
  }

  /** The queue is empty after as many passes as its potential, for every batch size the manager can
      use (zero stands for the default) that is not negative. */
  lemma QueueEmpties(shelves: seq<Shelf>, queueBatch: int, queueRetries: int)
    requires shelves != [] && Sane(shelves[0]) && queueBatch >= 0
    requires Passes(shelves, OrDefault(queueBatch, DEFAULT_BATCH), OrDefault(queueRetries, DEFAULT_RETRIES))
    requires |shelves| > Potential(shelves[0], OrDefault(queueRetries, DEFAULT_RETRIES))
    ensures shelves[|shelves| - 1].index == map[]
  {
    var batch, retries := OrDefault(queueBatch, DEFAULT_BATCH), OrDefault(queueRetries, DEFAULT_RETRIES);
    var last := shelves[|shelves| - 1];
    DrainBound(shelves, batch, retries);
    TotalAtLeastSize(Weights(last, retries));
    assert Weights(last, retries).Keys == last.index.Keys;
    assert |Weights(last, retries)| == |last.index|;
  }

  lemma EachOnceAppend(tries: seq<Attempt>, index: map<Id, Key>, a: Attempt)
    requires EachOnce(tries, index) && a.id in index
    requires forall j :: 0 <= j < |tries| ==> tries[j].id != a.id
    ensures EachOnce(tries + [a], index)
  {
  }

  lemma PassAppend(s: Shelf, retries: int, tries: seq<Attempt>, a: Attempt)
    ensures PassOf(s, retries, tries + [a]) == TryOne(PassOf(s, retries, tries), retries, a)
  {
    assert (tries + [a])[..|tries|] == tries;
  }

  /** A pass over `s0` has made `tries` and is left with `todo`; `s` is the state it has reached. */
  ghost predicate Underway(s0: Shelf, s: Shelf, todo: map<Id, Key>, tries: seq<Attempt>, retries: int, reliable: bool) {
    && s.index.Keys <= s0.index.Keys
    && (forall id :: id in todo ==> id in s.index && todo[id] == ItemKey(id))
    && (forall j :: 0 <= j < |tries| ==> tries[j].id !in todo)
    && EachOnce(tries, s0.index)
    && (reliable ==> |s0.index| == |tries| + |todo| && s == PassOf(s0, retries, tries))
  }

  lemma PassBegins(s: Shelf, todo: map<Id, Key>, retries: int, reliable: bool)
    requires Sane(s) && (todo == s.index || (!reliable && todo == map[]))
    ensures Underway(s, s, todo, [], retries, reliable)
  {
    hide Complete;
  }

  lemma UnderwayFacts(s0: Shelf, s: Shelf, todo: map<Id, Key>, tries: seq<Attempt>, retries: int, reliable: bool)
    requires Underway(s0, s, todo, tries, retries, reliable)
    ensures s.index.Keys <= s0.index.Keys
    ensures forall id :: id in todo ==> id in s.index && todo[id] == ItemKey(id)
  {
  }

  lemma OneLess(todo: map<Id, Key>, id: Id)
    requires id in todo
    ensures |todo - {id}| == |todo| - 1
  {
    assert (todo - {id}).Keys == todo.Keys - {id};
  }

  lemma UnderwayStep(s0: Shelf, s: Shelf, s': Shelf, todo: map<Id, Key>, tries: seq<Attempt>, retries: int,
                     reliable: bool, a: Attempt)
    requires Underway(s0, s, todo, tries, retries, reliable) && a.id in todo
    requires s'.index == s.index || s'.index == s.index - {a.id}
    requires reliable ==> s' == TryOne(s, retries, a)
    ensures Underway(s0, s', todo - {a.id}, tries + [a], retries, reliable)
  {
    hide TryOne;
    EachOnceAppend(tries, s0.index, a);
    PassAppend(s0, retries, tries, a);
    OneLess(todo, a.id);
    hide EachOnce, PassOf;
    var tries' := tries + [a];
    forall j | 0 <= j < |tries'| ensures tries'[j].id !in todo - {a.id} {
      if j < |tries| { assert tries'[j] == tries[j]; }
    }
    forall id | id in todo - {a.id} ensures id in s'.index {
      assert id in todo;
    }
  }

  lemma UnderwayEnds(s0: Shelf, s: Shelf, todo: map<Id, Key>, tries: seq<Attempt>, batch: int, retries: int)
    requires Underway(s0, s, todo, tries, retries, true)
    requires |tries| > 0 ==> |tries| <= batch + 1
    requires todo == map[] || |tries| > batch
    ensures PassRel(s0, s, batch, retries)
  {
    assert |tries| == Quota(|s0.index|, batch);
  }

  /* ---------- the methods ---------- */

  class Queue {
    const reliable: bool
    var index: map<Id, Key>
    var items: map<Key, Record>
    var wire: seq<Sent>

    ghost function Contents(): Shelf reads this { Shelf(index, items, wire) }

    /** Holds between any two store accesses, so also after a crash. */
    ghost predicate Valid() reads this { Sane(Contents()) }

    constructor (reliable: bool)
      ensures Valid() && this.reliable == reliable && Contents() == Shelf(map[], map[], [])
    {
      this.reliable := reliable;
      index, items, wire := map[], map[], [];
    }

    method GetIndex() returns (ok: bool, copy: map<Id, Key>)
      ensures reliable ==> ok
      ensures copy == if ok then index else map[]
    {
      ok := *;
      if reliable { ok := true; }
      copy := if ok then index else map[];
    }

    method SetIndex(copy: map<Id, Key>) returns (ok: bool)
      modifies this`index
      ensures reliable ==> ok
      ensures index == copy || (!ok && index == old(index))
    {
      var v: Verdict := *;
      if reliable { v := Acked; }
      if v != Refused { index := copy; }
      ok := v == Acked;
    }

    method GetItem(key: Key) returns (ok: bool, item: Record)
      ensures reliable ==> ok
      ensures item == if ok then Fetch(items, key) else Blank
    {
      ok := *;
      if reliable { ok := true; }
      item := if ok then Fetch(items, key) else Blank;
    }

    method SetItem(key: Key, item: Record) returns (ok: bool)
      modifies this`items
      ensures reliable ==> ok
      ensures items == old(items)[key := item] || (!ok && items == old(items))
    {
      var v: Verdict := *;
      if reliable { v := Acked; }
      if v != Refused { items := items[key := item]; }
      ok := v == Acked;
    }

    /** An error leaves the email unlisted or listed; it is never listed without its record. */
    method Add(id: Id, mail: Mail) returns (ok: bool)
      requires Valid() && mail.relay.Some?
      modifies this`index, this`items
      ensures Valid() && (reliable ==> ok)
      ensures ok ==> index == old(index)[id := ItemKey(id)] && items == old(items)[ItemKey(id) := NewRecord(id, mail)]
      ensures index == old(index) || index == old(index)[id := ItemKey(id)]
    {
      NewRecordComplete(id, mail);
      ok := SetItem(ItemKey(id), NewRecord(id, mail));
      if !ok { return; }
      var got, copy := GetIndex();
      if !got { return false; }
      ok := SetIndex(copy[id := ItemKey(id)]);
    }

    /** An error leaves the record in place; it is blanked only once the email is off the index. */
    method Remove(id: Id) returns (ok: bool)
      requires Valid()
      modifies this`index, this`items
      ensures Valid() && (reliable ==> ok)
      ensures ok ==> Contents() == Removed(old(Contents()), id)
      ensures index == old(index) || index == old(index) - {id}
    {
      var got, copy := GetIndex();
      if !got { return false; }
      var key := if id in copy then copy[id] else ItemKey(id);
      ok := SetIndex(copy - {id});
      if !ok { return; }
      ok := SetItem(key, Blank);
    }

    /** `reply` is the mail sender's answer, should it be asked. */
    method Try(id: Id, key: Key, retries: int, reply: Reply) returns (dequeue: bool)
      requires Valid() && id in index && key == ItemKey(id)
      modifies this`items, this`wire
      ensures Valid() && old(wire) <= wire
      ensures reliable ==>
        (if dequeue then Removed(Contents(), id) else Contents()) ==
        TryOne(old(Contents()), retries, Attempt(id, reply))
    {
      var got, item := GetItem(key);
      if !got { return false; }
      var attempts := Attempts(item);
      if attempts.None? { return false; }
      if attempts.value > retries { return true; }
      wire := wire + [SentFor(id, item, reply)];
      if reply.Accepted? { return true; }
      BumpComplete(item, id, attempts.value + 1);
      var _ := SetItem(key, item.(attempts := Itoa(attempts.value + 1)));
      return false;
    }

    /** The body of the pass loop: try one entry and take it off if that is settled. */
    method TryAndRemove(id: Id, key: Key, retries: int, reply: Reply)
      requires Valid() && id in index && key == ItemKey(id)
      modifies this
      ensures Valid() && old(wire) <= wire
      ensures index == old(index) || index == old(index) - {id}
      ensures reliable ==> Contents() == TryOne(old(Contents()), retries, Attempt(id, reply))
    {
      hide TryOne;
      var dequeue := Try(id, key, retries, reply);
      if dequeue {
        var _ := Remove(id);
      }
    }

    /** Any order of the index and any answers of the mail sender. */
    method Process(queueBatch: int, queueRetries: int) returns (ghost tries: seq<Attempt>)
      requires Valid()
      modifies this
      ensures Valid() && old(wire) <= wire && index.Keys <= old(index).Keys
      ensures reliable ==>
        PassRel(old(Contents()), Contents(), OrDefault(queueBatch, DEFAULT_BATCH),
                OrDefault(queueRetries, DEFAULT_RETRIES))
    {
      hide Underway, PassRel, Sane;
      var batch := OrDefault(queueBatch, DEFAULT_BATCH);
      var retries := OrDefault(queueRetries, DEFAULT_RETRIES);
      var _, todo := GetIndex();
      var i := 0;
      tries := [];
      PassBegins(Contents(), todo, retries, reliable);
      while todo != map[]
        invariant Valid() && old(wire) <= wire
        invariant Underway(old(Contents()), Contents(), todo, tries, retries, reliable)
        invariant i == |tries| && (i > 0 ==> i <= batch + 1)
        decreases |todo|
      {
        if i > batch { break; }
        var id :| id in todo;
        var reply: Reply := *;
        ghost var s := Contents();
        UnderwayFacts(old(Contents()), s, todo, tries, retries, reliable);
        TryAndRemove(id, todo[id], retries, reply);
        UnderwayStep(old(Contents()), s, Contents(), todo, tries, retries, reliable, Attempt(id, reply));
        tries := tries + [Attempt(id, reply)];
        todo := todo - {id};
        i := i + 1;
      }
      if reliable {
        UnderwayEnds(old(Contents()), Contents(), todo, tries, batch, retries);
      }
      UnderwayFacts(old(Contents()), Contents(), todo, tries, retries, reliable);
    }
  }
}
