/** Where every email is, in every interleaving with a reliable store, distinct ids and a fixed
    `queue:retries`: nothing is lost, sent twice or retried beyond the limit. */
module QueueConservation {
  import opened Text
  import opened QueueStore
  import opened QueueProtocol
  import opened QueueSafety
  import opened QueueDeadlock

  /** Failed sends of email `id` made from the queue. */
  function Fails(wire: seq<Sent>, id: Id): nat {
    if wire == [] then 0
    else
      var n := |wire| - 1;
      Fails(wire[..n], id) + if wire[n].id == id && wire[n].queued && wire[n].reply.Rejected? then 1 else 0
  }

  /** Successful sends of email `id`, the first one included. */
  function Oks(wire: seq<Sent>, id: Id): nat {
    if wire == [] then 0
    else
      var n := |wire| - 1;
      Oks(wire[..n], id) + if wire[n].id == id && wire[n].reply.Accepted? then 1 else 0
  }

  lemma CountAppend(wire: seq<Sent>, sent: Sent, id: Id)
    ensures Fails(wire + [sent], id) ==
            Fails(wire, id) + if sent.id == id && sent.queued && sent.reply.Rejected? then 1 else 0
    ensures Oks(wire + [sent], id) == Oks(wire, id) + if sent.id == id && sent.reply.Accepted? then 1 else 0
  {
    assert (wire + [sent])[..|wire|] == wire;
  }

  /** Queue sends an email can get: one more than the configured number of retries. */
  function Limit(retries: int): nat { if retries < 0 then 0 else retries + 1 }

  predicate Done(s: State, retries: int, id: Id) {
    && Fails(s.wire, id) <= Limit(retries)
    && (Oks(s.wire, id) == 1 || (Oks(s.wire, id) == 0 && Fails(s.wire, id) == Limit(retries)))
  }

  predicate Settled(s: State, retries: int, id: Id) {
    && Oks(s.wire, id) == 0
    && Fails(s.wire, id) <= Limit(retries)
    && Attempts(Fetch(s.items, ItemKey(id))) == Some(Fails(s.wire, id))
  }

  predicate Untouched(s: State, id: Id) { Oks(s.wire, id) == 0 && Fails(s.wire, id) == 0 }

  /** A pass has just sent `id` and not yet brought the store up to date. */
  predicate Mid(th: Thread, id: Id) {
    && th.Processing?
    && (th.at.Bump? || (th.at.UnlockEmail? && th.at.dequeue) || th.at.RereadQueue? || th.at.Unlist?)
    && th.at.id == id
  }

  predicate PendingOn(th: Thread, id: Id) { Pending(th) && th.id == id }

  ghost predicate NoneMid(s: State, id: Id) { forall t :: t in s.threads ==> !Mid(s.threads[t], id) }

  ghost predicate NonePending(s: State, id: Id) { forall t :: t in s.threads ==> !PendingOn(s.threads[t], id) }

  ghost predicate Queued(a: Account) { a.first == Temporary && a.mail.relay.Some? }

  /** The books of one email. */
  ghost predicate Entry(s: State, retries: int, id: Id)
    requires id in s.accounts
  {
    var a := s.accounts[id];
    && (!Queued(a) ==>
          && id !in s.index && Fails(s.wire, id) == 0
          && Oks(s.wire, id) == (if a.first == Delivered then 1 else 0))
    && (id in s.index ==>
          && Carries(Fetch(s.items, ItemKey(id)), a.mail)
          && (NoneMid(s, id) ==> Settled(s, retries, id)))
    && (a.first == NotYet ==> !NonePending(s, id))
    && (Queued(a) && id !in s.index && NonePending(s, id) ==> Done(s, retries, id))
  }

  /** The books as seen from one call. */
  ghost predicate CallGood(s: State, retries: int, th: Thread) {
    match th
    case Sending(id, mail) =>
      id in s.accounts && s.accounts[id] == Account(mail, NotYet) && Untouched(s, id)
    case Adding(id, mail, add) =>
      && id in s.accounts && s.accounts[id] == Account(mail, Temporary)
      && (Pending(th) ==> Untouched(s, id))
      && (add.LockIndex? || add.GetIndex? || add.SetIndex? ==>
            Carries(Fetch(s.items, ItemKey(id)), mail) && Attempts(Fetch(s.items, ItemKey(id))) == Some(0))
    case Processing(p, at) =>
      && p.retries == retries
      && (at.Send? ==> at.n <= retries)
      && (at.Bump? ==> Oks(s.wire, at.id) == 0 && Fails(s.wire, at.id) == at.n + 1 && at.n <= retries)
      && ((at.UnlockEmail? && at.dequeue) || at.RereadQueue? || at.Unlist? ==> Done(s, retries, at.id))
    case _ => true
  }

  /** A call of the mail sender passes on the email as it was handed in, but for an empty relay URL, which a queue send
      takes for none. */
  ghost predicate Genuine(s: State, sent: Sent) {
    && sent.id in s.accounts
    && var mail := s.accounts[sent.id].mail;
       && sent.from == mail.from && sent.to == mail.to && sent.data == mail.data
       && sent.relay == if sent.queued then Passed(mail.relay) else mail.relay
  }

  ghost predicate Books(s: State, retries: int) {
    && (forall id :: id in s.accounts ==> Entry(s, retries, id))
    && (forall t :: t in s.threads ==> CallGood(s, retries, s.threads[t]))
    && (forall i :: 0 <= i < |s.wire| ==> Genuine(s, s.wire[i]))
  }

  /** Everything an entry depends on is as before. */
  ghost predicate SameFor(s: State, s': State, id: Id) {
    && (id in s.accounts <==> id in s'.accounts)
    && (id in s.accounts ==> s'.accounts[id] == s.accounts[id])
    && (id in s.index <==> id in s'.index)
    && Fetch(s'.items, ItemKey(id)) == Fetch(s.items, ItemKey(id))
    && Fails(s'.wire, id) == Fails(s.wire, id) && Oks(s'.wire, id) == Oks(s.wire, id)
  }

  lemma EntryKept(s: State, s': State, retries: int, t: Tid, th': Thread, id: Id)
    requires t in s.threads && s'.threads == s.threads[t := th'] && SameFor(s, s', id)
    requires Mid(th', id) == Mid(s.threads[t], id) && PendingOn(th', id) == PendingOn(s.threads[t], id)
    requires id in s.accounts && Entry(s, retries, id)
    ensures Entry(s', retries, id)
  {
    var th := s.threads[t];
    assert s'.threads[t] == th';
    if NoneMid(s', id) {
      forall u | u in s.threads ensures !Mid(s.threads[u], id) {
        assert !Mid(s'.threads[u], id);
      }
    }
    if NonePending(s', id) {
      forall u | u in s.threads ensures !PendingOn(s.threads[u], id) {
        assert !PendingOn(s'.threads[u], id);
      }
    }
  }

  /** The emails whose books a step of `th` may change: the one it is sending for the first time, or,
      under the queue lock, one its pass knows. */
  ghost predicate Quiet(s: State, s': State, th: Thread) {
    && s'.accounts.Keys == s.accounts.Keys
    && (forall id :: id in s.accounts ==> s'.accounts[id] == s.accounts[id] || PendingOn(th, id))
    && (forall id :: || (Fails(s'.wire, id) == Fails(s.wire, id) && Oks(s'.wire, id) == Oks(s.wire, id))
                     || PendingOn(th, id) || (id in PassIds(th) && QueueKey in Held(th)))
  }

  predicate SameCounts(s: State, s': State, id: Id) {
    Fails(s'.wire, id) == Fails(s.wire, id) && Oks(s'.wire, id) == Oks(s.wire, id)
  }

  lemma CallKept(s: State, s': State, retries: int, th: Thread)
    requires CallGood(s, retries, th)
    requires ActiveId(th).Some? ==> th.id in s'.accounts && s'.accounts[th.id] == s.accounts[th.id]
    requires Pending(th) ==> SameCounts(s, s', th.id)
    requires th.Processing? && OnListed(th.at) ==> SameCounts(s, s', th.at.id)
    requires forall k :: k in Held(th) ==> Fetch(s'.items, k) == Fetch(s.items, k)
    ensures CallGood(s', retries, th)
  {
  }

  lemma OtherCallGood(s: State, s': State, retries: int, t: Tid, u: Tid)
    requires LocksMatch(s) && t in s.threads && u in s.threads && u != t
    requires Apart(s.threads[t], s.threads[u]) && CallGood(s, retries, s.threads[u])
    requires WithinLocks(s, s', s.threads[t]) && Quiet(s, s', s.threads[t])
    ensures CallGood(s', retries, s.threads[u])
  {
    hide LocksMatch;
    var th, other := s.threads[t], s.threads[u];
    forall k | k in Held(other) ensures Fetch(s'.items, k) == Fetch(s.items, k) {
      HoldersDiffer(s, u, t, k);
    }
    if other.Processing? && OnListed(other.at) {
      HoldersDiffer(s, u, t, QueueKey);
      assert other.at.id in PassIds(other);
      assert SameCounts(s, s', other.at.id);
    }
    CallKept(s, s', retries, other);
  }

  /** What the invariants say of one call. */
  lemma CallFacts(s: State, retries: int, t: Tid)
    requires Safe(s) && DistinctIds(s) && Books(s, retries) && t in s.threads
    ensures LocksMatch(s) && ThreadGood(s, s.threads[t]) && CallGood(s, retries, s.threads[t])
    ensures forall u :: u in s.threads && u != t ==> Apart(s.threads[t], s.threads[u])
    ensures Pending(s.threads[t]) ==> s.threads[t].id !in s.index
    ensures ActiveId(s.threads[t]).Some? ==>
              s.threads[t].id in s.accounts && Entry(s, retries, s.threads[t].id)
  {
    assert Known(s, s.threads[t]);
  }

  /** Only the pass that holds the queue lock can be mid-way. */
  lemma OthersNotMid(s: State, t: Tid, id: Id)
    requires Safe(s) && t in s.threads && QueueKey in Held(s.threads[t])
    ensures forall u :: u in s.threads && u != t ==> !Mid(s.threads[u], id)
  {
    forall u | u in s.threads && u != t ensures !Mid(s.threads[u], id) {
      HoldersDiffer(s, t, u, QueueKey);
    }
  }

  /** A listed email that the queue-lock holder is not mid-way with is settled. */
  lemma ListedSettled(s: State, retries: int, t: Tid, id: Id)
    requires Safe(s) && DistinctIds(s) && Books(s, retries)
    requires t in s.threads && QueueKey in Held(s.threads[t]) && !Mid(s.threads[t], id) && id in s.index
    ensures Settled(s, retries, id) && Carries(Fetch(s.items, ItemKey(id)), s.accounts[id].mail)
    ensures Queued(s.accounts[id])
  {
    OthersNotMid(s, t, id);
    assert Entry(s, retries, id);
  }

  ghost predicate SameRole(th: Thread, th': Thread, id: Id) {
    Mid(th', id) == Mid(th, id) && PendingOn(th', id) == PendingOn(th, id)
  }

  /** The books balance after a step of `t` if they do for the one email `x` it is about. */
  lemma BooksFollow(s: State, s': State, retries: int, t: Tid, th': Thread, x: Id)
    requires Safe(s) && DistinctIds(s) && Books(s, retries)
    requires t in s.threads && s'.threads == s.threads[t := th']
    requires WithinLocks(s, s', s.threads[t]) && Quiet(s, s', s.threads[t])
    requires CallGood(s', retries, th')
    requires forall id :: id != x ==> SameFor(s, s', id)
    requires forall id :: id != x ==> SameRole(s.threads[t], th', id)
    requires x in s.accounts ==> Entry(s', retries, x)
    requires forall i :: 0 <= i < |s'.wire| ==> Genuine(s', s'.wire[i])
    ensures Books(s', retries)
  {
    CallFacts(s, retries, t);
    hide Safe, DistinctIds, LocksMatch, WithinLocks, Apart, Entry, CallGood;
    forall id | id in s'.accounts ensures Entry(s', retries, id) {
      if id != x {
        assert SameFor(s, s', id) && SameRole(s.threads[t], th', id);
        EntryKept(s, s', retries, t, th', id);
      }
    }
    forall u | u in s'.threads ensures CallGood(s', retries, s'.threads[u]) {
      if u != t { OtherCallGood(s, s', retries, t, u); }
    }
  }

  /** A step that leaves records, books and roles alone. */
  lemma BooksAfterPlain(s: State, s': State, retries: int, t: Tid, th': Thread)
    requires Books(s, retries)
    requires t in s.threads && s'.threads == s.threads[t := th']
    requires s'.index == s.index && s'.items == s.items && s'.wire == s.wire && s'.accounts == s.accounts
    requires CallGood(s', retries, th') && forall id :: SameRole(s.threads[t], th', id)
    ensures Books(s', retries)
  {
    forall id | id in s'.accounts ensures Entry(s', retries, id) {
      assert Entry(s, retries, id) && SameRole(s.threads[t], th', id);
      EntryKept(s, s', retries, t, th', id);
    }
    forall i | 0 <= i < |s'.wire| ensures Genuine(s', s'.wire[i]) {
      assert Genuine(s, s.wire[i]);
    }
    forall u | u in s'.threads ensures CallGood(s', retries, s'.threads[u]) {
      if u != t {
        assert CallGood(s, retries, s.threads[u]);
        CallKept(s, s', retries, s.threads[u]);
      }
    }
  }

  /* ---------- the first send ---------- */

  lemma WireGenuine(s: State, s': State, sent: Sent)
    requires forall i :: 0 <= i < |s.wire| ==> Genuine(s, s.wire[i])
    requires s'.wire == s.wire + [sent] && Genuine(s', sent)
    requires s.accounts.Keys == s'.accounts.Keys
    requires forall id :: id in s.accounts ==> s'.accounts[id].mail == s.accounts[id].mail
    ensures forall i :: 0 <= i < |s'.wire| ==> Genuine(s', s'.wire[i])
  {
    forall i | 0 <= i < |s'.wire| ensures Genuine(s', s'.wire[i]) {
      if i < |s.wire| { assert Genuine(s, s.wire[i]); }
    }
  }

  /** The entry of an email after its first send. */
  lemma FirstSendEntry(s: State, s': State, retries: int, t: Tid, id: Id, mail: Mail, first: First)
    requires id in s.accounts && s.accounts[id] == Account(mail, NotYet) && Untouched(s, id)
    requires Entry(s, retries, id) && first != NotYet
    requires s'.accounts == s.accounts[id := Account(mail, first)] && s'.index == s.index
    requires Fails(s'.wire, id) == 0 && Oks(s'.wire, id) == if first == Delivered then 1 else 0
    requires t in s'.threads
    requires first == Temporary && mail.relay.Some? ==> PendingOn(s'.threads[t], id)
    ensures Entry(s', retries, id)
  {
  }

  lemma OtherCounts(wire: seq<Sent>, sent: Sent)
    ensures forall x :: x != sent.id ==> Fails(wire + [sent], x) == Fails(wire, x)
    ensures forall x :: x != sent.id ==> Oks(wire + [sent], x) == Oks(wire, x)
  {
    forall x | x != sent.id
      ensures Fails(wire + [sent], x) == Fails(wire, x) && Oks(wire + [sent], x) == Oks(wire, x)
    {
      CountAppend(wire, sent, x);
    }
  }

  lemma FirstSendStep(s: State, t: Tid, id: Id, mail: Mail, reply: Reply, first: First)
    ensures var s' := StepSend(s, t, id, mail, reply, first);
      var sent := Sent(id, mail.from, mail.to, mail.data, mail.relay, false, reply);
      var th' := if first != Temporary then Finished
                 else if mail.relay.None? then Crashed else Adding(id, mail, LockItem);
      && s'.threads == s.threads[t := th'] && s'.index == s.index && s'.items == s.items
      && s'.accounts == s.accounts[id := Account(mail, first)] && s'.wire == s.wire + [sent]
  {
  }

  lemma FirstSendShape(s: State, retries: int, t: Tid, id: Id, mail: Mail, reply: Reply, first: First)
    requires CallGood(s, retries, Sending(id, mail)) && Entry(s, retries, id) && id !in s.index
    requires first != NotYet && (first == Delivered <==> reply.Accepted?)
    ensures var s' := StepSend(s, t, id, mail, reply, first);
      var sent := Sent(id, mail.from, mail.to, mail.data, mail.relay, false, reply);
      && t in s'.threads && s'.threads == s.threads[t := s'.threads[t]]
      && s'.index == s.index && s'.items == s.items
      && s'.accounts == s.accounts[id := Account(mail, first)] && s'.wire == s.wire + [sent]
      && CallGood(s', retries, s'.threads[t]) && Entry(s', retries, id)
      && (forall x :: x != id ==> SameRole(Sending(id, mail), s'.threads[t], x))
  {
    FirstSendStep(s, t, id, mail, reply, first);
    hide StepSend, Entry;
    var s' := StepSend(s, t, id, mail, reply, first);
    var sent := Sent(id, mail.from, mail.to, mail.data, mail.relay, false, reply);
    CountAppend(s.wire, sent, id);
    hide Fails, Oks;
    FirstSendEntry(s, s', retries, t, id, mail, first);
  }

  lemma FirstSendQuiet(s: State, s': State, id: Id, mail: Mail, first: First, sent: Sent)
    requires id in s.accounts && s'.accounts == s.accounts[id := Account(mail, first)]
    requires s'.index == s.index && s'.items == s.items && sent.id == id && s'.wire == s.wire + [sent]
    ensures Quiet(s, s', Sending(id, mail)) && WithinLocks(s, s', Sending(id, mail))
    ensures forall x :: x != id ==> SameFor(s, s', x)
  {
    OtherCounts(s.wire, sent);
  }

  lemma BooksAfterSend(s: State, retries: int, t: Tid, id: Id, mail: Mail, reply: Reply, first: First)
    requires Safe(s) && DistinctIds(s) && Books(s, retries)
    requires t in s.threads && s.threads[t] == Sending(id, mail)
    requires first != NotYet && (first == Delivered <==> reply.Accepted?)
    ensures Books(StepSend(s, t, id, mail, reply, first), retries)
  {
    var s' := StepSend(s, t, id, mail, reply, first);
    CallFacts(s, retries, t);
    hide Safe, DistinctIds, LocksMatch, Apart, Entry, WithinLocks, Quiet;
    FirstSendShape(s, retries, t, id, mail, reply, first);
    var sent := s'.wire[|s.wire|];
    FirstSendQuiet(s, s', id, mail, first, sent);
    WireGenuine(s, s', sent);
    hide StepSend, CallGood, Books;
    BooksFollow(s, s', retries, t, s'.threads[t], id);
  }

  lemma GenuineKept(s: State, s': State)
    requires forall i :: 0 <= i < |s.wire| ==> Genuine(s, s.wire[i])
    requires s'.wire == s.wire && s'.accounts == s.accounts
    ensures forall i :: 0 <= i < |s'.wire| ==> Genuine(s', s'.wire[i])
  {
    forall i | 0 <= i < |s'.wire| ensures Genuine(s', s'.wire[i]) { assert Genuine(s, s.wire[i]); }
  }

  lemma ItemWriteShape(s: State, s': State, th: Thread, x: Id, r: Record)
    requires s'.items == s.items[ItemKey(x) := r] && ItemKey(x) in Held(th)
    requires s'.index == s.index && s'.wire == s.wire && s'.accounts == s.accounts
    ensures WithinLocks(s, s', th) && Quiet(s, s', th)
    ensures forall id :: id != x ==> SameFor(s, s', id)
  {
  }

  /** The books balance after a step that rewrites the locked record of `x`. */
  lemma BooksAfterItemWrite(s: State, s': State, retries: int, t: Tid, th': Thread, x: Id, r: Record)
    requires Safe(s) && DistinctIds(s) && Books(s, retries) && t in s.threads
    requires s' == s.(items := s.items[ItemKey(x) := r], threads := s.threads[t := th'])
    requires ItemKey(x) in Held(s.threads[t]) && CallGood(s', retries, th')
    requires forall id :: id != x ==> SameRole(s.threads[t], th', id)
    requires x in s.accounts ==> Entry(s', retries, x)
    ensures Books(s', retries)
  {
    GenuineKept(s, s');
    ItemWriteShape(s, s', s.threads[t], x, r);
    BooksFollow(s, s', retries, t, th', x);
  }

  /* ---------- `Add` ---------- */

  predicate Answered(env: Env) { env.write == Acked && env.readOk }

  lemma AddPlain(s: State, retries: int, t: Tid, id: Id, mail: Mail, add: AddStep, env: Env)
    requires mail.relay.Some? && !add.SetItem? && !add.SetIndex? && Answered(env)
    requires CallGood(s, retries, Adding(id, mail, add))
    ensures var s' := StepAdd(s, t, id, mail, add, env);
      && s'.index == s.index && s'.items == s.items && s'.wire == s.wire && s'.accounts == s.accounts
      && CallGood(s', retries, s'.threads[t])
      && forall x :: SameRole(Adding(id, mail, add), s'.threads[t], x)
  {
  }

  lemma SetItemGood(s: State, s': State, retries: int, t: Tid, id: Id, mail: Mail)
    requires CallGood(s, retries, Adding(id, mail, SetItem)) && Entry(s, retries, id)
    requires id !in s.index && mail.relay.Some?
    requires s' == s.(items := s.items[ItemKey(id) := NewRecord(id, mail)],
                      threads := s.threads[t := Adding(id, mail, LockIndex)])
    ensures CallGood(s', retries, Adding(id, mail, LockIndex)) && Entry(s', retries, id)
  {
    NewRecordComplete(id, mail);
    assert PendingOn(s'.threads[t], id);
  }

  lemma BooksAfterSetItem(s: State, retries: int, t: Tid, id: Id, mail: Mail, env: Env)
    requires Safe(s) && DistinctIds(s) && Books(s, retries) && Answered(env)
    requires t in s.threads && s.threads[t] == Adding(id, mail, SetItem) && mail.relay.Some?
    ensures Books(StepAdd(s, t, id, mail, SetItem, env), retries)
  {
    var s' := StepAdd(s, t, id, mail, SetItem, env);
    assert CallGood(s, retries, s.threads[t]) && Entry(s, retries, id);
    SetItemGood(s, s', retries, t, id, mail);
    BooksAfterItemWrite(s, s', retries, t, Adding(id, mail, LockIndex), id, NewRecord(id, mail));
  }

  lemma SetIndexShape(s: State, retries: int, t: Tid, id: Id, mail: Mail, env: Env)
    requires CallGood(s, retries, Adding(id, mail, SetIndex(s.index))) && Entry(s, retries, id)
    requires mail.relay.Some? && Answered(env)
    ensures var s' := StepAdd(s, t, id, mail, SetIndex(s.index), env);
      var th' := Adding(id, mail, UnlockIndex);
      && s'.index == s.index[id := ItemKey(id)] && s'.threads == s.threads[t := th']
      && s'.items == s.items && s'.wire == s.wire && s'.accounts == s.accounts
      && CallGood(s', retries, th') && Entry(s', retries, id)
  {
  }

  lemma IndexPutShape(s: State, s': State, th: Thread, x: Id)
    requires s'.index == s.index[x := ItemKey(x)] && QueueKey in Held(th)
    requires s'.items == s.items && s'.wire == s.wire && s'.accounts == s.accounts
    ensures WithinLocks(s, s', th) && Quiet(s, s', th)
    ensures forall id :: id != x ==> SameFor(s, s', id)
  {
  }

  lemma BooksAfterSetIndex(s: State, retries: int, t: Tid, id: Id, mail: Mail, copy: map<Id, Key>, env: Env)
    requires Safe(s) && DistinctIds(s) && Books(s, retries) && Answered(env)
    requires t in s.threads && s.threads[t] == Adding(id, mail, SetIndex(copy)) && mail.relay.Some?
    ensures Books(StepAdd(s, t, id, mail, SetIndex(copy), env), retries)
  {
    CallFacts(s, retries, t);
    var s' := StepAdd(s, t, id, mail, SetIndex(copy), env);
    hide Safe, DistinctIds, LocksMatch, Apart, Entry, WithinLocks, Quiet;
    SetIndexShape(s, retries, t, id, mail, env);
    IndexPutShape(s, s', s.threads[t], id);
    GenuineKept(s, s');
    hide StepAdd, CallGood, Books;
    BooksFollow(s, s', retries, t, Adding(id, mail, UnlockIndex), id);
  }

  lemma BooksAfterAdd(s: State, retries: int, t: Tid, id: Id, mail: Mail, add: AddStep, env: Env)
    requires Safe(s) && DistinctIds(s) && Books(s, retries) && Answered(env)
    requires t in s.threads && s.threads[t] == Adding(id, mail, add) && mail.relay.Some?
    ensures Books(StepAdd(s, t, id, mail, add, env), retries)
  {
    if add.SetItem? {
      BooksAfterSetItem(s, retries, t, id, mail, env);
    } else if add.SetIndex? {
      BooksAfterSetIndex(s, retries, t, id, mail, add.copy, env);
    } else {
      var s' := StepAdd(s, t, id, mail, add, env);
      AddLocks(s, t, id, mail, add, env);
      AddPlain(s, retries, t, id, mail, add, env);
      BooksAfterPlain(s, s', retries, t, s'.threads[t]);
    }
  }

  /* ---------- `Process` ---------- */

  predicate PlainInPass(at: PassStep) {
    !at.ReadEmail? && !at.Send? && !at.Bump? && !at.Unlist? && !at.WriteBlank?
  }

  lemma PassPlain(s: State, retries: int, t: Tid, p: Pass, at: PassStep, env: Env)
    requires PlainInPass(at) && Answered(env) && Fits(Processing(p, at), env)
    requires CallGood(s, retries, Processing(p, at))
    ensures var s' := StepPass(s, t, p, at, env);
      && s'.index == s.index && s'.items == s.items && s'.wire == s.wire && s'.accounts == s.accounts
      && CallGood(s', retries, s'.threads[t])
      && forall x :: SameRole(Processing(p, at), s'.threads[t], x)
  {
  }

  /** A step that changes only what the thread is about to do with `x`. */
  lemma BooksAfterTurn(s: State, s': State, retries: int, t: Tid, th': Thread, x: Id)
    requires Books(s, retries) && t in s.threads && s' == Goto(s, t, th')
    requires CallGood(s', retries, th') && forall id :: id != x ==> SameRole(s.threads[t], th', id)
    requires x in s.accounts ==> Entry(s', retries, x)
    ensures Books(s', retries)
  {
    GenuineKept(s, s');
    forall id | id in s'.accounts ensures Entry(s', retries, id) {
      if id != x {
        assert SameRole(s.threads[t], th', id);
        EntryKept(s, s', retries, t, th', id);
      }
    }
    forall u | u in s'.threads ensures CallGood(s', retries, s'.threads[u]) {
      if u != t {
        assert CallGood(s, retries, s.threads[u]);
        CallKept(s, s', retries, s.threads[u]);
      }
    }
  }

  lemma ReadShape(s: State, retries: int, t: Tid, p: Pass, at: PassStep, env: Env)
    requires at.ReadEmail? && Answered(env) && at.key == ItemKey(at.id)
    requires CallGood(s, retries, Processing(p, at)) && Settled(s, retries, at.id)
    requires at.id in s.accounts && Entry(s, retries, at.id) && at.id in s.index && Queued(s.accounts[at.id])
    ensures var s' := StepTry(s, t, p, at, env);
      && s' == Goto(s, t, s'.threads[t]) && CallGood(s', retries, s'.threads[t]) && Entry(s', retries, at.id)
      && forall id :: id != at.id ==> SameRole(Processing(p, at), s'.threads[t], id)
  {
  }

  /** What a pass knows of the listed email it works on. */
  lemma PassFacts(s: State, retries: int, t: Tid, p: Pass, at: PassStep)
    requires Safe(s) && DistinctIds(s) && Books(s, retries)
    requires t in s.threads && s.threads[t] == Processing(p, at) && OnListed(at)
    ensures PassGood(s, p, at) && CallGood(s, retries, Processing(p, at)) && s.index[at.id] == ItemKey(at.id)
    ensures at.id in s.accounts && Queued(s.accounts[at.id]) && Entry(s, retries, at.id)
    ensures Complete(Fetch(s.items, ItemKey(at.id)), at.id)
  {
    assert ThreadGood(s, s.threads[t]) && CallGood(s, retries, s.threads[t]);
    assert Entry(s, retries, at.id);
  }

  /** Reading a listed email: it is sent unless its failures have reached the limit. */
  lemma BooksAfterRead(s: State, retries: int, t: Tid, p: Pass, at: PassStep, env: Env)
    requires Safe(s) && DistinctIds(s) && Books(s, retries) && Answered(env)
    requires t in s.threads && s.threads[t] == Processing(p, at) && at.ReadEmail?
    ensures Books(StepTry(s, t, p, at, env), retries)
  {
    hide Safe, DistinctIds, Books, Entry;
    var s' := StepTry(s, t, p, at, env);
    PassFacts(s, retries, t, p, at);
    ListedSettled(s, retries, t, at.id);
    ReadShape(s, retries, t, p, at, env);
    hide StepTry, CallGood;
    BooksAfterTurn(s, s', retries, t, s'.threads[t], at.id);
  }

  lemma QueueSendShape(s: State, retries: int, t: Tid, p: Pass, at: PassStep, env: Env)
    requires at.Send? && at.item.Full? && at.key == ItemKey(at.id) && at.item == Fetch(s.items, at.key)
    requires Attempts(at.item) == Some(at.n) && Settled(s, retries, at.id)
    requires CallGood(s, retries, Processing(p, at))
    requires at.id in s.accounts && Entry(s, retries, at.id) && at.id in s.index && Queued(s.accounts[at.id])
    ensures var s' := StepTry(s, t, p, at, env);
      && s'.threads == s.threads[t := s'.threads[t]] && |s'.wire| == |s.wire| + 1
      && s'.wire == s.wire + [s'.wire[|s.wire|]] && s'.wire[|s.wire|].id == at.id
      && s'.index == s.index && s'.items == s.items && s'.accounts == s.accounts
      && CallGood(s', retries, s'.threads[t]) && Entry(s', retries, at.id) && Genuine(s', s'.wire[|s.wire|])
      && forall id :: id != at.id ==> SameRole(Processing(p, at), s'.threads[t], id)
  {
    var s' := StepTry(s, t, p, at, env);
    CountAppend(s.wire, s'.wire[|s.wire|], at.id);
    assert Mid(s'.threads[t], at.id);
  }

  lemma QueueSendQuiet(s: State, s': State, th: Thread, x: Id, sent: Sent)
    requires s'.wire == s.wire + [sent] && sent.id == x && x in PassIds(th) && QueueKey in Held(th)
    requires s'.items == s.items && s'.index == s.index && s'.accounts == s.accounts
    ensures WithinLocks(s, s', th) && Quiet(s, s', th)
    ensures forall id :: id != x ==> SameFor(s, s', id)
  {
    OtherCounts(s.wire, sent);
  }

  /** A send from the queue: of a settled email, as it was handed in, and counted once. */
  lemma BooksAfterQueueSend(s: State, retries: int, t: Tid, p: Pass, at: PassStep, env: Env)
    requires Safe(s) && DistinctIds(s) && Books(s, retries)
    requires t in s.threads && s.threads[t] == Processing(p, at) && at.Send? && at.item.Full?
    ensures Books(StepTry(s, t, p, at, env), retries)
  {
    hide Safe, DistinctIds, Entry, WithinLocks, Quiet;
    var s' := StepTry(s, t, p, at, env);
    PassFacts(s, retries, t, p, at);
    ListedSettled(s, retries, t, at.id);
    QueueSendShape(s, retries, t, p, at, env);
    var sent := s'.wire[|s.wire|];
    QueueSendQuiet(s, s', s.threads[t], at.id, sent);
    WireGenuine(s, s', sent);
    hide StepTry, CallGood, Books;
    BooksFollow(s, s', retries, t, s'.threads[t], at.id);
  }

  lemma BumpShape(s: State, retries: int, t: Tid, p: Pass, at: PassStep, env: Env)
    requires at.Bump? && at.item.Full? && Answered(env)
    requires PassGood(s, p, at) && CallGood(s, retries, Processing(p, at))
    requires at.id in s.accounts && Entry(s, retries, at.id) && Complete(at.item, at.id)
    ensures var s' := StepTry(s, t, p, at, env);
      var th' := Processing(p, UnlockEmail(at.id, at.key, false));
      && s' == s.(items := s.items[ItemKey(at.id) := at.item.(attempts := Itoa(at.n + 1))],
                  threads := s.threads[t := th'])
      && CallGood(s', retries, th') && Entry(s', retries, at.id)
      && forall id :: id != at.id ==> SameRole(Processing(p, at), th', id)
  {
    BumpComplete(at.item, at.id, at.n + 1);
  }

  lemma BooksAfterBump(s: State, retries: int, t: Tid, p: Pass, at: PassStep, env: Env)
    requires Safe(s) && DistinctIds(s) && Books(s, retries) && Answered(env)
    requires t in s.threads && s.threads[t] == Processing(p, at) && at.Bump? && at.item.Full?
    ensures Books(StepTry(s, t, p, at, env), retries)
  {
    hide Safe, DistinctIds, Books;
    PassFacts(s, retries, t, p, at);
    BumpShape(s, retries, t, p, at, env);
    BooksAfterItemWrite(s, StepTry(s, t, p, at, env), retries, t,
                        Processing(p, UnlockEmail(at.id, at.key, false)), at.id,
                        at.item.(attempts := Itoa(at.n + 1)));
  }

  lemma IndexDropShape(s: State, s': State, th: Thread, x: Id)
    requires s'.index == s.index - {x} && QueueKey in Held(th)
    requires s'.items == s.items && s'.wire == s.wire && s'.accounts == s.accounts
    ensures WithinLocks(s, s', th) && Quiet(s, s', th)
    ensures forall id :: id != x ==> SameFor(s, s', id)
  {
  }

  /** The books balance after a step that takes `x` off the index under the queue lock. */
  lemma BooksAfterIndexDrop(s: State, s': State, retries: int, t: Tid, th': Thread, x: Id)
    requires Safe(s) && DistinctIds(s) && Books(s, retries) && t in s.threads
    requires s'.index == s.index - {x} && s'.threads == s.threads[t := th']
    requires s'.items == s.items && s'.wire == s.wire && s'.accounts == s.accounts
    requires QueueKey in Held(s.threads[t]) && CallGood(s', retries, th')
    requires forall id :: id != x ==> SameRole(s.threads[t], th', id)
    requires x in s.accounts ==> Entry(s', retries, x)
    ensures Books(s', retries)
  {
    GenuineKept(s, s');
    IndexDropShape(s, s', s.threads[t], x);
    BooksFollow(s, s', retries, t, th', x);
  }

  lemma UnlistShape(s: State, retries: int, t: Tid, p: Pass, at: PassStep, env: Env)
    requires at.Unlist? && Answered(env) && PassGood(s, p, at) && CallGood(s, retries, Processing(p, at))
    requires at.id in s.accounts && Queued(s.accounts[at.id]) && Entry(s, retries, at.id)
    requires s.index[at.id] == ItemKey(at.id)
    ensures var s' := StepRemove(s, t, p, at, env);
      var th' := Processing(p, LockBlank(at.id, ItemKey(at.id)));
      && s'.index == s.index - {at.id} && s'.items == s.items && s'.wire == s.wire && s'.accounts == s.accounts
      && s'.threads == s.threads[t := th'] && CallGood(s', retries, th') && Entry(s', retries, at.id)
      && forall id :: id != at.id ==> SameRole(Processing(p, at), th', id)
  {
  }

  /** Taking an email off the index: it has been delivered, or its failures have reached the limit. */
  lemma BooksAfterUnlist(s: State, retries: int, t: Tid, p: Pass, at: PassStep, env: Env)
    requires Safe(s) && DistinctIds(s) && Books(s, retries) && Answered(env)
    requires t in s.threads && s.threads[t] == Processing(p, at) && at.Unlist?
    ensures Books(StepRemove(s, t, p, at, env), retries)
  {
    hide Safe, DistinctIds, Books;
    PassFacts(s, retries, t, p, at);
    UnlistShape(s, retries, t, p, at, env);
    BooksAfterIndexDrop(s, StepRemove(s, t, p, at, env), retries, t,
                        Processing(p, LockBlank(at.id, ItemKey(at.id))), at.id);
  }

  lemma BlankStep(s: State, t: Tid, p: Pass, at: PassStep, env: Env)
    requires at.WriteBlank? && at.key == ItemKey(at.id) && Answered(env)
    ensures StepRemove(s, t, p, at, env) ==
            s.(items := s.items[ItemKey(at.id) := Blank],
               threads := s.threads[t := Processing(p, UnlockBlank(at.id, at.key))])
  {
  }

  lemma BooksAfterBlank(s: State, retries: int, t: Tid, p: Pass, at: PassStep, env: Env)
    requires Safe(s) && DistinctIds(s) && Books(s, retries) && Answered(env)
    requires t in s.threads && s.threads[t] == Processing(p, at) && at.WriteBlank?
    ensures Books(StepRemove(s, t, p, at, env), retries)
  {
    var s' := StepRemove(s, t, p, at, env);
    var th' := Processing(p, UnlockBlank(at.id, at.key));
    assert ThreadGood(s, s.threads[t]) && CallGood(s, retries, s.threads[t]) && Known(s, s.threads[t]);
    assert Entry(s, retries, at.id);
    BlankStep(s, t, p, at, env);
    BlankEntry(s, s', retries, t, th', at.id);
    BooksAfterItemWrite(s, s', retries, t, th', at.id, Blank);
  }

  lemma BlankEntry(s: State, s': State, retries: int, t: Tid, th': Thread, x: Id)
    requires t in s.threads && x in s.accounts && Entry(s, retries, x) && x !in s.index
    requires s' == s.(items := s.items[ItemKey(x) := Blank], threads := s.threads[t := th'])
    requires PendingOn(th', x) == PendingOn(s.threads[t], x)
    ensures Entry(s', retries, x)
  {
    if NonePending(s', x) {
      forall u | u in s.threads ensures !PendingOn(s.threads[u], x) { assert !PendingOn(s'.threads[u], x); }
    }
    if !NonePending(s, x) {
      var u :| u in s.threads && PendingOn(s.threads[u], x);
      assert PendingOn(s'.threads[u], x);
    }
  }

  lemma BooksAfterPass(s: State, retries: int, t: Tid, p: Pass, at: PassStep, env: Env)
    requires Safe(s) && DistinctIds(s) && Books(s, retries) && Answered(env)
    requires Ready(s, t, env) && s.threads[t] == Processing(p, at)
    ensures Books(StepPass(s, t, p, at, env), retries)
  {
    if at.ReadEmail? {
      BooksAfterRead(s, retries, t, p, at, env);
    } else if at.Send? {
      BooksAfterQueueSend(s, retries, t, p, at, env);
    } else if at.Bump? {
      BooksAfterBump(s, retries, t, p, at, env);
    } else if at.Unlist? {
      BooksAfterUnlist(s, retries, t, p, at, env);
    } else if at.WriteBlank? {
      BooksAfterBlank(s, retries, t, p, at, env);
    } else {
      var s' := StepPass(s, t, p, at, env);
      assert ThreadGood(s, s.threads[t]);
      PassLocks(s, t, p, at, env);
      PassPlain(s, retries, t, p, at, env);
      BooksAfterPlain(s, s', retries, t, s'.threads[t]);
    }
  }

  /* ---------- whole runs ---------- */

  lemma BooksAfterStep(s: State, retries: int, t: Tid, env: Env)
    requires Safe(s) && DistinctIds(s) && Books(s, retries) && Answered(env) && Ready(s, t, env)
    ensures Books(Step(s, t, env), retries)
  {
    match s.threads[t]
    case Sending(id, mail) => BooksAfterSend(s, retries, t, id, mail, env.reply, FirstOf(env.reply));
    case Adding(id, mail, add) => BooksAfterAdd(s, retries, t, id, mail, add, env);
    case Processing(p, at) => BooksAfterPass(s, retries, t, p, at, env);
  }

  lemma {:induction false} SilentBefore(wire: seq<Sent>, id: Id)
    requires forall i :: 0 <= i < |wire| ==> wire[i].id != id
    ensures Fails(wire, id) == 0 && Oks(wire, id) == 0
  {
    if wire != [] { SilentBefore(wire[..|wire| - 1], id); }
  }

  lemma EntryAfterCall(s: State, s': State, retries: int, t: Tid, th: Thread, id: Id)
    requires t !in s.threads && s'.threads == s.threads[t := th] && SameFor(s, s', id)
    requires !Mid(th, id) && !PendingOn(th, id) && id in s.accounts && Entry(s, retries, id)
    ensures Entry(s', retries, id)
  {
    if NoneMid(s', id) {
      forall u | u in s.threads ensures !Mid(s.threads[u], id) { assert !Mid(s'.threads[u], id); }
    }
    if NonePending(s', id) {
      forall u | u in s.threads ensures !PendingOn(s.threads[u], id) { assert !PendingOn(s'.threads[u], id); }
    }
  }

  lemma BooksAfterSendmailCall(s: State, s': State, retries: int, t: Tid, id: Id, mail: Mail)
    requires Books(s, retries) && s.index.Keys <= s.accounts.Keys
    requires forall u :: u in s.threads ==> Known(s, s.threads[u])
    requires t !in s.threads && id !in s.accounts
    requires s' == Goto(s.(accounts := s.accounts[id := Account(mail, NotYet)]), t, Sending(id, mail))
    ensures Books(s', retries)
  {
    forall i | 0 <= i < |s.wire| ensures s.wire[i].id != id && Genuine(s', s.wire[i]) {
      assert Genuine(s, s.wire[i]);
    }
    SilentBefore(s.wire, id);
    assert Entry(s', retries, id) by { assert PendingOn(s'.threads[t], id); }
    assert CallGood(s', retries, Sending(id, mail));
    hide Entry, CallGood, Fails, Oks, Genuine;
    forall x | x in s.accounts ensures Entry(s', retries, x) {
      EntryAfterCall(s, s', retries, t, Sending(id, mail), x);
    }
    forall u | u in s.threads ensures CallGood(s', retries, s.threads[u]) {
      assert Known(s, s.threads[u]) && CallGood(s, retries, s.threads[u]);
      CallKept(s, s', retries, s.threads[u]);
    }
  }

  lemma BooksAfterProcessCall(s: State, s': State, retries: int, t: Tid, p: Pass)
    requires Books(s, retries) && t !in s.threads && p.retries == retries
    requires s' == Goto(s, t, Processing(p, LockQueue))
    ensures Books(s', retries)
  {
    GenuineKept(s, s');
    forall x | x in s.accounts ensures Entry(s', retries, x) {
      EntryAfterCall(s, s', retries, t, Processing(p, LockQueue), x);
    }
    forall u | u in s.threads ensures CallGood(s', retries, s.threads[u]) {
      assert CallGood(s, retries, s.threads[u]);
      CallKept(s, s', retries, s.threads[u]);
    }
  }

  /** The hypotheses of this module: a reliable store, distinct ids, fixed `queue:retries`. */
  predicate Steady(c: Config) { c.reliable && c.distinct && c.retries.Some? }

  function Retries(c: Config): int
    requires Steady(c)
  {
    OrDefault(c.retries.value, DEFAULT_RETRIES)
  }

  lemma BooksAfter(c: Config, s: State, a: Action)
    requires Steady(c) && Safe(s) && DistinctIds(s) && Books(s, Retries(c)) && Allowed(c, s, a)
    ensures Books(Apply(c, s, a), Retries(c))
  {
    match a
    case CallSendmail(t, id, mail) => BooksAfterSendmailCall(s, Apply(c, s, a), Retries(c), t, id, mail);
    case CallProcess(t, batch, retries) =>
      var p := Pass(OrDefault(batch, DEFAULT_BATCH), OrDefault(retries, DEFAULT_RETRIES), map[], 0);
      BooksAfterProcessCall(s, Apply(c, s, a), Retries(c), t, p);
    case Run(t, env) => BooksAfterStep(s, Retries(c), t, env);
  }

  lemma {:induction false} EveryRunBooks(c: Config, run: seq<Action>)
    requires Steady(c) && Possible(c, run)
    ensures Books(After(c, run), Retries(c))
  {
    if run != [] {
      var n := |run| - 1;
      EveryRunBooks(c, run[..n]);
      EveryRunSafe(c, run[..n]);
      EveryRunDistinct(c, run[..n]);
      BooksAfter(c, After(c, run[..n]), run[n]);
    }
  }

  /** Where an email can be. `Panicked` is the fate of an email that has to be queued without a relay
      URL: `Add` dereferences the nil URL before it stores anything. */
  datatype Fate = Started | Arrived | TurnedDown | Waiting | Dropped | Panicked

  ghost predicate Is(s: State, retries: int, id: Id, fate: Fate)
    requires id in s.accounts
  {
    var a := s.accounts[id];
    var present := id in s.index || !NonePending(s, id);
    match fate
    case Started => a.first == NotYet
    case Arrived => Oks(s.wire, id) == 1
    case TurnedDown => a.first == Permanent
    case Waiting => Queued(a) && Oks(s.wire, id) == 0 && present
    case Dropped => Queued(a) && Oks(s.wire, id) == 0 && !present && Fails(s.wire, id) == Limit(retries)
    case Panicked => a.first == Temporary && a.mail.relay.None?
  }

  /** At most one success and at most `Limit` failures, whatever the email is going through. */
  lemma CountsBounded(s: State, retries: int, id: Id)
    requires Books(s, retries) && id in s.accounts
    ensures Oks(s.wire, id) <= 1 && Fails(s.wire, id) <= Limit(retries)
  {
    assert Entry(s, retries, id);
    if id in s.index && !NoneMid(s, id) {
      var t :| t in s.threads && Mid(s.threads[t], id);
      assert CallGood(s, retries, s.threads[t]);
    } else if !NonePending(s, id) {
      var t :| t in s.threads && PendingOn(s.threads[t], id);
      assert CallGood(s, retries, s.threads[t]);
    }
  }

  lemma OneFateIn(s: State, retries: int, id: Id) returns (fate: Fate)
    requires Books(s, retries) && id in s.accounts
    ensures Is(s, retries, id, fate) && forall other :: Is(s, retries, id, other) ==> other == fate
  {
    assert Entry(s, retries, id);
    CountsBounded(s, retries, id);
    var a := s.accounts[id];
    fate :=
      if a.first == NotYet then Started
      else if Oks(s.wire, id) == 1 then Arrived
      else if a.first == Permanent then TurnedDown
      else if a.mail.relay.None? then Panicked
      else if id in s.index || !NonePending(s, id) then Waiting
      else Dropped;
  }

  /** Conservation: in every state of every run, each email handed to `Sendmail` has exactly one fate;
      it was sent successfully at most once, failed from the queue at most `Limit` times, and was put
      on the wire as it was handed in, relay aside (`RelayKeptExact`). It panicked only if it had to be
      queued without a relay. */
  lemma EveryEmailHasOneFate(c: Config, run: seq<Action>, id: Id)
    requires Steady(c) && Possible(c, run) && id in After(c, run).accounts
    ensures var s := After(c, run);
      && (exists fate :: Is(s, Retries(c), id, fate) &&
                         forall other :: Is(s, Retries(c), id, other) ==> other == fate)
      && Oks(s.wire, id) <= 1 && Fails(s.wire, id) <= Limit(Retries(c))
      && (forall i :: 0 <= i < |s.wire| ==> Genuine(s, s.wire[i]))
  {
    EveryRunBooks(c, run);
    var _ := OneFateIn(After(c, run), Retries(c), id);
    CountsBounded(After(c, run), Retries(c), id);
  }

  /** When all calls have returned: an email waits exactly if it is listed, its record is the email
      itself with the number of failed queue sends, and nothing is still on its way. */
  lemma QuietQueueHoldsTheWaiting(c: Config, run: seq<Action>, id: Id)
    requires Steady(c) && Possible(c, run) && id in After(c, run).accounts
    requires forall t :: t in After(c, run).threads ==> Ended(After(c, run).threads[t])
    ensures var s := After(c, run);
      var item := Fetch(s.items, ItemKey(id));
      && !Is(s, Retries(c), id, Started)
      && (Is(s, Retries(c), id, Waiting) <==> id in s.index)
      && (id in s.index ==> Carries(item, s.accounts[id].mail) && Attempts(item) == Some(Fails(s.wire, id)))
  {
    EveryRunBooks(c, run);
    var s := After(c, run);
    assert Entry(s, Retries(c), id);
    assert NoneMid(s, id) && NonePending(s, id);
  }

  /** The relay handed in is the one that every send of an email goes by, if and only if its text is not empty or the
      email was never sent from the queue. */
  lemma RelayKeptExact(c: Config, run: seq<Action>, id: Id)
    requires Steady(c) && Possible(c, run) && id in After(c, run).accounts
    ensures var s := After(c, run); var relay := s.accounts[id].mail.relay;
      (forall i :: 0 <= i < |s.wire| && s.wire[i].id == id ==> s.wire[i].relay == relay) <==>
        relay != Some("") || forall i :: 0 <= i < |s.wire| && s.wire[i].id == id ==> !s.wire[i].queued
  {
    EveryRunBooks(c, run);
    hide Entry, CallGood, Possible, After;
    var s := After(c, run);
    assert forall i :: 0 <= i < |s.wire| ==> Genuine(s, s.wire[i]);
  }
}
