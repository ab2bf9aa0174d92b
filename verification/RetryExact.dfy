/** What one try and one pass do to the emails they meet, said of the records and the answers themselves
    (internal/bot/queue/queue.go, internal/bot/queue/manager.go). */
module RetryExact {
  import opened Text
  import opened QueueStore
  import opened RetryQueue

  /** The attempts noted in a listed email's record. */
  function Noted(s: Shelf, id: Id): int
    requires Attempts(Fetch(s.items, ItemKey(id))).Some?
  {
    Attempts(Fetch(s.items, ItemKey(id))).value
  }

  /** `r'` is `r` with one more attempt noted. */
  predicate OneMore(r: Record, r': Record) {
    && r.Full? && r'.Full? && Attempts(r).Some? && Attempts(r') == Some(Attempts(r).value + 1)
    && r'.relay == r.relay && r'.data == r.data && r'.from == r.from && r'.to == r.to && r'.id == r.id
  }

  /** The call of the mail sender for a record: from, to and data as stored, the relay if its text is not empty. */
  predicate CallFor(sent: Sent, id: Id, r: Record, reply: Reply) {
    && r.Full? && sent.id == id && sent.from == r.from && sent.to == r.to && sent.data == r.data
    && (r.relay == "" ==> sent.relay == None) && (r.relay != "" ==> sent.relay == Some(r.relay))
    && sent.queued && sent.reply == reply
  }

  /** A try of a listed email: it leaves the index if and only if its attempts exceed the retries or the sender accepts
      it, and then its record is blank; if it stays, its record has one more attempt and is otherwise the same. It is
      sent, as its record says, if and only if its attempts do not exceed the retries. No other email changes. */
  lemma TryExact(s: Shelf, retries: int, a: Attempt)
    requires Sane(s) && a.id in s.index
    ensures Attempts(Fetch(s.items, ItemKey(a.id))).Some?
    ensures var s' := TryOne(s, retries, a);
      var r, r' := Fetch(s.items, ItemKey(a.id)), Fetch(s'.items, ItemKey(a.id));
      && (a.id !in s'.index <==> Noted(s, a.id) > retries || a.reply.Accepted?)
      && (a.id in s'.index ==> s'.index[a.id] == s.index[a.id] && OneMore(r, r'))
      && (a.id !in s'.index ==> r' == Blank)
      && (forall x :: x != a.id ==> (x in s'.index <==> x in s.index) && (x in s.index ==> s'.index[x] == s.index[x]))
      && (forall k :: k != ItemKey(a.id) ==> Fetch(s'.items, k) == Fetch(s.items, k))
      && (Noted(s, a.id) > retries ==> s'.wire == s.wire)
      && (Noted(s, a.id) <= retries ==>
            |s'.wire| == |s.wire| + 1 && s'.wire[..|s.wire|] == s.wire && CallFor(s'.wire[|s.wire|], a.id, r, a.reply))
  {
    var r := Fetch(s.items, ItemKey(a.id));
    assert Complete(r, a.id);
    BumpComplete(r, a.id, Attempts(r).value + 1);
    hide Attempts, Complete, Itoa;
  }

  /** The emails sent by a pass, in order: those tried whose attempts do not exceed the retries. */
  function SentBy(s: Shelf, retries: int, tries: seq<Attempt>): seq<Attempt>
    requires Sane(s) && EachOnce(tries, s.index)
  {
    if tries == [] then []
    else
      var last := tries[|tries| - 1];
      assert Complete(Fetch(s.items, ItemKey(last.id)), last.id);
      SentBy(s, retries, tries[..|tries| - 1]) + if Noted(s, last.id) <= retries then [last] else []
  }

  /** The fate of one email that is tried in a pass. */
  ghost predicate Settled(s: Shelf, s': Shelf, retries: int, a: Attempt)
    requires Attempts(Fetch(s.items, ItemKey(a.id))).Some?
  {
    var r, r' := Fetch(s.items, ItemKey(a.id)), Fetch(s'.items, ItemKey(a.id));
    && (a.id !in s'.index <==> Noted(s, a.id) > retries || a.reply.Accepted?)
    && (a.id in s'.index ==> OneMore(r, r'))
    && (a.id !in s'.index ==> r' == Blank)
  }

  /** Nothing of this email changes. */
  predicate Untried(s: Shelf, s': Shelf, id: Id) {
    (id in s'.index <==> id in s.index) && Fetch(s'.items, ItemKey(id)) == Fetch(s.items, ItemKey(id))
  }

  lemma TrySettles(s0: Shelf, s: Shelf, retries: int, a: Attempt)
    requires Sane(s0) && Sane(s) && a.id in s0.index && Untried(s0, s, a.id)
    ensures Attempts(Fetch(s0.items, ItemKey(a.id))).Some?
    ensures Settled(s0, TryOne(s, retries, a), retries, a)
    ensures forall x :: x != a.id ==> Untried(s, TryOne(s, retries, a), x)
  {
    TryExact(s, retries, a);
    hide TryOne, Attempts, Sane;
  }

  /** A pass settles each email it tries by that email's own record and answer, whatever it does before and after, and
      touches no other. */
  lemma {:induction false} PassExact(s: Shelf, retries: int, tries: seq<Attempt>, id: Id)
    requires Sane(s) && EachOnce(tries, s.index)
    ensures forall i :: 0 <= i < |tries| ==> Attempts(Fetch(s.items, ItemKey(tries[i].id))).Some?
    ensures forall i :: 0 <= i < |tries| && tries[i].id == id ==>
      Settled(s, PassOf(s, retries, tries), retries, tries[i])
    ensures (forall i :: 0 <= i < |tries| ==> tries[i].id != id) ==> Untried(s, PassOf(s, retries, tries), id)
  {
    hide TryOne, Complete, Attempts;
    if tries != [] {
      var n := |tries| - 1;
      var before, last := tries[..n], tries[n];
      assert forall i :: 0 <= i < n ==> before[i] == tries[i];
      PassExact(s, retries, before, id);
      PassExact(s, retries, before, last.id);
      PassKeepsSane(s, retries, before);
      hide Sane, PassOf;
      var s1, s' := PassOf(s, retries, before), PassOf(s, retries, tries);
      LastTry(s, retries, tries);
      TrySettles(s, s1, retries, last);
      hide Settled;
      if id != last.id {
        assert Untried(s1, s', id);
        forall i | 0 <= i < |tries| && tries[i].id == id ensures Settled(s, s', retries, tries[i]) {
          assert before[i] == tries[i];
          SettledStays(s, s1, s', retries, tries[i]);
        }
      } else {
        assert forall i :: 0 <= i < n ==> tries[i].id != tries[n].id;
      }
    }
  }

  lemma SettledStays(s: Shelf, s1: Shelf, s': Shelf, retries: int, a: Attempt)
    requires Attempts(Fetch(s.items, ItemKey(a.id))).Some?
    requires Settled(s, s1, retries, a) && Untried(s1, s', a.id)
    ensures Settled(s, s', retries, a)
  {
    hide Attempts;
  }

  lemma LastTry(s: Shelf, retries: int, tries: seq<Attempt>)
    requires tries != []
    ensures PassOf(s, retries, tries) ==
            TryOne(PassOf(s, retries, tries[..|tries| - 1]), retries, tries[|tries| - 1])
  {}

  /** A pass sends exactly those emails, in that order, each as its record says, and nothing else. */
  lemma {:induction false} PassSends(s: Shelf, retries: int, tries: seq<Attempt>)
    requires Sane(s) && EachOnce(tries, s.index)
    ensures var sent := SentBy(s, retries, tries); var wire := PassOf(s, retries, tries).wire;
      && |wire| == |s.wire| + |sent| && wire[..|s.wire|] == s.wire
      && forall i :: 0 <= i < |sent| ==>
           CallFor(wire[|s.wire| + i], sent[i].id, Fetch(s.items, ItemKey(sent[i].id)), sent[i].reply)
  {
    if tries != [] {
      var n := |tries| - 1;
      var before, last := tries[..n], tries[n];
      PassSends(s, retries, before);
      PassExact(s, retries, before, last.id);
      PassKeepsSane(s, retries, before);
      var s1 := PassOf(s, retries, before);
      TryExact(s1, retries, last);
      hide TryOne, Attempts, CallFor, Sane;
    }
  }

  /** How many emails a pass with a batch size tries: all that are listed, or one more than the batch size. */
  lemma PassTries(s: Shelf, s': Shelf, batch: int, retries: int)
    requires PassRel(s, s', batch, retries)
    ensures exists tries ::
      && EachOnce(tries, s.index) && s' == PassOf(s, retries, tries)
      && (batch < 0 ==> tries == [])
      && (0 <= batch < |s.index| ==> |tries| == batch + 1)
      && (|s.index| <= batch ==> |tries| == |s.index|)
  {
    hide PassOf;
    var tries :| |tries| == Quota(|s.index|, batch) && EachOnce(tries, s.index) && s' == PassOf(s, retries, tries);
  }

  // ---------- a bound without the potential

  /** What a listed email can cost at most. */
  function Most(retries: int): int { if retries + 2 < 1 then 1 else retries + 2 }

  lemma {:induction false} TotalAtMost(m: map<Id, int>, most: int)
    requires forall k :: k in m ==> m[k] <= most
    ensures Total(m) <= most * |m|
    decreases |m|
  {
    hide Total;
    if m == map[] {
      TotalOfNone();
    } else {
      var k :| k in m;
      TotalSplit(m, k);
      TotalAtMost(m - {k}, most);
      OneFewer(m, k);
      Distributes(most, |m - {k}|);
    }
  }

  lemma TotalOfNone()
    ensures Total(map[]) == 0
  {}

  lemma OneFewer(m: map<Id, int>, k: Id)
    requires k in m
    ensures |m| == |m - {k}| + 1
  {
    assert (m - {k}).Keys == m.Keys - {k};
  }

  lemma Distributes(a: int, b: int)
    ensures a * (b + 1) == a * b + a
  {}

  lemma PotentialAtMost(s: Shelf, retries: int)
    requires Sane(s)
    ensures Potential(s, retries) <= Most(retries) * |s.index|
  {
    var w := Weights(s, retries);
    forall id | id in w ensures w[id] <= Most(retries) { assert Complete(Fetch(s.items, ItemKey(id)), id); }
    assert w.Keys == s.index.Keys;
    assert |w| == |s.index|;
    hide Weight, Weights, Complete, Total;
    TotalAtMost(w, Most(retries));
  }

  /** With no new email the queue is empty after at most retries + 2 passes for each listed email, for every batch
      size that is not negative. */
  lemma QueueEmptiesWithin(shelves: seq<Shelf>, queueBatch: int, queueRetries: int)
    requires shelves != [] && Sane(shelves[0]) && queueBatch >= 0
    requires Passes(shelves, OrDefault(queueBatch, DEFAULT_BATCH), OrDefault(queueRetries, DEFAULT_RETRIES))
    requires |shelves| > Most(OrDefault(queueRetries, DEFAULT_RETRIES)) * |shelves[0].index|
    ensures shelves[|shelves| - 1].index == map[]
  {
    hide Sane, Passes, Potential, Most;
    PotentialAtMost(shelves[0], OrDefault(queueRetries, DEFAULT_RETRIES));
    QueueEmpties(shelves, queueBatch, queueRetries);
  }
}
