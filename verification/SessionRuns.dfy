/** What holds of an SMTP session after every sequence of calls (internal/smtp/session.go). */
module SessionRuns {
  import opened Text
  import opened Session

  /** The session after these calls. */
  function Run(site: Site, calls: seq<Call>): State {
    if calls == [] then START else Respond(site, Run(site, calls[..|calls| - 1]), calls[|calls| - 1]).0
  }

  function ReplyTo(site: Site, calls: seq<Call>, i: nat): Reply
    requires i < |calls|
  {
    Respond(site, Run(site, calls[..i]), calls[i]).1
  }

  predicate AuthBefore(effects: seq<Effect>, i: nat)
    requires i <= |effects|
  {
    exists j :: 0 <= j < i && effects[j].Authenticated?
  }

  predicate Delivery(e: Effect) { e.ToMatrix? || e.ToWire? }

  // ---------- direction and authentication

  /** The direction is outgoing exactly when a login succeeded, and nothing is sent to the outside before one. */
  ghost predicate Authorized(s: State) {
    && (s.outgoing <==> AuthBefore(s.effects, |s.effects|))
    && forall i :: 0 <= i < |s.effects| && s.effects[i].ToWire? ==> AuthBefore(s.effects, i)
  }

  /** Effects are only ever appended. */
  lemma StepAppends(site: Site, s: State, c: Call)
    ensures s.effects <= Respond(site, s, c).0.effects
  {}

  lemma AuthBeforeExtends(a: seq<Effect>, b: seq<Effect>, i: nat, j: nat)
    requires a <= b && i <= |a| && i <= j <= |b| && AuthBefore(a, i)
    ensures AuthBefore(b, j)
  {
    var k :| 0 <= k < i && a[k].Authenticated?;
    assert b[k] == a[k];
  }

  lemma {:induction false} StepKeepsAuthorized(site: Site, s: State, c: Call)
    requires Authorized(s)
    ensures Authorized(Respond(site, s, c).0)
  {
    var t := Respond(site, s, c).0;
    StepAppends(site, s, c);
    var n := |s.effects|;
    assert forall i :: 0 <= i < n ==> t.effects[i] == s.effects[i];
    forall i | 0 <= i < |t.effects| && t.effects[i].ToWire?
      ensures AuthBefore(t.effects, i)
    {
      if i < n {
        AuthBeforeExtends(s.effects, t.effects, i, i);
      } else {
        AuthBeforeExtends(s.effects, t.effects, n, i);
      }
    }
    if s.outgoing {
      AuthBeforeExtends(s.effects, t.effects, n, |t.effects|);
    } else if t.outgoing {
      assert t.effects[n].Authenticated?;
    } else {
      assert !AuthBefore(s.effects, n);
      forall j | 0 <= j < |t.effects|
        ensures !t.effects[j].Authenticated?
      {
        if j < n { assert t.effects[j] == s.effects[j]; }
      }
    }
  }

  /** Over every sequence of calls, mail leaves for the outside only after a successful `AllowAuth` of the same
      session, and the session is outgoing exactly when there was one. */
  lemma {:induction false} EveryRunAuthorized(site: Site, calls: seq<Call>)
    ensures Authorized(Run(site, calls))
  {
    if calls != [] {
      EveryRunAuthorized(site, calls[..|calls| - 1]);
      StepKeepsAuthorized(site, Run(site, calls[..|calls| - 1]), calls[|calls| - 1]);
    }
  }

  /** Once outgoing, a session stays outgoing, whatever is called. */
  lemma {:induction false} DirectionNeverReverts(site: Site, calls: seq<Call>, more: seq<Call>)
    requires Run(site, calls).outgoing
    ensures Run(site, calls + more).outgoing
    decreases |more|
  {
    if more == [] {
      assert calls + more == calls;
    } else {
      DirectionNeverReverts(site, calls, more[..|more| - 1]);
      assert (calls + more)[..|calls + more| - 1] == calls + more[..|more| - 1];
    }
  }

  predicate LogsIn(c: Call) { c.Auth? && c.valid && c.allowed.Some? }

  /** The last successful login among these calls. */
  function LastLogin(calls: seq<Call>): (r: Option<Call>)
    ensures r.Some? ==> LogsIn(r.value)
  {
    if calls == [] then None
    else if LogsIn(calls[|calls| - 1]) then Some(calls[|calls| - 1])
    else LastLogin(calls[..|calls| - 1])
  }

  /** A session acts for the user and the room of its last successful login, whatever came in between. */
  lemma {:induction false} ActsForLastLogin(site: Site, calls: seq<Call>)
    ensures var s := Run(site, calls);
      && (s.outgoing <==> LastLogin(calls).Some?)
      && (s.outgoing ==>
            s.from == LastLogin(calls).value.username && s.fromRoom == LastLogin(calls).value.allowed.value)
      && (!s.outgoing ==> s.fromRoom == "")
  {
    if calls != [] { ActsForLastLogin(site, calls[..|calls| - 1]); }
  }

  /** After a login, MAIL is accepted if and only if the sender is a valid local address mapped to the room of the
      last login; before one, if and only if it is a valid address of another domain. */
  lemma MailExact(site: Site, calls: seq<Call>, c: Call)
    requires c.Mail?
    ensures Respond(site, Run(site, calls), c).1 == Ok <==>
      && c.valid
      && match LastLogin(calls)
         case Some(login) => Local(site, c.from_) && c.mapping == login.allowed
         case None => !Local(site, c.from_)
  {
    ActsForLastLogin(site, calls);
  }

  // ---------- one Data call

  function NewEffects(site: Site, s: State, c: Call): seq<Effect> {
    StepAppends(site, s, c);
    Respond(site, s, c).0.effects[|s.effects|..]
  }

  /** An outgoing Data deals with the recipients in order up to the first failure: local ones only by
      `IncomingEmail`, the others only by `sendmail`; it answers nil exactly when all of them were accepted. */
  lemma OutgoingDataExact(site: Site, s: State, c: Call)
    requires c.Data? && s.outgoing && c.envelope.Some? && |s.tos| > 0
    ensures var done := NewEffects(site, s, c); var reply := Respond(site, s, c).1;
      && 0 < |done| <= |s.tos|
      && (forall i :: 0 <= i < |done| ==>
            done[i] == if site.hostname(s.tos[i]) in site.domains then ToMatrix(s.tos[i])
                       else ToWire(c.envelope.value.from, s.tos[i]))
      && (forall i :: 0 <= i < |done| - 1 ==> c.answers(i))
      && (reply == Ok <==> |done| == |s.tos| && c.answers(|s.tos| - 1))
      && (reply != Ok <==> !c.answers(|done| - 1))
  {
    ReachedExact(|s.tos|, c.answers);
    var k := Reached(|s.tos|, c.answers);
    assert NewEffects(site, s, c) == OutgoingEffects(site, c.envelope.value.from, s.tos[..k]);
    assert k == |s.tos| && c.answers(k - 1) ==> forall i :: 0 <= i < k - 1 || i == k - 1 ==> c.answers(i);
  }

  /** An unauthenticated Data delivers something exactly when the message was read and passed the filter, the
      greylist and DKIM; then only to Matrix. */
  lemma IncomingDataExact(site: Site, s: State, c: Call)
    requires c.Data? && !s.outgoing && |s.tos| > 0
    ensures var passed := c.envelope.Some? && c.filterOk && !c.greylisted && c.dkimOk;
      var done := NewEffects(site, s, c); var reply := Respond(site, s, c).1;
      && (passed <==> exists e :: e in done && Delivery(e))
      && (passed ==>
            && 0 < |done| <= |s.tos|
            && (forall i :: 0 <= i < |done| ==> done[i] == ToMatrix(s.tos[i]))
            && (reply == Ok <==> |done| == |s.tos| && c.answers(|s.tos| - 1))
            && (reply != Ok <==> !c.answers(|done| - 1)))
      && (!passed ==> reply != Ok)
  {
    ReachedExact(|s.tos|, c.answers);
    var k := Reached(|s.tos|, c.answers);
    if c.envelope.Some? && c.filterOk && !c.greylisted && c.dkimOk {
      var done := NewEffects(site, s, c);
      assert done == IncomingEffects(s.tos[..k]);
      assert done[0] in done && Delivery(done[0]);
    }
  }

  /** Nothing but Data delivers. */
  lemma OnlyDataDelivers(site: Site, s: State, c: Call)
    requires !c.Data?
    ensures forall e :: e in NewEffects(site, s, c) ==> !Delivery(e)
  {}

  // ---------- recipients

  /** Every recipient ever named in the session. */
  function Named(calls: seq<Call>): seq<string> {
    if calls == [] then []
    else
      var last := calls[|calls| - 1];
      Named(calls[..|calls| - 1]) + if last.Rcpt? then [last.to] else []
  }

  /** The recipients accepted in the current transaction, which starts after the last Reset. */
  function Accepted(site: Site, calls: seq<Call>): seq<string> {
    if calls == [] then []
    else
      var last, before := calls[|calls| - 1], calls[..|calls| - 1];
      if last.Reset? then []
      else if last.Rcpt? && Respond(site, Run(site, before), last).1 == Ok then Accepted(site, before) + [last.to]
      else Accepted(site, before)
  }

  /** The list that Data goes through holds every recipient named since the session began. */
  lemma {:induction false} RecipientsAreAllNamed(site: Site, calls: seq<Call>)
    ensures Run(site, calls).tos == Named(calls)
  {
    if calls != [] { RecipientsAreAllNamed(site, calls[..|calls| - 1]); }
  }

  function Target(e: Effect): string
    requires Delivery(e)
  {
    e.rcpt
  }

  /** Call `i` is a Data that may deliver, and it delivered `e` to the recipient's own side. */
  ghost predicate DeliveredBy(site: Site, calls: seq<Call>, i: nat, e: Effect)
    requires i < |calls| && Delivery(e)
  {
    var s, c := Run(site, calls[..i]), calls[i];
    && c.Data?
    && c.envelope.Some?
    && Target(e) in Named(calls[..i])
    && (s.outgoing ==> (e.ToMatrix? <==> Local(site, Target(e))))
    && (!s.outgoing ==> e.ToMatrix? && c.filterOk && !c.greylisted && c.dkimOk)
  }

  lemma StepDelivers(site: Site, s: State, c: Call, e: Effect)
    requires e in NewEffects(site, s, c) && Delivery(e)
    ensures c.Data? && c.envelope.Some? && Target(e) in s.tos
    ensures s.outgoing ==> (e.ToMatrix? <==> Local(site, Target(e)))
    ensures !s.outgoing ==> e.ToMatrix? && c.filterOk && !c.greylisted && c.dkimOk
  {
    if !c.Data? {
      OnlyDataDelivers(site, s, c);
    } else if |s.tos| > 0 && s.outgoing && c.envelope.Some? {
      OutgoingDataExact(site, s, c);
    } else if |s.tos| > 0 && !s.outgoing {
      IncomingDataExact(site, s, c);
    }
  }

  /** Every delivery of a session was made by one of its Data calls, to a recipient named before it: an
      unauthenticated one only to Matrix and only past the filter, the greylist and DKIM; an authenticated one to
      Matrix exactly when the recipient is local. */
  lemma {:induction false} EveryDeliveryAccounted(site: Site, calls: seq<Call>, e: Effect)
    requires e in Run(site, calls).effects && Delivery(e)
    ensures exists i :: 0 <= i < |calls| && DeliveredBy(site, calls, i, e)
  {
    var n := |calls| - 1;
    var before := calls[..n];
    var s := Run(site, before);
    StepAppends(site, s, calls[n]);
    assert Run(site, calls).effects == s.effects + NewEffects(site, s, calls[n]);
    if e in s.effects {
      EveryDeliveryAccounted(site, before, e);
      var i :| 0 <= i < |before| && DeliveredBy(site, before, i, e);
      assert before[..i] == calls[..i];
      assert DeliveredBy(site, calls, i, e);
    } else {
      StepDelivers(site, s, calls[n], e);
      RecipientsAreAllNamed(site, before);
      assert DeliveredBy(site, calls, n, e);
    }
  }

  /** No recipient was refused, and none was named before a Reset. */
  predicate NoStray(site: Site, calls: seq<Call>) {
    && (forall i :: 0 <= i < |calls| && calls[i].Rcpt? ==> ReplyTo(site, calls, i) == Ok)
    && (forall i, j :: 0 <= i < j < |calls| && calls[i].Rcpt? ==> !calls[j].Reset?)
  }

  lemma NoStrayStep(site: Site, calls: seq<Call>)
    requires |calls| > 0
    ensures var last, before := calls[|calls| - 1], calls[..|calls| - 1];
      NoStray(site, calls) <==>
        && NoStray(site, before)
        && (last.Rcpt? ==> ReplyTo(site, calls, |calls| - 1) == Ok)
        && (last.Reset? ==> Named(before) == [])
  {
    hide ReplyTo;
    var n := |calls| - 1;
    var last, before := calls[n], calls[..n];
    NamedNone(before);
    forall i | 0 <= i < n
      ensures calls[i] == before[i] && ReplyTo(site, calls, i) == ReplyTo(site, before, i)
    {
      SameReply(site, calls, n, i);
    }
    hide Named;
  }

  lemma SameReply(site: Site, calls: seq<Call>, n: nat, i: nat)
    requires i < n <= |calls|
    ensures ReplyTo(site, calls, i) == ReplyTo(site, calls[..n], i)
  {
    assert calls[..n][..i] == calls[..i];
  }

  lemma {:induction false} NamedNone(calls: seq<Call>)
    ensures Named(calls) == [] <==> forall i :: 0 <= i < |calls| ==> !calls[i].Rcpt?
  {
    if calls != [] {
      NamedNone(calls[..|calls| - 1]);
      assert forall i :: 0 <= i < |calls| - 1 ==> calls[i] == calls[..|calls| - 1][i];
    }
  }

  lemma {:induction false} AcceptedFewer(site: Site, calls: seq<Call>)
    ensures |Accepted(site, calls)| <= |Named(calls)|
  {
    if calls != [] { AcceptedFewer(site, calls[..|calls| - 1]); }
  }

  /** A message goes to exactly the accepted recipients of its own transaction if and only if the session never
      had a recipient refused and never named one before a Reset. */
  lemma {:induction false} RecipientsExact(site: Site, calls: seq<Call>)
    ensures Run(site, calls).tos == Accepted(site, calls) <==> NoStray(site, calls)
  {
    RecipientsAreAllNamed(site, calls);
    if calls != [] {
      var last, before := calls[|calls| - 1], calls[..|calls| - 1];
      RecipientsExact(site, before);
      RecipientsAreAllNamed(site, before);
      AcceptedFewer(site, before);
      NoStrayStep(site, calls);
      if last.Rcpt? && Respond(site, Run(site, before), last).1 == Ok {
        assert Named(calls)[..|Named(calls)| - 1] == Named(before);
        assert (Accepted(site, before) + [last.to])[..|Accepted(site, before)|] == Accepted(site, before);
      }
    }
  }

  lemma OneMore(site: Site, calls: seq<Call>, c: Call)
    ensures Run(site, calls + [c]) == Respond(site, Run(site, calls), c).0
    ensures Accepted(site, calls + [c]) ==
      if c.Reset? then []
      else Accepted(site, calls) + if c.Rcpt? && Respond(site, Run(site, calls), c).1 == Ok then [c.to] else []
  {
    assert (calls + [c])[..|calls + [c]| - 1] == calls;
  }

  lemma StepSummary(site: Site, s: State, c: Call)
    requires !s.outgoing && !c.Auth?
    ensures var t := Respond(site, s, c);
      && !t.0.outgoing
      && t.0.tos == s.tos + (if c.Rcpt? then [c.to] else [])
      && (c.Rcpt? ==> (t.1 == Ok <==> Local(site, c.to) && c.mapping.Some? && !(c.checkRBL && c.listed)))
  {}

  lemma NoCalls(site: Site)
    ensures Run(site, []) == START && Accepted(site, []) == []
  {}

  /** A recipient of an earlier transaction receives the later message too. */
  lemma StaleRecipientGetsMail(site: Site, first: string, second: string, room: RoomId)
    requires Local(site, first) && Local(site, second)
    ensures var data := Data(Some(Envelope("x@y")), true, false, true, (_: nat) => true);
      var calls := [Rcpt(first, Some(room), false, false), data, Reset, Rcpt(second, Some(room), false, false)];
      && Accepted(site, calls) == [second]
      && NewEffects(site, Run(site, calls), data) == [ToMatrix(first), ToMatrix(second)]
  {
    var data := Data(Some(Envelope("x@y")), true, false, true, (_: nat) => true);
    var a, b := Rcpt(first, Some(room), false, false), Rcpt(second, Some(room), false, false);
    hide Run, Accepted, Respond;
    assert [] + [a] == [a] && [a] + [data] == [a, data] && [a, data] + [Reset] == [a, data, Reset]
           && [a, data, Reset] + [b] == [a, data, Reset, b];
    NoCalls(site);
    OneMore(site, [], a);
    StepSummary(site, START, a);
    OneMore(site, [a], data);
    StepSummary(site, Run(site, [a]), data);
    OneMore(site, [a, data], Reset);
    StepSummary(site, Run(site, [a, data]), Reset);
    OneMore(site, [a, data, Reset], b);
    StepSummary(site, Run(site, [a, data, Reset]), b);
    var s := Run(site, [a, data, Reset, b]);
    assert s.tos == [first, second] && !s.outgoing;
    IncomingDataExact(site, s, data);
    ghost var done := NewEffects(site, s, data);
    assert done == [ToMatrix(first), ToMatrix(second)];
  }
}
