/** What each call of a session answers and does, over every sequence of calls, in terms of the call itself
    (internal/smtp/session.go). */
module SessionExact {
  import opened Text
  import opened Session
  import opened SessionRuns

  /** After the calls before it, what a call is answered and what it does to the outside. */
  function Answer(site: Site, calls: seq<Call>, c: Call): Reply { Respond(site, Run(site, calls), c).1 }

  function Done(site: Site, calls: seq<Call>, c: Call): seq<Effect> { NewEffects(site, Run(site, calls), c) }

  function Then(site: Site, calls: seq<Call>, c: Call): State { Respond(site, Run(site, calls), c).0 }

  /** AUTH is accepted if and only if the user name is an address and the login is allowed; then the session is outgoing
      for that user and room. Otherwise the client is banned and nothing else changes. */
  lemma AuthExact(site: Site, calls: seq<Call>, c: Call)
    requires c.Auth?
    ensures var s, t := Run(site, calls), Then(site, calls, c);
      && (Answer(site, calls, c) == Ok <==> c.valid && c.allowed.Some?)
      && (Answer(site, calls, c) == Ok ==>
            && Done(site, calls, c) == [Authenticated(c.username)]
            && t.outgoing && t.from == c.username && t.fromRoom == c.allowed.value)
      && (Answer(site, calls, c) != Ok ==>
            && Answer(site, calls, c) == Err(Banned) && Done(site, calls, c) == [Ban]
            && t.outgoing == s.outgoing && t.from == s.from && t.fromRoom == s.fromRoom)
      && t.tos == s.tos && t.roomID == s.roomID
  {
    hide Run;
  }

  /** The refusals of MAIL: after a login nobody is banned and nothing changes; before one an invalid address is a
      ban, a local one is asked to log in, any other becomes the sender. */
  lemma MailAnswers(site: Site, calls: seq<Call>, c: Call)
    requires c.Mail?
    ensures var s, t := Run(site, calls), Then(site, calls, c);
      var local := site.hostname(c.from_) in site.domains;
      && (LastLogin(calls).Some? ==>
            && t == s
            && (!c.valid <==> Answer(site, calls, c) == Err(InvalidEmail))
            && (c.valid && !(local && c.mapping == LastLogin(calls).value.allowed) <==>
                  Answer(site, calls, c) == Err(NoUser)))
      && (LastLogin(calls).None? ==>
            && (!c.valid <==> Answer(site, calls, c) == Err(Banned))
            && (c.valid && local <==> Answer(site, calls, c) == Err(AuthRequired))
            && Done(site, calls, c) == (if c.valid then [] else [Ban])
            && t.from == (if c.valid && !local then site.address(c.from_) else s.from)
            && t.outgoing == s.outgoing && t.tos == s.tos && t.fromRoom == s.fromRoom && t.roomID == s.roomID)
  {
    ActsForLastLogin(site, calls);
    hide Run, LastLogin;
  }

  /** RCPT always remembers the recipient and does nothing to the outside. After a login it is accepted; before one
      if and only if the recipient is local, mapped, and not listed where its room checks that. */
  lemma RcptExact(site: Site, calls: seq<Call>, c: Call)
    requires c.Rcpt?
    ensures var s, t := Run(site, calls), Then(site, calls, c);
      var local := site.hostname(c.to) in site.domains;
      && t.tos == s.tos + [c.to] && Done(site, calls, c) == []
      && t.outgoing == s.outgoing && t.from == s.from && t.fromRoom == s.fromRoom
      && (LastLogin(calls).Some? ==> Answer(site, calls, c) == Ok && t.roomID == s.roomID)
      && (LastLogin(calls).None? ==>
            && (Answer(site, calls, c) == Err(NoUser) <==> !local || c.mapping.None?)
            && (Answer(site, calls, c) == Err(Listed) <==> local && c.mapping.Some? && c.checkRBL && c.listed)
            && (Answer(site, calls, c) == Ok <==> local && c.mapping.Some? && !(c.checkRBL && c.listed))
            && (Answer(site, calls, c) == Ok ==> t.roomID == c.mapping.value))
  {
    ActsForLastLogin(site, calls);
    hide Run, LastLogin;
  }

  /** DATA before a login: a message that fails the filter is a ban, one put off by the greylist and one that fails
      DKIM are refused without effect, in that order; one that cannot be read is refused before all of these. */
  lemma DataRefusals(site: Site, calls: seq<Call>, c: Call)
    requires c.Data? && Run(site, calls).tos != []
    ensures var incoming := LastLogin(calls).None?;
      && (c.envelope.None? ==> Answer(site, calls, c) == Err(Failed) && Done(site, calls, c) == [])
      && (incoming && c.envelope.Some? && !c.filterOk ==>
            Answer(site, calls, c) == Err(Banned) && Done(site, calls, c) == [Ban])
      && (incoming && c.envelope.Some? && c.filterOk && c.greylisted ==>
            Answer(site, calls, c) == Err(Greylisted) && Done(site, calls, c) == [])
      && (incoming && c.envelope.Some? && c.filterOk && !c.greylisted && !c.dkimOk ==>
            Answer(site, calls, c) == Err(Failed) && Done(site, calls, c) == [])
  {
    ActsForLastLogin(site, calls);
    hide Run, LastLogin, Reached, AllAccepted;
  }

  /** DATA and Reset change nothing that the session remembers. */
  lemma OthersRemember(site: Site, calls: seq<Call>, c: Call)
    requires c.Data? || c.Reset?
    ensures Then(site, calls, c).(effects := []) == Run(site, calls).(effects := [])
    ensures c.Reset? ==> Answer(site, calls, c) == Ok && Done(site, calls, c) == []
  {
    hide Run, Reached, AllAccepted;
  }
}
