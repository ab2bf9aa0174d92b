/** One SMTP session, driven by any sequence of calls (internal/smtp/session.go). The answers of the bot,
    the mail sender, the parsers and the filters come with each call. */
module Session {
  import opened Text

  type RoomId = string

  datatype Error = Banned | AuthRequired | InvalidEmail | NoUser | Listed | Greylisted | Failed

  datatype Reply = Ok | Err(error: Error)

  /** What a session does to the outside: a successful `AllowAuth`, a call of `IncomingEmail`, a call of
      `sendmail`, a ban. */
  datatype Effect =
    | Authenticated(user: string)
    | ToMatrix(rcpt: string)
    | ToWire(from: string, rcpt: string)
    | Ban

  /** `outgoing` stands for the direction, which is either "outgoing" or not set. */
  datatype State = State(outgoing: bool, tos: seq<string>, from: string, roomID: RoomId, fromRoom: RoomId,
                         effects: seq<Effect>)

  const START := State(false, [], "", "", "", [])

  /** The domains served, and the reading of addresses. */
  datatype Site = Site(domains: seq<string>, hostname: string -> string, address: string -> string)

  predicate Local(site: Site, to: string) { site.hostname(to) in site.domains }

  /** A parsed message: its From header. */
  datatype Envelope = Envelope(from: string)

  datatype Call =
    | Auth(username: string, valid: bool, allowed: Option<RoomId>)
    | Mail(from_: string, valid: bool, mapping: Option<RoomId>)
    | Rcpt(to: string, mapping: Option<RoomId>, checkRBL: bool, listed: bool)
    | Data(envelope: Option<Envelope>, filterOk: bool, greylisted: bool, dkimOk: bool, answers: nat -> bool)
    | Reset

  function Log(s: State, e: Effect): State { s.(effects := s.effects + [e]) }

  function AuthStep(s: State, c: Call): (State, Reply)
    requires c.Auth?
  {
    if !c.valid || c.allowed.None? then (Log(s, Ban), Err(Banned))
    else (Log(s, Authenticated(c.username)).(outgoing := true, from := c.username, fromRoom := c.allowed.value), Ok)
  }

  function MailStep(site: Site, s: State, c: Call): (State, Reply)
    requires c.Mail?
  {
    if s.outgoing then
      (s, if !c.valid then Err(InvalidEmail)
          else if !Local(site, c.from_) || c.mapping != Some(s.fromRoom) then Err(NoUser)
          else Ok)
    else if !c.valid then (Log(s, Ban), Err(Banned))
    else if Local(site, c.from_) then (s, Err(AuthRequired))
    else (s.(from := site.address(c.from_)), Ok)
  }

  /** The recipient is remembered before anything is checked. */
  function RcptStep(site: Site, s: State, c: Call): (State, Reply)
    requires c.Rcpt?
  {
    var s1 := s.(tos := s.tos + [c.to]);
    if s.outgoing then (s1, Ok)
    else if !Local(site, c.to) then (s1, Err(NoUser))
    else
      var s2 := s1.(roomID := if c.mapping.Some? then c.mapping.value else "");
      if c.mapping.None? then (s2, Err(NoUser))
      else if c.checkRBL && c.listed then (s2, Err(Listed))
      else (s2, Ok)
  }

  /** How many recipients are dealt with before the first failure, that one included. */
  function Reached(n: nat, answers: nat -> bool): (k: nat)
    ensures k <= n
  {
    if n == 0 then 0
    else
      var k := Reached(n - 1, answers);
      if k < n - 1 || (n > 1 && !answers(n - 2)) then k else n
  }

  predicate AllAccepted(n: nat, answers: nat -> bool) { forall i :: 0 <= i < n ==> answers(i) }

  function OutgoingEffect(site: Site, from: string, to: string): Effect {
    if Local(site, to) then ToMatrix(to) else ToWire(from, to)
  }

  function OutgoingEffects(site: Site, from: string, tos: seq<string>): seq<Effect> {
    seq(|tos|, i requires 0 <= i < |tos| => OutgoingEffect(site, from, tos[i]))
  }

  function IncomingEffects(tos: seq<string>): seq<Effect> {
    seq(|tos|, i requires 0 <= i < |tos| => ToMatrix(tos[i]))
  }

  function DataStep(site: Site, s: State, c: Call): (State, Reply)
    requires c.Data?
  {
    if c.envelope.None? then (s, Err(Failed))
    else if s.outgoing then
      var k := Reached(|s.tos|, c.answers);
      (s.(effects := s.effects + OutgoingEffects(site, c.envelope.value.from, s.tos[..k])),
       if AllAccepted(|s.tos|, c.answers) then Ok else Err(Failed))
    else if !c.filterOk then (Log(s, Ban), Err(Banned))
    else if c.greylisted then (s, Err(Greylisted))
    else if !c.dkimOk then (s, Err(Failed))
    else
      var k := Reached(|s.tos|, c.answers);
      (s.(effects := s.effects + IncomingEffects(s.tos[..k])),
       if AllAccepted(|s.tos|, c.answers) then Ok else Err(Failed))
  }

  function Respond(site: Site, s: State, c: Call): (State, Reply) {
    match c
    case Auth(_, _, _) => AuthStep(s, c)
    case Mail(_, _, _) => MailStep(site, s, c)
    case Rcpt(_, _, _, _) => RcptStep(site, s, c)
    case Data(_, _, _, _, _) => DataStep(site, s, c)
    case Reset => (s, Ok)
  }

  /** The first failure, if any, is the last recipient reached. */
  lemma {:induction false} ReachedExact(n: nat, answers: nat -> bool)
    ensures var k := Reached(n, answers);
      && (forall i :: 0 <= i < k - 1 ==> answers(i))
      && (n > 0 ==> k > 0)
      && (k < n ==> k > 0 && !answers(k - 1))
  {
    if n > 0 { ReachedExact(n - 1, answers); }
  }

  lemma {:induction false} ReachedAt(n: nat, answers: nat -> bool, i: nat)
    requires i < n && (forall j :: 0 <= j < i ==> answers(j)) && (!answers(i) || i == n - 1)
    ensures Reached(n, answers) == i + 1
  {
    ReachedExact(n, answers);
  }

  class SmtpSession {
    const site: Site
    var outgoing: bool
    var tos: seq<string>
    var from: string
    var roomID: RoomId
    var fromRoom: RoomId
    var effects: seq<Effect>

    ghost function Contents(): State reads this { State(outgoing, tos, from, roomID, fromRoom, effects) }

    constructor (site: Site)
      ensures this.site == site && Contents() == START
    {
      this.site := site;
      outgoing, tos, from, roomID, fromRoom, effects := false, [], "", "", "", [];
    }

    method AuthPlain(username: string, valid: bool, allowed: Option<RoomId>) returns (r: Reply)
      modifies this
      ensures (Contents(), r) == Respond(site, old(Contents()), Auth(username, valid, allowed))
    {
      if !valid {
        effects := effects + [Ban];
        return Err(Banned);
      }
      if allowed.None? {
        effects := effects + [Ban];
        return Err(Banned);
      }
      effects := effects + [Authenticated(username)];
      outgoing := true;
      from := username;
      fromRoom := allowed.value;
      return Ok;
    }

    method MailFrom(sender: string, valid: bool, mapping: Option<RoomId>) returns (r: Reply)
      modifies this
      ensures (Contents(), r) == Respond(site, old(Contents()), Mail(sender, valid, mapping))
    {
      if outgoing {
        r := ValidateOutgoingMail(sender, valid, mapping);
        return;
      }
      if !valid {
        effects := effects + [Ban];
        return Err(Banned);
      }
      if site.hostname(sender) in site.domains { return Err(AuthRequired); }
      from := site.address(sender);
      return Ok;
    }

    method ValidateOutgoingMail(sender: string, valid: bool, mapping: Option<RoomId>) returns (r: Reply)
      ensures r == Ok <==> valid && Local(site, sender) && mapping == Some(fromRoom)
      ensures !valid ==> r == Err(InvalidEmail)
      ensures valid && r != Ok ==> r == Err(NoUser)
    {
      if !valid { return Err(InvalidEmail); }
      if site.hostname(sender) !in site.domains { return Err(NoUser); }
      if mapping.None? { return Err(NoUser); }
      if fromRoom != mapping.value { return Err(NoUser); }
      return Ok;
    }

    method RcptTo(to: string, mapping: Option<RoomId>, checkRBL: bool, listed: bool) returns (r: Reply)
      modifies this
      ensures (Contents(), r) == Respond(site, old(Contents()), Rcpt(to, mapping, checkRBL, listed))
    {
      tos := tos + [to];
      if outgoing { return Ok; }
      if site.hostname(to) !in site.domains { return Err(NoUser); }
      roomID := if mapping.Some? then mapping.value else "";
      if mapping.None? { return Err(NoUser); }
      if checkRBL && listed { return Err(Listed); }
      return Ok;
    }

    /** The library calls this only with at least one recipient. */
    method DataFor(envelope: Option<Envelope>, filterOk: bool, greylisted: bool, dkimOk: bool, answers: nat -> bool)
      returns (r: Reply)
      requires |tos| > 0
      modifies this
      ensures (Contents(), r) == Respond(site, old(Contents()), Data(envelope, filterOk, greylisted, dkimOk, answers))
    {
      if outgoing {
        r := OutgoingData(envelope, answers);
      } else {
        r := IncomingData(envelope, filterOk, greylisted, dkimOk, answers);
      }
    }

    method OutgoingData(envelope: Option<Envelope>, answers: nat -> bool) returns (r: Reply)
      requires |tos| > 0
      modifies this`effects
      ensures envelope.None? ==> r == Err(Failed) && effects == old(effects)
      ensures envelope.Some? ==>
        && effects == old(effects) + OutgoingEffects(site, envelope.value.from, tos[..Reached(|tos|, answers)])
        && r == (if AllAccepted(|tos|, answers) then Ok else Err(Failed))
    {
      if envelope.None? { return Err(Failed); }
      for i := 0 to |tos|
        invariant forall j :: 0 <= j < i ==> answers(j)
        invariant effects == old(effects) + OutgoingEffects(site, envelope.value.from, tos[..i])
      {
        assert OutgoingEffects(site, envelope.value.from, tos[..i + 1]) ==
               OutgoingEffects(site, envelope.value.from, tos[..i])
               + [OutgoingEffect(site, envelope.value.from, tos[i])];
        if !answers(i) || i == |tos| - 1 { ReachedAt(|tos|, answers, i); }
        if site.hostname(tos[i]) in site.domains {
          effects := effects + [ToMatrix(tos[i])];
          if !answers(i) { return Err(Failed); }
          continue;
        }
        effects := effects + [ToWire(envelope.value.from, tos[i])];
        if !answers(i) { return Err(Failed); }
      }
      ReachedAt(|tos|, answers, |tos| - 1);
      return Ok;
    }

    method IncomingData(envelope: Option<Envelope>, filterOk: bool, greylisted: bool, dkimOk: bool,
                        answers: nat -> bool)
      returns (r: Reply)
      requires |tos| > 0 && !outgoing
      modifies this`effects
      ensures envelope.Some? && !filterOk ==> r == Err(Banned) && effects == old(effects) + [Ban]
      ensures envelope.None? ==> r == Err(Failed) && effects == old(effects)
      ensures envelope.Some? && filterOk && greylisted ==> r == Err(Greylisted) && effects == old(effects)
      ensures envelope.Some? && filterOk && !greylisted && !dkimOk ==> r == Err(Failed) && effects == old(effects)
      ensures envelope.Some? && filterOk && !greylisted && dkimOk ==>
        && effects == old(effects) + IncomingEffects(tos[..Reached(|tos|, answers)])
        && r == (if AllAccepted(|tos|, answers) then Ok else Err(Failed))
    {
      if envelope.None? { return Err(Failed); }
      if !filterOk {
        effects := effects + [Ban];
        return Err(Banned);
      }
      if greylisted { return Err(Greylisted); }
      if !dkimOk { return Err(Failed); }
      for i := 0 to |tos|
        invariant forall j :: 0 <= j < i ==> answers(j)
        invariant effects == old(effects) + IncomingEffects(tos[..i])
      {
        assert IncomingEffects(tos[..i + 1]) == IncomingEffects(tos[..i]) + [ToMatrix(tos[i])];
        if !answers(i) || i == |tos| - 1 { ReachedAt(|tos|, answers, i); }
        effects := effects + [ToMatrix(tos[i])];
        if !answers(i) { return Err(Failed); }
      }
      ReachedAt(|tos|, answers, |tos| - 1);
      return Ok;
    }
  }
}
