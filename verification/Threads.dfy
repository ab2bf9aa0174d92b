/** Email threads of one room: which Matrix thread each Message-Id belongs to, and the last event of each thread
    (internal/bot/email.go, internal/bot/command.go). Matrix answers and mail deliveries come with each step. */
module Threads {
  import opened Text
  import opened Addresses

  type EventId = string

  datatype Email = Email(messageID: string, inReplyTo: string, refs: string)

  /** What sending an event to the room gives; `Unknown` is an M_UNKNOWN error. */
  datatype Outcome = Sent(event: EventId) | Unknown | Failed

  /** One recipient of an outgoing email: `accepted` if it was delivered or queued, and the notice posted then. */
  datatype Attempt = Attempt(accepted: bool, notice: Option<EventId>)

  datatype Outgoing = Outgoing(messageID: string, thread: EventId)

  /** `threads` and `last` are the room's account data; `timeline` tells the thread each event was posted in, `wire`
      the emails that left, `autoreplied` the threads in which an automatic reply was made. */
  datatype State = State(threads: map<string, EventId>, last: map<EventId, EventId>,
                         timeline: map<EventId, EventId>, wire: seq<Outgoing>, autoreplied: seq<EventId>)

  const START := State(map[], map[], map[], [], [])

  /** The automatic reply of a room, if one is configured and the thread has an address to answer to. */
  datatype Autoreply = Autoreply(stamp: string, fromDomain: string, attempts: seq<Attempt>)

  /** `gone` tells which events cannot be fetched when the step runs; `domain` is the room's sanitized domain.
      `body` is the event with the email's body, which a threadifying room posts for a new thread. */
  datatype Act =
    | Incoming(mail: Email, gone: EventId -> bool, outcome: Outcome, threadify: bool, body: Option<EventId>,
               domain: string, auto: Option<Autoreply>)
    | SendCommand(evt: EventId, domain: string, attempts: seq<Attempt>)
    | Reply(evt: EventId, thread: EventId, gone: EventId -> bool, domain: string, fromDomain: string,
            attempts: seq<Attempt>)

  // ---------- looking a thread up

  /** The ids an email refers to: In-Reply-To, then References. */
  function RefsOf(mail: Email): seq<string> {
    [mail.inReplyTo] + if mail.refs != "" then Split(mail.refs, ' ') else []
  }

  /** This id has a recorded thread whose event can be fetched. */
  predicate Known(threads: map<string, EventId>, ref: string, gone: EventId -> bool) {
    ref in threads && threads[ref] != "" && !gone(threads[ref])
  }

  /** The thread of the first known reference, or "". */
  function ThreadFor(threads: map<string, EventId>, refs: seq<string>, gone: EventId -> bool): EventId {
    if refs == [] then ""
    else if Known(threads, refs[0], gone) then threads[refs[0]]
    else ThreadFor(threads, refs[1..], gone)
  }

  function Found(s: State, mail: Email, gone: EventId -> bool): EventId {
    if mail.inReplyTo != "" || mail.refs != "" then ThreadFor(s.threads, RefsOf(mail), gone) else ""
  }

  function LastOf(s: State, thread: EventId): EventId {
    if thread in s.last && s.last[thread] != "" then s.last[thread] else thread
  }

  // ---------- sending an email from the room

  /** An outgoing email: the event that it is saved under, its thread, the room's domain and its Message-Id. */
  datatype Letter = Letter(evt: EventId, thread: EventId, domain: string, messageID: string)

  function Saved(s: State, l: Letter, notice: EventId): State {
    s.(threads := s.threads[MessageID(l.evt, l.domain) := l.thread][MessageID(notice, l.domain) := l.thread],
       last := s.last[l.thread := notice],
       timeline := s.timeline[notice := l.thread])
  }

  function SentTo(s: State, l: Letter, a: Attempt): State {
    if !a.accepted then s
    else
      var s1 := s.(wire := s.wire + [Outgoing(l.messageID, l.thread)]);
      if a.notice.None? then s1 else Saved(s1, l, a.notice.value)
  }

  function SentToAll(s: State, l: Letter, attempts: seq<Attempt>): State {
    if attempts == [] then s
    else SentTo(SentToAll(s, l, attempts[..|attempts| - 1]), l, attempts[|attempts| - 1])
  }

  // ---------- the steps

  function AutoreplyID(thread: EventId, stamp: string): EventId { thread + "-autoreply-" + stamp }

  /** The automatic reply is saved under the thread's first event, not under its own id. */
  function AutoLetter(thread: EventId, domain: string, a: Autoreply): Letter {
    Letter(thread, thread, domain, MessageID(AutoreplyID(thread, a.stamp), a.fromDomain))
  }

  function Autoreplied(s: State, thread: EventId, gone: EventId -> bool, domain: string, a: Autoreply): State {
    if gone(thread) then s
    else SentToAll(s.(autoreplied := s.autoreplied + [thread]), AutoLetter(thread, domain, a), a.attempts)
  }

  function Posted(s: State, event: EventId, thread: EventId): State {
    s.(timeline := s.timeline[event := if thread == "" then event else thread])
  }

  predicate OpensThread(s: State, st: Act)
    requires st.Incoming?
  {
    Found(s, st.mail, st.gone) == "" || st.outcome == Unknown
  }

  /** The thread that an email ends up in; "" if Matrix answered M_UNKNOWN. */
  function Landing(s: State, st: Act): EventId
    requires st.Incoming?
  {
    var found := Found(s, st.mail, st.gone);
    match st.outcome
    case Sent(e) => if found != "" then found else e
    case Unknown => ""
    case Failed => found
  }

  /** The state once the email itself has been posted and recorded. */
  function Recorded(s: State, st: Act): State
    requires st.Incoming? && st.outcome != Failed
  {
    var thread := Landing(s, st);
    var event := if st.outcome.Sent? then st.outcome.event else "";
    var s1 := if st.outcome.Sent? then Posted(s, event, thread) else s;
    s1.(threads := s1.threads[st.mail.messageID := thread], last := s1.last[thread := event])
  }

  function AfterIncoming(s: State, st: Act): State
    requires st.Incoming?
  {
    if st.outcome == Failed then
      var found := Found(s, st.mail, st.gone);
      if found == "" then s else s.(threads := s.threads[st.mail.messageID := found])
    else
      var s1 := Recorded(s, st);
      if !OpensThread(s, st) then s1
      else if st.threadify && st.body.None? then s1
      else
        var s2 := if st.threadify then Posted(s1, st.body.value, Landing(s, st)) else s1;
        if st.auto.None? then s2 else Autoreplied(s2, Landing(s, st), st.gone, st.domain, st.auto.value)
  }

  function SendLetter(st: Act): Letter
    requires st.SendCommand?
  {
    Letter(st.evt, st.evt, st.domain, MessageID(st.evt, st.domain))
  }

  function ReplyLetter(st: Act): Letter
    requires st.Reply?
  {
    Letter(st.evt, st.thread, st.domain, MessageID(st.evt, st.fromDomain))
  }

  /** A reply needs a parent: the thread's last event, other than itself, that can be fetched. */
  predicate HasParent(s: State, st: Act)
    requires st.Reply?
  {
    st.thread != st.evt && LastOf(s, st.thread) != st.evt && !st.gone(LastOf(s, st.thread))
  }

  function Apply(s: State, st: Act): State {
    match st
    case Incoming(_, _, _, _, _, _, _) => AfterIncoming(s, st)
    case SendCommand(_, _, _) => SentToAll(Posted(s, st.evt, st.evt), SendLetter(st), st.attempts)
    case Reply(_, _, _, _, _, _) =>
      var s1 := Posted(s, st.evt, st.thread);
      if HasParent(s, st) then SentToAll(s1, ReplyLetter(st), st.attempts) else s1
  }

  function After(run: seq<Act>): State {
    if run == [] then START else Apply(After(run[..|run| - 1]), run[|run| - 1])
  }

  // ---------- ids

  function Notices(attempts: seq<Attempt>): set<EventId> {
    set i | 0 <= i < |attempts| && attempts[i].accepted && attempts[i].notice.Some? :: attempts[i].notice.value
  }

  /** The Message-Ids under which a letter is saved. */
  function Keys(l: Letter, attempts: seq<Attempt>): set<string> {
    if Notices(attempts) == {} then {}
    else {MessageID(l.evt, l.domain)} + set n | n in Notices(attempts) :: MessageID(n, l.domain)
  }

  /** The Matrix events that a step brings into the room. */
  function Events(st: Act): set<EventId> {
    match st
    case Incoming(_, _, outcome, _, body, _, auto) =>
      (if outcome.Sent? then {outcome.event} else {})
      + (if body.Some? then {body.value} else {})
      + (if auto.Some? then Notices(auto.value.attempts) else {})
    case SendCommand(evt, _, attempts) => {evt} + Notices(attempts)
    case Reply(evt, _, _, _, _, attempts) => {evt} + Notices(attempts)
  }

  /** The Message-Ids that a step may record for a letter of its own. */
  function LetterKeys(st: Act): set<string> {
    match st
    case Incoming(_, _, outcome, _, _, domain, auto) =>
      if outcome.Sent? && auto.Some?
      then Keys(AutoLetter(outcome.event, domain, auto.value), auto.value.attempts)
      else {}
    case SendCommand(_, _, attempts) => Keys(SendLetter(st), attempts)
    case Reply(_, _, _, _, _, attempts) => Keys(ReplyLetter(st), attempts)
  }

  /** The Message-Ids that a step brings into the world: those received, saved and sent. */
  function Issued(st: Act): set<string> {
    LetterKeys(st) + match st
      case Incoming(mail, _, outcome, _, _, _, auto) =>
        {mail.messageID}
        + (if outcome.Sent? && auto.Some?
           then {MessageID(AutoreplyID(outcome.event, auto.value.stamp), auto.value.fromDomain)} else {})
      case SendCommand(evt, domain, _) => {MessageID(evt, domain)}
      case Reply(evt, _, _, _, fromDomain, _) => {MessageID(evt, fromDomain)}
  }

  /** Within one step: events have non-empty, distinct ids, the event "" cannot be fetched, and a received
      Message-Id is neither empty nor one of those the step makes. */
  predicate Consistent(st: Act) {
    && "" !in Events(st)
    && match st
       case Incoming(mail, gone, outcome, _, body, domain, auto) =>
         && gone("")
         && mail.messageID != "" && mail.messageID !in LetterKeys(st)
         && (outcome.Sent? ==>
               && body != Some(outcome.event)
               && (auto.Some? ==> outcome.event !in Notices(auto.value.attempts)))
         && (auto.Some? && body.Some? ==> body.value !in Notices(auto.value.attempts))
       case SendCommand(evt, _, attempts) => evt !in Notices(attempts)
       case Reply(evt, thread, _, _, _, attempts) => thread != "" && evt !in Notices(attempts)
  }

  /** No two steps share an event id or a Message-Id. */
  predicate Unique(run: seq<Act>) {
    && (forall i :: 0 <= i < |run| ==> Consistent(run[i]))
    && (forall i, j :: 0 <= i < j < |run| ==> Events(run[i]) !! Events(run[j]))
    && (forall i, j :: 0 <= i < j < |run| ==> Issued(run[i]) !! Issued(run[j]))
  }
}
