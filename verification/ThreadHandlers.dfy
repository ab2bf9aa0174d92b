/** The handlers that keep a room's threads (internal/bot/email.go, internal/bot/command.go). */
module ThreadHandlers {
  import opened Text
  import opened Addresses
  import opened Threads

  /** The account-data keys under which threads and last events are kept. */
  function MessageKey(id: string): string { "cc.etke.postmoogle.message" + "." + id }

  function LastKey(thread: EventId): string { "cc.etke.postmoogle.last" + "." + thread }

  /** Different ids and threads have different keys, and no two of the two kinds meet. */
  lemma KeysApart(a: string, b: string)
    ensures MessageKey(a) == MessageKey(b) <==> a == b
    ensures LastKey(a) == LastKey(b) <==> a == b
    ensures MessageKey(a) != LastKey(b)
  {
    var p, q := "cc.etke.postmoogle.message" + ".", "cc.etke.postmoogle.last" + ".";
    assert MessageKey(a)[|p|..] == a && MessageKey(b)[|p|..] == b;
    assert LastKey(a)[|q|..] == a && LastKey(b)[|q|..] == b;
    assert MessageKey(a)[19] == 'm' && LastKey(b)[19] == 'l';
  }

  /** Looking for the first known reference: the thread found is that of a known reference and no earlier one is
      known; nothing is found exactly when none is known. */
  method GetThreadID(threads: map<string, EventId>, messageID: string, refs: string, gone: EventId -> bool)
    returns (r: EventId)
    ensures var all := RefsOf(Email("", messageID, refs));
      && r == ThreadFor(threads, all, gone)
      && (r != "" ==> exists i :: 0 <= i < |all| && Known(threads, all[i], gone) && threads[all[i]] == r
                        && forall j :: 0 <= j < i ==> !Known(threads, all[j], gone))
      && (r == "" <==> forall i :: 0 <= i < |all| ==> !Known(threads, all[i], gone))
  {
    var all := [messageID];
    if refs != "" { all := all + Split(refs, ' '); }
    assert all == RefsOf(Email("", messageID, refs));
    for i := 0 to |all|
      invariant forall j :: 0 <= j < i ==> !Known(threads, all[j], gone)
      invariant ThreadFor(threads, all, gone) == ThreadFor(threads, all[i..], gone)
    {
      assert all[i..][0] == all[i] && all[i..][1..] == all[i + 1..];
      if all[i] !in threads || threads[all[i]] == "" { continue; }
      if gone(threads[all[i]]) { continue; }
      return threads[all[i]];
    }
    return "";
  }

  class Room {
    var threads: map<string, EventId>
    var last: map<EventId, EventId>
    var timeline: map<EventId, EventId>
    var wire: seq<Outgoing>
    var autoreplied: seq<EventId>

    ghost function Contents(): State reads this { State(threads, last, timeline, wire, autoreplied) }

    constructor ()
      ensures Contents() == START
    {
      threads, last, timeline, wire, autoreplied := map[], map[], map[], [], [];
    }

    method Post(event: EventId, thread: EventId)
      modifies this`timeline
      ensures Contents() == Posted(old(Contents()), event, thread)
    {
      timeline := timeline[event := if thread == "" then event else thread];
    }

    /** The first half of `IncomingEmail`: find the thread, post the email, record both. */
    method Receive(st: Act) returns (thread: EventId, newThread: bool, ok: bool)
      requires st.Incoming?
      modifies this`threads, this`last, this`timeline
      ensures ok == (st.outcome != Failed)
      ensures ok ==> thread == Landing(old(Contents()), st) && newThread == OpensThread(old(Contents()), st)
      ensures ok ==> Contents() == Recorded(old(Contents()), st)
      ensures !ok ==> Contents() == AfterIncoming(old(Contents()), st)
    {
      hide SentToAll, ThreadFor, RefsOf;
      var mail := st.mail;
      thread, newThread, ok := "", true, true;
      if mail.inReplyTo != "" || mail.refs != "" {
        thread := GetThreadID(threads, mail.inReplyTo, mail.refs, st.gone);
        SameRefs(mail);
        if thread != "" {
          newThread := false;
          threads := threads[mail.messageID := thread];
        }
      }
      var event := "";
      if st.outcome.Sent? {
        event := st.outcome.event;
        Post(event, if thread == "" then event else thread);
      } else if st.outcome.Failed? {
        ok := false;
        return;
      } else {
        thread, newThread := "", true;
      }
      if thread == "" { thread := event; }
      threads := threads[mail.messageID := thread];
      last := last[thread := event];
    }

    method IncomingEmail(st: Act)
      requires st.Incoming?
      modifies this
      ensures Contents() == Apply(old(Contents()), st)
    {
      hide Autoreplied, Recorded, Landing, OpensThread;
      var thread, newThread, ok := Receive(st);
      if !ok { return; }
      if newThread && st.threadify {
        if st.body.None? { return; }
        Post(st.body.value, thread);
      }
      if newThread && st.auto.Some? {
        SendAutoreply(thread, st.gone, st.domain, st.auto.value);
      }
    }

    method SendAutoreply(thread: EventId, gone: EventId -> bool, domain: string, a: Autoreply)
      modifies this
      ensures Contents() == Autoreplied(old(Contents()), thread, gone, domain, a)
    {
      if gone(thread) { return; }
      autoreplied := autoreplied + [thread];
      Deliver(AutoLetter(thread, domain, a), a.attempts);
    }

    /** The loop over the recipients that the send command, replies and automatic replies share. */
    method Deliver(l: Letter, attempts: seq<Attempt>)
      modifies this
      ensures Contents() == SentToAll(old(Contents()), l, attempts)
    {
      for i := 0 to |attempts|
        invariant Contents() == SentToAll(old(Contents()), l, attempts[..i])
      {
        ghost var before := Contents();
        assert attempts[..i + 1][..i] == attempts[..i];
        if attempts[i].accepted {
          wire := wire + [Outgoing(l.messageID, l.thread)];
          SaveSentMetadata(l, attempts[i].notice);
        }
        assert Contents() == SentTo(before, l, attempts[i]);
      }
      assert attempts[..|attempts|] == attempts;
    }

    method SaveSentMetadata(l: Letter, notice: Option<EventId>)
      modifies this`threads, this`last, this`timeline
      ensures notice.None? ==> Contents() == old(Contents())
      ensures notice.Some? ==> Contents() == Saved(old(Contents()), l, notice.value)
    {
      if notice.None? { return; }
      timeline := timeline[notice.value := l.thread];
      threads := threads[MessageID(l.evt, l.domain) := l.thread];
      threads := threads[MessageID(notice.value, l.domain) := l.thread];
      last := last[l.thread := notice.value];
    }

    method RunSendCommand(st: Act)
      requires st.SendCommand?
      modifies this
      ensures Contents() == Apply(old(Contents()), st)
    {
      Post(st.evt, st.evt);
      Deliver(SendLetter(st), st.attempts);
    }

    method GetLastEventID(thread: EventId) returns (r: EventId)
      ensures r == LastOf(Contents(), thread)
    {
      if thread !in last { return thread; }
      if last[thread] != "" { return last[thread]; }
      return thread;
    }

    method SendEmailReply(st: Act)
      requires st.Reply?
      modifies this
      ensures Contents() == Apply(old(Contents()), st)
    {
      ghost var s := Contents();
      Post(st.evt, st.thread);
      if st.thread == st.evt { return; }
      var lastEvent := GetLastEventID(st.thread);
      assert lastEvent == LastOf(s, st.thread);
      if lastEvent == st.evt || st.gone(lastEvent) { return; }
      Deliver(ReplyLetter(st), st.attempts);
    }
  }

  lemma SameRefs(mail: Email)
    ensures RefsOf(mail) == RefsOf(Email("", mail.inReplyTo, mail.refs))
  {}
}
