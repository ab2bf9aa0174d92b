/** Out of the room and back: sent emails, automatic replies and the last event of each thread
    (internal/bot/email.go, internal/bot/command.go). */
module ThreadReplies {
  import opened Text
  import opened Addresses
  import opened Threads
  import opened ThreadRuns

  // ---------- the last event of a thread

  /** The recorded last event of every thread was posted in that thread. */
  ghost predicate LastBelongs(s: State) {
    forall t :: t in s.last && t != "" ==> s.last[t] in s.timeline && s.timeline[s.last[t]] == t
  }

  lemma LetterBelongs(s: State, l: Letter, attempts: seq<Attempt>)
    requires LastBelongs(s) && Notices(attempts) !! s.timeline.Keys
    ensures LastBelongs(SentToAll(s, l, attempts))
  {
    LetterEffect(s, l, attempts);
    hide SentToAll, Notices, Keys;
  }

  lemma PostedBelongs(s: State, event: EventId, thread: EventId)
    requires LastBelongs(s) && event !in s.timeline
    ensures LastBelongs(Posted(s, event, thread))
  {}

  lemma RecordedBelongs(s: State, st: Act)
    requires st.Incoming? && st.outcome != Failed && Consistent(st)
    requires LastBelongs(s) && Events(st) !! s.timeline.Keys
    ensures LastBelongs(Recorded(s, st))
  {
    hide Found, Notices, Keys;
    if st.outcome.Sent? {
      assert st.outcome.event in Events(st);
      LandingNotEmpty(s, st);
    }
  }

  lemma DeliveredBelongs(s: State, st: Act)
    requires st.Incoming? && st.outcome != Failed && Consistent(st)
    requires LastBelongs(s) && Events(st) !! s.timeline.Keys
    ensures LastBelongs(Delivered(s, st))
    ensures st.auto.Some? ==> Notices(st.auto.value.attempts) !! Delivered(s, st).timeline.Keys
  {
    RecordedBelongs(s, st);
    hide Found, Notices, Keys, LastBelongs, LetterKeys;
    var s1 := Recorded(s, st);
    assert s1.timeline.Keys <= s.timeline.Keys + (if st.outcome.Sent? then {st.outcome.event} else {});
    if st.body.Some? {
      assert st.body.value in Events(st);
      PostedBelongs(s1, st.body.value, Landing(s, st));
    }
    if st.auto.Some? { assert Notices(st.auto.value.attempts) <= Events(st); }
  }

  lemma IncomingBelongs(s: State, st: Act)
    requires st.Incoming? && Consistent(st) && LastBelongs(s) && Events(st) !! s.timeline.Keys
    ensures LastBelongs(Apply(s, st))
  {
    if st.outcome != Failed {
      IncomingInTwo(s, st);
      DeliveredBelongs(s, st);
      hide Apply, Delivered, Notices;
      if Autoreplies(s, st) {
        LetterBelongs(Delivered(s, st).(autoreplied := s.autoreplied + [Landing(s, st)]),
                      AutoLetter(Landing(s, st), st.domain, st.auto.value), st.auto.value.attempts);
      }
    }
  }

  lemma StepBelongs(s: State, st: Act)
    requires Consistent(st) && LastBelongs(s) && Events(st) !! s.timeline.Keys
    ensures LastBelongs(Apply(s, st))
  {
    if st.Incoming? {
      IncomingBelongs(s, st);
    } else {
      var thread := if st.SendCommand? then st.evt else st.thread;
      PostedBelongs(s, st.evt, thread);
      hide LastBelongs, Notices;
      var s1 := Posted(s, st.evt, thread);
      LetterBelongs(s1, if st.SendCommand? then SendLetter(st) else ReplyLetter(st), st.attempts);
    }
  }

  /** In every run with unique ids, the recorded last event of every thread was posted in that thread. */
  lemma {:induction false} LastAlwaysBelongs(run: seq<Act>)
    requires Unique(run)
    ensures LastBelongs(After(run))
  {
    if run != [] {
      var n := |run| - 1;
      UniquePrefix(run, n);
      LastAlwaysBelongs(run[..n]);
      StepFresh(run, n);
      hide Apply, LastBelongs;
      StepBelongs(After(run[..n]), run[n]);
    }
  }

  // ---------- automatic replies

  /** The email at step `i` opened thread `t`: none of its references was known. */
  predicate Opened(run: seq<Act>, i: nat, t: EventId) {
    && Arrived(run, i)
    && run[i].outcome.event == t
    && ThreadOf(run, i) == t
    && Found(After(run[..i]), run[i].mail, run[i].gone) == ""
  }

  lemma StepAutoreplies(s: State, st: Act)
    requires Consistent(st)
    ensures Apply(s, st).autoreplied ==
      s.autoreplied + if st.Incoming? && Autoreplies(s, st) then [Landing(s, st)] else []
  {
    if st.Incoming? {
      if st.outcome != Failed {
        IncomingInTwo(s, st);
        if Autoreplies(s, st) {
          LetterEffect(Delivered(s, st).(autoreplied := s.autoreplied + [Landing(s, st)]),
                       AutoLetter(Landing(s, st), st.domain, st.auto.value), st.auto.value.attempts);
        }
      }
      hide Found, SentToAll, Delivered;
    } else {
      var thread := if st.SendCommand? then st.evt else st.thread;
      LetterEffect(Posted(s, st.evt, thread), if st.SendCommand? then SendLetter(st) else ReplyLetter(st), st.attempts);
      hide SentToAll;
    }
  }

  lemma OpenedByPrefix(run: seq<Act>, n: nat, i: nat, t: EventId)
    requires n <= |run| && Opened(run[..n], i, t)
    ensures i < n && Opened(run, i, t)
  {
    assert run[..n][..i] == run[..i];
  }

  /** Automatic replies are made only in threads that an email has just opened, and at most once in each. */
  lemma {:induction false} AutoreplyOncePerThread(run: seq<Act>)
    requires Unique(run)
    ensures NoDuplicates(After(run).autoreplied)
    ensures forall t :: t in After(run).autoreplied ==> exists i :: 0 <= i < |run| && Opened(run, i, t)
  {
    if run != [] {
      var n := |run| - 1;
      var s, st := After(run[..n]), run[n];
      UniquePrefix(run, n);
      AutoreplyOncePerThread(run[..n]);
      StepFresh(run, n);
      StepAutoreplies(s, st);
      hide Unique, Apply, Issued;
      forall t | t in s.autoreplied
        ensures exists i :: 0 <= i < |run| && Opened(run, i, t)
        ensures t !in Events(st)
      {
        var i :| 0 <= i < n && Opened(run[..n], i, t);
        OpenedByPrefix(run, n, i, t);
        OpenerEvent(run, i, n, t);
      }
      if st.Incoming? && Autoreplies(s, st) {
        AutoreplyThread(s, st);
        assert Landing(s, st) in Events(st);
        assert Opened(run, n, Landing(s, st));
      }
    }
  }

  lemma OpenerEvent(run: seq<Act>, i: nat, n: nat, t: EventId)
    requires Unique(run) && i < n < |run| && Opened(run, i, t)
    ensures t !in Events(run[n])
  {
    assert t in Events(run[i]);
    assert Events(run[i]) !! Events(run[n]);
  }

  // ---------- out and back

  /** This attempt reached or queued the recipient, and the notice about it was posted. */
  predicate Noted(attempts: seq<Attempt>, k: nat) {
    k < |attempts| && attempts[k].accepted && attempts[k].notice.Some?
  }

  lemma LetterRecorded(s: State, l: Letter, attempts: seq<Attempt>, k: nat)
    requires Noted(attempts, k)
    ensures var r := SentToAll(s, l, attempts); var x := MessageID(l.evt, l.domain);
      && x in r.threads && r.threads[x] == l.thread
      && Outgoing(l.messageID, l.thread) in r.wire
  {
    LetterEffect(s, l, attempts);
    LetterSent(s, l, attempts, k);
    assert attempts[k].notice.value in Notices(attempts);
  }

  /** A Message-Id that its own step does not record is never recorded. */
  lemma NeverRecorded(run: seq<Act>, i: nat, m: nat, x: string)
    requires Unique(run) && i < |run| && m <= |run| && x in Issued(run[i]) && x !in Recordable(run[i])
    ensures x !in After(run[..m]).threads
  {
    hide Consistent, Issued, Recordable, After, Events;
    UniquePrefix(run, m);
    EverythingIssued(run[..m]);
    forall k | 0 <= k < m
      ensures x !in Recordable(run[..m][k])
    {
      RecordableIssued(run[k]);
      if k < i { assert Issued(run[k]) !! Issued(run[i]); }
      if i < k { assert Issued(run[i]) !! Issued(run[k]); }
    }
  }

  /** An answer that names only an unrecorded id opens a thread of its own. */
  lemma UnrecordedOpens(run: seq<Act>, j: nat, x: string)
    requires Arrived(run, j) && run[j].mail.inReplyTo == x != "" && run[j].mail.refs == ""
    requires x !in After(run[..j]).threads
    ensures ThreadOf(run, j) == run[j].outcome.event && OpensThread(After(run[..j]), run[j])
  {
    FirstReference(After(run[..j]), run[j].mail, run[j].gone);
    hide Found, After;
  }

  lemma UnnotedUnrecorded(st: Act)
    requires st.SendCommand? && forall k: nat :: !Noted(st.attempts, k)
    ensures Recordable(st) == {}
  {
    assert Notices(st.attempts) == {} by {
      forall i | 0 <= i < |st.attempts|
        ensures !(st.attempts[i].accepted && st.attempts[i].notice.Some?)
      {
        assert !Noted(st.attempts, i);
      }
    }
  }

  lemma SendSaved(run: seq<Act>, i: nat, j: nat, k: nat)
    requires Unique(run) && i < j <= |run|
    requires run[i].SendCommand? && Noted(run[i].attempts, k)
    ensures var x := MessageID(run[i].evt, run[i].domain);
      && Outgoing(x, run[i].evt) in After(run[..i + 1]).wire
      && x in After(run[..j]).threads && After(run[..j]).threads[x] == run[i].evt
  {
    LetterRecorded(Posted(After(run[..i]), run[i].evt, run[i].evt), SendLetter(run[i]), run[i].attempts, k);
    AfterOneMore(run, i);
    hide Unique, SentToAll, After, Noted, MessageID;
    ThreadsSteady(run, i + 1, j, MessageID(run[i].evt, run[i].domain));
  }

  /** Answers to an email sent with the send command of event E land in thread E if and only if some recipient was
      reached or queued and the notice about it was posted; for answers that name nothing but the sent email. */
  lemma SendRoundTrip(run: seq<Act>, i: nat, j: nat)
    requires Unique(run) && i < j && Arrived(run, j) && run[i].SendCommand?
    requires run[j].mail.inReplyTo == MessageID(run[i].evt, run[i].domain) && run[j].mail.refs == ""
    requires !run[j].gone(run[i].evt)
    ensures ThreadOf(run, j) == run[i].evt <==> exists k: nat :: Noted(run[i].attempts, k)
  {
    var x := run[j].mail.inReplyTo;
    StepFresh(run, i);
    assert run[i].evt in Events(run[i]) && run[j].outcome.event in Events(run[j]);
    assert Events(run[i]) !! Events(run[j]);
    assert x in Issued(run[i]);
    assert run[i].evt != "";
    if k: nat :| Noted(run[i].attempts, k) {
      hide Unique, After, Found, Noted, Consistent, MessageID, Issued, Events;
      SendSaved(run, i, j, k);
      FirstReference(After(run[..j]), run[j].mail, run[j].gone);
    } else {
      UnnotedUnrecorded(run[i]);
      hide Unique, After, Found, Noted, Consistent, Issued, Recordable, Events;
      NeverRecorded(run, i, j, x);
      UnrecordedOpens(run, j, x);
    }
  }

  /** With more references it still lands there once a notice was posted, and the sent Message-Id is on the wire. */
  lemma SendAnswered(run: seq<Act>, i: nat, j: nat, k: nat)
    requires Unique(run) && i < j && Arrived(run, j)
    requires run[i].SendCommand? && Noted(run[i].attempts, k)
    requires run[j].mail.inReplyTo == MessageID(run[i].evt, run[i].domain) && !run[j].gone(run[i].evt)
    ensures Outgoing(run[j].mail.inReplyTo, run[i].evt) in After(run[..i + 1]).wire
    ensures ThreadOf(run, j) == run[i].evt
  {
    StepFresh(run, i);
    assert run[i].evt in Events(run[i]);
    hide Unique, After, Found, Noted, Consistent;
    SendSaved(run, i, j, k);
    FirstReference(After(run[..j]), run[j].mail, run[j].gone);
  }

  lemma OtherDomainUnrecorded(st: Act)
    requires st.Reply? && Consistent(st) && st.fromDomain != st.domain && '@' !in st.domain && '@' !in st.fromDomain
    ensures MessageID(st.evt, st.fromDomain) !in Recordable(st)
  {
    hide MessageID, Notices;
    var x := MessageID(st.evt, st.fromDomain);
    assert MessageID(st.evt, st.domain) != x by {
      if MessageID(st.evt, st.domain) == x { MessageIDInjective(st.evt, st.domain, st.evt, st.fromDomain); }
    }
    forall n | n in Notices(st.attempts)
      ensures MessageID(n, st.domain) != x
    {
      if MessageID(n, st.domain) == x { MessageIDInjective(n, st.domain, st.evt, st.fromDomain); }
    }
  }

  /** Answers to a reply sent from a thread come back to that thread exactly when the reply's Message-Id was made
      with the room's own domain, for answers that name nothing but the reply. */
  lemma ReplyRoundTrip(run: seq<Act>, i: nat, j: nat, k: nat)
    requires Unique(run) && i < j && Arrived(run, j)
    requires run[i].Reply? && HasParent(After(run[..i]), run[i]) && Noted(run[i].attempts, k)
    requires '@' !in run[i].domain && '@' !in run[i].fromDomain
    requires run[j].mail.inReplyTo == MessageID(run[i].evt, run[i].fromDomain) && run[j].mail.refs == ""
    requires !run[j].gone(run[i].thread) && run[j].outcome.event != run[i].thread
    ensures Outgoing(run[j].mail.inReplyTo, run[i].thread) in After(run[..i + 1]).wire
    ensures ThreadOf(run, j) == run[i].thread <==> run[i].fromDomain == run[i].domain
  {
    var x := run[j].mail.inReplyTo;
    StepFresh(run, i);
    LetterRecorded(Posted(After(run[..i]), run[i].evt, run[i].thread), ReplyLetter(run[i]), run[i].attempts, k);
    AfterOneMore(run, i);
    if run[i].fromDomain == run[i].domain {
      assert run[i].thread != "";
      hide Unique, SentToAll, After, Found, Noted, Consistent;
      ThreadsSteady(run, i + 1, j, x);
      FirstReference(After(run[..j]), run[j].mail, run[j].gone);
    } else {
      OtherDomainUnrecorded(run[i]);
      assert x in Issued(run[i]);
      hide Unique, SentToAll, After, Found, Noted, Consistent, Recordable, Issued;
      NeverRecorded(run, i, j, x);
      UnrecordedOpens(run, j, x);
    }
  }

  /** With other references, an answer to such a reply still finds the thread through the first known of them. */
  lemma {:induction false} FirstKnownDecides(threads: map<string, EventId>, refs: seq<string>, gone: EventId -> bool,
                                             k: nat)
    requires k < |refs| && Known(threads, refs[k], gone)
    requires forall i :: 0 <= i < k ==> !Known(threads, refs[i], gone)
    ensures ThreadFor(threads, refs, gone) == threads[refs[k]]
  {
    if k > 0 { FirstKnownDecides(threads, refs[1..], gone, k - 1); }
  }

  lemma AutoreplyUnrecorded(st: Act)
    requires st.Incoming? && Consistent(st) && st.outcome.Sent? && st.auto.Some?
    requires '@' !in st.domain && '@' !in st.auto.value.fromDomain
    requires var id := AutoreplyID(st.outcome.event, st.auto.value.stamp);
      id !in Events(st) && st.mail.messageID != MessageID(id, st.auto.value.fromDomain)
    ensures MessageID(AutoreplyID(st.outcome.event, st.auto.value.stamp), st.auto.value.fromDomain) !in Recordable(st)
  {
    hide MessageID, Notices, AutoreplyID;
    var id, from := AutoreplyID(st.outcome.event, st.auto.value.stamp), st.auto.value.fromDomain;
    var attempts := st.auto.value.attempts;
    forall e | e in Events(st)
      ensures MessageID(e, st.domain) != MessageID(id, from)
    {
      if MessageID(e, st.domain) == MessageID(id, from) { MessageIDInjective(e, st.domain, id, from); }
    }
    assert st.outcome.event in Events(st) && Notices(attempts) <= Events(st);
  }

  /** The Message-Id of an automatic reply is never recorded: an answer that names only it opens a new thread. */
  lemma AutoreplyNotFollowed(run: seq<Act>, i: nat, j: nat)
    requires Unique(run) && i < j && Arrived(run, i) && Arrived(run, j) && run[i].auto.Some?
    requires '@' !in run[i].domain && '@' !in run[i].auto.value.fromDomain
    requires var id := AutoreplyID(run[i].outcome.event, run[i].auto.value.stamp);
      && id !in Events(run[i])
      && run[i].mail.messageID != MessageID(id, run[i].auto.value.fromDomain) == run[j].mail.inReplyTo
    requires run[j].mail.refs == ""
    ensures ThreadOf(run, j) == run[j].outcome.event && OpensThread(After(run[..j]), run[j])
  {
    var x := run[j].mail.inReplyTo;
    AutoreplyUnrecorded(run[i]);
    assert x in Issued(run[i]);
    assert x != "";
    hide Unique, After, Consistent, Recordable, Issued, Events, MessageID;
    NeverRecorded(run, i, j, x);
    UnrecordedOpens(run, j, x);
  }
}
