/** What the thread records say of References, of the last event and of automatic replies, in terms of the emails and
    the answers themselves (internal/bot/email.go). */
module ThreadExact {
  import opened Text
  import opened Addresses
  import opened Threads
  import opened ThreadRuns
  import opened ThreadReplies

  // ---------- References

  /** This id is recorded in a thread whose event can be fetched when step `j` runs. */
  predicate Reachable(run: seq<Act>, j: nat, id: string)
    requires j < |run| && run[j].Incoming?
  {
    var threads := After(run[..j]).threads;
    id in threads && threads[id] != "" && !run[j].gone(threads[id])
  }

  lemma RefsAre(mail: Email, ids: seq<string>)
    requires ids != [] && mail.refs == Join(ids, ' ') != "" && (forall i :: 0 <= i < |ids| ==> ' ' !in ids[i])
    ensures RefsOf(mail) == [mail.inReplyTo] + ids
  {
    SplitOfJoin(ids, ' ');
  }

  lemma FoundByReferences(s: State, mail: Email, gone: EventId -> bool, ids: seq<string>, k: nat)
    requires ids != [] && mail.refs == Join(ids, ' ') != "" && (forall i :: 0 <= i < |ids| ==> ' ' !in ids[i])
    requires !Known(s.threads, mail.inReplyTo, gone) && k <= |ids|
    requires forall i :: 0 <= i < k ==> !Known(s.threads, ids[i], gone)
    ensures k < |ids| && Known(s.threads, ids[k], gone) ==> Found(s, mail, gone) == s.threads[ids[k]]
    ensures k == |ids| ==> Found(s, mail, gone) == ""
  {
    hide RefsOf, ThreadFor, Join, Split;
    RefsAre(mail, ids);
    var refs := [mail.inReplyTo] + ids;
    FirstKnownAfter(s.threads, mail.inReplyTo, ids, gone, k);
    assert Found(s, mail, gone) == ThreadFor(s.threads, refs, gone);
  }

  lemma FirstKnownAfter(threads: map<string, EventId>, first: string, ids: seq<string>, gone: EventId -> bool, k: nat)
    requires !Known(threads, first, gone) && k <= |ids| && forall i :: 0 <= i < k ==> !Known(threads, ids[i], gone)
    ensures k < |ids| && Known(threads, ids[k], gone) ==> ThreadFor(threads, [first] + ids, gone) == threads[ids[k]]
    ensures k == |ids| ==> ThreadFor(threads, [first] + ids, gone) == ""
  {
    var refs := [first] + ids;
    assert forall i :: 0 < i < |refs| ==> refs[i] == ids[i - 1];
    hide ThreadFor;
    if k == |ids| {
      hide Known;
      NoneKnown(threads, refs, gone);
    } else if Known(threads, ids[k], gone) {
      FirstKnownDecides(threads, refs, gone, k + 1);
    }
  }

  lemma {:induction false} NoneKnown(threads: map<string, EventId>, refs: seq<string>, gone: EventId -> bool)
    requires forall i :: 0 <= i < |refs| ==> !Known(threads, refs[i], gone)
    ensures ThreadFor(threads, refs, gone) == ""
  {
    if refs != [] { NoneKnown(threads, refs[1..], gone); }
  }

  /** An email whose In-Reply-To is not known lands in the thread of the first known id of its References, a list of ids
      with single spaces between them, and opens its own if none of them is known. */
  lemma ReferencesExact(run: seq<Act>, j: nat, ids: seq<string>)
    requires Arrived(run, j) && !Reachable(run, j, run[j].mail.inReplyTo)
    requires ids != [] && run[j].mail.refs == Join(ids, ' ') != "" && (forall i :: 0 <= i < |ids| ==> ' ' !in ids[i])
    ensures forall k ::
      (0 <= k < |ids| && Reachable(run, j, ids[k]) && (forall i :: 0 <= i < k ==> !Reachable(run, j, ids[i])) ==>
         ThreadOf(run, j) == After(run[..j]).threads[ids[k]])
    ensures (forall i :: 0 <= i < |ids| ==> !Reachable(run, j, ids[i])) ==> ThreadOf(run, j) == run[j].outcome.event
  {
    var s := After(run[..j]);
    hide After, Found, Join;
    forall k | 0 <= k < |ids| && Reachable(run, j, ids[k]) && (forall i :: 0 <= i < k ==> !Reachable(run, j, ids[i]))
      ensures ThreadOf(run, j) == s.threads[ids[k]]
    {
      FoundByReferences(s, run[j].mail, run[j].gone, ids, k);
    }
    if forall i :: 0 <= i < |ids| ==> !Reachable(run, j, ids[i]) {
      FoundByReferences(s, run[j].mail, run[j].gone, ids, |ids|);
    }
  }

  /** In particular it joins the thread of an email that has arrived, if that is the first it refers to. */
  lemma ReferenceLandsInThread(run: seq<Act>, i: nat, j: nat, ids: seq<string>, k: nat)
    requires Unique(run) && i < j && Arrived(run, i) && Arrived(run, j) && !Reachable(run, j, run[j].mail.inReplyTo)
    requires run[j].mail.refs == Join(ids, ' ') != "" && (forall n :: 0 <= n < |ids| ==> ' ' !in ids[n])
    requires k < |ids| && ids[k] == run[i].mail.messageID && forall n :: 0 <= n < k ==> !Reachable(run, j, ids[n])
    requires !run[j].gone(ThreadOf(run, i))
    ensures ThreadOf(run, j) == ThreadOf(run, i)
  {
    StepFresh(run, i);
    LandingNotEmpty(After(run[..i]), run[i]);
    hide Unique, Apply, After, Found, Events, Issued, Join;
    ArrivalStays(run, i, j);
    assert Reachable(run, j, ids[k]);
    ReferencesExact(run, j, ids);
  }

  // ---------- the last event

  /** The latest of these attempts that was noted. */
  predicate LatestNoted(attempts: seq<Attempt>, k: nat) {
    Noted(attempts, k) && forall i :: k < i < |attempts| ==> !Noted(attempts, i)
  }

  /** After an email from the room, the thread's last event is the notice posted last; every other thread keeps its
      own. */
  lemma {:induction false} LetterLast(s: State, l: Letter, attempts: seq<Attempt>, k: nat)
    requires LatestNoted(attempts, k)
    ensures LastOf(SentToAll(s, l, attempts), l.thread) ==
      if attempts[k].notice.value == "" then l.thread else attempts[k].notice.value
  {
    var n := |attempts| - 1;
    var front := attempts[..n];
    if k < n {
      assert !Noted(attempts, n);
      assert forall i :: 0 <= i < n ==> front[i] == attempts[i];
      forall i | k < i < n ensures !Noted(front, i) { assert !Noted(attempts, i); }
      LetterLast(s, l, front, k);
    }
  }

  lemma {:induction false} UnnotedLast(s: State, l: Letter, attempts: seq<Attempt>)
    requires forall i: nat :: !Noted(attempts, i)
    ensures SentToAll(s, l, attempts).last == s.last
  {
    var n := |attempts| - 1;
    if attempts != [] {
      assert !Noted(attempts, n);
      forall i: nat ensures !Noted(attempts[..n], i) { assert !Noted(attempts, i); }
      UnnotedLast(s, l, attempts[..n]);
    }
  }

  /** What a letter makes of the last events. */
  lemma LetterLasts(s: State, l: Letter, attempts: seq<Attempt>)
    requires forall k: nat :: Noted(attempts, k) ==> attempts[k].notice.value != ""
    ensures var s' := SentToAll(s, l, attempts);
      && (forall t :: t != l.thread ==> LastOf(s', t) == LastOf(s, t))
      && ((forall i: nat :: !Noted(attempts, i)) ==> LastOf(s', l.thread) == LastOf(s, l.thread))
      && (forall k: nat :: LatestNoted(attempts, k) ==> LastOf(s', l.thread) == attempts[k].notice.value)
  {
    LetterEffect(s, l, attempts);
    hide SentToAll, Keys, SetAt, Notices;
    if forall i: nat :: !Noted(attempts, i) { UnnotedLast(s, l, attempts); }
    forall k: nat | LatestNoted(attempts, k)
      ensures LastOf(SentToAll(s, l, attempts), l.thread) == attempts[k].notice.value
    {
      LetterLast(s, l, attempts, k);
    }
  }

  /** The last event of a thread after a posted email: the email, or the last notice of the automatic reply that it
      caused. Other threads keep theirs. */
  lemma ArrivalIsLast(s: State, st: Act)
    requires st.Incoming? && Consistent(st) && st.outcome.Sent?
    ensures var s' := Apply(s, st);
      && (forall t :: t != Landing(s, st) ==> LastOf(s', t) == LastOf(s, t))
      && (!Autoreplies(s, st) || (forall i: nat :: !Noted(st.auto.value.attempts, i)) ==>
            LastOf(s', Landing(s, st)) == st.outcome.event)
      && (Autoreplies(s, st) ==> forall k: nat :: LatestNoted(st.auto.value.attempts, k) ==>
            LastOf(s', Landing(s, st)) == st.auto.value.attempts[k].notice.value)
  {
    IncomingInTwo(s, st);
    DeliveredLast(s, st);
    NoticesNamed(st);
    hide Apply, Delivered, Found, Landing, SentToAll, Consistent, LastOf;
    if Autoreplies(s, st) {
      var l, attempts := AutoLetter(Landing(s, st), st.domain, st.auto.value), st.auto.value.attempts;
      var s2 := Delivered(s, st).(autoreplied := s.autoreplied + [Landing(s, st)]);
      LetterLasts(s2, l, attempts);
      SameLast(s2, Delivered(s, st));
    }
  }

  lemma SameLast(s: State, s': State)
    requires s.last == s'.last
    ensures forall t :: LastOf(s, t) == LastOf(s', t)
  {}

  lemma DeliveredLast(s: State, st: Act)
    requires st.Incoming? && Consistent(st) && st.outcome.Sent?
    ensures forall t :: LastOf(Delivered(s, st), t) == if t == Landing(s, st) then st.outcome.event else LastOf(s, t)
  {
    DeliveredEffect(s, st);
    assert st.outcome.event != "" by { assert st.outcome.event in Events(st); }
    hide Delivered, Found, Landing, Notices;
  }

  lemma NoticesNamed(st: Act)
    requires st.Incoming? && Consistent(st)
    ensures st.auto.Some? ==> forall k: nat :: Noted(st.auto.value.attempts, k) ==>
      st.auto.value.attempts[k].notice.value != ""
  {
    if st.auto.Some? {
      forall k: nat | Noted(st.auto.value.attempts, k) ensures st.auto.value.attempts[k].notice.value != "" {
        assert st.auto.value.attempts[k].notice.value in Notices(st.auto.value.attempts);
        assert st.auto.value.attempts[k].notice.value in Events(st);
      }
    }
  }

  // ---------- automatic replies, both ways

  /** The email at step `i` opened this thread, and the room answers: an automatic reply is configured, the body was
      posted where the room posts it, and the thread's event can be fetched. */
  predicate Answered(run: seq<Act>, i: nat, t: EventId) {
    && Opened(run, i, t)
    && run[i].auto.Some?
    && (run[i].threadify ==> run[i].body.Some?)
    && !run[i].gone(t)
  }

  lemma AnsweredStep(run: seq<Act>, i: nat, t: EventId)
    requires Unique(run) && i < |run|
    ensures Answered(run, i, t) <==>
      run[i].Incoming? && Autoreplies(After(run[..i]), run[i]) && Landing(After(run[..i]), run[i]) == t
  {
    assert Consistent(run[i]);
    var s := After(run[..i]);
    hide After, Unique, Notices, Keys, LetterKeys, Found;
    if run[i].Incoming? && Autoreplies(s, run[i]) { AutoreplyThread(s, run[i]); }
  }

  lemma OneMoreAnswered(run: seq<Act>, t: EventId)
    requires Unique(run) && run != []
    ensures var n := |run| - 1;
      t in After(run).autoreplied <==> t in After(run[..n]).autoreplied || Answered(run, n, t)
  {
    var n := |run| - 1;
    StepFresh(run, n);
    AnsweredStep(run, n, t);
    StepAutoreplies(After(run[..n]), run[n]);
    hide Apply, Unique, Autoreplies, Landing, Answered;
  }

  /** Automatic replies are made in exactly these threads. */
  lemma {:induction false} AutoreplyExact(run: seq<Act>, t: EventId)
    requires Unique(run)
    ensures t in After(run).autoreplied <==> exists i :: 0 <= i < |run| && Answered(run, i, t)
  {
    if run != [] {
      var n := |run| - 1;
      UniquePrefix(run, n);
      AutoreplyExact(run[..n], t);
      OneMoreAnswered(run, t);
      hide *;
      forall i | 0 <= i < n ensures Answered(run[..n], i, t) <==> Answered(run, i, t) {
        AnsweredPrefix(run, n, i, t);
      }
      AnsweredSplit(run, n, t);
    }
  }

  lemma AnsweredSplit(run: seq<Act>, n: nat, t: EventId)
    requires n + 1 == |run| && forall i :: 0 <= i < n ==> (Answered(run[..n], i, t) <==> Answered(run, i, t))
    ensures (exists i :: 0 <= i < |run| && Answered(run, i, t)) <==>
      (exists i :: 0 <= i < n && Answered(run[..n], i, t)) || Answered(run, n, t)
  {
    hide Answered;
  }

  lemma AnsweredPrefix(run: seq<Act>, n: nat, i: nat, t: EventId)
    requires i < n <= |run|
    ensures Answered(run[..n], i, t) <==> Answered(run, i, t)
  {
    assert run[..n][..i] == run[..i];
    hide After, Found;
  }

  // ---------- what is on the wire

  function Accepted(attempts: seq<Attempt>): nat {
    if attempts == [] then 0
    else Accepted(attempts[..|attempts| - 1]) + if attempts[|attempts| - 1].accepted then 1 else 0
  }

  /** An email from the room is on the wire once for every recipient that accepted it, and for no other. */
  lemma {:induction false} LetterWire(s: State, l: Letter, attempts: seq<Attempt>)
    ensures var wire := SentToAll(s, l, attempts).wire;
      && |wire| == |s.wire| + Accepted(attempts) && wire[..|s.wire|] == s.wire
      && forall i :: |s.wire| <= i < |wire| ==> wire[i] == Outgoing(l.messageID, l.thread)
  {
    if attempts != [] { LetterWire(s, l, attempts[..|attempts| - 1]); }
  }

  /** A reply from the room goes out exactly when the thread has a parent to answer: an event other than the reply
      that is recorded last in the thread, or else opens it, and that can be fetched. */
  lemma ReplyWire(s: State, st: Act)
    requires st.Reply?
    ensures var recorded := st.thread in s.last && s.last[st.thread] != "";
      var parent := if recorded then s.last[st.thread] else st.thread;
      var answers := st.thread != st.evt && parent != st.evt && !st.gone(parent);
      && |Apply(s, st).wire| == |s.wire| + (if answers then Accepted(st.attempts) else 0)
      && forall i :: |s.wire| <= i < |Apply(s, st).wire| ==>
           Apply(s, st).wire[i] == Outgoing(MessageID(st.evt, st.fromDomain), st.thread)
  {
    LetterWire(Posted(s, st.evt, st.thread), ReplyLetter(st), st.attempts);
    hide SentToAll, MessageID;
  }

  lemma SendWire(s: State, st: Act)
    requires st.SendCommand?
    ensures var wire := Apply(s, st).wire;
      && |wire| == |s.wire| + Accepted(st.attempts)
      && forall i :: |s.wire| <= i < |wire| ==> wire[i] == Outgoing(MessageID(st.evt, st.domain), st.evt)
  {
    LetterWire(Posted(s, st.evt, st.evt), SendLetter(st), st.attempts);
    hide SentToAll, MessageID;
  }

  /** An automatic reply goes out under an id made of the thread's first event and the time. */
  lemma AutoreplyWire(s: State, st: Act)
    requires st.Incoming? && Consistent(st)
    ensures var wire := Apply(s, st).wire;
      var answers := st.outcome.Sent? && Found(s, st.mail, st.gone) == "" && (st.threadify ==> st.body.Some?)
                     && st.auto.Some? && !st.gone(st.outcome.event);
      && |wire| == |s.wire| + (if answers then Accepted(st.auto.value.attempts) else 0)
      && (answers ==> forall i :: |s.wire| <= i < |wire| ==>
            wire[i].thread == st.outcome.event
            && wire[i].messageID ==
               "<" + (st.outcome.event + "-autoreply-" + st.auto.value.stamp) + "@" + st.auto.value.fromDomain + ">")
  {
    if st.outcome != Failed {
      IncomingInTwo(s, st);
      if Autoreplies(s, st) {
        AutoreplyThread(s, st);
        LetterWire(Delivered(s, st).(autoreplied := s.autoreplied + [Landing(s, st)]),
                   AutoLetter(Landing(s, st), st.domain, st.auto.value), st.auto.value.attempts);
      }
    }
    hide Found, SentToAll, Notices, LetterKeys;
  }

  /** Where the parts of a posted email belong: the email in the thread it landed in, and the body event in that too. */
  lemma PartsInThread(s: State, st: Act)
    requires st.Incoming? && Consistent(st) && st.outcome.Sent?
    ensures var r := Delivered(s, st);
      && st.outcome.event in r.timeline && r.timeline[st.outcome.event] == Landing(s, st)
      && (Found(s, st.mail, st.gone) == "" && st.threadify && st.body.Some? ==>
            st.body.value in r.timeline && r.timeline[st.body.value] == Landing(s, st))
  {
    LandingNotEmpty(s, st);
    hide Found, Notices, LetterKeys;
  }

  // ---------- answers to what the room has sent

  lemma NoticeSaved(s: State, l: Letter, attempts: seq<Attempt>, k: nat)
    requires Noted(attempts, k)
    ensures var r := SentToAll(s, l, attempts); var x := MessageID(attempts[k].notice.value, l.domain);
      x in r.threads && r.threads[x] == l.thread
  {
    LetterEffect(s, l, attempts);
    assert attempts[k].notice.value in Notices(attempts);
    hide SentToAll, MessageID, Notices;
  }

  /** The notices about an email from the room can be answered as well: an email that answers a notice's own Message-Id
      lands in the thread of the email. */
  lemma NoticeAnswered(run: seq<Act>, i: nat, j: nat, k: nat)
    requires Unique(run) && i < j && Arrived(run, j)
    requires run[i].SendCommand? || (run[i].Reply? && HasParent(After(run[..i]), run[i]))
    requires Noted(run[i].attempts, k)
    requires run[j].mail.inReplyTo == MessageID(run[i].attempts[k].notice.value, run[i].domain)
    requires !run[j].gone(if run[i].SendCommand? then run[i].evt else run[i].thread)
    ensures ThreadOf(run, j) == if run[i].SendCommand? then run[i].evt else run[i].thread
  {
    StepFresh(run, i);
    var thread := if run[i].SendCommand? then run[i].evt else run[i].thread;
    assert run[i].evt in Events(run[i]);
    assert thread != "";
    NoticeSaved(Posted(After(run[..i]), run[i].evt, thread),
                if run[i].SendCommand? then SendLetter(run[i]) else ReplyLetter(run[i]), run[i].attempts, k);
    AfterOneMore(run, i);
    hide Unique, SentToAll, After, Found, Noted, Consistent, MessageID;
    ThreadsSteady(run, i + 1, j, run[j].mail.inReplyTo);
    FirstReference(After(run[..j]), run[j].mail, run[j].gone);
  }

  /** The events of users and the notices about their emails belong to the thread of the command or of the reply. */
  lemma EventsInThread(s: State, st: Act)
    requires !st.Incoming? && Consistent(st)
    ensures var r := Apply(s, st); var thread := if st.SendCommand? then st.evt else st.thread;
      && st.evt in r.timeline && r.timeline[st.evt] == thread
      && (st.SendCommand? || HasParent(s, st) ==>
            forall k: nat :: Noted(st.attempts, k) ==>
              st.attempts[k].notice.value in r.timeline && r.timeline[st.attempts[k].notice.value] == thread)
  {
    var thread := if st.SendCommand? then st.evt else st.thread;
    assert thread != "" by { assert st.evt in Events(st); }
    var l := if st.SendCommand? then SendLetter(st) else ReplyLetter(st);
    LetterEffect(Posted(s, st.evt, thread), l, st.attempts);
    forall k: nat | Noted(st.attempts, k) ensures st.attempts[k].notice.value in Notices(st.attempts) {}
    hide SentToAll, Notices, Keys;
  }
}
