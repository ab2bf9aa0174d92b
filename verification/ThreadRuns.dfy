/** What holds of a room's threads after every run with unique ids (internal/bot/email.go, internal/bot/command.go). */
module ThreadRuns {
  import opened Text
  import opened Addresses
  import opened Threads

  // ---------- what one letter and one step change

  /** `after` is `before` with `keys` set to `v`. */
  predicate SetAt(before: map<string, EventId>, after: map<string, EventId>, keys: set<string>, v: EventId) {
    && after.Keys == before.Keys + keys
    && (forall k :: k in keys ==> after[k] == v)
    && (forall k :: k in before && k !in keys ==> after[k] == before[k])
  }

  predicate LastSet(before: map<EventId, EventId>, after: map<EventId, EventId>, thread: EventId,
                    events: set<EventId>) {
    && (events == {} ==> after == before)
    && (events != {} ==> after.Keys == before.Keys + {thread} && after[thread] in events)
    && (forall t :: t in before && t != thread ==> t in after && after[t] == before[t])
  }

  lemma NoticesOneMore(attempts: seq<Attempt>)
    requires attempts != []
    ensures var a := attempts[|attempts| - 1];
      Notices(attempts) == Notices(attempts[..|attempts| - 1]) +
                           (if a.accepted && a.notice.Some? then {a.notice.value} else {})
  {
    var n := |attempts| - 1;
    var front := attempts[..n];
    assert forall i :: 0 <= i < n ==> front[i] == attempts[i];
    forall e | e in Notices(attempts)
      ensures e in Notices(front) || (attempts[n].accepted && attempts[n].notice == Some(e))
    {
      var i :| 0 <= i < |attempts| && attempts[i].accepted && attempts[i].notice.Some? && attempts[i].notice.value == e;
      if i < n { assert front[i].notice.value == e; }
    }
    forall e | e in Notices(front)
      ensures e in Notices(attempts)
    {
      var i :| 0 <= i < |front| && front[i].accepted && front[i].notice.Some? && front[i].notice.value == e;
      assert attempts[i] == front[i];
    }
  }

  lemma KeysOneMore(l: Letter, attempts: seq<Attempt>)
    requires attempts != []
    ensures var a := attempts[|attempts| - 1];
      Keys(l, attempts) == Keys(l, attempts[..|attempts| - 1]) +
        (if a.accepted && a.notice.Some? then {MessageID(l.evt, l.domain), MessageID(a.notice.value, l.domain)} else {})
  {
    hide Notices, MessageID;
    NoticesOneMore(attempts);
  }

  lemma SetOne(m: map<string, EventId>, k: string, v: EventId)
    ensures SetAt(m, m[k := v], {k}, v)
  {}

  lemma LastSetOne(m: map<EventId, EventId>, thread: EventId, e: EventId)
    ensures LastSet(m, m[thread := e], thread, {e})
  {}

  lemma SetAtTwice(a: map<string, EventId>, b: map<string, EventId>, c: map<string, EventId>,
                   k1: set<string>, k2: set<string>, v: EventId)
    requires SetAt(a, b, k1, v) && SetAt(b, c, k2, v)
    ensures SetAt(a, c, k1 + k2, v)
  {}

  lemma OneLetter(s: State, l: Letter, a: Attempt)
    ensures var r := SentTo(s, l, a);
      && r.autoreplied == s.autoreplied
      && (if a.accepted && a.notice.Some? then
            && SetAt(s.threads, r.threads, {MessageID(l.evt, l.domain), MessageID(a.notice.value, l.domain)}, l.thread)
            && SetAt(s.timeline, r.timeline, {a.notice.value}, l.thread)
            && LastSet(s.last, r.last, l.thread, {a.notice.value})
          else r.threads == s.threads && r.timeline == s.timeline && r.last == s.last)
  {
    hide MessageID, SetAt, LastSet;
    if a.accepted && a.notice.Some? {
      var k1, k2 := MessageID(l.evt, l.domain), MessageID(a.notice.value, l.domain);
      SetOne(s.threads, k1, l.thread);
      SetOne(s.threads[k1 := l.thread], k2, l.thread);
      SetAtTwice(s.threads, s.threads[k1 := l.thread], s.threads[k1 := l.thread][k2 := l.thread], {k1}, {k2}, l.thread);
      assert {k1} + {k2} == {k1, k2};
      SetOne(s.timeline, a.notice.value, l.thread);
      LastSetOne(s.last, l.thread, a.notice.value);
    }
  }

  lemma LastSetTwice(a: map<EventId, EventId>, b: map<EventId, EventId>, c: map<EventId, EventId>,
                     t: EventId, e1: set<EventId>, e2: set<EventId>)
    requires LastSet(a, b, t, e1) && LastSet(b, c, t, e2) && e2 != {}
    ensures LastSet(a, c, t, e1 + e2)
  {}

  /** Sending a letter records its ids and the notices with the letter's thread, and changes nothing else. */
  lemma {:induction false} LetterEffect(s: State, l: Letter, attempts: seq<Attempt>)
    ensures var r := SentToAll(s, l, attempts);
      && SetAt(s.threads, r.threads, Keys(l, attempts), l.thread)
      && SetAt(s.timeline, r.timeline, Notices(attempts), l.thread)
      && LastSet(s.last, r.last, l.thread, Notices(attempts))
      && r.autoreplied == s.autoreplied
  {
    if attempts == [] {
      assert Notices(attempts) == {};
    } else {
      var front, a := attempts[..|attempts| - 1], attempts[|attempts| - 1];
      LetterEffect(s, l, front);
      NoticesOneMore(attempts);
      KeysOneMore(l, attempts);
      hide Keys, Notices, SetAt, LastSet, MessageID, SentTo;
      var f := SentToAll(s, l, front);
      var r := SentToAll(s, l, attempts);
      OneLetter(f, l, a);
      if a.accepted && a.notice.Some? {
        SetAtTwice(s.threads, f.threads, r.threads, Keys(l, front),
                   {MessageID(l.evt, l.domain), MessageID(a.notice.value, l.domain)}, l.thread);
        SetAtTwice(s.timeline, f.timeline, r.timeline, Notices(front), {a.notice.value}, l.thread);
        LastSetTwice(s.last, f.last, r.last, l.thread, Notices(front), {a.notice.value});
      } else {
        assert Keys(l, attempts) == Keys(l, front) && Notices(attempts) == Notices(front);
      }
    }
  }

  lemma {:induction false} LetterSent(s: State, l: Letter, attempts: seq<Attempt>, i: nat)
    requires i < |attempts| && attempts[i].accepted
    ensures Outgoing(l.messageID, l.thread) in SentToAll(s, l, attempts).wire
  {
    var n := |attempts| - 1;
    var o := Outgoing(l.messageID, l.thread);
    var front := SentToAll(s, l, attempts[..n]);
    if i < n {
      LetterSent(s, l, attempts[..n], i);
      assert front.wire <= SentTo(front, l, attempts[n]).wire;
    } else {
      var w := SentTo(front, l, attempts[n]).wire;
      assert w[|w| - 1] == o;
    }
  }

  /** The Message-Ids that a step may record. */
  function Recordable(st: Act): set<string> {
    LetterKeys(st) + if st.Incoming? then {st.mail.messageID} else {}
  }

  lemma RecordableIssued(st: Act)
    ensures Recordable(st) <= Issued(st)
  {}

  /** Whatever a step records is one of its own ids; everything else stays. */
  ghost predicate ThreadsKept(s: State, st: Act, r: State) {
    && r.threads.Keys <= s.threads.Keys + Recordable(st)
    && (forall k :: k in s.threads && k !in Recordable(st) ==> k in r.threads && r.threads[k] == s.threads[k])
  }

  ghost predicate TimelineKept(s: State, st: Act, r: State) {
    && r.timeline.Keys <= s.timeline.Keys + Events(st)
    && (forall e :: e in s.timeline && e !in Events(st) ==> e in r.timeline && r.timeline[e] == s.timeline[e])
  }

  /** An automatic reply is made only in the thread that the email has just opened. */
  lemma AutoreplyThread(s: State, st: Act)
    requires st.Incoming? && Consistent(st) && st.outcome != Failed && OpensThread(s, st) && !st.gone(Landing(s, st))
    ensures st.outcome == Sent(Landing(s, st)) && Found(s, st.mail, st.gone) == ""
  {}

  /** The step makes an automatic reply. */
  predicate Autoreplies(s: State, st: Act)
    requires st.Incoming?
  {
    && st.outcome != Failed && OpensThread(s, st) && !(st.threadify && st.body.None?)
    && st.auto.Some? && !st.gone(Landing(s, st))
  }

  /** The state before the automatic reply, if there is one. */
  function Delivered(s: State, st: Act): State
    requires st.Incoming? && st.outcome != Failed
  {
    var s1 := Recorded(s, st);
    if OpensThread(s, st) && st.threadify && st.body.Some? then Posted(s1, st.body.value, Landing(s, st)) else s1
  }

  lemma IncomingInTwo(s: State, st: Act)
    requires st.Incoming? && st.outcome != Failed
    ensures Apply(s, st) ==
      if Autoreplies(s, st) then
        SentToAll(Delivered(s, st).(autoreplied := s.autoreplied + [Landing(s, st)]),
                  AutoLetter(Landing(s, st), st.domain, st.auto.value), st.auto.value.attempts)
      else Delivered(s, st)
    ensures Delivered(s, st).autoreplied == s.autoreplied
  {
    hide Found, SentToAll;
  }

  /** What is recorded and posted before the automatic reply. */
  lemma DeliveredEffect(s: State, st: Act)
    requires st.Incoming? && st.outcome != Failed
    ensures var r := Delivered(s, st); var m := st.mail.messageID;
      && r.threads == s.threads[m := Landing(s, st)]
      && r.last == s.last[Landing(s, st) := if st.outcome.Sent? then st.outcome.event else ""]
      && r.timeline.Keys <= s.timeline.Keys + Events(st)
      && (forall e :: e in s.timeline && e !in Events(st) ==> e in r.timeline && r.timeline[e] == s.timeline[e])
  {
    hide Found, Notices;
  }

  lemma AutoLetterIds(s: State, st: Act)
    requires st.Incoming? && Consistent(st) && Autoreplies(s, st)
    ensures Notices(st.auto.value.attempts) <= Events(st)
    ensures Keys(AutoLetter(Landing(s, st), st.domain, st.auto.value), st.auto.value.attempts) == LetterKeys(st)
  {
    AutoreplyThread(s, st);
    hide Keys, Notices, Landing, AutoLetter;
  }

  /** Two changes confined to `own` leave the rest alone. */
  lemma SetAtKeeps(a: map<string, EventId>, b: map<string, EventId>, c: map<string, EventId>, keys: set<string>,
                   v: EventId,
                   own: set<string>)
    requires b.Keys <= a.Keys + own && (forall k :: k in a && k !in own ==> k in b && b[k] == a[k])
    requires SetAt(b, c, keys, v) && keys <= own
    ensures c.Keys <= a.Keys + own && (forall k :: k in a && k !in own ==> k in c && c[k] == a[k])
  {}

  lemma FailedKeeps(s: State, st: Act)
    requires st.Incoming? && st.outcome == Failed
    ensures ThreadsKept(s, st, Apply(s, st)) && TimelineKept(s, st, Apply(s, st))
  {
    hide Found, Notices, Keys;
  }

  lemma IncomingKeeps(s: State, st: Act)
    requires st.Incoming? && Consistent(st)
    ensures ThreadsKept(s, st, Apply(s, st)) && TimelineKept(s, st, Apply(s, st))
  {
    if st.outcome == Failed {
      FailedKeeps(s, st);
    } else {
      IncomingInTwo(s, st);
      DeliveredEffect(s, st);
      if Autoreplies(s, st) {
        var l, attempts := AutoLetter(Landing(s, st), st.domain, st.auto.value), st.auto.value.attempts;
        var s2 := Delivered(s, st).(autoreplied := s.autoreplied + [Landing(s, st)]);
        AutoLetterIds(s, st);
        LetterEffect(s2, l, attempts);
        hide Found, Notices, Keys, Landing, Delivered, Apply, SentToAll, Consistent, Autoreplies, AutoLetter, Events,
          LetterKeys, SetAt;
        SetAtKeeps(s.threads, s2.threads, Apply(s, st).threads, Keys(l, attempts), l.thread, Recordable(st));
        SetAtKeeps(s.timeline, s2.timeline, Apply(s, st).timeline, Notices(attempts), l.thread, Events(st));
      } else {
        hide Found, Notices, Keys, Landing, Delivered, Apply, Consistent, Autoreplies, Events, LetterKeys;
      }
    }
  }

  lemma StepKeeps(s: State, st: Act)
    requires Consistent(st)
    ensures ThreadsKept(s, st, Apply(s, st)) && TimelineKept(s, st, Apply(s, st))
  {
    if st.Incoming? {
      IncomingKeeps(s, st);
    } else if st.SendCommand? {
      LetterEffect(Posted(s, st.evt, st.evt), SendLetter(st), st.attempts);
    } else {
      LetterEffect(Posted(s, st.evt, st.thread), ReplyLetter(st), st.attempts);
    }
  }

  // ---------- runs

  predicate IssuedIn(run: seq<Act>, k: string) { exists i :: 0 <= i < |run| && k in Recordable(run[i]) }

  predicate EventIn(run: seq<Act>, e: EventId) { exists i :: 0 <= i < |run| && e in Events(run[i]) }

  lemma UniquePrefix(run: seq<Act>, k: nat)
    requires Unique(run) && k <= |run|
    ensures Unique(run[..k])
  {
    hide Consistent, Events, Issued;
  }

  /** Every recorded Message-Id and every event was brought in by some step. */
  lemma {:induction false} EverythingIssued(run: seq<Act>)
    requires Unique(run)
    ensures forall k :: k in After(run).threads ==> IssuedIn(run, k)
    ensures forall e :: e in After(run).timeline ==> EventIn(run, e)
  {
    hide Consistent, Events, Issued, Recordable, Apply;
    if run != [] {
      var n := |run| - 1;
      var before := run[..n];
      UniquePrefix(run, n);
      EverythingIssued(before);
      StepKeeps(After(before), run[n]);
      forall k | k in After(run).threads
        ensures IssuedIn(run, k)
      {
        if k in After(before).threads {
          var i :| 0 <= i < n && k in Recordable(before[i]);
          assert k in Recordable(run[i]);
        }
      }
      forall e | e in After(run).timeline
        ensures EventIn(run, e)
      {
        if e in After(before).timeline {
          var i :| 0 <= i < n && e in Events(before[i]);
          assert e in Events(run[i]);
        }
      }
    }
  }

  /** What a step of a unique run brings in was not there before. */
  lemma StepFresh(run: seq<Act>, n: nat)
    requires Unique(run) && n < |run|
    ensures Consistent(run[n])
    ensures Issued(run[n]) !! After(run[..n]).threads.Keys
    ensures Events(run[n]) !! After(run[..n]).timeline.Keys
  {
    hide Consistent, Events, Issued, Recordable, After;
    var before := run[..n];
    UniquePrefix(run, n);
    EverythingIssued(before);
    forall k | k in After(before).threads
      ensures k !in Issued(run[n])
    {
      var i :| 0 <= i < n && k in Recordable(before[i]);
      RecordableIssued(run[i]);
      assert Issued(run[i]) !! Issued(run[n]);
    }
    forall e | e in After(before).timeline
      ensures e !in Events(run[n])
    {
      var i :| 0 <= i < n && e in Events(before[i]);
      assert Events(run[i]) !! Events(run[n]);
    }
  }

  lemma AfterOneMore(run: seq<Act>, n: nat)
    requires n < |run|
    ensures After(run[..n + 1]) == Apply(After(run[..n]), run[n])
  {
    assert run[..n + 1][..n] == run[..n];
  }

  /** A recorded Message-Id keeps its thread for the rest of the run. */
  lemma {:induction false} ThreadsNeverChange(run: seq<Act>, n: nat, k: string)
    requires Unique(run) && n <= |run| && k in After(run[..n]).threads
    ensures k in After(run).threads && After(run).threads[k] == After(run[..n]).threads[k]
    decreases |run| - n
  {
    hide Consistent, Events, Issued, Recordable, Apply, After;
    if n == |run| {
      assert run[..n] == run;
    } else {
      StepFresh(run, n);
      RecordableIssued(run[n]);
      StepKeeps(After(run[..n]), run[n]);
      AfterOneMore(run, n);
      ThreadsNeverChange(run, n + 1, k);
    }
  }

  lemma ThreadsSteady(run: seq<Act>, n: nat, m: nat, k: string)
    requires Unique(run) && n <= m <= |run| && k in After(run[..n]).threads
    ensures k in After(run[..m]).threads && After(run[..m]).threads[k] == After(run[..n]).threads[k]
  {
    hide Unique, After;
    UniquePrefix(run, m);
    assert run[..m][..n] == run[..n];
    ThreadsNeverChange(run[..m], n, k);
  }

  // ---------- incoming emails

  /** The email at step `i` was posted to the room. */
  predicate Arrived(run: seq<Act>, i: nat) { i < |run| && run[i].Incoming? && run[i].outcome.Sent? }

  /** The thread in which the email at step `i` landed. */
  function ThreadOf(run: seq<Act>, i: nat): EventId
    requires i < |run| && run[i].Incoming?
  {
    Landing(After(run[..i]), run[i])
  }

  /** After the step, the email's id is recorded with the thread it landed in. */
  lemma ArrivalRecorded(s: State, st: Act)
    requires st.Incoming? && Consistent(st) && (st.outcome == Failed ==> Landing(s, st) != "")
    ensures st.mail.messageID in Apply(s, st).threads
    ensures Apply(s, st).threads[st.mail.messageID] == Landing(s, st)
  {
    if st.outcome == Failed {
      hide Found;
    } else {
      IncomingInTwo(s, st);
      DeliveredEffect(s, st);
      if Autoreplies(s, st) {
        AutoreplyThread(s, st);
        var s2 := Delivered(s, st).(autoreplied := s.autoreplied + [Landing(s, st)]);
        LetterEffect(s2, AutoLetter(Landing(s, st), st.domain, st.auto.value), st.auto.value.attempts);
        assert st.mail.messageID !in LetterKeys(st);
        hide Found, Notices, Keys, Landing, Delivered, Apply, SentToAll, Consistent, Autoreplies, AutoLetter;
      } else {
        hide Found, Landing, Delivered, Apply, Consistent, Autoreplies;
      }
    }
  }

  /** The id of an email is recorded with the email's thread, from its step to the end of the run. */
  lemma ArrivalStays(run: seq<Act>, i: nat, m: nat)
    requires Unique(run) && i < m <= |run| && run[i].Incoming?
    requires run[i].outcome == Failed ==> ThreadOf(run, i) != ""
    ensures run[i].mail.messageID in After(run[..m]).threads
    ensures After(run[..m]).threads[run[i].mail.messageID] == ThreadOf(run, i)
  {
    hide Unique, Consistent, Apply, After;
    StepFresh(run, i);
    ArrivalRecorded(After(run[..i]), run[i]);
    AfterOneMore(run, i);
    ThreadsSteady(run, i + 1, m, run[i].mail.messageID);
  }

  lemma FirstReference(s: State, mail: Email, gone: EventId -> bool)
    requires mail.inReplyTo != ""
    ensures Known(s.threads, mail.inReplyTo, gone) ==> Found(s, mail, gone) == s.threads[mail.inReplyTo]
    ensures !Known(s.threads, mail.inReplyTo, gone) && mail.refs == "" ==> Found(s, mail, gone) == ""
  {
    assert RefsOf(mail)[0] == mail.inReplyTo;
    if mail.refs == "" {
      assert RefsOf(mail) == [mail.inReplyTo];
      assert RefsOf(mail)[1..] == [];
      assert ThreadFor(s.threads, [], gone) == "";
    }
  }

  /** An email that answers an already posted one lands in the same thread, as long as that thread's event can
      still be fetched; whatever happened in between. */
  lemma ReplyLandsInThread(run: seq<Act>, i: nat, j: nat)
    requires Unique(run) && i < j && Arrived(run, i) && Arrived(run, j)
    requires run[j].mail.inReplyTo == run[i].mail.messageID
    requires !run[j].gone(ThreadOf(run, i))
    ensures ThreadOf(run, j) == ThreadOf(run, i) != ""
    ensures run[i].mail.messageID in After(run).threads && run[j].mail.messageID in After(run).threads
    ensures After(run).threads[run[j].mail.messageID] == After(run).threads[run[i].mail.messageID] == ThreadOf(run, i)
  {
    StepFresh(run, i);
    LandingNotEmpty(After(run[..i]), run[i]);
    hide Unique, Apply, After, Found, Events, Issued;
    ArrivalStays(run, i, j);
    FirstReference(After(run[..j]), run[j].mail, run[j].gone);
    assert run[..|run|] == run;
    ArrivalStays(run, i, |run|);
    ArrivalStays(run, j, |run|);
  }

  lemma LandingNotEmpty(s: State, st: Act)
    requires st.Incoming? && Consistent(st) && st.outcome.Sent?
    ensures Landing(s, st) != ""
  {}

  /** A chain of emails, each answering the one before it. */
  predicate Chain(run: seq<Act>, steps: seq<nat>) {
    && (forall k :: 0 <= k < |steps| ==> Arrived(run, steps[k]))
    && (forall k :: 0 < k < |steps| ==>
          && steps[k - 1] < steps[k]
          && run[steps[k]].mail.inReplyTo == run[steps[k - 1]].mail.messageID)
  }

  /** A whole chain of answers shares one thread while the thread's event can be fetched. */
  lemma {:induction false} ChainSharesThread(run: seq<Act>, steps: seq<nat>, k: nat)
    requires Unique(run) && Chain(run, steps) && k < |steps|
    requires forall i :: 0 < i < |steps| ==> !run[steps[i]].gone(ThreadOf(run, steps[0]))
    ensures ThreadOf(run, steps[k]) == ThreadOf(run, steps[0])
    ensures run[steps[k]].mail.messageID in After(run).threads
    ensures After(run).threads[run[steps[k]].mail.messageID] == ThreadOf(run, steps[0])
  {
    hide Unique, After, ThreadOf;
    if k == 0 {
      assert run[..|run|] == run;
      ArrivalStays(run, steps[0], |run|);
    } else {
      ChainSharesThread(run, steps, k - 1);
      ReplyLandsInThread(run, steps[k - 1], steps[k]);
    }
  }

  /** Answering an email that Matrix refused with M_UNKNOWN opens a new thread: the refused email's id is recorded
      with no thread. */
  lemma UnknownBreaksChain(run: seq<Act>, i: nat, j: nat)
    requires Unique(run) && i < j && j < |run| && run[i].Incoming? && run[i].outcome == Unknown && Arrived(run, j)
    requires run[j].mail.inReplyTo == run[i].mail.messageID && run[j].mail.refs == ""
    ensures ThreadOf(run, j) == run[j].outcome.event && OpensThread(After(run[..j]), run[j])
  {
    StepFresh(run, i);
    hide Unique, Apply, After, Found, Events, Issued;
    ArrivalStays(run, i, j);
    FirstReference(After(run[..j]), run[j].mail, run[j].gone);
  }

  /** A Message-Id of step `i` that is not recorded right after it never is. */
  lemma {:induction false} StaysAbsent(run: seq<Act>, i: nat, m: nat, k: string)
    requires Unique(run) && i < m <= |run| && k in Issued(run[i]) && k !in After(run[..i + 1]).threads
    ensures k !in After(run[..m]).threads
    decreases m
  {
    hide Consistent, Events, Issued, Recordable, Apply, After;
    if m > i + 1 {
      StaysAbsent(run, i, m - 1, k);
      StepFresh(run, m - 1);
      RecordableIssued(run[m - 1]);
      StepKeeps(After(run[..m - 1]), run[m - 1]);
      AfterOneMore(run, m - 1);
      assert Issued(run[i]) !! Issued(run[m - 1]);
    }
  }

  lemma FailedUnrecorded(s: State, st: Act)
    requires st.Incoming? && st.outcome == Failed && Landing(s, st) == ""
    ensures Apply(s, st) == s
  {}

  /** The exact fate of an answer that names one email and nothing else, whatever became of that email: it lands in the
      thread that email was recorded in, if there is one and its event can be fetched; otherwise it opens its own. An
      email whose send failed was recorded if it had found a thread; one refused with M_UNKNOWN has none. */
  lemma AnswerExact(run: seq<Act>, i: nat, j: nat)
    requires Unique(run) && i < j && Arrived(run, j) && run[i].Incoming?
    requires run[j].mail.inReplyTo == run[i].mail.messageID && run[j].mail.refs == ""
    ensures ThreadOf(run, j) ==
      if ThreadOf(run, i) != "" && !run[j].gone(ThreadOf(run, i)) then ThreadOf(run, i) else run[j].outcome.event
    ensures ThreadOf(run, i) != "" <==>
      run[i].outcome.Sent? || (run[i].outcome == Failed && Found(After(run[..i]), run[i].mail, run[i].gone) != "")
  {
    StepFresh(run, i);
    if run[i].outcome.Sent? { LandingNotEmpty(After(run[..i]), run[i]); }
    assert run[i].mail.messageID in Issued(run[i]);
    hide Unique, Apply, After, Found, Events, Issued;
    if run[i].outcome == Failed && ThreadOf(run, i) == "" {
      FailedUnrecorded(After(run[..i]), run[i]);
      AfterOneMore(run, i);
      StaysAbsent(run, i, j, run[i].mail.messageID);
    } else {
      ArrivalStays(run, i, j);
    }
    FirstReference(After(run[..j]), run[j].mail, run[j].gone);
  }
}
