/** Why the hypotheses of the queue theorems are there. Callers pass one event id for all recipients of
    an email (internal/bot/email.go, internal/bot/command.go), so ids do repeat: a repeated id can block
    the queue for ever, and it loses emails even when nothing blocks and nothing fails. */
module QueueTraps {
  import opened Text
  import opened QueueStore
  import opened QueueProtocol

  /** A store that never fails, and ids that may repeat. */
  const SHARED := Config(true, false, None)

  function Answer(reply: Reply, pick: Id): Env { Env(reply, Acked, true, pick) }

  lemma Extend(run: seq<Action>, a: Action) returns (run': seq<Action>)
    requires Possible(SHARED, run) && Allowed(SHARED, After(SHARED, run), a)
    ensures Possible(SHARED, run') && After(SHARED, run') == Apply(SHARED, After(SHARED, run), a)
  {
    run' := run + [a];
    assert run'[..|run|] == run;
  }

  /** One step of `t`, with the sender refusing and `pick` chosen if there is a choice. */
  lemma Advance(run: seq<Action>, t: Tid, pick: Id, message: string) returns (run': seq<Action>)
    requires Possible(SHARED, run) && Ready(After(SHARED, run), t, Answer(Rejected(message), pick))
    ensures Possible(SHARED, run')
    ensures After(SHARED, run') == Step(After(SHARED, run), t, Answer(Rejected(message), pick))
  {
    run' := Extend(run, Run(t, Answer(Rejected(message), pick)));
  }

  ghost predicate At(run: seq<Action>, s: State) { Possible(SHARED, run) && After(SHARED, run) == s }

  /** `Sendmail` gets a temporary error and is about to call `Add`. */
  lemma SendmailIsDeferred(run: seq<Action>, s: State, t: Tid, id: Id, mail: Mail, message: string)
    returns (run': seq<Action>, s': State)
    requires At(run, s) && t !in s.threads && ShouldQueue(message) && mail.relay.Some?
    ensures At(run', s') && s'.threads == s.threads[t := Adding(id, mail, LockItem)]
    ensures s'.locks == s.locks && s'.index == s.index && s'.items == s.items
    ensures s'.wire == s.wire + [Sent(id, mail.from, mail.to, mail.data, mail.relay, false, Rejected(message))]
  {
    hide ShouldQueue;
    run' := Extend(run, CallSendmail(t, id, mail));
    run' := Advance(run', t, "", message);
    s' := After(SHARED, run');
    assert s'.threads == s.threads[t := Adding(id, mail, LockItem)];
  }

  /** `Add` writes its item and is about to lock the index. */
  lemma AddReachesIndex(run: seq<Action>, s: State, t: Tid, id: Id, mail: Mail, message: string)
    returns (run': seq<Action>, s': State)
    requires At(run, s) && t in s.threads && s.threads[t] == Adding(id, mail, LockItem)
    requires mail.relay.Some? && ItemKey(id) !in s.locks
    ensures At(run', s') && s'.threads == s.threads[t := Adding(id, mail, LockIndex)]
    ensures s'.locks == s.locks[ItemKey(id) := t] && s'.index == s.index
    ensures s'.items == s.items[ItemKey(id) := NewRecord(id, mail)] && s'.wire == s.wire
  {
    hide At;
    run', s' := AddAdvances(run, s, t, id, mail, LockItem, message);
    run', s' := AddAdvances(run', s', t, id, mail, SetItem, message);
  }

  /** One step of `Add`. */
  lemma AddAdvances(run: seq<Action>, s: State, t: Tid, id: Id, mail: Mail, add: AddStep, message: string)
    returns (run': seq<Action>, s': State)
    requires At(run, s) && CanRun(s, t) && s.threads[t] == Adding(id, mail, add) && mail.relay.Some?
    ensures At(run', s') && s' == StepAdd(s, t, id, mail, add, Answer(Rejected(message), ""))
  {
    run' := Advance(run, t, "", message);
    s' := After(SHARED, run');
  }

  /** `Add` lists its email. */
  lemma AddListsEmail(run: seq<Action>, s: State, t: Tid, id: Id, mail: Mail, message: string)
    returns (run': seq<Action>, s': State)
    requires At(run, s) && t in s.threads && s.threads[t] == Adding(id, mail, LockIndex)
    requires mail.relay.Some? && QueueKey !in s.locks
    ensures At(run', s') && s'.threads == s.threads[t := Adding(id, mail, UnlockIndex)]
    ensures s'.locks == s.locks[QueueKey := t]
    ensures s'.index == s.index[id := ItemKey(id)] && s'.items == s.items && s'.wire == s.wire
  {
    hide At;
    run', s' := AddAdvances(run, s, t, id, mail, LockIndex, message);
    run', s' := AddAdvances(run', s', t, id, mail, GetIndex, message);
    run', s' := AddAdvances(run', s', t, id, mail, SetIndex(s.index), message);
  }

  /** `Add` lists its email and returns. */
  lemma AddReturns(run: seq<Action>, s: State, t: Tid, id: Id, mail: Mail, message: string)
    returns (run': seq<Action>, s': State)
    requires At(run, s) && t in s.threads && s.threads[t] == Adding(id, mail, LockIndex)
    requires mail.relay.Some? && s.locks == map[ItemKey(id) := t]
    ensures At(run', s') && s'.threads == s.threads[t := Finished] && s'.locks == map[]
    ensures s'.index == s.index[id := ItemKey(id)] && s'.items == s.items && s'.wire == s.wire
  {
    hide At;
    run', s' := AddListsEmail(run, s, t, id, mail, message);
    run', s' := AddAdvances(run', s', t, id, mail, UnlockIndex, message);
    run', s' := AddAdvances(run', s', t, id, mail, UnlockItem, message);
  }

  /** One step of `Process` itself. */
  lemma PassAdvances(run: seq<Action>, s: State, t: Tid, p: Pass, at: PassStep, pick: Id, message: string)
    returns (run': seq<Action>, s': State)
    requires At(run, s) && CanRun(s, t) && s.threads[t] == Processing(p, at) && !InTry(at) && !InRemove(at)
    requires Fits(Processing(p, at), Answer(Rejected(message), pick))
    ensures At(run', s') && s' == StepLoop(s, t, p, at, Answer(Rejected(message), pick))
  {
    run' := Advance(run, t, pick, message);
    s' := After(SHARED, run');
  }

  const DEFAULT_PASS := Pass(DEFAULT_BATCH, DEFAULT_RETRIES, map[], 0)

  lemma ProcessStarts(run: seq<Action>, s: State, t: Tid) returns (run': seq<Action>, s': State)
    requires At(run, s) && t !in s.threads
    ensures At(run', s') && s' == Goto(s, t, Processing(DEFAULT_PASS, LockQueue))
  {
    run' := Extend(run, CallProcess(t, 0, 0));
    s' := After(SHARED, run');
  }

  /** `Process` starts and is about to lock the item of the one listed email. */
  lemma ProcessReachesItem(run: seq<Action>, s: State, t: Tid, id: Id, message: string)
    returns (run': seq<Action>, s': State)
    requires At(run, s) && t !in s.threads && QueueKey !in s.locks && s.index == map[id := ItemKey(id)]
    ensures At(run', s') && t in s'.threads && s'.threads == s.threads[t := s'.threads[t]]
    ensures s'.threads[t] == Processing(DEFAULT_PASS, LockEmail(id, ItemKey(id)))
    ensures s'.locks == s.locks[QueueKey := t] && s'.items == s.items && s'.wire == s.wire
  {
    hide At;
    run', s' := ProcessReadsQueue(run, s, t, id, message);
    assert id in s.index;
    run', s' := PassAdvances(run', s', t, DEFAULT_PASS.(todo := s.index), NextEmail, id, message);
    assert s.index - {id} == map[];
  }

  lemma ProcessReadsQueue(run: seq<Action>, s: State, t: Tid, id: Id, message: string)
    returns (run': seq<Action>, s': State)
    requires At(run, s) && t !in s.threads && QueueKey !in s.locks
    ensures At(run', s')
    ensures s' == Goto(Lock(s, t, QueueKey), t, Processing(DEFAULT_PASS.(todo := s.index), NextEmail))
  {
    hide At;
    run', s' := ProcessStarts(run, s, t);
    run', s' := PassAdvances(run', s', t, DEFAULT_PASS, LockQueue, id, message);
    run', s' := PassAdvances(run', s', t, DEFAULT_PASS, ReadQueue, id, message);
  }

  /** One email is queued and listed, starting from nothing. */
  lemma QueueOne(id: Id, mail: Mail, message: string) returns (run: seq<Action>, s: State)
    requires ShouldQueue(message) && mail.relay.Some?
    ensures At(run, s) && s.threads == map[0 := Finished] && s.locks == map[]
    ensures s.index == map[id := ItemKey(id)] && s.items == map[ItemKey(id) := NewRecord(id, mail)]
    ensures s.wire == [Sent(id, mail.from, mail.to, mail.data, mail.relay, false, Rejected(message))]
  {
    hide ShouldQueue;
    run, s := SendmailIsDeferred([], INIT, 0, id, mail, message);
    run, s := AddReachesIndex(run, s, 0, id, mail, message);
    run, s := AddReturns(run, s, 0, id, mail, message);
  }

  /** Whatever the id and the emails: queueing a second email under the id of a listed one, while a
      pass starts, ends in a deadlock. */
  lemma RepeatedIdDeadlocks(id: Id, one: Mail, two: Mail, message: string) returns (run: seq<Action>)
    requires ShouldQueue(message) && one.relay.Some? && two.relay.Some?
    ensures Possible(SHARED, run) && Deadlocked(After(SHARED, run))
  {
    hide ShouldQueue, Possible, After;
    var s: State;
    run, s := QueueOne(id, one, message);
    run, s := SendmailIsDeferred(run, s, 1, id, two, message);
    run, s := AddReachesIndex(run, s, 1, id, two, message);
    run, s := ProcessReachesItem(run, s, 2, id, message);
    assert s.threads[1] == Adding(id, two, LockIndex) && !CanRun(s, 1);
    assert !CanRun(s, 2);
    assert s.threads.Keys == {0, 1, 2};
  }

  /** Two emails under one id, every call having returned without an error: the queue holds only the
      second, and the first is nowhere. */
  lemma RepeatedIdLosesEmail(id: Id, one: Mail, two: Mail, message: string) returns (run: seq<Action>)
    requires ShouldQueue(message) && one.relay.Some? && two.relay.Some?
    requires one != two
    ensures Possible(SHARED, run)
    ensures var s := After(SHARED, run);
      && (forall t :: t in s.threads ==> s.threads[t].Finished?)
      && (forall k :: !Carries(Fetch(s.items, k), one))
      && Carries(Fetch(s.items, ItemKey(id)), two)
  {
    hide ShouldQueue;
    var s: State;
    run, s := QueueOne(id, one, message);
    run, s := SendmailIsDeferred(run, s, 1, id, two, message);
    run, s := AddReachesIndex(run, s, 1, id, two, message);
    run, s := AddReturns(run, s, 1, id, two, message);
    assert s.items.Keys == {ItemKey(id)};
  }

  /** One step of `try`. */
  lemma TryAdvances(run: seq<Action>, s: State, t: Tid, p: Pass, at: PassStep, message: string)
    returns (run': seq<Action>, s': State)
    requires At(run, s) && CanRun(s, t) && s.threads[t] == Processing(p, at) && InTry(at) && Sound(Processing(p, at))
    ensures At(run', s') && s' == StepTry(s, t, p, at, Answer(Rejected(message), ""))
  {
    run' := Advance(run, t, "", message);
    s' := After(SHARED, run');
  }

  /** The one listed email is sent from the queue. */
  lemma ProcessSends(run: seq<Action>, s: State, t: Tid, id: Id, mail: Mail, message: string)
    returns (run': seq<Action>, s': State)
    requires At(run, s) && t in s.threads && s.threads[t] == Processing(DEFAULT_PASS, LockEmail(id, ItemKey(id)))
    requires mail.relay.Some? && Fetch(s.items, ItemKey(id)) == NewRecord(id, mail) && ItemKey(id) !in s.locks
    ensures At(run', s')
    ensures s'.wire == s.wire +
      [Sent(id, mail.from, mail.to, mail.data, Passed(mail.relay), true, Rejected(message))]
  {
    hide At;
    NewRecordComplete(id, mail);
    var item := NewRecord(id, mail);
    run', s' := TryAdvances(run, s, t, DEFAULT_PASS, LockEmail(id, ItemKey(id)), message);
    run', s' := TryAdvances(run', s', t, DEFAULT_PASS, ReadEmail(id, ItemKey(id)), message);
    hide Attempts;
    run', s' := TryAdvances(run', s', t, DEFAULT_PASS, Send(id, ItemKey(id), item, 0), message);
  }

  /** A relay URL with an empty text, which the room option "#" gives, is passed to the first send and forgotten by the
      queue: the later send goes without an override. */
  lemma EmptyRelayForgotten(id: Id, mail: Mail, message: string) returns (run: seq<Action>)
    requires ShouldQueue(message) && mail.relay == Some("")
    ensures Possible(SHARED, run)
    ensures var wire := After(SHARED, run).wire;
      |wire| == 2 && wire[0].relay == Some("") && wire[1].relay == None && wire[0].id == wire[1].id == id
  {
    hide ShouldQueue, Possible, After;
    var s: State;
    run, s := QueueOne(id, mail, message);
    run, s := ProcessReachesItem(run, s, 1, id, message);
    run, s := ProcessSends(run, s, 1, id, mail, message);
  }
}
