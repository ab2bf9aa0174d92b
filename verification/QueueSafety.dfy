/** What every interleaving of the retry queue keeps: locks are held exactly by the threads between
    their lock and unlock, the index is the replay of all its edits, and every index entry points to
    its own complete record, whatever store accesses fail and wherever the run stops. */
module QueueSafety {
  import opened Text
  import opened QueueStore
  import opened QueueProtocol

  /** The locks a thread holds at its program point. */
  function Held(th: Thread): set<Key> {
    match th
    case Adding(id, _, add) =>
      if add.LockItem? then {}
      else if add.SetItem? || add.LockIndex? || add.UnlockItem? then {ItemKey(id)}
      else {ItemKey(id), QueueKey}
    case Processing(_, at) => HeldInPass(at)
    case _ => {}
  }

  function HeldInPass(at: PassStep): set<Key> {
    match at
    case LockQueue => {}
    case ReadEmail(_, key) => {QueueKey, key}
    case Send(_, key, _, _) => {QueueKey, key}
    case Bump(_, key, _, _) => {QueueKey, key}
    case UnlockEmail(_, key, _) => {QueueKey, key}
    case WriteBlank(_, key) => {QueueKey, key}
    case UnlockBlank(_, key) => {QueueKey, key}
    case _ => {QueueKey}
  }

  ghost predicate LocksMatch(s: State) {
    && (forall t, k :: t in s.threads && k in Held(s.threads[t]) ==> k in s.locks && s.locks[k] == t)
    && (forall k :: k in s.locks ==> s.locks[k] in s.threads && k in Held(s.threads[s.locks[k]]))
  }

  lemma HoldersDiffer(s: State, t: Tid, u: Tid, k: Key)
    requires LocksMatch(s) && t in s.threads && u in s.threads && t != u && k in Held(s.threads[t])
    ensures k !in Held(s.threads[u])
  {
    assert s.locks[k] == t;
  }

  /** The email a pass is working on, still listed. */
  predicate OnListed(at: PassStep) {
    at.LockEmail? || at.ReadEmail? || at.Send? || at.Bump? || at.UnlockEmail? || at.RereadQueue? || at.Unlist?
  }

  /** The email a pass is working on, already taken off the index. */
  predicate OnUnlisted(at: PassStep) { at.LockBlank? || at.WriteBlank? || at.UnlockBlank? }

  predicate HasKey(at: PassStep) {
    at.LockEmail? || at.ReadEmail? || at.Send? || at.Bump? || at.UnlockEmail? || OnUnlisted(at)
  }

  ghost predicate PassGood(s: State, p: Pass, at: PassStep) {
    && (at.LockQueue? || at.ReadQueue? ==> p.todo == map[])
    && (forall id :: id in p.todo ==> id in s.index && p.todo[id] == ItemKey(id))
    && (OnListed(at) ==> at.id in s.index && at.id !in p.todo)
    && (OnUnlisted(at) ==> at.id !in s.index && at.id !in p.todo)
    && (HasKey(at) ==> at.key == ItemKey(at.id))
    && (at.Send? || at.Bump? ==> at.item == Fetch(s.items, at.key) && Attempts(at.item) == Some(at.n))
    && (at.Unlist? ==> at.copy == s.index)
  }

  ghost predicate ThreadGood(s: State, th: Thread) {
    match th
    case Adding(id, mail, add) =>
      && mail.relay.Some?
      && (add.LockIndex? || add.GetIndex? || add.SetIndex? ==> Complete(Fetch(s.items, ItemKey(id)), id))
      && (add.SetIndex? ==> add.copy == s.index)
    case Processing(p, at) => PassGood(s, p, at)
    case _ => true
  }

  /** Every index entry points to its own key's complete record. */
  ghost predicate IndexGood(s: State) {
    forall id :: id in s.index ==> s.index[id] == ItemKey(id) && Complete(Fetch(s.items, ItemKey(id)), id)
  }

  ghost predicate Safe(s: State) {
    && LocksMatch(s)
    && (forall t :: t in s.threads ==> ThreadGood(s, s.threads[t]))
    && IndexGood(s)
    && s.index == Replay(s.journal)
  }

  /** In a safe state the local conditions of `Step` exclude nothing: whatever thread can run can be run. */
  lemma SafeIsSound(s: State, t: Tid)
    requires Safe(s) && t in s.threads
    ensures Sound(s.threads[t])
  {
    assert ThreadGood(s, s.threads[t]);
  }

  /** A thread that keeps its own data under its own locks does not notice the steps of others. */
  lemma Unnoticed(s: State, s': State, th: Thread)
    requires ThreadGood(s, th)
    requires QueueKey in Held(th) ==> s'.index == s.index
    requires forall k :: k in Held(th) ==> Fetch(s'.items, k) == Fetch(s.items, k)
    ensures ThreadGood(s', th)
  {
  }

  /** The lock a thread is about to drop, if it is about to drop one. */
  function Drops(th: Thread): Option<Key> {
    match th
    case Adding(_, _, UnlockIndex) => Some(QueueKey)
    case Adding(id, _, UnlockItem) => Some(ItemKey(id))
    case Processing(_, UnlockEmail(_, key, _)) => Some(key)
    case Processing(_, UnlockBlank(_, key)) => Some(key)
    case Processing(_, UnlockQueue) => Some(QueueKey)
    case _ => None
  }

  function HeldNext(th: Thread): set<Key> {
    if Wants(th).Some? then Held(th) + {Wants(th).value}
    else if Drops(th).Some? then Held(th) - {Drops(th).value}
    else Held(th)
  }

  function LocksNext(locks: map<Key, Tid>, t: Tid, th: Thread): map<Key, Tid> {
    if Wants(th).Some? then locks[Wants(th).value := t]
    else if Drops(th).Some? then locks - {Drops(th).value}
    else locks
  }

  lemma HeldIsLocked(s: State, t: Tid, s': State, th': Thread, u: Tid, k: Key)
    requires LocksMatch(s) && CanRun(s, t)
    requires Drops(s.threads[t]).Some? ==> Drops(s.threads[t]).value in Held(s.threads[t])
    requires s'.threads == s.threads[t := th'] && s'.locks == LocksNext(s.locks, t, s.threads[t])
    requires Held(th') == HeldNext(s.threads[t]) && u in s'.threads && k in Held(s'.threads[u])
    ensures k in s'.locks && s'.locks[k] == u
  {
    hide Wants, Drops, Held;
    var th := s.threads[t];
    if u != t {
      assert k in Held(s.threads[u]);
      assert s.locks[k] == u;
      assert Drops(th).Some? ==> s.locks[Drops(th).value] == t;
    } else if k in Held(th) {
      assert s.locks[k] == t;
    }
  }

  lemma LockedIsHeld(s: State, t: Tid, s': State, th': Thread, k: Key)
    requires LocksMatch(s) && CanRun(s, t)
    requires s'.threads == s.threads[t := th'] && s'.locks == LocksNext(s.locks, t, s.threads[t])
    requires Held(th') == HeldNext(s.threads[t]) && k in s'.locks
    ensures s'.locks[k] in s'.threads && k in Held(s'.threads[s'.locks[k]])
  {
    hide Wants, Drops, Held;
    assert k in s.locks || Wants(s.threads[t]) == Some(k);
  }

  lemma LocksFollow(s: State, t: Tid, s': State, th': Thread)
    requires LocksMatch(s) && CanRun(s, t)
    requires Drops(s.threads[t]).Some? ==> Drops(s.threads[t]).value in Held(s.threads[t])
    requires s'.threads == s.threads[t := th'] && s'.locks == LocksNext(s.locks, t, s.threads[t])
    requires Held(th') == HeldNext(s.threads[t])
    ensures LocksMatch(s')
  {
    hide Wants, Drops, Held, LocksNext, HeldNext;
    forall u, k | u in s'.threads && k in Held(s'.threads[u]) ensures k in s'.locks && s'.locks[k] == u {
      HeldIsLocked(s, t, s', th', u, k);
    }
    forall k | k in s'.locks ensures s'.locks[k] in s'.threads && k in Held(s'.threads[s'.locks[k]]) {
      LockedIsHeld(s, t, s', th', k);
    }
  }

  lemma SendLocks(s: State, t: Tid, id: Id, mail: Mail, reply: Reply, first: First)
    ensures var s' := StepSend(s, t, id, mail, reply, first);
      && s'.threads == s.threads[t := s'.threads[t]] && s'.locks == s.locks
      && Held(s'.threads[t]) == {}
  {
  }

  lemma AddLocks(s: State, t: Tid, id: Id, mail: Mail, add: AddStep, env: Env)
    requires mail.relay.Some?
    ensures var s' := StepAdd(s, t, id, mail, add, env);
      var th := Adding(id, mail, add);
      && s'.threads == s.threads[t := s'.threads[t]] && s'.locks == LocksNext(s.locks, t, th)
      && Held(s'.threads[t]) == HeldNext(th)
      && (Drops(th).Some? ==> Drops(th).value in Held(th))
  {
  }

  lemma LoopLocks(s: State, t: Tid, p: Pass, at: PassStep, env: Env)
    requires !InTry(at) && !InRemove(at) && Fits(Processing(p, at), env)
    ensures var s' := StepLoop(s, t, p, at, env);
      var th := Processing(p, at);
      && s'.threads == s.threads[t := s'.threads[t]] && s'.locks == LocksNext(s.locks, t, th)
      && Held(s'.threads[t]) == HeldNext(th)
      && (Drops(th).Some? ==> Drops(th).value in Held(th))
  {
  }

  lemma TryLocks(s: State, t: Tid, p: Pass, at: PassStep, env: Env)
    requires InTry(at) && Sound(Processing(p, at))
    requires HasKey(at) ==> at.key != QueueKey
    ensures var s' := StepTry(s, t, p, at, env);
      var th := Processing(p, at);
      && s'.threads == s.threads[t := s'.threads[t]] && s'.locks == LocksNext(s.locks, t, th)
      && Held(s'.threads[t]) == HeldNext(th)
      && (Drops(th).Some? ==> Drops(th).value in Held(th))
  {
  }

  lemma RemoveLocks(s: State, t: Tid, p: Pass, at: PassStep, env: Env)
    requires InRemove(at)
    requires HasKey(at) ==> at.key != QueueKey
    ensures var s' := StepRemove(s, t, p, at, env);
      var th := Processing(p, at);
      && s'.threads == s.threads[t := s'.threads[t]] && s'.locks == LocksNext(s.locks, t, th)
      && Held(s'.threads[t]) == HeldNext(th)
      && (Drops(th).Some? ==> Drops(th).value in Held(th))
  {
  }

  lemma PassLocks(s: State, t: Tid, p: Pass, at: PassStep, env: Env)
    requires Fits(Processing(p, at), env) && Sound(Processing(p, at))
    requires HasKey(at) ==> at.key != QueueKey
    ensures var s' := StepPass(s, t, p, at, env);
      var th := Processing(p, at);
      && s'.threads == s.threads[t := s'.threads[t]] && s'.locks == LocksNext(s.locks, t, th)
      && Held(s'.threads[t]) == HeldNext(th)
      && (Drops(th).Some? ==> Drops(th).value in Held(th))
  {
    if InTry(at) {
      TryLocks(s, t, p, at, env);
    } else if InRemove(at) {
      RemoveLocks(s, t, p, at, env);
    } else {
      LoopLocks(s, t, p, at, env);
    }
  }

  lemma LocksAfterSend(s: State, t: Tid, id: Id, mail: Mail, reply: Reply, first: First)
    requires LocksMatch(s) && CanRun(s, t) && s.threads[t] == Sending(id, mail)
    ensures LocksMatch(StepSend(s, t, id, mail, reply, first))
  {
    SendLocks(s, t, id, mail, reply, first);
    var s' := StepSend(s, t, id, mail, reply, first);
    LocksFollow(s, t, s', s'.threads[t]);
  }

  lemma LocksAfterAdd(s: State, t: Tid, id: Id, mail: Mail, add: AddStep, env: Env)
    requires LocksMatch(s) && CanRun(s, t) && s.threads[t] == Adding(id, mail, add) && mail.relay.Some?
    ensures LocksMatch(StepAdd(s, t, id, mail, add, env))
  {
    AddLocks(s, t, id, mail, add, env);
    var s' := StepAdd(s, t, id, mail, add, env);
    LocksFollow(s, t, s', s'.threads[t]);
  }

  lemma LocksAfterPass(s: State, t: Tid, p: Pass, at: PassStep, env: Env)
    requires LocksMatch(s) && Ready(s, t, env) && s.threads[t] == Processing(p, at)
    requires HasKey(at) ==> at.key != QueueKey
    ensures LocksMatch(StepPass(s, t, p, at, env))
  {
    PassLocks(s, t, p, at, env);
    var s' := StepPass(s, t, p, at, env);
    LocksFollow(s, t, s', s'.threads[t]);
  }

  /** A step writes only what its thread has locked. */
  ghost predicate WithinLocks(s: State, s': State, th: Thread) {
    && (s'.index == s.index || QueueKey in Held(th))
    && (forall k :: Fetch(s'.items, k) == Fetch(s.items, k) || k in Held(th))
  }

  lemma OthersUnnoticed(s: State, s': State, t: Tid)
    requires Safe(s) && t in s.threads && WithinLocks(s, s', s.threads[t])
    ensures forall u :: u in s.threads && u != t ==> ThreadGood(s', s.threads[u])
  {
    forall u | u in s.threads && u != t ensures ThreadGood(s', s.threads[u]) {
      var th := s.threads[u];
      assert ThreadGood(s, th);
      forall k | k in Held(th) ensures k !in Held(s.threads[t]) {
        assert s.locks[k] == u;
      }
      Unnoticed(s, s', th);
    }
  }

  lemma ReplayAppend(journal: seq<Edit>, e: Edit)
    ensures Replay(journal + [e]) == Redo(Replay(journal), e)
  {
    assert (journal + [e])[..|journal|] == journal;
  }

  lemma SendData(s: State, t: Tid, id: Id, mail: Mail, reply: Reply, first: First)
    ensures var s' := StepSend(s, t, id, mail, reply, first);
      && s'.index == s.index && s'.items == s.items && s'.journal == s.journal
      && ThreadGood(s', s'.threads[t])
  {
  }

  lemma SafeAfterSend(s: State, t: Tid, id: Id, mail: Mail, reply: Reply, first: First)
    requires Safe(s) && CanRun(s, t) && s.threads[t] == Sending(id, mail)
    ensures Safe(StepSend(s, t, id, mail, reply, first))
  {
    hide StepSend, LocksMatch, ThreadGood;
    var s' := StepSend(s, t, id, mail, reply, first);
    LocksAfterSend(s, t, id, mail, reply, first);
    SendLocks(s, t, id, mail, reply, first);
    SendData(s, t, id, mail, reply, first);
    OthersUnnoticed(s, s', t);
    forall u | u in s'.threads ensures ThreadGood(s', s'.threads[u]) {
      if u != t { assert s'.threads[u] == s.threads[u]; }
    }
  }

  lemma RewriteKeepsIndex(s: State, id: Id, r: Record, v: Verdict)
    requires IndexGood(s) && (Complete(r, id) || id !in s.index)
    ensures IndexGood(WriteItem(s, ItemKey(id), r, v))
    ensures forall k :: k != ItemKey(id) ==> Fetch(WriteItem(s, ItemKey(id), r, v).items, k) == Fetch(s.items, k)
  {
  }

  lemma AddLists(s: State, id: Id, v: Verdict)
    requires IndexGood(s) && s.index == Replay(s.journal) && Complete(Fetch(s.items, ItemKey(id)), id)
    ensures var s1 := WriteIndex(s, s.index[id := ItemKey(id)], Put(id), v);
      IndexGood(s1) && s1.index == Replay(s1.journal)
  {
    hide Complete, Fetch;
    ReplayAppend(s.journal, Put(id));
  }

  lemma AddSetsItem(s: State, t: Tid, id: Id, mail: Mail, env: Env)
    requires mail.relay.Some? && IndexGood(s)
    ensures var s' := StepAdd(s, t, id, mail, SetItem, env);
      && WithinLocks(s, s', Adding(id, mail, SetItem)) && ThreadGood(s', s'.threads[t])
      && IndexGood(s') && s'.index == s.index && s'.journal == s.journal
  {
    NewRecordComplete(id, mail);
    hide Complete, NewRecord;
    RewriteKeepsIndex(s, id, NewRecord(id, mail), env.write);
  }

  lemma AddSetsIndex(s: State, t: Tid, id: Id, mail: Mail, env: Env)
    requires ThreadGood(s, Adding(id, mail, SetIndex(s.index))) && IndexGood(s) && s.index == Replay(s.journal)
    ensures var s' := StepAdd(s, t, id, mail, SetIndex(s.index), env);
      && s'.items == s.items && ThreadGood(s', s'.threads[t]) && IndexGood(s') && s'.index == Replay(s'.journal)
  {
    hide Complete, Replay;
    AddLists(s, id, env.write);
  }

  lemma AddReads(s: State, t: Tid, id: Id, mail: Mail, add: AddStep, env: Env)
    requires ThreadGood(s, Adding(id, mail, add)) && !add.SetItem? && !add.SetIndex?
    ensures var s' := StepAdd(s, t, id, mail, add, env);
      && s'.index == s.index && s'.items == s.items && s'.journal == s.journal && ThreadGood(s', s'.threads[t])
  {
    hide Complete;
  }

  /** The data side of one step of `Add`. */
  lemma AddData(s: State, t: Tid, id: Id, mail: Mail, add: AddStep, env: Env)
    requires ThreadGood(s, Adding(id, mail, add)) && IndexGood(s) && s.index == Replay(s.journal)
    ensures var s' := StepAdd(s, t, id, mail, add, env);
      && WithinLocks(s, s', Adding(id, mail, add)) && ThreadGood(s', s'.threads[t])
      && IndexGood(s') && s'.index == Replay(s'.journal)
  {
    hide Complete, Replay, StepAdd;
    if add.SetItem? {
      AddSetsItem(s, t, id, mail, env);
    } else if add.SetIndex? {
      AddSetsIndex(s, t, id, mail, env);
    } else {
      AddReads(s, t, id, mail, add, env);
    }
  }

  lemma SafeAfterAdd(s: State, t: Tid, id: Id, mail: Mail, add: AddStep, env: Env)
    requires Safe(s) && CanRun(s, t) && s.threads[t] == Adding(id, mail, add) && mail.relay.Some?
    ensures Safe(StepAdd(s, t, id, mail, add, env))
  {
    var s' := StepAdd(s, t, id, mail, add, env);
    LocksAfterAdd(s, t, id, mail, add, env);
    AddLocks(s, t, id, mail, add, env);
    assert ThreadGood(s, s.threads[t]);
    AddData(s, t, id, mail, add, env);
    OthersUnnoticed(s, s', t);
    forall u | u in s'.threads ensures ThreadGood(s', s'.threads[u]) {
      if u != t { assert s'.threads[u] == s.threads[u]; }
    }
  }

  lemma PickGood(s: State, p: Pass, pick: Id)
    requires PassGood(s, p, NextEmail) && pick in p.todo
    ensures PassGood(s, p.(todo := p.todo - {pick}), LockEmail(pick, p.todo[pick]))
  {
  }

  /** The data side of one step of `Process` that writes nothing. */
  lemma LoopReads(s: State, t: Tid, p: Pass, at: PassStep, env: Env)
    requires !InTry(at) && !InRemove(at) && Fits(Processing(p, at), env)
    requires PassGood(s, p, at) && IndexGood(s)
    ensures var s' := StepLoop(s, t, p, at, env);
      && s'.index == s.index && s'.items == s.items && s'.journal == s.journal
      && ThreadGood(s', s'.threads[t])
  {
    hide Complete, Attempts;
    if at.NextEmail? && Continues(p) { PickGood(s, p, env.pick); }
  }

  lemma TryReads(s: State, t: Tid, p: Pass, at: PassStep, env: Env)
    requires InTry(at) && !at.Bump? && (at.Send? ==> at.item.Full?) && PassGood(s, p, at)
    ensures var s' := StepTry(s, t, p, at, env);
      && s'.index == s.index && s'.items == s.items && s'.journal == s.journal
      && ThreadGood(s', s'.threads[t])
  {
    hide Complete, Atoi;
  }

  lemma RemoveReads(s: State, t: Tid, p: Pass, at: PassStep, env: Env)
    requires InRemove(at) && !at.Unlist? && !at.WriteBlank? && PassGood(s, p, at)
    ensures var s' := StepRemove(s, t, p, at, env);
      && s'.index == s.index && s'.items == s.items && s'.journal == s.journal
      && ThreadGood(s', s'.threads[t])
  {
  }

  lemma BumpStep(s: State, t: Tid, p: Pass, at: PassStep, env: Env)
    requires at.Bump? && at.item.Full?
    ensures StepTry(s, t, p, at, env) ==
            Goto(WriteItem(s, at.key, at.item.(attempts := Itoa(at.n + 1)), env.write), t,
                 Processing(p, UnlockEmail(at.id, at.key, false)))
  {
  }

  lemma BumpWrites(s: State, t: Tid, p: Pass, at: PassStep, r: Record, v: Verdict)
    requires at.Bump? && PassGood(s, p, at)
    ensures var th' := Processing(p, UnlockEmail(at.id, at.key, false));
      var s' := Goto(WriteItem(s, at.key, r, v), t, th');
      && s'.index == s.index && s'.journal == s.journal && WithinLocks(s, s', Processing(p, at)) && ThreadGood(s', th')
  {
    hide Attempts;
  }

  lemma PassBumps(s: State, t: Tid, p: Pass, at: PassStep, env: Env)
    requires at.Bump? && PassGood(s, p, at) && IndexGood(s) && at.item.Full?
    ensures var s' := StepTry(s, t, p, at, env);
      && s'.index == s.index && s'.journal == s.journal && WithinLocks(s, s', Processing(p, at))
      && t in s'.threads && ThreadGood(s', s'.threads[t]) && IndexGood(s')
  {
    var r := at.item.(attempts := Itoa(at.n + 1));
    assert Complete(r, at.id) by { BumpComplete(at.item, at.id, at.n + 1); }
    BumpStep(s, t, p, at, env);
    RewriteKeepsIndex(s, at.id, r, env.write);
    BumpWrites(s, t, p, at, r, env.write);
    hide StepTry, Complete, Attempts, Itoa, ThreadGood, WithinLocks, Fetch;
  }

  lemma UnlistGood(s: State, p: Pass, id: Id, v: Verdict)
    requires IndexGood(s) && s.index == Replay(s.journal)
    requires id !in p.todo && forall x :: x in p.todo ==> x in s.index && p.todo[x] == ItemKey(x)
    ensures var s1 := WriteIndex(s, s.index - {id}, Drop(id), v);
      && IndexGood(s1) && s1.index == Replay(s1.journal)
      && (forall x :: x in p.todo ==> x in s1.index) && (v != Refused ==> id !in s1.index)
  {
    ReplayAppend(s.journal, Drop(id));
  }

  lemma PassUnlists(s: State, t: Tid, p: Pass, at: PassStep, env: Env)
    requires at.Unlist? && PassGood(s, p, at) && IndexGood(s) && s.index == Replay(s.journal)
    ensures var s' := StepRemove(s, t, p, at, env);
      && s'.items == s.items && s'.index == Replay(s'.journal)
      && ThreadGood(s', s'.threads[t]) && IndexGood(s')
  {
    hide Complete, Replay;
    UnlistGood(s, p, at.id, env.write);
    assert s.index[at.id] == ItemKey(at.id);
  }

  lemma PassBlanks(s: State, t: Tid, p: Pass, at: PassStep, env: Env)
    requires at.WriteBlank? && PassGood(s, p, at) && IndexGood(s)
    ensures var s' := StepRemove(s, t, p, at, env);
      && s'.index == s.index && s'.journal == s.journal && WithinLocks(s, s', Processing(p, at))
      && ThreadGood(s', s'.threads[t]) && IndexGood(s')
  {
    hide Complete, Attempts;
    RewriteKeepsIndex(s, at.id, Blank, env.write);
  }

  lemma PassData(s: State, t: Tid, p: Pass, at: PassStep, env: Env)
    requires Fits(Processing(p, at), env) && Sound(Processing(p, at))
    requires PassGood(s, p, at) && IndexGood(s) && s.index == Replay(s.journal)
    ensures var s' := StepPass(s, t, p, at, env);
      && t in s'.threads && WithinLocks(s, s', Processing(p, at)) && ThreadGood(s', s'.threads[t])
      && IndexGood(s') && s'.index == Replay(s'.journal)
  {
    PassLocks(s, t, p, at, env);
    hide Complete, Attempts, Replay, StepLoop, StepTry, StepRemove;
    if at.Bump? {
      PassBumps(s, t, p, at, env);
    } else if at.Unlist? {
      PassUnlists(s, t, p, at, env);
    } else if at.WriteBlank? {
      PassBlanks(s, t, p, at, env);
    } else if InTry(at) {
      TryReads(s, t, p, at, env);
    } else if InRemove(at) {
      RemoveReads(s, t, p, at, env);
    } else {
      LoopReads(s, t, p, at, env);
    }
  }

  lemma SafeAfterPass(s: State, t: Tid, p: Pass, at: PassStep, env: Env)
    requires Safe(s) && Ready(s, t, env) && s.threads[t] == Processing(p, at)
    ensures Safe(StepPass(s, t, p, at, env))
  {
    var s' := StepPass(s, t, p, at, env);
    assert ThreadGood(s, s.threads[t]);
    LocksAfterPass(s, t, p, at, env);
    PassLocks(s, t, p, at, env);
    PassData(s, t, p, at, env);
    OthersUnnoticed(s, s', t);
    forall u | u in s'.threads ensures ThreadGood(s', s'.threads[u]) {
      if u != t { assert s'.threads[u] == s.threads[u]; }
    }
  }

  lemma SafeAfterStep(s: State, t: Tid, env: Env)
    requires Safe(s) && Ready(s, t, env)
    ensures Safe(Step(s, t, env))
  {
    match s.threads[t]
    case Sending(id, mail) => SafeAfterSend(s, t, id, mail, env.reply, FirstOf(env.reply));
    case Adding(id, mail, add) => SafeAfterAdd(s, t, id, mail, add, env);
    case Processing(p, at) => SafeAfterPass(s, t, p, at, env);
  }

  /** A call that begins holds no lock and has seen nothing. */
  lemma SafeAfterCall(s: State, s': State, t: Tid, th: Thread)
    requires Safe(s) && t !in s.threads && Held(th) == {} && ThreadGood(s, th)
    requires s'.threads == s.threads[t := th] && s'.locks == s.locks
    requires s'.index == s.index && s'.items == s.items && s'.journal == s.journal
    ensures Safe(s')
  {
    Unnoticed(s, s', th);
    forall u | u in s.threads ensures ThreadGood(s', s.threads[u]) {
      Unnoticed(s, s', s.threads[u]);
    }
  }

  lemma SafeAfter(c: Config, s: State, a: Action)
    requires Safe(s) && Allowed(c, s, a)
    ensures Safe(Apply(c, s, a))
  {
    match a
    case CallSendmail(t, id, mail) => SafeAfterCall(s, Apply(c, s, a), t, Sending(id, mail));
    case CallProcess(t, _, _) => SafeAfterCall(s, Apply(c, s, a), t, Apply(c, s, a).threads[t]);
    case Run(t, env) => SafeAfterStep(s, t, env);
  }

  /** Every state of every run, with any store access free to fail, any ids and any scheduling. */
  lemma {:induction false} EveryRunSafe(c: Config, run: seq<Action>)
    requires Possible(c, run)
    ensures Safe(After(c, run))
  {
    if run != [] {
      var n := |run| - 1;
      EveryRunSafe(c, run[..n]);
      SafeAfter(c, After(c, run[..n]), run[n]);
    }
  }
}
