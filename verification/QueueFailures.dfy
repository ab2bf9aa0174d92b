/** What the queue keeps of emails when the store fails at will: a listed email leaves the index only when it has been
    delivered or its sends have reached the limit (internal/bot/queue/queue.go, internal/bot/queue/manager.go). */
module QueueFailures {
  import opened Text
  import opened QueueStore
  import opened QueueProtocol
  import opened QueueSafety
  import opened QueueConservation

  /** The email was delivered, or its failed queue sends have reached the limit. */
  predicate Spent(s: State, retries: int, id: Id) {
    Oks(s.wire, id) >= 1 || Fails(s.wire, id) >= Limit(retries)
  }

  /** The record counts no more attempts than there were failed sends; it may count fewer, for notes that were
      refused. */
  predicate Counts(s: State, id: Id) {
    var n := Attempts(Fetch(s.items, ItemKey(id)));
    n.Some? && n.value <= Fails(s.wire, id)
  }

  predicate Leaving(at: PassStep) { (at.UnlockEmail? && at.dequeue) || at.RereadQueue? || at.Unlist? }

  predicate Candid(s: State, retries: int, th: Thread) {
    match th
    case Adding(id, _, add) => (add.LockIndex? || add.GetIndex? || add.SetIndex?) ==> Counts(s, id)
    case Processing(p, at) =>
      && p.retries == retries
      && (at.Send? ==> at.n <= Fails(s.wire, at.id))
      && (at.Bump? ==> at.n < Fails(s.wire, at.id))
      && (Leaving(at) ==> Spent(s, retries, at.id))
    case _ => true
  }

  ghost predicate Honest(s: State, retries: int) {
    && (forall id :: id in s.index ==> Counts(s, id))
    && (forall t :: t in s.threads ==> Candid(s, retries, s.threads[t]))
  }

  // ---------- what a step leaves alone

  /** Sends are only added. */
  ghost predicate Grows(s: State, s': State) {
    forall id :: Fails(s.wire, id) <= Fails(s'.wire, id) && Oks(s.wire, id) <= Oks(s'.wire, id)
  }

  lemma OneMoreSend(s: State, s': State, sent: Sent)
    requires s'.wire == s.wire + [sent]
    ensures Grows(s, s')
  {
    forall id ensures Fails(s.wire, id) <= Fails(s'.wire, id) && Oks(s.wire, id) <= Oks(s'.wire, id) {
      CountAppend(s.wire, sent, id);
    }
  }

  lemma CountsKept(s: State, s': State, id: Id)
    requires Counts(s, id) && Grows(s, s') && Fetch(s'.items, ItemKey(id)) == Fetch(s.items, ItemKey(id))
    ensures Counts(s', id)
  {
    hide Fails, Oks, Attempts;
  }

  lemma OtherCandid(s: State, s': State, retries: int, t: Tid, u: Tid)
    requires LocksMatch(s) && t in s.threads && u in s.threads && u != t && Candid(s, retries, s.threads[u])
    requires WithinLocks(s, s', s.threads[t]) && Grows(s, s')
    ensures Candid(s', retries, s.threads[u])
  {
    hide Fails, Oks, Attempts, LocksMatch;
    var th := s.threads[u];
    if th.Adding? && (th.add.LockIndex? || th.add.GetIndex? || th.add.SetIndex?) {
      HoldersDiffer(s, u, t, ItemKey(th.id));
      CountsKept(s, s', th.id);
    }
  }

  /** Everything stays honest after a step of `t` if its own thread and the one email `x` it is about do. */
  lemma HonestFollows(s: State, s': State, retries: int, t: Tid, th': Thread, x: Id)
    requires Safe(s) && Honest(s, retries) && t in s.threads && s'.threads == s.threads[t := th']
    requires WithinLocks(s, s', s.threads[t]) && Grows(s, s') && Candid(s', retries, th')
    requires forall id :: id in s'.index && id != x ==>
      id in s.index && Fetch(s'.items, ItemKey(id)) == Fetch(s.items, ItemKey(id))
    requires x in s'.index ==> Counts(s', x)
    ensures Honest(s', retries)
  {
    assert LocksMatch(s);
    hide Safe, LocksMatch, WithinLocks, Grows, Candid, Counts;
    forall id | id in s'.index ensures Counts(s', id) {
      if id != x { CountsKept(s, s', id); }
    }
    forall u | u in s'.threads ensures Candid(s', retries, s'.threads[u]) {
      if u != t { OtherCandid(s, s', retries, t, u); }
    }
  }

  // ---------- the steps

  lemma AddCandid(s: State, retries: int, t: Tid, id: Id, mail: Mail, add: AddStep, env: Env)
    requires mail.relay.Some? && Candid(s, retries, Adding(id, mail, add))
    ensures var s' := StepAdd(s, t, id, mail, add, env);
      && Candid(s', retries, s'.threads[t])
      && s'.wire == s.wire
      && (add.SetItem? && id in s.index && Counts(s, id) ==> Counts(s', id))
      && (add.SetIndex? ==> Counts(s', id))
      && (!add.SetIndex? ==> s'.index == s.index)
      && (!add.SetItem? ==> s'.items == s.items)
      && (forall k :: k != ItemKey(id) ==> Fetch(s'.items, k) == Fetch(s.items, k))
  {
    NewRecordComplete(id, mail);
    hide Fails, Attempts, NewRecord;
  }

  lemma HonestAfterAdd(s: State, retries: int, t: Tid, id: Id, mail: Mail, add: AddStep, env: Env)
    requires Safe(s) && Honest(s, retries) && t in s.threads && s.threads[t] == Adding(id, mail, add)
    requires mail.relay.Some?
    ensures Honest(StepAdd(s, t, id, mail, add, env), retries)
  {
    assert ThreadGood(s, s.threads[t]) && Candid(s, retries, s.threads[t]);
    AddData(s, t, id, mail, add, env);
    AddLocks(s, t, id, mail, add, env);
    AddCandid(s, retries, t, id, mail, add, env);
    AddMoves(s, t, id, mail, add, env);
    var s' := StepAdd(s, t, id, mail, add, env);
    hide Safe, StepAdd, Candid, Counts, WithinLocks;
    HonestFollows(s, s', retries, t, s'.threads[t], id);
  }

  lemma AddMoves(s: State, t: Tid, id: Id, mail: Mail, add: AddStep, env: Env)
    requires mail.relay.Some? && ThreadGood(s, Adding(id, mail, add))
    ensures forall x :: x in StepAdd(s, t, id, mail, add, env).index && x != id ==> x in s.index
    ensures s.index.Keys <= StepAdd(s, t, id, mail, add, env).index.Keys
  {
    hide Complete;
  }

  /** What a step of `try` leaves, and what it makes of its email. */
  ghost predicate TryKeeps(s: State, s': State, retries: int, t: Tid, at: PassStep)
    requires InTry(at)
  {
    && Grows(s, s') && s'.index == s.index && t in s'.threads && Candid(s', retries, s'.threads[t])
    && (at.Bump? && Counts(s, at.id) ==> Counts(s', at.id))
    && (forall k :: k != at.key || !at.Bump? ==> Fetch(s'.items, k) == Fetch(s.items, k))
  }

  lemma SendCandid(s: State, retries: int, t: Tid, p: Pass, at: PassStep, env: Env)
    requires at.Send? && Sound(Processing(p, at)) && Candid(s, retries, Processing(p, at))
    ensures TryKeeps(s, StepTry(s, t, p, at, env), retries, t, at)
  {
    var s' := StepTry(s, t, p, at, env);
    var sent := Sent(at.id, at.item.from, at.item.to, at.item.data, RelayOf(at.item), true, env.reply);
    assert s'.wire == s.wire + [sent];
    OneMoreSend(s, s', sent);
    CountAppend(s.wire, sent, at.id);
    hide Fails, Oks, Attempts, Grows;
  }

  lemma BumpCounts(s: State, s': State, x: Id, r: Record, n: int, v: Verdict)
    requires s'.items == (if v == Refused then s.items else s.items[ItemKey(x) := r]) && s'.wire == s.wire
    requires Attempts(r) == Some(n + 1) && n < Fails(s.wire, x)
    ensures Counts(s, x) ==> Counts(s', x)
  {
    hide Fails, Attempts;
  }

  lemma BumpCandid(s: State, retries: int, t: Tid, p: Pass, at: PassStep, env: Env)
    requires at.Bump? && Sound(Processing(p, at)) && PassGood(s, p, at) && Candid(s, retries, Processing(p, at))
    ensures TryKeeps(s, StepTry(s, t, p, at, env), retries, t, at)
  {
    AtoiOfItoa(at.n + 1);
    BumpStep(s, t, p, at, env);
    hide Fails, Oks, Atoi, Itoa, StepTry, Counts;
    BumpCounts(s, StepTry(s, t, p, at, env), at.id, at.item.(attempts := Itoa(at.n + 1)), at.n, env.write);
  }

  /** Reading an email: it is sent with no more attempts counted than there were failures, or has reached the limit. */
  lemma ReadCandid(s: State, retries: int, t: Tid, p: Pass, at: PassStep, env: Env)
    requires at.ReadEmail? && at.key == ItemKey(at.id) && Candid(s, retries, Processing(p, at)) && Counts(s, at.id)
    ensures TryKeeps(s, StepTry(s, t, p, at, env), retries, t, at)
  {
    hide Fails, Oks, Atoi;
  }

  lemma LockCandid(s: State, retries: int, t: Tid, p: Pass, at: PassStep, env: Env)
    requires (at.LockEmail? || at.UnlockEmail?) && Candid(s, retries, Processing(p, at))
    ensures TryKeeps(s, StepTry(s, t, p, at, env), retries, t, at)
  {
    hide Fails, Oks, Attempts;
  }

  lemma TryCandid(s: State, retries: int, t: Tid, p: Pass, at: PassStep, env: Env)
    requires InTry(at) && Sound(Processing(p, at)) && PassGood(s, p, at) && Candid(s, retries, Processing(p, at))
    requires at.ReadEmail? ==> Counts(s, at.id)
    ensures TryKeeps(s, StepTry(s, t, p, at, env), retries, t, at)
  {
    hide Candid, Counts, TryKeeps, StepTry;
    match at
    case Send(_, _, _, _) => SendCandid(s, retries, t, p, at, env);
    case Bump(_, _, _, _) => BumpCandid(s, retries, t, p, at, env);
    case ReadEmail(_, _) => ReadCandid(s, retries, t, p, at, env);
    case _ => LockCandid(s, retries, t, p, at, env);
  }

  lemma HonestAfterTry(s: State, retries: int, t: Tid, p: Pass, at: PassStep, env: Env)
    requires Safe(s) && Honest(s, retries) && Ready(s, t, env) && s.threads[t] == Processing(p, at) && InTry(at)
    ensures Honest(StepTry(s, t, p, at, env), retries)
  {
    assert ThreadGood(s, s.threads[t]) && Candid(s, retries, s.threads[t]);
    PassData(s, t, p, at, env);
    PassLocks(s, t, p, at, env);
    TryCandid(s, retries, t, p, at, env);
    var s' := StepTry(s, t, p, at, env);
    hide Safe, StepTry, Candid, Counts, WithinLocks, Grows;
    HonestFollows(s, s', retries, t, s'.threads[t], at.id);
  }

  lemma RestCandid(s: State, retries: int, t: Tid, p: Pass, at: PassStep, env: Env)
    requires !InTry(at) && Fits(Processing(p, at), env) && PassGood(s, p, at) && Candid(s, retries, Processing(p, at))
    ensures var s' := StepPass(s, t, p, at, env);
      && s'.wire == s.wire && Candid(s', retries, s'.threads[t])
      && (forall x :: x in s'.index ==> x in s.index)
      && (forall x :: x in s.index && x !in s'.index ==> at.Unlist? && x == at.id)
      && (at.WriteBlank? ==> at.id !in s'.index && at.key == ItemKey(at.id))
      && (forall k :: (at.WriteBlank? && k == at.key) || Fetch(s'.items, k) == Fetch(s.items, k))
  {
    hide Fails, Oks, Attempts;
  }

  lemma HonestAfterRest(s: State, retries: int, t: Tid, p: Pass, at: PassStep, env: Env)
    requires Safe(s) && Honest(s, retries) && Ready(s, t, env) && s.threads[t] == Processing(p, at) && !InTry(at)
    ensures Honest(StepPass(s, t, p, at, env), retries)
  {
    assert ThreadGood(s, s.threads[t]) && Candid(s, retries, s.threads[t]);
    PassData(s, t, p, at, env);
    PassLocks(s, t, p, at, env);
    RestCandid(s, retries, t, p, at, env);
    var s' := StepPass(s, t, p, at, env);
    var x := if at.WriteBlank? then at.id else "";
    hide Safe, StepPass, Candid, WithinLocks;
    assert x in s'.index ==> Counts(s', x) by {
      if x in s'.index { CountsKept(s, s', x); }
    }
    hide Counts;
    HonestFollows(s, s', retries, t, s'.threads[t], x);
  }

  lemma HonestAfterStep(s: State, retries: int, t: Tid, env: Env)
    requires Safe(s) && Honest(s, retries) && Ready(s, t, env)
    ensures Honest(Step(s, t, env), retries)
  {
    match s.threads[t]
    case Sending(id, mail) =>
      SendLocks(s, t, id, mail, env.reply, FirstOf(env.reply));
      FirstSendStep(s, t, id, mail, env.reply, FirstOf(env.reply));
      var s' := Step(s, t, env);
      hide Safe, StepSend, Counts;
      OneMoreSend(s, s', s'.wire[|s.wire|]);
      assert "" in s'.index ==> Counts(s', "") by {
        if "" in s'.index { CountsKept(s, s', ""); }
      }
      HonestFollows(s, s', retries, t, s'.threads[t], "");
    case Adding(id, mail, add) => HonestAfterAdd(s, retries, t, id, mail, add, env);
    case Processing(p, at) =>
      if InTry(at) {
        HonestAfterTry(s, retries, t, p, at, env);
      } else {
        HonestAfterRest(s, retries, t, p, at, env);
      }
  }

  lemma HonestAfterCall(s: State, s': State, retries: int, t: Tid, th: Thread)
    requires Honest(s, retries) && s'.threads == s.threads[t := th] && Candid(s', retries, th)
    requires s'.index == s.index && s'.items == s.items && s'.wire == s.wire
    ensures Honest(s', retries)
  {
    hide Fails, Oks, Attempts;
    forall u | u in s'.threads ensures Candid(s', retries, s'.threads[u]) {
      if u != t { assert Candid(s, retries, s.threads[u]); }
    }
    forall id | id in s'.index ensures Counts(s', id) { assert Counts(s, id); }
  }

  /** `queue:retries` is fixed; ids may repeat and any store access may fail. */
  function FixedRetries(c: Config): int
    requires c.retries.Some?
  {
    OrDefault(c.retries.value, DEFAULT_RETRIES)
  }

  lemma HonestAfter(c: Config, s: State, a: Action)
    requires c.retries.Some? && Safe(s) && Honest(s, FixedRetries(c)) && Allowed(c, s, a)
    ensures Honest(Apply(c, s, a), FixedRetries(c))
  {
    match a
    case CallSendmail(t, id, mail) => HonestAfterCall(s, Apply(c, s, a), FixedRetries(c), t, Sending(id, mail));
    case CallProcess(t, _, _) =>
      HonestAfterCall(s, Apply(c, s, a), FixedRetries(c), t, Apply(c, s, a).threads[t]);
    case Run(t, env) => HonestAfterStep(s, FixedRetries(c), t, env);
  }

  lemma SafeAt(c: Config, run: seq<Action>, n: nat)
    requires Possible(c, run) && n <= |run|
    ensures Safe(StateAt(c, run, n))
  {
    PossiblePrefix(c, run, n);
    EveryRunSafe(c, run[..n]);
  }

  lemma {:induction false} EveryRunHonest(c: Config, run: seq<Action>, n: nat)
    requires c.retries.Some? && Possible(c, run) && n <= |run|
    ensures Honest(StateAt(c, run, n), FixedRetries(c))
  {
    if n > 0 {
      EveryRunHonest(c, run, n - 1);
      NextState(c, run, n - 1);
      SafeAt(c, run, n - 1);
      hide Safe, Honest, Apply, Allowed, StateAt;
      HonestAfter(c, StateAt(c, run, n - 1), run[n - 1]);
    }
  }

  // ---------- leaving the index

  /** An email that a step takes off the index is spent. */
  lemma LeavesSpent(s: State, retries: int, t: Tid, env: Env, id: Id)
    requires Safe(s) && Honest(s, retries) && Ready(s, t, env) && id in s.index && id !in Step(s, t, env).index
    ensures Spent(s, retries, id)
  {
    assert ThreadGood(s, s.threads[t]) && Candid(s, retries, s.threads[t]);
    match s.threads[t]
    case Sending(x, mail) => FirstSendStep(s, t, x, mail, env.reply, FirstOf(env.reply));
    case Adding(x, mail, add) => AddMoves(s, t, x, mail, add, env);
    case Processing(p, at) =>
      if InTry(at) {
        TryKeepsIndex(s, t, p, at, env);
      } else {
        RestCandid(s, retries, t, p, at, env);
      }
  }

  lemma TryKeepsIndex(s: State, t: Tid, p: Pass, at: PassStep, env: Env)
    requires InTry(at) && Sound(Processing(p, at))
    ensures StepTry(s, t, p, at, env).index == s.index
  {
    hide Attempts;
  }

  lemma StepGrows(s: State, retries: int, t: Tid, env: Env)
    requires Safe(s) && Honest(s, retries) && Ready(s, t, env)
    ensures Grows(s, Step(s, t, env))
  {
    assert ThreadGood(s, s.threads[t]) && Candid(s, retries, s.threads[t]);
    hide Safe, Candid, Counts, StepSend, StepAdd, StepTry;
    match s.threads[t]
    case Sending(id, mail) =>
      FirstSendStep(s, t, id, mail, env.reply, FirstOf(env.reply));
      var s' := Step(s, t, env);
      OneMoreSend(s, s', s'.wire[|s.wire|]);
    case Adding(id, mail, add) => AddCandid(s, retries, t, id, mail, add, env);
    case Processing(p, at) =>
      if InTry(at) {
        TryCandid(s, retries, t, p, at, env);
      } else {
        RestCandid(s, retries, t, p, at, env);
      }
  }

  lemma SpentStays(s: State, s': State, retries: int, id: Id)
    requires Spent(s, retries, id) && Grows(s, s')
    ensures Spent(s', retries, id)
  {
    hide Fails, Oks;
  }

  /** With any store access free to fail, any ids and any scheduling: an email that was listed is listed still, or was
      delivered, or has at least retries + 1 failed queue sends. */
  lemma {:induction false} ListedUntilSpent(c: Config, run: seq<Action>, n: nat, m: nat, id: Id)
    requires c.retries.Some? && Possible(c, run) && n <= m <= |run| && id in StateAt(c, run, n).index
    ensures id in StateAt(c, run, m).index || Spent(StateAt(c, run, m), FixedRetries(c), id)
    decreases m
  {
    hide StateAt, Safe, Honest, Spent, Apply, Allowed;
    if n < m {
      ListedUntilSpent(c, run, n, m - 1, id);
      EveryRunHonest(c, run, m - 1);
      NextState(c, run, m - 1);
      SafeAt(c, run, m - 1);
      StillListedOrSpent(c, StateAt(c, run, m - 1), run[m - 1], id);
    }
  }

  lemma StillListedOrSpent(c: Config, s: State, a: Action, id: Id)
    requires c.retries.Some? && Safe(s) && Honest(s, FixedRetries(c)) && Allowed(c, s, a)
    requires id in s.index || Spent(s, FixedRetries(c), id)
    ensures id in Apply(c, s, a).index || Spent(Apply(c, s, a), FixedRetries(c), id)
  {
    if a.Run? {
      StepGrows(s, FixedRetries(c), a.t, a.env);
      hide Step, Safe, Honest, Spent, Grows;
      if id in s.index && id !in Step(s, a.t, a.env).index { LeavesSpent(s, FixedRetries(c), a.t, a.env, id); }
      if Spent(s, FixedRetries(c), id) { SpentStays(s, Step(s, a.t, a.env), FixedRetries(c), id); }
    }
  }
}
