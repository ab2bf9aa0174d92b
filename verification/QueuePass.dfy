/** A pass among other calls does what a pass on its own does: the interleaving of `Process` with anything else
    leaves the emails it found listed exactly as `PassOf` does (internal/bot/queue/queue.go,
    internal/bot/queue/manager.go). */
module QueuePass {
  import opened Text
  import opened QueueStore
  import opened QueueProtocol
  import opened QueueSafety
  import opened QueueDeadlock
  import opened QueueConservation
  import opened RetryQueue
  import opened QueueDrain
  import RetryExact

  /** The email is off the index and its record about to be blanked. */
  predicate Blanking(at: PassStep, id: Id) { (at.LockBlank? || at.WriteBlank?) && at.id == id }

  /** The listed emails are as `sh` has them, but for a record about to be blanked. */
  ghost predicate Same(s0: State, s: State, at: PassStep, sh: Shelf) {
    && s.index == sh.index
    && forall id :: id in s0.index ==>
         if Blanking(at, id) then Fetch(sh.items, ItemKey(id)) == Blank
         else Fetch(s.items, ItemKey(id)) == Fetch(sh.items, ItemKey(id))
  }

  /** The tries of a pass and the emails it still has to do with. */
  ghost predicate Counted(index: map<Id, Key>, th: Thread, tries: seq<Attempt>) {
    && Begun(th)
    && EachOnce(tries, index) && |tries| == th.pass.tried + B(Owed(th.at))
    && (forall i :: 0 <= i < |tries| ==> tries[i].id !in th.pass.todo)
    && (forall id :: id in th.pass.todo ==> id in index)
    && (Busy(th.at) ==> th.at.id in index)
    && (OnListed(th.at) && !Owed(th.at) ==> forall i :: 0 <= i < |tries| ==> tries[i].id != th.at.id)
  }

  /** A pass that read the queue in `s0` has so far made these tries. */
  ghost predicate Tracked(s0: State, s: State, th: Thread, retries: int, tries: seq<Attempt>) {
    Counted(s0.index, th, tries) && Same(s0, s, th.at, PassOf(ShelfOf(s0), retries, tries))
  }

  /** No email that was listed then is still to be listed. */
  ghost predicate NonePendingOf(s0: State, s: State) {
    && s0.index.Keys <= s.accounts.Keys
    && forall u :: u in s.threads && Pending(s.threads[u]) ==> s.threads[u].id !in s0.index
  }

  // ---------- the pass's own steps

  lemma TryAppended(s0: State, retries: int, tries: seq<Attempt>, a: Attempt)
    ensures PassOf(ShelfOf(s0), retries, tries + [a]) == TryOne(PassOf(ShelfOf(s0), retries, tries), retries, a)
  {
    PassAppend(ShelfOf(s0), retries, tries, a);
  }

  lemma BumpSame(s0: State, s: State, s': State, sh: Shelf, at: PassStep, at': PassStep, retries: int, n: int,
                 item: Record)
    requires Same(s0, s, at, sh) && at.Bump? && at.id in s0.index && at'.UnlockEmail?
    requires item == Fetch(s.items, ItemKey(at.id)) && Attempts(item) == Some(n) && n <= retries
    requires s'.index == s.index && s'.items == s.items[ItemKey(at.id) := item.(attempts := Itoa(n + 1))]
    ensures Same(s0, s', at', TryOne(sh, retries, Attempt(at.id, Rejected(""))))
  {
    hide Attempts, Itoa;
  }

  lemma UnlistSame(s0: State, s: State, s': State, sh: Shelf, at: PassStep, at': PassStep, retries: int)
    requires Same(s0, s, at, sh) && at.Unlist? && at.id in s0.index && at'.LockBlank? && at'.id == at.id
    requires Attempts(Fetch(s.items, ItemKey(at.id))).Some?
    requires s'.index == s.index - {at.id} && s'.items == s.items
    ensures Same(s0, s', at', TryOne(sh, retries, Attempt(at.id, Accepted)))
  {
    hide Attempts;
  }

  lemma CountedMore(index: map<Id, Key>, p: Pass, at: PassStep, at': PassStep, tries: seq<Attempt>, a: Attempt)
    requires Counted(index, Processing(p, at), tries) && (at.Bump? || at.Unlist?) && a.id == at.id && at.id !in p.todo
    requires (at'.UnlockEmail? && !at'.dequeue) || at'.LockBlank?
    requires at'.id == at.id
    ensures Counted(index, Processing(p, at'), tries + [a])
  {
    EachOnceAppend(tries, index, a);
    hide EachOnce;
  }

  lemma BumpTracked(s0: State, s: State, t: Tid, p: Pass, at: PassStep, env: Env, retries: int, tries: seq<Attempt>)
    requires Good(s, retries) && Answered(env) && t in s.threads && s.threads[t] == Processing(p, at)
    requires at.Bump? && at.item.Full? && Tracked(s0, s, Processing(p, at), retries, tries)
    ensures var s' := StepTry(s, t, p, at, env);
      t in s'.threads && Tracked(s0, s', s'.threads[t], retries, tries + [Attempt(at.id, Rejected(""))])
  {
    hide Safe, DistinctIds, Books, Entry, Complete, Same, TryOne, PassOf, EachOnce;
    PassFacts(s, retries, t, p, at);
    BumpShape(s, retries, t, p, at, env);
    assert at.id in s0.index;
    hide StepTry;
    var s', a, at' := StepTry(s, t, p, at, env), Attempt(at.id, Rejected("")), UnlockEmail(at.id, at.key, false);
    CountedMore(s0.index, p, at, at', tries, a);
    hide Counted;
    BumpSame(s0, s, s', PassOf(ShelfOf(s0), retries, tries), at, at', retries, at.n, at.item);
    hide CallGood, PassGood, Attempts;
    TryAppended(s0, retries, tries, a);
  }

  lemma UnlistTracked(s0: State, s: State, t: Tid, p: Pass, at: PassStep, env: Env, retries: int, tries: seq<Attempt>)
    requires Good(s, retries) && Answered(env) && t in s.threads && s.threads[t] == Processing(p, at)
    requires at.Unlist? && Tracked(s0, s, Processing(p, at), retries, tries)
    ensures var s' := StepRemove(s, t, p, at, env);
      t in s'.threads && Tracked(s0, s', s'.threads[t], retries, tries + [Attempt(at.id, Accepted)])
  {
    hide Safe, DistinctIds, Books, Entry, Same, TryOne, PassOf, EachOnce;
    PassFacts(s, retries, t, p, at);
    UnlistShape(s, retries, t, p, at, env);
    assert at.id in s0.index;
    hide StepRemove;
    var s', a, at' := StepRemove(s, t, p, at, env), Attempt(at.id, Accepted), LockBlank(at.id, ItemKey(at.id));
    CountedMore(s0.index, p, at, at', tries, a);
    hide Counted;
    UnlistSame(s0, s, s', PassOf(ShelfOf(s0), retries, tries), at, at', retries);
    hide CallGood, PassGood, Attempts;
    TryAppended(s0, retries, tries, a);
  }

  lemma BlankSame(s0: State, s: State, s': State, sh: Shelf, at: PassStep, at': PassStep)
    requires Same(s0, s, at, sh) && at.WriteBlank? && at'.UnlockBlank?
    requires s'.index == s.index && s'.items == s.items[ItemKey(at.id) := Blank]
    ensures Same(s0, s', at', sh)
  {}

  lemma BlankTracked(s0: State, s: State, t: Tid, p: Pass, at: PassStep, env: Env, retries: int, tries: seq<Attempt>)
    requires Good(s, retries) && Answered(env) && t in s.threads && s.threads[t] == Processing(p, at)
    requires at.WriteBlank? && Tracked(s0, s, Processing(p, at), retries, tries)
    ensures var s' := StepRemove(s, t, p, at, env); t in s'.threads && Tracked(s0, s', s'.threads[t], retries, tries)
  {
    hide DistinctIds, Books, LocksMatch, IndexGood, Replay, Same, PassOf, EachOnce;
    assert ThreadGood(s, s.threads[t]);
    BlankStep(s, t, p, at, env);
    hide Safe, StepRemove, Attempts;
    var s', at' := StepRemove(s, t, p, at, env), UnlockBlank(at.id, at.key);
    BlankSame(s0, s, s', PassOf(ShelfOf(s0), retries, tries), at, at');
  }

  lemma SameMoves(s0: State, s: State, s': State, sh: Shelf, at: PassStep, at': PassStep)
    requires Same(s0, s, at, sh) && s'.index == s.index && s'.items == s.items
    requires forall id :: id in s0.index ==> (Blanking(at', id) <==> Blanking(at, id))
    ensures Same(s0, s', at', sh)
  {}

  lemma CountedMoves(index: map<Id, Key>, p: Pass, at: PassStep, th': Thread, tries: seq<Attempt>)
    requires Counted(index, Processing(p, at), tries) && QuietMove(p, at, th')
    ensures Counted(index, th', tries)
  {
    hide EachOnce;
  }

  /** A step that writes nothing. */
  lemma QuietTracked(s0: State, s: State, t: Tid, p: Pass, at: PassStep, env: Env, retries: int, tries: seq<Attempt>)
    requires Good(s, retries) && Answered(env) && Ready(s, t, env) && s.threads[t] == Processing(p, at)
    requires !at.Bump? && !at.Unlist? && !at.WriteBlank? && !at.UnlockQueue?
    requires Tracked(s0, s, Processing(p, at), retries, tries)
    ensures var s' := StepPass(s, t, p, at, env); t in s'.threads && Tracked(s0, s', s'.threads[t], retries, tries)
  {
    hide Same, PassOf, EachOnce;
    assert ThreadGood(s, s.threads[t]);
    if at.ReadEmail? { PassFacts(s, retries, t, p, at); }
    ReadsAttempts(s, at);
    hide Good, Complete, Attempts, StepPass, QuietMove;
    QuietPass(s, t, p, at, env);
    QuietGoes(s, t, p, at, env);
    var s' := StepPass(s, t, p, at, env);
    CountedMoves(s0.index, p, at, s'.threads[t], tries);
    BlankingMoves(p, at, s'.threads[t]);
    SameMoves(s0, s, s', PassOf(ShelfOf(s0), retries, tries), at, s'.threads[t].at);
  }

  lemma BlankingMoves(p: Pass, at: PassStep, th': Thread)
    requires QuietMove(p, at, th') && !at.WriteBlank?
    ensures th'.Processing? && forall id :: Blanking(th'.at, id) <==> Blanking(at, id)
  {}

  /** Where such a step leads. */
  predicate QuietMove(p: Pass, at: PassStep, th': Thread) {
    && Begun(th') && th'.pass.tried + B(Owed(th'.at)) == p.tried + B(Owed(at))
    && th'.pass.todo.Keys <= p.todo.Keys
    && (Busy(th'.at) && Busy(at) ==> th'.at.id == at.id)
    && (Busy(th'.at) && !Busy(at) ==> th'.at.id in p.todo && th'.at.LockEmail?)
    && (OnListed(th'.at) && !Owed(th'.at) && Busy(at) ==> OnListed(at) && !Owed(at))
    && ((th'.at.LockBlank? || th'.at.WriteBlank?) <==> at.LockBlank?)
  }

  lemma QuietGoes(s: State, t: Tid, p: Pass, at: PassStep, env: Env)
    requires Fits(Processing(p, at), env) && Sound(Processing(p, at)) && Answered(env) && PassGood(s, p, at)
    requires Begun(Processing(p, at)) && !at.Bump? && !at.Unlist? && !at.WriteBlank? && !at.UnlockQueue?
    requires at.ReadEmail? ==> Attempts(Fetch(s.items, at.key)).Some?
    ensures t in StepPass(s, t, p, at, env).threads && QuietMove(p, at, StepPass(s, t, p, at, env).threads[t])
  {
    PassMoves(s, t, p, at, env);
    hide StepTry, StepRemove, StepLoop, Attempts, PassGood;
    if InTry(at) {
      TryGoesOn(s, t, p, at, env);
    } else if InRemove(at) {
      RemoveGoesOn(s, t, p, at, env);
    } else {
      NextGoesOn(s, t, p, env);
    }
  }

  lemma TryGoesOn(s: State, t: Tid, p: Pass, at: PassStep, env: Env)
    requires InTry(at) && Sound(Processing(p, at)) && Answered(env) && !at.Bump?
    requires at.ReadEmail? ==> Attempts(Fetch(s.items, at.key)).Some?
    ensures t in StepTry(s, t, p, at, env).threads
    ensures var th' := StepTry(s, t, p, at, env).threads[t];
      && Begun(th') && th'.pass.todo == p.todo
      && (Busy(th'.at) ==> th'.at.id == at.id && !Owed(at) && !th'.at.LockBlank? && !th'.at.WriteBlank?)
  {
    hide Attempts;
  }

  lemma RemoveGoesOn(s: State, t: Tid, p: Pass, at: PassStep, env: Env)
    requires InRemove(at) && Answered(env) && !at.Unlist? && !at.WriteBlank?
    ensures t in StepRemove(s, t, p, at, env).threads
    ensures var th' := StepRemove(s, t, p, at, env).threads[t];
      && Begun(th') && th'.pass.todo == p.todo
      && (Busy(th'.at) ==> th'.at.id == at.id && (th'.at.WriteBlank? <==> at.LockBlank?) && !th'.at.LockBlank?
                           && (OnListed(th'.at) <==> at.RereadQueue?))
      && (!Busy(th'.at) ==> at.UnlockBlank?)
  {}

  lemma NextGoesOn(s: State, t: Tid, p: Pass, env: Env)
    requires Fits(Processing(p, NextEmail), env)
    ensures t in StepLoop(s, t, p, NextEmail, env).threads
    ensures var th' := StepLoop(s, t, p, NextEmail, env).threads[t];
      && Begun(th') && th'.pass.todo.Keys <= p.todo.Keys
      && (Busy(th'.at) ==> th'.at.LockEmail? && th'.at.id in p.todo && th'.at.id !in th'.pass.todo)
  {}

  lemma OwnTracked(s0: State, s: State, t: Tid, p: Pass, at: PassStep, env: Env, retries: int, tries: seq<Attempt>)
    returns (tries': seq<Attempt>)
    requires Good(s, retries) && Answered(env) && Ready(s, t, env) && s.threads[t] == Processing(p, at)
    requires Tracked(s0, s, Processing(p, at), retries, tries) && !at.UnlockQueue?
    ensures var s' := StepPass(s, t, p, at, env); t in s'.threads && Tracked(s0, s', s'.threads[t], retries, tries')
  {
    hide Good, Tracked, StepTry, StepRemove;
    if at.Bump? {
      BumpTracked(s0, s, t, p, at, env, retries, tries);
      return tries + [Attempt(at.id, Rejected(""))];
    } else if at.Unlist? {
      UnlistTracked(s0, s, t, p, at, env, retries, tries);
      return tries + [Attempt(at.id, Accepted)];
    } else if at.WriteBlank? {
      BlankTracked(s0, s, t, p, at, env, retries, tries);
    } else {
      QuietTracked(s0, s, t, p, at, env, retries, tries);
    }
    return tries;
  }

  // ---------- the steps of others

  /** A step writes at most the record of an email that its call is still to list, unless it is a pass's own write. */
  ghost predicate WritesOwn(s: State, s': State, th: Thread) {
    && s'.index == s.index
    && forall k :: Fetch(s'.items, k) == Fetch(s.items, k) || (Pending(th) && k == ItemKey(th.id))
  }

  lemma AddWrites(s: State, t: Tid, id: Id, mail: Mail, add: AddStep, env: Env)
    requires mail.relay.Some? && Answered(env) && !add.SetIndex?
    ensures WritesOwn(s, StepAdd(s, t, id, mail, add, env), Adding(id, mail, add))
  {
    AddShape(s, t, id, mail, add, env);
    hide StepAdd, NewRecord;
  }

  /** While `t` holds the queue lock, another call writes at most the record of an email that it is still to list. */
  lemma OtherWrites(s: State, retries: int, t: Tid, u: Tid, env: Env)
    requires Good(s, retries) && Answered(env) && Ready(s, u, env) && t in s.threads && u != t
    requires QueueKey in Held(s.threads[t])
    ensures WritesOwn(s, Step(s, u, env), s.threads[u])
  {
    hide DistinctIds, Books, IndexGood, Replay, LocksMatch, ThreadGood;
    HoldersDiffer(s, t, u, QueueKey);
    hide Safe, StepAdd, StepPass, StepSend;
    match s.threads[u]
    case Sending(id, mail) => FirstSendStep(s, u, id, mail, env.reply, FirstOf(env.reply));
    case Adding(id, mail, add) => AddWrites(s, u, id, mail, add, env);
    case Processing(p, at) => QuietPass(s, u, p, at, env);
  }

  lemma SameKept(s0: State, s: State, s': State, at: PassStep, sh: Shelf, u: Tid)
    requires Same(s0, s, at, sh) && NonePendingOf(s0, s) && u in s.threads && WritesOwn(s, s', s.threads[u])
    ensures Same(s0, s', at, sh)
  {
    forall id | id in s0.index ensures Fetch(s'.items, ItemKey(id)) == Fetch(s.items, ItemKey(id)) {
      assert Pending(s.threads[u]) ==> s.threads[u].id != id;
    }
  }

  lemma OthersTracked(c: Config, s0: State, s: State, a: Action, t: Tid, tries: seq<Attempt>)
    requires Steady(c) && Good(s, Retries(c)) && Allowed(c, s, a) && t in s.threads && !(a.Run? && a.t == t)
    requires Tracked(s0, s, s.threads[t], Retries(c), tries) && NonePendingOf(s0, s)
    ensures var s' := Apply(c, s, a); t in s'.threads && Tracked(s0, s', s'.threads[t], Retries(c), tries)
  {
    hide Good, Same, PassOf, EachOnce, NonePendingOf, Step;
    OtherUntouched(c, s, Retries(c), a, t);
    BegunHolds(s.threads[t]);
    var sh := PassOf(ShelfOf(s0), Retries(c), tries);
    if a.Run? {
      OtherWrites(s, Retries(c), t, a.t, a.env);
      SameKept(s0, s, Apply(c, s, a), s.threads[t].at, sh, a.t);
    } else {
      CallSame(s0, s, Apply(c, s, a), s.threads[t].at, sh);
    }
  }

  lemma CallSame(s0: State, s: State, s': State, at: PassStep, sh: Shelf)
    requires Same(s0, s, at, sh) && s'.index == s.index && s'.items == s.items
    ensures Same(s0, s', at, sh)
  {}

  lemma BegunHolds(th: Thread)
    requires Begun(th)
    ensures QueueKey in Held(th)
  {}

  /** Nobody begins to list an email that was listed then. */
  lemma PendingKept(c: Config, s0: State, s: State, a: Action)
    requires Steady(c) && Good(s, Retries(c)) && Allowed(c, s, a) && NonePendingOf(s0, s)
    ensures NonePendingOf(s0, Apply(c, s, a))
  {
    if a.Run? {
      var th := s.threads[a.t];
      assert ThreadGood(s, th);
      StepTouchesOne(s, a.t, a.env);
      hide Safe, DistinctIds, Books, Complete;
      match th {
        case Sending(id, mail) =>
          SendMild(s, a.t, id, mail, a.env.reply, FirstOf(a.env.reply));
          FirstSendStep(s, a.t, id, mail, a.env.reply, FirstOf(a.env.reply));
        case Adding(id, mail, add) => AddMild(s, a.t, id, mail, add, a.env);
        case Processing(p, at) => PassMild(s, a.t, p, at, a.env);
      }
      hide StepSend, StepAdd, StepPass, ThreadGood;
    } else {
      hide Good;
    }
  }

  // ---------- runs

  /** The pass is tracked until it gives the queue back. */
  ghost predicate Followed(c: Config, s0: State, s: State, t: Tid)
    requires Steady(c)
  {
    && NonePendingOf(s0, s)
    && t in s.threads
    && (s.threads[t] == Finished || exists tries :: Tracked(s0, s, s.threads[t], Retries(c), tries))
  }

  lemma FollowedAction(c: Config, s0: State, s: State, a: Action, t: Tid)
    requires Steady(c) && Good(s, Retries(c)) && Allowed(c, s, a) && Followed(c, s0, s, t)
    ensures Followed(c, s0, Apply(c, s, a), t)
  {
    PendingKept(c, s0, s, a);
    hide Good, NonePendingOf, Apply, Allowed;
    if s.threads[t] == Finished {
      FinishedStays(c, s, a, t);
    } else {
      var tries :| Tracked(s0, s, s.threads[t], Retries(c), tries);
      if a.Run? && a.t == t {
        OwnFollowed(c, s0, s, a, t, tries);
      } else {
        hide Tracked;
        OthersTracked(c, s0, s, a, t, tries);
      }
    }
  }

  lemma OwnFollowed(c: Config, s0: State, s: State, a: Action, t: Tid, tries: seq<Attempt>)
    requires Steady(c) && Good(s, Retries(c)) && Allowed(c, s, a) && t in s.threads && a.Run? && a.t == t
    requires Tracked(s0, s, s.threads[t], Retries(c), tries)
    ensures var s' := Apply(c, s, a);
      t in s'.threads && (s'.threads[t] == Finished || exists ts :: Tracked(s0, s', s'.threads[t], Retries(c), ts))
  {
    hide Good;
    var p, at := s.threads[t].pass, s.threads[t].at;
    RunsPass(c, s, a, p, at);
    if at.UnlockQueue? {
      Returns(s, t, p, a.env);
    } else {
      hide Apply, StepPass, Fits, Tracked;
      var ts := OwnTracked(s0, s, t, p, at, a.env, Retries(c), tries);
    }
  }

  lemma ReadPending(s: State, s': State, t: Tid, th': Thread)
    requires DistinctIds(s) && t in s.threads && s'.threads == s.threads[t := th'] && th'.Processing?
    requires s'.accounts == s.accounts
    ensures NonePendingOf(s, s')
  {}

  lemma ReadSame(s: State, s': State, p: Pass, retries: int)
    requires s'.index == s.index && s'.items == s.items && p.tried == 0 && p.todo == s.index
    ensures Tracked(s, s', Processing(p, NextEmail), retries, [])
  {}

  lemma ReadGoes(s: State, t: Tid, p: Pass, env: Env)
    requires env.readOk
    ensures StepPass(s, t, p, ReadQueue, env) == Goto(s, t, Processing(p.(todo := s.index), NextEmail))
  {}

  lemma ReadTracked(c: Config, s: State, t: Tid, env: Env)
    requires Steady(c) && Good(s, Retries(c)) && Allowed(c, s, Run(t, env)) && Uncounted(s)
    requires s.threads[t].Processing? && s.threads[t].at.ReadQueue?
    ensures Followed(c, s, Apply(c, s, Run(t, env)), t)
  {
    hide Safe, Books, DistinctIds, Tracked, NonePendingOf, StepPass;
    var p := s.threads[t].pass;
    var p', s' := p.(todo := s.index), Apply(c, s, Run(t, env));
    ReadGoes(s, t, p, env);
    ReadPending(s, s', t, Processing(p', NextEmail));
    ReadSame(s, s', p', Retries(c));
  }

  lemma {:induction false} FollowedAt(c: Config, run: seq<Action>, n: nat, m: nat, t: Tid)
    requires Steady(c) && Possible(c, run) && n < m <= |run| && run[n].Run? && run[n].t == t
    requires var s := StateAt(c, run, n); t in s.threads && s.threads[t].Processing? && s.threads[t].at.ReadQueue?
    ensures Followed(c, StateAt(c, run, n), StateAt(c, run, m), t)
    decreases m
  {
    hide StateAt, Apply, Allowed, Followed, Uncounted, Good;
    NextState(c, run, m - 1);
    GoodAt(c, run, m - 1);
    if m == n + 1 {
      UncountedAt(c, run, n);
      ReadTracked(c, StateAt(c, run, n), t, run[n].env);
    } else {
      FollowedAt(c, run, n, m - 1, t);
      FollowedAction(c, StateAt(c, run, n), StateAt(c, run, m - 1), run[m - 1], t);
    }
  }

  /** In every interleaving a pass, from reading the queue to giving it back, leaves the index and the records of
      all emails that it found listed as a pass on its own would with some answers of the mail sender: it tries each
      email once, all of them or one more than its batch size. */
  lemma InterleavedPassIsAPass(c: Config, run: seq<Action>, n: nat, m: nat, t: Tid)
    requires Steady(c) && Possible(c, run) && n < m <= |run| && PassFrom(c, run, n, m, t)
    ensures var s0, s := StateAt(c, run, n), StateAt(c, run, m);
      exists tries ::
        && EachOnce(tries, s0.index)
        && |tries| == s.threads[t].pass.tried
        && s.index == PassOf(ShelfOf(s0), Retries(c), tries).index
        && forall id :: id in s0.index ==>
             Fetch(s.items, ItemKey(id)) == Fetch(PassOf(ShelfOf(s0), Retries(c), tries).items, ItemKey(id))
  {
    var s0, s := StateAt(c, run, n), StateAt(c, run, m);
    FollowedAt(c, run, n, m, t);
    hide StateAt, PassOf, EachOnce, NonePendingOf;
    var tries :| Tracked(s0, s, s.threads[t], Retries(c), tries);
  }

  /** And that many. */
  lemma InterleavedPassTries(c: Config, run: seq<Action>, n: nat, m: nat, t: Tid)
    requires Steady(c) && Possible(c, run) && n < m <= |run| && PassFrom(c, run, n, m, t)
    ensures var s0, s := StateAt(c, run, n), StateAt(c, run, m);
      var batch, listed := s0.threads[t].pass.batch, |s0.index|;
      && (batch < 0 ==> s.threads[t].pass.tried == 0)
      && (0 <= batch < listed ==> s.threads[t].pass.tried == batch + 1)
      && (listed <= batch ==> s.threads[t].pass.tried == listed)
  {
    var s0, s := StateAt(c, run, n), StateAt(c, run, m);
    MidwayAt(c, run, n, m, t, s0.threads[t].pass.batch);
    hide StateAt, Load;
    assert s.threads[t].pass.todo == map[] <==> |s.threads[t].pass.todo| == 0;
  }

  /** In every interleaving, once no email is listed any more, the queue is empty after at most retries + 2 passes
      for each email that is listed then. */
  lemma InterleavedEmptiesWithin(c: Config, run: seq<Action>, n: nat, spans: seq<Span>)
    requires Steady(c) && Possible(c, run) && n <= |run| && NoListing(c, run, n) && Spans(c, run, n, spans)
    requires |spans| >= RetryExact.Most(Retries(c)) * |StateAt(c, run, n).index|
    ensures StateAt(c, run, |run|).index == map[]
  {
    GoodAt(c, run, n);
    LoadIsPotential(c, run, n);
    hide Spans, NoListing, StateAt, LoadAt, RetryExact.Most;
    InterleavedQueueEmpties(c, run, n, spans);
  }

  lemma LoadIsPotential(c: Config, run: seq<Action>, n: nat)
    requires Steady(c) && Possible(c, run) && n <= |run| && Good(StateAt(c, run, n), Retries(c))
    ensures LoadAt(c, run, n) <= RetryExact.Most(Retries(c)) * |StateAt(c, run, n).index|
  {
    var s := StateAt(c, run, n);
    assert IndexGood(s);
    hide Potential, DistinctIds, Books, LocksMatch, ThreadGood, RetryExact.Most;
    assert Sane(ShelfOf(s));
    RetryExact.PotentialAtMost(ShelfOf(s), Retries(c));
  }
}
