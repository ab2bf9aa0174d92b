/** Draining under interleaving: whatever other calls do meanwhile, a pass lowers the potential of the queue by at least
    the number of emails it tries, and passes with no new email listed empty it (internal/bot/queue/queue.go,
    internal/bot/queue/manager.go). */
module QueueDrain {
  import opened Text
  import opened QueueStore
  import opened QueueProtocol
  import opened QueueSafety
  import opened QueueDeadlock
  import opened QueueConservation
  import opened RetryQueue

  function ShelfOf(s: State): Shelf { Shelf(s.index, s.items, s.wire) }

  /** The potential of the queue in a state of the interleaving. */
  ghost function Load(s: State, retries: int): int { Potential(ShelfOf(s), retries) }

  ghost predicate Good(s: State, retries: int) { Safe(s) && DistinctIds(s) && Books(s, retries) }

  function B(b: bool): nat { if b then 1 else 0 }

  // ---------- what one step does to the potential

  function WeightIn(s: State, retries: int, id: Id): int { Weight(ShelfOf(s), retries, id) }

  lemma WeightOf(s: State, s': State, retries: int, id: Id)
    requires Fetch(s'.items, ItemKey(id)) == Fetch(s.items, ItemKey(id))
    ensures WeightIn(s', retries, id) == WeightIn(s, retries, id)
  {}

  lemma SameLoad(s: State, s': State, retries: int)
    requires s'.index == s.index
    requires forall id :: id in s.index ==> Fetch(s'.items, ItemKey(id)) == Fetch(s.items, ItemKey(id))
    ensures Load(s', retries) == Load(s, retries)
  {
    forall id | id in s.index ensures WeightIn(s', retries, id) == WeightIn(s, retries, id) {
      WeightOf(s, s', retries, id);
    }
    hide Weight, Total;
    assert Weights(ShelfOf(s'), retries) == Weights(ShelfOf(s), retries);
  }

  lemma LessLoad(s: State, s': State, retries: int, x: Id)
    requires x in s.index && (s'.index == s.index || s'.index == s.index - {x})
    requires forall id :: id in s.index && id != x ==> Fetch(s'.items, ItemKey(id)) == Fetch(s.items, ItemKey(id))
    requires x in s'.index ==> WeightIn(s', retries, x) == WeightIn(s, retries, x) - 1
    ensures Load(s', retries) < Load(s, retries)
  {
    forall id | id in s.index && id != x ensures WeightIn(s', retries, id) == WeightIn(s, retries, id) {
      WeightOf(s, s', retries, id);
    }
    var w, w' := Weights(ShelfOf(s), retries), Weights(ShelfOf(s'), retries);
    assert w[x] >= 1;
    hide Weight, Total;
    assert w' - {x} == w - {x};
    TotalLess(w, w', x);
  }

  /** What a new email can cost. */
  function Fresh(retries: int): int { if retries + 2 < 1 then 1 else retries + 2 }

  lemma MoreLoad(s: State, s': State, retries: int, x: Id)
    requires x !in s.index && s'.index == s.index[x := ItemKey(x)] && s'.items == s.items
    requires Attempts(Fetch(s.items, ItemKey(x))) == Some(0)
    ensures Load(s', retries) == Load(s, retries) + Fresh(retries)
  {
    forall id | id in s.index ensures WeightIn(s', retries, id) == WeightIn(s, retries, id) {
      WeightOf(s, s', retries, id);
    }
    var w, w' := Weights(ShelfOf(s), retries), Weights(ShelfOf(s'), retries);
    assert w'[x] == Fresh(retries);
    hide Weight, Total;
    TotalSplit(w', x);
    assert w' - {x} == w;
  }

  lemma LoadCoversIndex(s: State, retries: int)
    ensures Load(s, retries) >= |s.index|
    ensures s.index == map[] ==> Load(s, retries) == 0
  {
    var w := Weights(ShelfOf(s), retries);
    assert w.Keys == s.index.Keys;
    assert |w| == |s.index|;
    TotalAtLeastSize(w);
    if s.index == map[] { assert w == map[]; }
  }

  /** The step puts an email on the index. */
  predicate Listing(th: Thread) { th.Adding? && th.add.SetIndex? }

  /** The step ends the turn of an email: one more failed attempt is noted, or it is taken off the index. */
  predicate Ends(th: Thread) { th.Processing? && (th.at.Bump? || th.at.Unlist?) }

  lemma BumpedLoad(s: State, s': State, retries: int, x: Id, item: Record, n: int)
    requires x in s.index && s'.index == s.index && item == Fetch(s.items, ItemKey(x)) && Complete(item, x)
    requires Attempts(item) == Some(n) && n <= retries
    requires s'.items == s.items[ItemKey(x) := item.(attempts := Itoa(n + 1))]
    ensures Load(s', retries) < Load(s, retries)
  {
    hide Load, Itoa, WeightIn;
    BumpComplete(item, x, n + 1);
    BumpWeight(s, s', retries, x, n);
    hide Attempts, Complete;
    LessLoad(s, s', retries, x);
  }

  lemma BumpLoad(s: State, retries: int, t: Tid, p: Pass, at: PassStep, env: Env)
    requires Good(s, retries) && Answered(env) && t in s.threads && s.threads[t] == Processing(p, at)
    requires at.Bump? && at.item.Full?
    ensures Load(StepTry(s, t, p, at, env), retries) < Load(s, retries)
  {
    hide Safe, DistinctIds, Books, Entry, Load, Complete;
    PassFacts(s, retries, t, p, at);
    BumpShape(s, retries, t, p, at, env);
    hide StepTry;
    BumpedLoad(s, StepTry(s, t, p, at, env), retries, at.id, at.item, at.n);
  }

  lemma BumpWeight(s: State, s': State, retries: int, x: Id, n: int)
    requires Attempts(Fetch(s.items, ItemKey(x))) == Some(n) && n <= retries
    requires Attempts(Fetch(s'.items, ItemKey(x))) == Some(n + 1)
    ensures WeightIn(s', retries, x) == WeightIn(s, retries, x) - 1
  {}

  lemma UnlistLoad(s: State, retries: int, t: Tid, p: Pass, at: PassStep, env: Env)
    requires Good(s, retries) && Answered(env) && t in s.threads && s.threads[t] == Processing(p, at) && at.Unlist?
    ensures Load(StepRemove(s, t, p, at, env), retries) < Load(s, retries)
  {
    PassFacts(s, retries, t, p, at);
    hide Safe, DistinctIds, Books, Entry, Load;
    UnlistShape(s, retries, t, p, at, env);
    hide StepRemove, WeightIn, CallGood;
    LessLoad(s, StepRemove(s, t, p, at, env), retries, at.id);
  }

  lemma BlankLoad(s: State, retries: int, t: Tid, p: Pass, at: PassStep, env: Env)
    requires Good(s, retries) && Answered(env) && t in s.threads && s.threads[t] == Processing(p, at) && at.WriteBlank?
    ensures Load(StepRemove(s, t, p, at, env), retries) == Load(s, retries)
  {
    hide DistinctIds, Books, LocksMatch, IndexGood, Replay, Load;
    assert ThreadGood(s, s.threads[t]);
    BlankStep(s, t, p, at, env);
    hide Safe, StepRemove;
    SameLoad(s, StepRemove(s, t, p, at, env), retries);
  }

  lemma PassStepLoad(s: State, retries: int, t: Tid, p: Pass, at: PassStep, env: Env)
    requires Good(s, retries) && Answered(env) && Ready(s, t, env) && s.threads[t] == Processing(p, at)
    ensures Load(StepPass(s, t, p, at, env), retries) + (if Ends(s.threads[t]) then 1 else 0) <= Load(s, retries)
  {
    hide Load, Safe, DistinctIds, Books;
    if at.Bump? {
      BumpLoad(s, retries, t, p, at, env);
    } else if at.Unlist? {
      UnlistLoad(s, retries, t, p, at, env);
    } else if at.WriteBlank? {
      BlankLoad(s, retries, t, p, at, env);
    } else {
      QuietPass(s, t, p, at, env);
      SameLoad(s, StepPass(s, t, p, at, env), retries);
    }
  }

  lemma QuietPass(s: State, t: Tid, p: Pass, at: PassStep, env: Env)
    requires Fits(Processing(p, at), env) && Sound(Processing(p, at)) && !at.Bump? && !at.Unlist? && !at.WriteBlank?
    ensures var s' := StepPass(s, t, p, at, env); s'.index == s.index && s'.items == s.items
  {}

  lemma AddShape(s: State, t: Tid, id: Id, mail: Mail, add: AddStep, env: Env)
    requires mail.relay.Some? && Answered(env)
    ensures var s' := StepAdd(s, t, id, mail, add, env);
      && (!add.SetIndex? ==> s'.index == s.index)
      && (!add.SetItem? ==> s'.items == s.items)
      && (add.SetItem? ==> s'.items == s.items[ItemKey(id) := NewRecord(id, mail)])
      && (add.SetIndex? ==> s'.index == add.copy[id := ItemKey(id)])
  {}

  lemma AddFacts(s: State, retries: int, t: Tid, id: Id, mail: Mail, add: AddStep)
    requires Good(s, retries) && t in s.threads && s.threads[t] == Adding(id, mail, add)
    ensures add.SetItem? || add.SetIndex? ==> id !in s.index
    ensures add.SetIndex? ==> add.copy == s.index && Attempts(Fetch(s.items, ItemKey(id))) == Some(0)
  {
    CallFacts(s, retries, t);
    hide Safe, DistinctIds, Books, Entry, Apart, LocksMatch, Attempts;
  }

  lemma AddStepLoad(s: State, retries: int, t: Tid, id: Id, mail: Mail, add: AddStep, env: Env)
    requires Good(s, retries) && Answered(env) && t in s.threads && s.threads[t] == Adding(id, mail, add)
    requires mail.relay.Some?
    ensures var s' := StepAdd(s, t, id, mail, add, env);
      Load(s', retries) == Load(s, retries) + if add.SetIndex? then Fresh(retries) else 0
  {
    hide Load, Good, StepAdd, Attempts, NewRecord;
    AddFacts(s, retries, t, id, mail, add);
    AddShape(s, t, id, mail, add, env);
    var s' := StepAdd(s, t, id, mail, add, env);
    if add.SetIndex? {
      MoreLoad(s, s', retries, id);
    } else {
      SameLoad(s, s', retries);
    }
  }

  /** A step raises the potential only by listing an email, and lowers it whenever it ends an email's turn. */
  lemma StepLoad(s: State, retries: int, t: Tid, env: Env)
    requires Good(s, retries) && Answered(env) && Ready(s, t, env)
    ensures var th := s.threads[t];
      Load(Step(s, t, env), retries) + (if Ends(th) then 1 else 0)
        <= Load(s, retries) + (if Listing(th) then Fresh(retries) else 0)
  {
    hide Load, Safe, DistinctIds, Books;
    match s.threads[t]
    case Sending(id, mail) =>
      FirstSendStep(s, t, id, mail, env.reply, FirstOf(env.reply));
      SameLoad(s, Step(s, t, env), retries);
    case Adding(id, mail, add) => AddStepLoad(s, retries, t, id, mail, add, env);
    case Processing(p, at) => PassStepLoad(s, retries, t, p, at, env);
  }

  lemma ActionLoad(c: Config, s: State, a: Action)
    requires Steady(c) && Good(s, Retries(c)) && Allowed(c, s, a)
    ensures Load(Apply(c, s, a), Retries(c)) + (if a.Run? && Ends(s.threads[a.t]) then 1 else 0)
      <= Load(s, Retries(c)) + (if a.Run? && Listing(s.threads[a.t]) then Fresh(Retries(c)) else 0)
  {
    hide Load, Safe, DistinctIds, Books;
    if a.Run? {
      StepLoad(s, Retries(c), a.t, a.env);
    } else {
      SameLoad(s, Apply(c, s, a), Retries(c));
    }
  }

  // ---------- whole runs

  lemma GoodAt(c: Config, run: seq<Action>, n: nat)
    requires Steady(c) && Possible(c, run) && n <= |run|
    ensures Good(StateAt(c, run, n), Retries(c))
  {
    PossiblePrefix(c, run, n);
    EveryRunSafe(c, run[..n]);
    EveryRunDistinct(c, run[..n]);
    EveryRunBooks(c, run[..n]);
  }

  ghost function LoadAt(c: Config, run: seq<Action>, n: nat): int
    requires Steady(c) && Possible(c, run) && n <= |run|
  {
    Load(StateAt(c, run, n), Retries(c))
  }

  /** Action `k` of the run puts an email on the index. */
  predicate ListsAt(c: Config, run: seq<Action>, k: nat)
    requires Possible(c, run) && k < |run|
  {
    var s := StateAt(c, run, k);
    run[k].Run? && run[k].t in s.threads && Listing(s.threads[run[k].t])
  }

  predicate EndsAt(c: Config, run: seq<Action>, k: nat)
    requires Possible(c, run) && k < |run|
  {
    var s := StateAt(c, run, k);
    run[k].Run? && run[k].t in s.threads && Ends(s.threads[run[k].t])
  }

  lemma LoadStep(c: Config, run: seq<Action>, n: nat)
    requires Steady(c) && Possible(c, run) && n < |run|
    ensures LoadAt(c, run, n + 1) + (if EndsAt(c, run, n) then 1 else 0)
      <= LoadAt(c, run, n) + (if ListsAt(c, run, n) then Fresh(Retries(c)) else 0)
  {
    NextState(c, run, n);
    GoodAt(c, run, n);
    hide Load, StateAt, Good, Apply;
    ActionLoad(c, StateAt(c, run, n), run[n]);
  }

  function Listings(c: Config, run: seq<Action>, n: nat): nat
    requires Possible(c, run) && n <= |run|
  {
    if n == 0 then 0 else Listings(c, run, n - 1) + B(ListsAt(c, run, n - 1))
  }

  function Turns(c: Config, run: seq<Action>, n: nat): nat
    requires Possible(c, run) && n <= |run|
  {
    if n == 0 then 0 else Turns(c, run, n - 1) + B(EndsAt(c, run, n - 1))
  }

  function Paid(c: Config, run: seq<Action>, n: nat, price: int): int
    requires Possible(c, run) && n <= |run|
  {
    if n == 0 then 0 else Paid(c, run, n - 1, price) + if ListsAt(c, run, n - 1) then price else 0
  }

  lemma {:induction false} PaidPerListing(c: Config, run: seq<Action>, n: nat, price: int)
    requires Possible(c, run) && n <= |run|
    ensures Paid(c, run, n, price) == price * Listings(c, run, n)
  {
    hide ListsAt;
    if n > 0 {
      PaidPerListing(c, run, n - 1, price);
      OneMoreTimes(price, Listings(c, run, n - 1), B(ListsAt(c, run, n - 1)));
    }
  }

  lemma OneMoreTimes(price: int, k: nat, b: nat)
    requires b <= 1
    ensures price * (k + b) == price * k + if b == 1 then price else 0
  {}

  lemma {:induction false} WorkPaid(c: Config, run: seq<Action>, n: nat)
    requires Steady(c) && Possible(c, run) && n <= |run|
    ensures LoadAt(c, run, n) + Turns(c, run, n) <= Paid(c, run, n, Fresh(Retries(c)))
  {
    hide LoadAt, EndsAt, ListsAt, Retries;
    if n == 0 {
      NothingAtFirst(c, run);
    } else {
      WorkPaid(c, run, n - 1);
      LoadStep(c, run, n - 1);
    }
  }

  lemma NothingAtFirst(c: Config, run: seq<Action>)
    requires Steady(c) && Possible(c, run)
    ensures LoadAt(c, run, 0) == 0
  {
    assert StateAt(c, run, 0) == INIT;
    LoadCoversIndex(INIT, Retries(c));
  }

  /** The work of every interleaving is paid for by the emails it lists: turns ended, and emails left, come to at most
      retries + 2 for each. */
  lemma WorkBounded(c: Config, run: seq<Action>, n: nat)
    requires Steady(c) && Possible(c, run) && n <= |run|
    ensures |StateAt(c, run, n).index| + Turns(c, run, n) <= Fresh(Retries(c)) * Listings(c, run, n)
  {
    LoadCoversIndex(StateAt(c, run, n), Retries(c));
    WorkPaid(c, run, n);
    PaidPerListing(c, run, n, Fresh(Retries(c)));
  }

  // ---------- one pass among other calls

  /** The turn of the current email has ended, but the pass has not counted it yet. */
  predicate Owed(at: PassStep) { (at.UnlockEmail? && !at.dequeue) || OnUnlisted(at) }

  /** A pass that read the queue in `s0` and has come to `s`: its turns have lowered the potential, and every email
      it read is tried, being tried or still to be tried. */
  ghost predicate Midway(s0: State, s: State, th: Thread, batch: int, retries: int) {
    && th.Processing? && th.pass.batch == batch && !th.at.LockQueue? && !th.at.ReadQueue?
    && Load(s, retries) + th.pass.tried + B(Owed(th.at)) <= Load(s0, retries)
    && |th.pass.todo| + th.pass.tried + B(Busy(th.at)) == |s0.index|
    && th.pass.tried + B(Busy(th.at)) <= (if batch < 0 then 0 else batch + 1)
    && (th.at.UnlockQueue? ==> !Continues(th.pass))
  }

  predicate Busy(at: PassStep) { InTry(at) || InRemove(at) }

  /** How a pass moves: its counters, and where it stands. */
  predicate Moves(p: Pass, at: PassStep, th': Thread) {
    && th'.Processing? && th'.pass.batch == p.batch && !th'.at.LockQueue? && !th'.at.ReadQueue?
    && th'.pass.tried + B(Owed(th'.at)) == p.tried + B(Owed(at)) + B(at.Bump? || at.Unlist?)
    && |th'.pass.todo| + th'.pass.tried + B(Busy(th'.at)) == |p.todo| + p.tried + B(Busy(at))
    && (th'.pass.tried + B(Busy(th'.at)) <= p.tried + B(Busy(at)) ||
        (p.tried <= p.batch && th'.pass.tried + B(Busy(th'.at)) == p.tried + 1))
    && (th'.at.UnlockQueue? ==> !Continues(th'.pass))
  }

  lemma NextMoves(s: State, t: Tid, p: Pass, env: Env)
    requires Fits(Processing(p, NextEmail), env)
    ensures Moves(p, NextEmail, StepLoop(s, t, p, NextEmail, env).threads[t])
  {
    if Continues(p) { OneLess(p.todo, env.pick); }
  }

  lemma TurnMoves(p: Pass, at: PassStep, th': Thread)
    requires Busy(at) && th'.Processing? && th'.pass == p && Busy(th'.at)
    requires B(Owed(th'.at)) == B(Owed(at)) + B(at.Bump? || at.Unlist?)
    ensures Moves(p, at, th')
  {}

  lemma OnwardMoves(p: Pass, at: PassStep)
    requires Busy(at) && Owed(at) && !at.Bump? && !at.Unlist?
    ensures Moves(p, at, Onward(p))
  {}

  lemma TryGoes(s: State, t: Tid, p: Pass, at: PassStep, env: Env)
    requires InTry(at) && Sound(Processing(p, at)) && Answered(env)
    requires at.ReadEmail? ==> Attempts(Fetch(s.items, at.key)).Some?
    ensures t in StepTry(s, t, p, at, env).threads
    ensures var th' := StepTry(s, t, p, at, env).threads[t];
      if at.UnlockEmail? && !at.dequeue then th' == Onward(p)
      else th'.Processing? && th'.pass == p && Busy(th'.at) && (Owed(th'.at) <==> at.Bump?)
  {
    hide Attempts;
  }

  lemma TryMoves(s: State, t: Tid, p: Pass, at: PassStep, env: Env)
    requires InTry(at) && Sound(Processing(p, at)) && Answered(env)
    requires at.ReadEmail? ==> Attempts(Fetch(s.items, at.key)).Some?
    ensures Moves(p, at, StepTry(s, t, p, at, env).threads[t])
  {
    hide StepTry, Moves, Attempts;
    TryGoes(s, t, p, at, env);
    if at.UnlockEmail? && !at.dequeue {
      OnwardMoves(p, at);
    } else {
      TurnMoves(p, at, StepTry(s, t, p, at, env).threads[t]);
    }
  }

  lemma RemoveGoes(s: State, t: Tid, p: Pass, at: PassStep, env: Env)
    requires InRemove(at) && Answered(env)
    ensures t in StepRemove(s, t, p, at, env).threads
    ensures var th' := StepRemove(s, t, p, at, env).threads[t];
      if at.UnlockBlank? then th' == Onward(p)
      else th'.Processing? && th'.pass == p && Busy(th'.at) && (Owed(th'.at) <==> !at.RereadQueue?)
  {}

  lemma RemoveMoves(s: State, t: Tid, p: Pass, at: PassStep, env: Env)
    requires InRemove(at) && Answered(env)
    ensures Moves(p, at, StepRemove(s, t, p, at, env).threads[t])
  {
    hide StepRemove, Moves;
    RemoveGoes(s, t, p, at, env);
    if at.UnlockBlank? {
      OnwardMoves(p, at);
    } else {
      TurnMoves(p, at, StepRemove(s, t, p, at, env).threads[t]);
    }
  }

  lemma PassMoves(s: State, t: Tid, p: Pass, at: PassStep, env: Env)
    requires Fits(Processing(p, at), env) && Sound(Processing(p, at)) && Answered(env)
    requires !at.LockQueue? && !at.ReadQueue? && !at.UnlockQueue?
    requires at.ReadEmail? ==> Attempts(Fetch(s.items, at.key)).Some?
    ensures Moves(p, at, StepPass(s, t, p, at, env).threads[t])
  {
    hide Moves, StepLoop, StepTry, StepRemove, Attempts;
    if InTry(at) {
      TryMoves(s, t, p, at, env);
    } else if InRemove(at) {
      RemoveMoves(s, t, p, at, env);
    } else {
      NextMoves(s, t, p, env);
    }
  }

  lemma MidwayMoves(s0: State, s: State, s': State, p: Pass, at: PassStep, th': Thread, batch: int, retries: int)
    requires Midway(s0, s, Processing(p, at), batch, retries) && Moves(p, at, th')
    requires Load(s', retries) + B(at.Bump? || at.Unlist?) <= Load(s, retries)
    ensures Midway(s0, s', th', batch, retries)
  {
    hide Load, Owed, Busy, Continues;
  }

  lemma MidwayStep(s0: State, s: State, t: Tid, p: Pass, at: PassStep, env: Env, batch: int, retries: int)
    requires Good(s, retries) && Answered(env) && Ready(s, t, env) && s.threads[t] == Processing(p, at)
    requires Midway(s0, s, Processing(p, at), batch, retries) && !at.UnlockQueue?
    ensures t in StepPass(s, t, p, at, env).threads
    ensures Midway(s0, StepPass(s, t, p, at, env), StepPass(s, t, p, at, env).threads[t], batch, retries)
  {
    assert ThreadGood(s, s.threads[t]);
    PassLocks(s, t, p, at, env);
    if at.ReadEmail? { PassFacts(s, retries, t, p, at); }
    hide Load, Good, StepPass, Moves, ThreadGood, Complete;
    PassStepLoad(s, retries, t, p, at, env);
    ReadsAttempts(s, at);
    PassMoves(s, t, p, at, env);
    MidwayMoves(s0, s, StepPass(s, t, p, at, env), p, at, StepPass(s, t, p, at, env).threads[t], batch, retries);
  }

  lemma ReadsAttempts(s: State, at: PassStep)
    requires at.ReadEmail? ==> at.key == ItemKey(at.id) && Complete(Fetch(s.items, ItemKey(at.id)), at.id)
    ensures at.ReadEmail? ==> Attempts(Fetch(s.items, at.key)).Some?
  {}

  lemma OtherLists(s: State, retries: int, t: Tid, u: Tid)
    requires Good(s, retries) && t in s.threads && u in s.threads && u != t && QueueKey in Held(s.threads[t])
    ensures !Listing(s.threads[u])
  {
    hide DistinctIds, Books, ThreadGood, IndexGood, Replay, LocksMatch;
    HoldersDiffer(s, t, u, QueueKey);
  }

  lemma OtherUntouched(c: Config, s: State, retries: int, a: Action, t: Tid)
    requires Good(s, retries) && Allowed(c, s, a) && t in s.threads && !(a.Run? && a.t == t)
    ensures t in Apply(c, s, a).threads && Apply(c, s, a).threads[t] == s.threads[t]
  {
    if a.Run? {
      StepTouchesOne(s, a.t, a.env);
      hide Good, Step;
    } else {
      hide Good;
    }
  }

  /** While a pass holds the queue lock, a step of another call neither touches it nor lists an email. */
  lemma OthersQuiet(c: Config, s: State, a: Action, t: Tid)
    requires Steady(c) && Good(s, Retries(c)) && Allowed(c, s, a) && t in s.threads
    requires QueueKey in Held(s.threads[t]) && !(a.Run? && a.t == t)
    ensures t in Apply(c, s, a).threads && Apply(c, s, a).threads[t] == s.threads[t]
    ensures Load(Apply(c, s, a), Retries(c)) <= Load(s, Retries(c))
  {
    hide Load, Good, Apply, Held, Listing;
    OtherUntouched(c, s, Retries(c), a, t);
    if a.Run? { OtherLists(s, Retries(c), t, a.t); }
    ActionLoad(c, s, a);
  }

  lemma MidwayHolds(s0: State, s: State, th: Thread, batch: int, retries: int)
    requires Midway(s0, s, th, batch, retries)
    ensures QueueKey in Held(th) && th.Processing?
  {}

  lemma OwnAction(c: Config, s0: State, s: State, a: Action, t: Tid, batch: int)
    requires Steady(c) && Good(s, Retries(c)) && Allowed(c, s, a) && t in s.threads && a.Run? && a.t == t
    requires Midway(s0, s, s.threads[t], batch, Retries(c))
    ensures var s' := Apply(c, s, a);
      t in s'.threads && (Midway(s0, s', s'.threads[t], batch, Retries(c)) || s'.threads[t] == Finished)
  {
    hide Load, Good;
    var p, at := s.threads[t].pass, s.threads[t].at;
    RunsPass(c, s, a, p, at);
    if at.UnlockQueue? {
      Returns(s, t, p, a.env);
    } else {
      hide Apply, StepPass, Fits;
      MidwayStep(s0, s, t, p, at, a.env, batch, Retries(c));
      hide Midway;
    }
  }

  lemma RunsPass(c: Config, s: State, a: Action, p: Pass, at: PassStep)
    requires a.Run? && Allowed(c, s, a) && s.threads[a.t] == Processing(p, at)
    ensures Apply(c, s, a) == StepPass(s, a.t, p, at, a.env)
  {
    hide StepPass;
  }

  lemma Returns(s: State, t: Tid, p: Pass, env: Env)
    ensures var s' := StepPass(s, t, p, UnlockQueue, env); t in s'.threads && s'.threads[t] == Finished
  {}

  lemma OtherAction(c: Config, s0: State, s: State, a: Action, t: Tid, batch: int)
    requires Steady(c) && Good(s, Retries(c)) && Allowed(c, s, a) && t in s.threads && !(a.Run? && a.t == t)
    requires Midway(s0, s, s.threads[t], batch, Retries(c))
    ensures var s' := Apply(c, s, a); t in s'.threads && Midway(s0, s', s'.threads[t], batch, Retries(c))
  {
    hide Load, Good, Apply, Held;
    MidwayHolds(s0, s, s.threads[t], batch, Retries(c));
    OthersQuiet(c, s, a, t);
  }

  /** A pass that has begun is midway until it returns, whatever the other calls do. */
  lemma MidwayAction(c: Config, s0: State, s: State, a: Action, t: Tid, batch: int)
    requires Steady(c) && Good(s, Retries(c)) && Allowed(c, s, a) && t in s.threads
    requires Midway(s0, s, s.threads[t], batch, Retries(c)) || s.threads[t] == Finished
    ensures var s' := Apply(c, s, a);
      t in s'.threads && (Midway(s0, s', s'.threads[t], batch, Retries(c)) || s'.threads[t] == Finished)
  {
    hide Midway, Good, Apply, Allowed;
    if s.threads[t] == Finished {
      FinishedStays(c, s, a, t);
    } else if a.Run? && a.t == t {
      OwnAction(c, s0, s, a, t, batch);
    } else {
      OtherAction(c, s0, s, a, t, batch);
    }
  }

  lemma FinishedStays(c: Config, s: State, a: Action, t: Tid)
    requires Steady(c) && Good(s, Retries(c)) && Allowed(c, s, a) && t in s.threads && s.threads[t] == Finished
    ensures t in Apply(c, s, a).threads && Apply(c, s, a).threads[t] == Finished
  {
    OthersKept(c, s, a);
  }

  // ---------- passes of a run

  /** A pass has counted nothing before it reads the queue. */
  ghost predicate Uncounted(s: State) {
    forall t :: t in s.threads && s.threads[t].Processing? && (s.threads[t].at.LockQueue? || s.threads[t].at.ReadQueue?)
      ==> s.threads[t].pass.tried == 0
  }

  lemma UncountedAction(c: Config, s: State, a: Action)
    requires Safe(s) && Uncounted(s) && Allowed(c, s, a)
    ensures Uncounted(Apply(c, s, a))
  {
    if a.Run? {
      StepTouchesOne(s, a.t, a.env);
      UncountedStep(s, a.t, a.env);
      hide Safe, Step;
    }
  }

  predicate Begun(th: Thread) { th.Processing? && !th.at.LockQueue? && !th.at.ReadQueue? }

  lemma TryBegun(s: State, t: Tid, p: Pass, at: PassStep, env: Env)
    requires InTry(at) && Sound(Processing(p, at))
    ensures Begun(StepTry(s, t, p, at, env).threads[t])
  {
    hide Attempts;
  }

  lemma RemoveBegun(s: State, t: Tid, p: Pass, at: PassStep, env: Env)
    requires InRemove(at)
    ensures Begun(StepRemove(s, t, p, at, env).threads[t])
  {}

  lemma LoopBegun(s: State, t: Tid, p: Pass, at: PassStep, env: Env)
    requires !InTry(at) && !InRemove(at) && Fits(Processing(p, at), env)
    ensures var th' := StepLoop(s, t, p, at, env).threads[t];
      th'.Processing? ==> Begun(th') || (at.LockQueue? && th' == Processing(p, ReadQueue))
  {}

  lemma AddIsNoPass(s: State, t: Tid, id: Id, mail: Mail, add: AddStep, env: Env)
    requires mail.relay.Some?
    ensures !StepAdd(s, t, id, mail, add, env).threads[t].Processing?
  {}

  lemma UncountedStep(s: State, t: Tid, env: Env)
    requires Safe(s) && Ready(s, t, env)
    ensures t in Step(s, t, env).threads
    ensures var th, th' := s.threads[t], Step(s, t, env).threads[t];
      th'.Processing? ==> th.Processing? && (Begun(th') || (th.at.LockQueue? && th' == Processing(th.pass, ReadQueue)))
  {
    StepTouchesOne(s, t, env);
    hide Safe, StepAdd, StepSend;
    match s.threads[t]
    case Sending(id, mail) => FirstSendStep(s, t, id, mail, env.reply, FirstOf(env.reply));
    case Adding(id, mail, add) => AddIsNoPass(s, t, id, mail, add, env);
    case Processing(p, at) =>
      hide StepLoop, StepTry, StepRemove, Begun;
      if InTry(at) {
        TryBegun(s, t, p, at, env);
      } else if InRemove(at) {
        RemoveBegun(s, t, p, at, env);
      } else {
        LoopBegun(s, t, p, at, env);
      }
  }

  lemma {:induction false} UncountedAt(c: Config, run: seq<Action>, n: nat)
    requires Possible(c, run) && n <= |run|
    ensures Uncounted(StateAt(c, run, n))
  {
    if n > 0 {
      UncountedAt(c, run, n - 1);
      NextState(c, run, n - 1);
      PossiblePrefix(c, run, n - 1);
      EveryRunSafe(c, run[..n - 1]);
      hide Safe, Uncounted, Apply, Allowed;
      UncountedAction(c, StateAt(c, run, n - 1), run[n - 1]);
    }
  }

  /** Action `n` is thread `t` reading the queue at the beginning of a pass; before action `m` the pass is about to
      give the queue back. */
  predicate PassFrom(c: Config, run: seq<Action>, n: nat, m: nat, t: Tid)
    requires Possible(c, run) && n < m <= |run|
  {
    var s, s' := StateAt(c, run, n), StateAt(c, run, m);
    && run[n].Run? && run[n].t == t
    && t in s.threads && s.threads[t].Processing? && s.threads[t].at.ReadQueue?
    && t in s'.threads && s'.threads[t].Processing? && s'.threads[t].at.UnlockQueue?
  }

  lemma PassReads(c: Config, s: State, t: Tid, env: Env)
    requires Steady(c) && Allowed(c, s, Run(t, env)) && Uncounted(s) && s.threads[t].Processing?
    requires s.threads[t].at.ReadQueue?
    ensures var s' := Apply(c, s, Run(t, env));
      t in s'.threads && Midway(s, s', s'.threads[t], s.threads[t].pass.batch, Retries(c))
  {
    hide Load;
    SameLoad(s, Apply(c, s, Run(t, env)), Retries(c));
  }

  lemma {:induction false} MidwayAt(c: Config, run: seq<Action>, n: nat, m: nat, t: Tid, batch: int)
    requires Steady(c) && Possible(c, run) && n < m <= |run| && run[n].Run? && run[n].t == t
    requires var s := StateAt(c, run, n);
      t in s.threads && s.threads[t].Processing? && s.threads[t].at.ReadQueue? && s.threads[t].pass.batch == batch
    ensures var s0, s := StateAt(c, run, n), StateAt(c, run, m);
      t in s.threads && (Midway(s0, s, s.threads[t], batch, Retries(c)) || s.threads[t] == Finished)
    decreases m
  {
    hide StateAt, Apply, Allowed, Midway, Uncounted, Good;
    NextState(c, run, m - 1);
    if m == n + 1 {
      UncountedAt(c, run, n);
      PassReads(c, StateAt(c, run, n), t, run[n].env);
    } else {
      MidwayAt(c, run, n, m - 1, t, batch);
      GoodAt(c, run, m - 1);
      MidwayAction(c, StateAt(c, run, n), StateAt(c, run, m - 1), run[m - 1], t, batch);
    }
  }

  lemma MidwayEnds(s0: State, s: State, th: Thread, batch: int, retries: int)
    requires Midway(s0, s, th, batch, retries) && th.at.UnlockQueue?
    ensures Load(s, retries) + Quota(|s0.index|, batch) <= Load(s0, retries)
  {
    hide Load;
    assert th.pass.todo == map[] <==> |th.pass.todo| == 0;
  }

  /** Every pass of every interleaving lowers the potential, from the moment it reads the queue to the moment it
      gives it back, by at least min(index size, batch + 1), whatever other calls do meanwhile. */
  lemma InterleavedPassDrains(c: Config, run: seq<Action>, n: nat, m: nat, t: Tid)
    requires Steady(c) && Possible(c, run) && n < m <= |run| && PassFrom(c, run, n, m, t)
    ensures LoadAt(c, run, m) + Quota(|StateAt(c, run, n).index|, StateAt(c, run, n).threads[t].pass.batch)
      <= LoadAt(c, run, n)
  {
    var s0, s := StateAt(c, run, n), StateAt(c, run, m);
    MidwayAt(c, run, n, m, t, s0.threads[t].pass.batch);
    hide StateAt, Load, Midway;
    MidwayEnds(s0, s, s.threads[t], s0.threads[t].pass.batch, Retries(c));
  }

  /** No email is listed from action `n` on. */
  ghost predicate NoListing(c: Config, run: seq<Action>, n: nat)
    requires Possible(c, run)
  {
    forall k :: n <= k < |run| ==> !ListsAt(c, run, k)
  }

  lemma {:induction false} LoadFalls(c: Config, run: seq<Action>, n: nat, m: nat)
    requires Steady(c) && Possible(c, run) && n <= m <= |run| && NoListing(c, run, n)
    ensures LoadAt(c, run, m) <= LoadAt(c, run, n)
    decreases m
  {
    hide LoadAt, ListsAt, EndsAt;
    if n < m {
      LoadFalls(c, run, n, m - 1);
      LoadStep(c, run, m - 1);
    }
  }

  /** A pass of a run: from where to where, and whose. */
  datatype Span = Span(start: nat, end: nat, t: Tid)

  function EndOf(n: nat, spans: seq<Span>): nat { if spans == [] then n else spans[|spans| - 1].end }

  predicate SpanAfter(c: Config, run: seq<Action>, n: nat, span: Span)
    requires Possible(c, run)
  {
    && n <= span.start < span.end <= |run|
    && PassFrom(c, run, span.start, span.end, span.t)
    && StateAt(c, run, span.start).threads[span.t].pass.batch >= 0
  }

  /** Successive passes with a batch size that is not negative, after action `n`. */
  predicate Spans(c: Config, run: seq<Action>, n: nat, spans: seq<Span>)
    requires Possible(c, run)
  {
    forall i :: 0 <= i < |spans| ==> SpanAfter(c, run, EndOf(n, spans[..i]), spans[i])
  }

  lemma OnePass(c: Config, run: seq<Action>, n: nat, m: nat, t: Tid)
    requires Steady(c) && Possible(c, run) && n < m <= |run| && PassFrom(c, run, n, m, t)
    requires StateAt(c, run, n).threads[t].pass.batch >= 0
    ensures LoadAt(c, run, m) < LoadAt(c, run, n) || LoadAt(c, run, m) <= 0
  {
    InterleavedPassDrains(c, run, n, m, t);
    LoadCoversIndex(StateAt(c, run, n), Retries(c));
    hide StateAt, Load;
  }

  lemma {:induction false} SpansDrain(c: Config, run: seq<Action>, n: nat, spans: seq<Span>)
    requires Steady(c) && Possible(c, run) && n <= |run| && NoListing(c, run, n) && Spans(c, run, n, spans)
    ensures n <= EndOf(n, spans) <= |run|
    ensures LoadAt(c, run, EndOf(n, spans)) + |spans| <= LoadAt(c, run, n) || LoadAt(c, run, EndOf(n, spans)) <= 0
  {
    hide LoadAt, StateAt, PassFrom, ListsAt;
    if spans != [] {
      var k := |spans| - 1;
      var before, last := spans[..k], spans[k];
      assert forall i :: 0 <= i < k ==> before[i] == spans[i] && before[..i] == spans[..i];
      assert SpanAfter(c, run, EndOf(n, before), last);
      SpansDrain(c, run, n, before);
      LoadFalls(c, run, EndOf(n, before), last.start);
      OnePass(c, run, last.start, last.end, last.t);
    }
  }

  /** In every interleaving: once no email is listed any more, the queue is empty after as many passes as its potential
      was, for any iteration orders, any answers of the mail sender and any other calls in between. */
  lemma InterleavedQueueEmpties(c: Config, run: seq<Action>, n: nat, spans: seq<Span>)
    requires Steady(c) && Possible(c, run) && n <= |run| && NoListing(c, run, n) && Spans(c, run, n, spans)
    requires |spans| >= LoadAt(c, run, n)
    ensures StateAt(c, run, |run|).index == map[]
  {
    SpansDrain(c, run, n, spans);
    LoadFalls(c, run, EndOf(n, spans), |run|);
    LoadCoversIndex(StateAt(c, run, |run|), Retries(c));
  }
}
