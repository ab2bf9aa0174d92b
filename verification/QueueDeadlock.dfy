/** When the retry queue can block. `Add` locks an item and then the index, `Process` the index and
    then items. A run blocks exactly in a circular wait on one email, which needs that email's id to
    be added again while it is listed; with distinct ids no reachable state is deadlocked. */
module QueueDeadlock {
  import opened Text
  import opened QueueStore
  import opened QueueProtocol
  import opened QueueSafety

  /** `a` adds `id` again, holding its item and waiting for the index; `p` holds the index and waits
      for that item. */
  ghost predicate CircularWait(s: State, a: Tid, p: Tid, id: Id) {
    && a in s.threads && s.threads[a].Adding? && s.threads[a].id == id && s.threads[a].add.LockIndex?
    && p in s.threads && s.threads[p].Processing? && Wants(s.threads[p]) == Some(ItemKey(id))
  }

  /** Whoever holds the index and waits, waits for an item; whoever holds an item and waits, adds it. */
  lemma WaitingHolders(s: State, t: Tid)
    requires Safe(s) && t in s.threads && Wants(s.threads[t]).Some?
    ensures QueueKey in Held(s.threads[t]) ==>
              s.threads[t].Processing? && Wants(s.threads[t]).value.ItemKey?
    ensures forall id :: ItemKey(id) in Held(s.threads[t]) ==>
                           s.threads[t].Adding? && s.threads[t].id == id && s.threads[t].add.LockIndex?
  {
    assert ThreadGood(s, s.threads[t]);
  }

  lemma Blocked(s: State, t: Tid) returns (k: Key, u: Tid)
    requires Safe(s) && Deadlocked(s) && t in s.threads && !Ended(s.threads[t])
    ensures Wants(s.threads[t]) == Some(k) && u in s.threads && k in Held(s.threads[u])
    ensures !Ended(s.threads[u])
  {
    assert !CanRun(s, t);
    k := Wants(s.threads[t]).value;
    u := s.locks[k];
  }

  lemma IndexHolderWaits(s: State, p: Tid) returns (a: Tid, id: Id)
    requires Safe(s) && Deadlocked(s) && p in s.threads && QueueKey in Held(s.threads[p])
    ensures CircularWait(s, a, p, id)
  {
    var k: Key;
    k, a := Blocked(s, p);
    WaitingHolders(s, p);
    id := k.id;
    var _, _ := Blocked(s, a);
    WaitingHolders(s, a);
  }

  lemma ItemHolderWaits(s: State, u: Tid, id: Id) returns (p: Tid)
    requires Safe(s) && Deadlocked(s) && u in s.threads && ItemKey(id) in Held(s.threads[u])
    ensures p in s.threads && QueueKey in Held(s.threads[p])
  {
    var k: Key;
    k, p := Blocked(s, u);
    WaitingHolders(s, u);
  }

  lemma SomeoneHoldsIndex(s: State) returns (p: Tid)
    requires Safe(s) && Deadlocked(s)
    ensures p in s.threads && QueueKey in Held(s.threads[p])
  {
    var t :| t in s.threads && !Ended(s.threads[t]);
    var k: Key;
    k, p := Blocked(s, t);
    if k.ItemKey? {
      p := ItemHolderWaits(s, p, k.id);
    }
  }

  /** Nothing else can block a run, whatever ids it uses. */
  lemma DeadlockIsCircularWait(s: State) returns (a: Tid, p: Tid, id: Id)
    requires Safe(s) && Deadlocked(s)
    ensures CircularWait(s, a, p, id)
  {
    p := SomeoneHoldsIndex(s);
    a, id := IndexHolderWaits(s, p);
  }

  lemma CircularWaitStuck(s: State, a: Tid, p: Tid, id: Id)
    requires Safe(s) && CircularWait(s, a, p, id)
    ensures a != p && !CanRun(s, a) && !CanRun(s, p)
  {
    assert ItemKey(id) in Held(s.threads[a]);
    assert QueueKey in Held(s.threads[p]);
  }

  /** An action touches the entry of one thread only, and of none that cannot run. */
  lemma OthersKept(c: Config, s: State, action: Action)
    requires Safe(s) && Allowed(c, s, action)
    ensures var s' := Apply(c, s, action);
      forall u :: u in s.threads && !CanRun(s, u) ==> u in s'.threads && s'.threads[u] == s.threads[u]
  {
    if action.Run? {
      StepTouchesOne(s, action.t, action.env);
    }
  }

  lemma CircularWaitStays(c: Config, s: State, action: Action, a: Tid, p: Tid, id: Id)
    requires Safe(s) && CircularWait(s, a, p, id) && Allowed(c, s, action)
    ensures CircularWait(Apply(c, s, action), a, p, id)
  {
    CircularWaitStuck(s, a, p, id);
    OthersKept(c, s, action);
  }

  /** Once there, for ever: neither of the two calls returns in any continuation of the run. */
  lemma {:induction false} CircularWaitIsPermanent(c: Config, run: seq<Action>, n: nat, a: Tid, p: Tid, id: Id)
    requires Possible(c, run) && n <= |run| && Possible(c, run[..n])
    requires CircularWait(After(c, run[..n]), a, p, id)
    ensures CircularWait(After(c, run), a, p, id)
    decreases |run|
  {
    if n == |run| {
      assert run[..n] == run;
    } else {
      var m := |run| - 1;
      assert run[..m][..n] == run[..n];
      CircularWaitIsPermanent(c, run[..m], n, a, p, id);
      var s := After(c, run[..m]);
      EveryRunSafe(c, run[..m]);
      CircularWaitStays(c, s, run[m], a, p, id);
    }
  }

  lemma StepTouchesOne(s: State, t: Tid, env: Env)
    requires Safe(s) && Ready(s, t, env)
    ensures var s' := Step(s, t, env); t in s'.threads && s'.threads == s.threads[t := s'.threads[t]]
  {
    assert ThreadGood(s, s.threads[t]);
    match s.threads[t]
    case Sending(id, mail) => SendLocks(s, t, id, mail, env.reply, FirstOf(env.reply));
    case Adding(id, mail, add) => AddLocks(s, t, id, mail, add, env);
    case Processing(p, at) => PassLocks(s, t, p, at, env);
  }

  /* ---------- distinct ids ---------- */

  /** The email that a `Sendmail` or `Add` call is about. */
  function ActiveId(th: Thread): Option<Id> {
    if th.Sending? || th.Adding? then Some(th.id) else None
  }

  /** The call has not yet written the index. */
  predicate Pending(th: Thread) {
    th.Sending? || (th.Adding? && !th.add.UnlockIndex? && !th.add.UnlockItem?)
  }

  /** The emails that a `Process` call knows of. */
  function PassIds(th: Thread): set<Id> {
    if th.Processing? then
      th.pass.todo.Keys + if OnListed(th.at) || OnUnlisted(th.at) then {th.at.id} else {}
    else {}
  }

  ghost predicate Known(s: State, th: Thread) {
    (ActiveId(th).Some? ==> ActiveId(th).value in s.accounts) && PassIds(th) <= s.accounts.Keys
  }

  ghost predicate Apart(th: Thread, other: Thread) {
    && (ActiveId(th).Some? ==> ActiveId(th) != ActiveId(other))
    && (Pending(th) ==> th.id !in PassIds(other))
    && (Pending(other) ==> other.id !in PassIds(th))
  }

  /** No two calls are about one email, and an email is not listed before its `Add` lists it. */
  ghost predicate DistinctIds(s: State) {
    && s.index.Keys <= s.accounts.Keys
    && (forall t :: t in s.threads ==> Known(s, s.threads[t]))
    && (forall t :: t in s.threads ==> Pending(s.threads[t]) ==> s.threads[t].id !in s.index)
    && (forall t, u :: t in s.threads && u in s.threads && t != u ==> Apart(s.threads[t], s.threads[u]))
  }

  /** What any step of thread `th` may do, as far as ids are concerned. */
  ghost predicate Mild(s: State, th: Thread, th': Thread, index': map<Id, Key>) {
    && ActiveId(th') in {None, ActiveId(th)}
    && (Pending(th') ==> Pending(th) && index'.Keys <= s.index.Keys)
    && PassIds(th') <= PassIds(th) + s.index.Keys
    && (forall id :: id in index' ==> id in s.index || (Pending(th) && id == th.id))
  }

  lemma MildKeepsDistinct(s: State, s': State, t: Tid, th': Thread)
    requires DistinctIds(s) && t in s.threads && Mild(s, s.threads[t], th', s'.index)
    requires s'.threads == s.threads[t := th'] && s'.accounts.Keys == s.accounts.Keys
    ensures DistinctIds(s')
  {
    var th := s.threads[t];
    forall u | u in s.threads && u != t
      ensures Apart(th', s.threads[u]) && Apart(s.threads[u], th')
      ensures Pending(s.threads[u]) ==> s.threads[u].id !in s'.index
    {
      assert Apart(th, s.threads[u]);
    }
    assert Known(s, th);
    assert Known(s', th');
    assert Pending(th') ==> th'.id !in s'.index;
    forall u | u in s'.threads ensures Known(s', s'.threads[u]) {
      if u != t { assert Known(s, s.threads[u]); }
    }
  }

  lemma SendMild(s: State, t: Tid, id: Id, mail: Mail, reply: Reply, first: First)
    ensures var s' := StepSend(s, t, id, mail, reply, first);
      Mild(s, Sending(id, mail), s'.threads[t], s'.index) && s'.accounts.Keys == s.accounts.Keys + {id}
  {
  }

  lemma AddMild(s: State, t: Tid, id: Id, mail: Mail, add: AddStep, env: Env)
    requires ThreadGood(s, Adding(id, mail, add))
    ensures var s' := StepAdd(s, t, id, mail, add, env);
      Mild(s, Adding(id, mail, add), s'.threads[t], s'.index) && s'.accounts == s.accounts
  {
  }

  lemma PassMild(s: State, t: Tid, p: Pass, at: PassStep, env: Env)
    requires ThreadGood(s, Processing(p, at)) && Fits(Processing(p, at), env) && Sound(Processing(p, at))
    ensures var s' := StepPass(s, t, p, at, env);
      Mild(s, Processing(p, at), s'.threads[t], s'.index) && s'.accounts == s.accounts
  {
    if InTry(at) {
      TryMild(s, t, p, at, env);
    } else if InRemove(at) {
      RemoveMild(s, t, p, at, env);
    } else {
      LoopMild(s, t, p, at, env);
    }
  }

  lemma LoopMild(s: State, t: Tid, p: Pass, at: PassStep, env: Env)
    requires !InTry(at) && !InRemove(at) && Fits(Processing(p, at), env) && PassGood(s, p, at)
    ensures var s' := StepLoop(s, t, p, at, env);
      Mild(s, Processing(p, at), s'.threads[t], s'.index) && s'.accounts == s.accounts
  {
  }

  lemma TryMild(s: State, t: Tid, p: Pass, at: PassStep, env: Env)
    requires InTry(at) && Sound(Processing(p, at)) && PassGood(s, p, at)
    ensures var s' := StepTry(s, t, p, at, env);
      Mild(s, Processing(p, at), s'.threads[t], s'.index) && s'.accounts == s.accounts
  {
  }

  lemma RemoveMild(s: State, t: Tid, p: Pass, at: PassStep, env: Env)
    requires InRemove(at) && PassGood(s, p, at)
    ensures var s' := StepRemove(s, t, p, at, env);
      Mild(s, Processing(p, at), s'.threads[t], s'.index) && s'.accounts == s.accounts
  {
  }

  lemma DistinctAfterStep(s: State, t: Tid, env: Env)
    requires Safe(s) && DistinctIds(s) && Ready(s, t, env)
    ensures DistinctIds(Step(s, t, env))
  {
    var s' := Step(s, t, env);
    var th := s.threads[t];
    assert ThreadGood(s, th) && Known(s, th);
    StepTouchesOne(s, t, env);
    match th {
      case Sending(id, mail) => SendMild(s, t, id, mail, env.reply, FirstOf(env.reply));
      case Adding(id, mail, add) => AddMild(s, t, id, mail, add, env);
      case Processing(p, at) => PassMild(s, t, p, at, env);
    }
    MildKeepsDistinct(s, s', t, s'.threads[t]);
  }

  lemma DistinctAfterCall(s: State, s': State, t: Tid, th: Thread)
    requires Safe(s) && DistinctIds(s) && t !in s.threads && PassIds(th) == {}
    requires s'.threads == s.threads[t := th] && s'.index == s.index
    requires ActiveId(th).Some? ==> ActiveId(th).value !in s.accounts
    requires s.accounts.Keys <= s'.accounts.Keys && Known(s', th)
    ensures DistinctIds(s')
  {
    forall u | u in s.threads
      ensures Apart(th, s.threads[u]) && Apart(s.threads[u], th) && Known(s', s.threads[u])
    {
      assert Known(s, s.threads[u]);
    }
  }

  lemma DistinctAfter(c: Config, s: State, a: Action)
    requires c.distinct && Safe(s) && DistinctIds(s) && Allowed(c, s, a)
    ensures DistinctIds(Apply(c, s, a))
  {
    match a
    case CallSendmail(t, id, mail) => DistinctAfterCall(s, Apply(c, s, a), t, Sending(id, mail));
    case CallProcess(t, _, _) => DistinctAfterCall(s, Apply(c, s, a), t, Apply(c, s, a).threads[t]);
    case Run(t, env) => DistinctAfterStep(s, t, env);
  }

  lemma {:induction false} EveryRunDistinct(c: Config, run: seq<Action>)
    requires c.distinct && Possible(c, run)
    ensures DistinctIds(After(c, run))
  {
    if run != [] {
      var n := |run| - 1;
      EveryRunDistinct(c, run[..n]);
      EveryRunSafe(c, run[..n]);
      DistinctAfter(c, After(c, run[..n]), run[n]);
    }
  }

  /** A circular wait is about an id that is added again while a pass still knows it. */
  lemma CircularWaitReuses(s: State, a: Tid, p: Tid, id: Id)
    requires Safe(s) && CircularWait(s, a, p, id)
    ensures a != p && !Apart(s.threads[a], s.threads[p])
  {
    assert ThreadGood(s, s.threads[p]);
  }

  lemma DistinctNotDeadlocked(s: State)
    requires Safe(s) && DistinctIds(s)
    ensures !Deadlocked(s)
  {
    if Deadlocked(s) {
      var a, p, id := DeadlockIsCircularWait(s);
      CircularWaitReuses(s, a, p, id);
    }
  }

  /** With distinct ids some unfinished call can always go on, although the two operations lock in
      opposite orders and any store access may fail. */
  lemma DistinctIdsNeverDeadlock(c: Config, run: seq<Action>)
    requires c.distinct && Possible(c, run)
    ensures !Deadlocked(After(c, run))
  {
    EveryRunSafe(c, run);
    EveryRunDistinct(c, run);
    DistinctNotDeadlocked(After(c, run));
  }

  /* ---------- no call is stuck ---------- */

  /** Some step of `t` is possible now. */
  ghost predicate Goes(c: Config, s: State, t: Tid) { exists env :: Allowed(c, s, Run(t, env)) }

  /** `t` waits for a lock that `u` holds. */
  ghost predicate Awaits(s: State, t: Tid, u: Tid) {
    && t in s.threads && Wants(s.threads[t]).Some?
    && Wants(s.threads[t]).value in s.locks && s.locks[Wants(s.threads[t]).value] == u
  }

  lemma CanRunGoes(c: Config, s: State, t: Tid)
    requires Safe(s) && CanRun(s, t)
    ensures Goes(c, s, t)
  {
    SafeIsSound(s, t);
    hide Safe;
    var th := s.threads[t];
    var pick := if th.Processing? && th.pass.todo != map[] then (var id :| id in th.pass.todo; id) else "";
    assert Allowed(c, s, Run(t, Env(Accepted, Acked, true, pick)));
  }

  /** A call that cannot run waits for another one, which holds the lock it wants. */
  lemma BlockedAwaits(s: State, t: Tid) returns (u: Tid)
    requires Safe(s) && t in s.threads && !Ended(s.threads[t]) && !CanRun(s, t)
    ensures Awaits(s, t, u) && u in s.threads && !Ended(s.threads[u])
    ensures Wants(s.threads[t]).value in Held(s.threads[u])
  {
    u := s.locks[Wants(s.threads[t]).value];
  }

  /** With distinct ids, whoever holds an email's item that another call wants can run. */
  lemma ItemHolderRuns(s: State, t: Tid, u: Tid, id: Id)
    requires Safe(s) && DistinctIds(s) && t in s.threads && u in s.threads
    requires Wants(s.threads[t]) == Some(ItemKey(id)) && ItemKey(id) in Held(s.threads[u])
    ensures CanRun(s, u)
  {
    assert ThreadGood(s, s.threads[t]) && ThreadGood(s, s.threads[u]);
    assert t != u ==> Apart(s.threads[t], s.threads[u]);
    if Wants(s.threads[u]).Some? { WaitingHolders(s, u); }
  }

  /** With distinct ids every unfinished call of every reachable state can go on, or waits for one that can, or for one
      that waits for one that can, whatever the other calls do. */
  lemma EveryCallGoesOn(c: Config, run: seq<Action>, t: Tid)
    requires c.distinct && Possible(c, run)
    requires var s := After(c, run); t in s.threads && !Ended(s.threads[t])
    ensures var s := After(c, run);
      || Goes(c, s, t)
      || exists u :: Awaits(s, t, u) && (Goes(c, s, u) || exists v :: Awaits(s, u, v) && Goes(c, s, v))
  {
    EveryRunSafe(c, run);
    EveryRunDistinct(c, run);
    hide Possible, After, Goes, Awaits;
    var s := After(c, run);
    if CanRun(s, t) {
      CanRunGoes(c, s, t);
    } else {
      var u := BlockedAwaits(s, t);
      if CanRun(s, u) {
        CanRunGoes(c, s, u);
      } else {
        var v := BlockedAwaits(s, u);
        IndexHolderAwaits(s, t, u, v);
        CanRunGoes(c, s, v);
      }
    }
  }

  lemma IndexHolderAwaits(s: State, t: Tid, u: Tid, v: Tid)
    requires Safe(s) && DistinctIds(s) && t in s.threads && u in s.threads && v in s.threads && !CanRun(s, u)
    requires Wants(s.threads[t]).Some? && Wants(s.threads[t]).value in Held(s.threads[u])
    requires Wants(s.threads[u]).Some? && Wants(s.threads[u]).value in Held(s.threads[v])
    ensures CanRun(s, v)
  {
    match Wants(s.threads[t]).value
    case ItemKey(id) => ItemHolderRuns(s, t, u, id);
    case QueueKey =>
      WaitingHolders(s, u);
      ItemHolderRuns(s, u, v, Wants(s.threads[u]).value.id);
  }
}
