/** Every interleaving of `Bot.Sendmail`, `Queue.Add` and `Queue.Process`, one lock operation or
    one store access at a time (internal/bot/email.go, internal/bot/queue). */
module QueueProtocol {
  import opened Text
  import opened QueueStore

  type Tid = nat

  /** Program points of `Add`. */
  datatype AddStep =
    | LockItem | SetItem | LockIndex | GetIndex | SetIndex(copy: map<Id, Key>) | UnlockIndex | UnlockItem

  /** Program points of `Process`, with `try` and `Remove` unfolded. */
  datatype PassStep =
    | LockQueue | ReadQueue | NextEmail
    | LockEmail(id: Id, key: Key)
    | ReadEmail(id: Id, key: Key)
    | Send(id: Id, key: Key, item: Record, n: int)
    | Bump(id: Id, key: Key, item: Record, n: int)
    | UnlockEmail(id: Id, key: Key, dequeue: bool)
    | RereadQueue(id: Id)
    | Unlist(id: Id, copy: map<Id, Key>)
    | LockBlank(id: Id, key: Key)
    | WriteBlank(id: Id, key: Key)
    | UnlockBlank(id: Id, key: Key)
    | UnlockQueue

  /** The locals of one `Process` call: what is left of the index map it ranges over, and `i`. */
  datatype Pass = Pass(batch: int, retries: int, todo: map<Id, Key>, tried: nat)

  datatype Thread =
    | Sending(id: Id, mail: Mail)
    | Adding(id: Id, mail: Mail, add: AddStep)
    | Processing(pass: Pass, at: PassStep)
    | Crashed
    | Finished

  datatype First = NotYet | Delivered | Temporary | Permanent

  /** An email handed to `Sendmail`, and how its first send ended. */
  datatype Account = Account(mail: Mail, first: First)

  datatype Edit = Put(id: Id) | Drop(id: Id)

  /** `journal` lists the index edits in the order in which the store took them; `wire` the calls
      of the mail sender. */
  datatype State = State(
    locks: map<Key, Tid>,
    index: map<Id, Key>,
    items: map<Key, Record>,
    threads: map<Tid, Thread>,
    journal: seq<Edit>,
    wire: seq<Sent>,
    accounts: map<Id, Account>)

  /** What the outside world answers during one step. */
  datatype Env = Env(reply: Reply, write: Verdict, readOk: bool, pick: Id)

  datatype Action =
    | CallSendmail(t: Tid, id: Id, mail: Mail)
    | CallProcess(t: Tid, queueBatch: int, queueRetries: int)
    | Run(t: Tid, env: Env)

  /** Hypotheses on a run: no store access fails; no two emails share an id; `queue:retries` is fixed. */
  datatype Config = Config(reliable: bool, distinct: bool, retries: Option<int>)

  const INIT := State(map[], map[], map[], map[], [], [], map[])

  function Goto(s: State, t: Tid, th: Thread): State { s.(threads := s.threads[t := th]) }

  function Lock(s: State, t: Tid, key: Key): State { s.(locks := s.locks[key := t]) }

  function Unlock(s: State, key: Key): State { s.(locks := s.locks - {key}) }

  function WriteItem(s: State, key: Key, r: Record, v: Verdict): State {
    if v == Refused then s else s.(items := s.items[key := r])
  }

  function WriteIndex(s: State, index: map<Id, Key>, edit: Edit, v: Verdict): State {
    if v == Refused then s else s.(index := index, journal := s.journal + [edit])
  }

  function Deliver(s: State, id: Id, from: string, to: string, data: string, relay: Option<string>,
                   queued: bool, reply: Reply): State {
    s.(wire := s.wire + [Sent(id, from, to, data, relay, queued, reply)])
  }

  /** The lock a thread is about to take, if it is about to take one. */
  function Wants(th: Thread): Option<Key> {
    match th
    case Adding(id, _, LockItem) => Some(ItemKey(id))
    case Adding(_, _, LockIndex) => Some(QueueKey)
    case Processing(_, LockQueue) => Some(QueueKey)
    case Processing(_, LockEmail(_, key)) => Some(key)
    case Processing(_, LockBlank(_, key)) => Some(key)
    case _ => None
  }

  predicate Ended(th: Thread) { th.Crashed? || th.Finished? }

  predicate CanRun(s: State, t: Tid) {
    && t in s.threads
    && !Ended(s.threads[t])
    && (Wants(s.threads[t]).Some? ==> Wants(s.threads[t]).value !in s.locks)
  }

  /** The range loop goes on: an email is left and the batch counter has not passed the limit. */
  predicate Continues(p: Pass) { p.todo != map[] && p.tried <= p.batch }

  predicate Fits(th: Thread, env: Env) {
    th.Processing? && th.at.NextEmail? && Continues(th.pass) ==> env.pick in th.pass.todo
  }

  function FirstOf(reply: Reply): First {
    match reply
    case Accepted => Delivered
    case Rejected(message) => if ShouldQueue(message) then Temporary else Permanent
  }

  /** `Sendmail`, up to its call of `Add`. */
  function StepSend(s: State, t: Tid, id: Id, mail: Mail, reply: Reply, first: First): State {
    var s1 := Deliver(s, id, mail.from, mail.to, mail.data, mail.relay, false, reply);
    var s2 := s1.(accounts := s.accounts[id := Account(mail, first)]);
    if first != Temporary then Goto(s2, t, Finished)
    else if mail.relay.None? then Goto(s2, t, Crashed) // relayOverride[0].String() on a nil URL
    else Goto(s2, t, Adding(id, mail, LockItem))
  }

  function StepAdd(s: State, t: Tid, id: Id, mail: Mail, add: AddStep, env: Env): State
    requires mail.relay.Some?
  {
    match add
    case LockItem => Goto(Lock(s, t, ItemKey(id)), t, Adding(id, mail, SetItem))
    case SetItem =>
      Goto(WriteItem(s, ItemKey(id), NewRecord(id, mail), env.write), t,
           Adding(id, mail, if env.write == Acked then LockIndex else UnlockItem))
    case LockIndex => Goto(Lock(s, t, QueueKey), t, Adding(id, mail, GetIndex))
    case GetIndex => Goto(s, t, Adding(id, mail, if env.readOk then SetIndex(s.index) else UnlockIndex))
    case SetIndex(copy) =>
      Goto(WriteIndex(s, copy[id := ItemKey(id)], Put(id), env.write), t, Adding(id, mail, UnlockIndex))
    case UnlockIndex => Goto(Unlock(s, QueueKey), t, Adding(id, mail, UnlockItem))
    case UnlockItem => Goto(Unlock(s, ItemKey(id)), t, Finished)
  }

  function Onward(p: Pass): Thread { Processing(p.(tried := p.tried + 1), NextEmail) }

  predicate InTry(at: PassStep) {
    at.LockEmail? || at.ReadEmail? || at.Send? || at.Bump? || at.UnlockEmail?
  }

  predicate InRemove(at: PassStep) {
    at.RereadQueue? || at.Unlist? || at.LockBlank? || at.WriteBlank? || at.UnlockBlank?
  }

  /** `Process` itself. */
  function StepLoop(s: State, t: Tid, p: Pass, at: PassStep, env: Env): State
    requires !InTry(at) && !InRemove(at) && Fits(Processing(p, at), env)
  {
    match at
    case LockQueue => Goto(Lock(s, t, QueueKey), t, Processing(p, ReadQueue))
    case ReadQueue =>
      Goto(s, t, Processing(p.(todo := if env.readOk then s.index else map[]), NextEmail))
    case NextEmail =>
      Goto(s, t,
           if Continues(p)
           then Processing(p.(todo := p.todo - {env.pick}), LockEmail(env.pick, p.todo[env.pick]))
           else Processing(p, UnlockQueue))
    case UnlockQueue => Goto(Unlock(s, QueueKey), t, Finished)
  }

  /** `try`, called by `Process` with the queue lock held. */
  function StepTry(s: State, t: Tid, p: Pass, at: PassStep, env: Env): State
    requires InTry(at) && (at.Send? || at.Bump? ==> at.item.Full?)
  {
    match at
    case LockEmail(id, key) => Goto(Lock(s, t, key), t, Processing(p, ReadEmail(id, key)))
    case ReadEmail(id, key) =>
      var item := Fetch(s.items, key);
      var attempts := if env.readOk then Attempts(item) else None;
      Goto(s, t, Processing(p,
                            if attempts.None? then UnlockEmail(id, key, false)
                            else if attempts.value > p.retries then UnlockEmail(id, key, true)
                            else Send(id, key, item, attempts.value)))
    case Send(id, key, item, n) =>
      Goto(Deliver(s, id, item.from, item.to, item.data, RelayOf(item), true, env.reply), t,
           Processing(p, if env.reply.Accepted? then UnlockEmail(id, key, true) else Bump(id, key, item, n)))
    case Bump(id, key, item, n) =>
      Goto(WriteItem(s, key, item.(attempts := Itoa(n + 1)), env.write), t,
           Processing(p, UnlockEmail(id, key, false)))
    case UnlockEmail(id, key, dequeue) =>
      Goto(Unlock(s, key), t, if dequeue then Processing(p, RereadQueue(id)) else Onward(p))
  }

  /** `Remove`, called by `Process` with the queue lock held. */
  function StepRemove(s: State, t: Tid, p: Pass, at: PassStep, env: Env): State
    requires InRemove(at)
  {
    match at
    case RereadQueue(id) =>
      Goto(s, t, if env.readOk then Processing(p, Unlist(id, s.index)) else Onward(p))
    case Unlist(id, copy) =>
      var key := if id in copy then copy[id] else ItemKey(id);
      Goto(WriteIndex(s, copy - {id}, Drop(id), env.write), t,
           if env.write == Acked then Processing(p, LockBlank(id, key)) else Onward(p))
    case LockBlank(id, key) => Goto(Lock(s, t, key), t, Processing(p, WriteBlank(id, key)))
    case WriteBlank(id, key) =>
      Goto(WriteItem(s, key, Blank, env.write), t, Processing(p, UnlockBlank(id, key)))
    case UnlockBlank(id, key) => Goto(Unlock(s, key), t, Onward(p))
  }

  function StepPass(s: State, t: Tid, p: Pass, at: PassStep, env: Env): State
    requires Fits(Processing(p, at), env) && Sound(Processing(p, at))
  {
    if InTry(at) then StepTry(s, t, p, at, env)
    else if InRemove(at) then StepRemove(s, t, p, at, env)
    else StepLoop(s, t, p, at, env)
  }

  /** Local conditions under which `Step` is defined. They hold of every reachable thread. */
  predicate Sound(th: Thread) {
    && (th.Adding? ==> th.mail.relay.Some?)
    && (th.Processing? && (th.at.Send? || th.at.Bump?) ==> th.at.item.Full?)
  }

  predicate Ready(s: State, t: Tid, env: Env) {
    CanRun(s, t) && Fits(s.threads[t], env) && Sound(s.threads[t])
  }

  function Step(s: State, t: Tid, env: Env): State
    requires Ready(s, t, env)
  {
    match s.threads[t]
    case Sending(id, mail) => StepSend(s, t, id, mail, env.reply, FirstOf(env.reply))
    case Adding(id, mail, add) => StepAdd(s, t, id, mail, add, env)
    case Processing(p, at) => StepPass(s, t, p, at, env)
  }

  predicate Allowed(c: Config, s: State, a: Action) {
    match a
    case CallSendmail(t, id, mail) =>
      t !in s.threads && (c.distinct ==> id !in s.accounts)
    case CallProcess(t, _, queueRetries) =>
      t !in s.threads && (c.retries.Some? ==> queueRetries == c.retries.value)
    case Run(t, env) => Ready(s, t, env) && (c.reliable ==> env.write == Acked && env.readOk)
  }

  function Apply(c: Config, s: State, a: Action): State
    requires Allowed(c, s, a)
  {
    match a
    case CallSendmail(t, id, mail) =>
      Goto(s.(accounts := s.accounts[id := Account(mail, NotYet)]), t, Sending(id, mail))
    case CallProcess(t, queueBatch, queueRetries) =>
      var p := Pass(OrDefault(queueBatch, DEFAULT_BATCH), OrDefault(queueRetries, DEFAULT_RETRIES), map[], 0);
      Goto(s, t, Processing(p, LockQueue))
    case Run(t, env) => Step(s, t, env)
  }

  /** The action sequences that some scheduler can produce, and the state each leads to.
      A run may stop anywhere, so a crash between two store writes is one of these runs. */
  predicate Possible(c: Config, run: seq<Action>)
    decreases |run|, 0
  {
    run == [] || (var n := |run| - 1; Possible(c, run[..n]) && Allowed(c, After(c, run[..n]), run[n]))
  }

  function After(c: Config, run: seq<Action>): State
    requires Possible(c, run)
    decreases |run|, 1
  {
    if run == [] then INIT
    else var n := |run| - 1; Apply(c, After(c, run[..n]), run[n])
  }

  lemma {:induction false} PossiblePrefix(c: Config, run: seq<Action>, n: nat)
    requires Possible(c, run) && n <= |run|
    ensures Possible(c, run[..n])
    decreases |run|
  {
    if n < |run| {
      var m := |run| - 1;
      PossiblePrefix(c, run[..m], n);
      assert run[..m][..n] == run[..n];
    } else {
      assert run[..n] == run;
    }
  }

  /** The state before action `n`. */
  function StateAt(c: Config, run: seq<Action>, n: nat): State
    requires Possible(c, run) && n <= |run|
  {
    PossiblePrefix(c, run, n);
    After(c, run[..n])
  }

  lemma NextState(c: Config, run: seq<Action>, n: nat)
    requires Possible(c, run) && n < |run|
    ensures Allowed(c, StateAt(c, run, n), run[n])
    ensures StateAt(c, run, n + 1) == Apply(c, StateAt(c, run, n), run[n])
  {
    hide Apply, Allowed;
    PossiblePrefix(c, run, n + 1);
    assert run[..n + 1][..n] == run[..n];
  }

  /** Some call has not returned and no call can take a step. */
  ghost predicate Deadlocked(s: State) {
    (exists t :: t in s.threads && !Ended(s.threads[t])) && forall t :: t in s.threads ==> !CanRun(s, t)
  }

  function Redo(index: map<Id, Key>, e: Edit): map<Id, Key> {
    match e
    case Put(id) => index[id := ItemKey(id)]
    case Drop(id) => index - {id}
  }

  /** The index that results when no edit is lost. */
  function Replay(journal: seq<Edit>): map<Id, Key> {
    if journal == [] then map[]
    else Redo(Replay(journal[..|journal| - 1]), journal[|journal| - 1])
  }
}
