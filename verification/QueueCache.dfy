/** What the server holds while the process sees its cache: the cache takes every write of the queue at once, the server
    only those it does not refuse. Wherever a run stops, the server's index points to whole records
    (internal/bot/queue/queue.go, internal/bot/queue/manager.go). */
module QueueCache {
  import opened Text
  import opened QueueStore
  import opened QueueProtocol
  import opened QueueSafety

  datatype Server = Server(index: map<Id, Key>, items: map<Key, Record>)

  const EMPTY := Server(map[], map[])

  /** The server's records after a step of thread `th`, if it takes the step's write. */
  function Stored(sv: Server, th: Thread): Server {
    match th
    case Adding(id, mail, SetItem) =>
      if mail.relay.Some? then sv.(items := sv.items[ItemKey(id) := NewRecord(id, mail)]) else sv
    case Adding(id, _, SetIndex(copy)) => sv.(index := copy[id := ItemKey(id)])
    case Processing(_, Bump(_, key, item, n)) =>
      if item.Full? then sv.(items := sv.items[key := item.(attempts := Itoa(n + 1))]) else sv
    case Processing(_, Unlist(id, copy)) => sv.(index := copy - {id})
    case Processing(_, WriteBlank(_, key)) => sv.(items := sv.items[key := Blank])
    case _ => sv
  }

  /** An acknowledged write is on the server; of one that was answered with an error, `took` tells. */
  function ServerNext(sv: Server, s: State, a: Action, took: bool): Server {
    if a.Run? && a.t in s.threads && (a.env.write == Acked || took) then Stored(sv, s.threads[a.t]) else sv
  }

  /** The process sees each of its writes, acknowledged or not. */
  predicate AllSeen(run: seq<Action>) { forall i :: 0 <= i < |run| && run[i].Run? ==> run[i].env.write != Refused }

  /** What the server holds after a run. */
  function ServerAfter(c: Config, run: seq<Action>, took: nat -> bool): Server
    requires Possible(c, run)
  {
    if run == [] then EMPTY
    else var n := |run| - 1; ServerNext(ServerAfter(c, run[..n], took), After(c, run[..n]), run[n], took(n))
  }

  ghost predicate Whole(sv: Server, id: Id) { Complete(Fetch(sv.items, ItemKey(id)), id) }

  /** What the server must hold for a call at this point. */
  ghost predicate Backed(sv: Server, th: Thread) {
    && (th.Adding? && (th.add.LockIndex? || th.add.GetIndex? || th.add.SetIndex?) ==> Whole(sv, th.id))
    && (th.Processing? && OnUnlisted(th.at) ==> th.at.id !in sv.index)
  }

  /** Every email listed on the server, or in the cache, has its whole record on the server. */
  ghost predicate Intact(sv: Server, s: State) {
    && (forall id :: id in sv.index ==> sv.index[id] == ItemKey(id) && Whole(sv, id))
    && (forall id :: id in s.index ==> Whole(sv, id))
    && (forall t :: t in s.threads ==> Backed(sv, s.threads[t]))
  }

  // ---------- one step

  /** How the index, the server and the stepping thread hang together after a step. */
  ghost predicate Kept(sv: Server, sv': Server, s: State, s': State, t: Tid, th': Thread) {
    && t in s.threads && s'.threads == s.threads[t := th']
    && (forall id :: id in sv'.index ==> sv'.index[id] == ItemKey(id) && Whole(sv', id))
    && (forall id :: id in s'.index ==> Whole(sv', id))
    && Backed(sv', th')
    && (forall k :: Fetch(sv'.items, k) != Fetch(sv.items, k) ==> k in Held(s.threads[t]))
    && (sv'.index == sv.index || QueueKey in Held(s.threads[t]))
  }

  lemma OthersBacked(sv: Server, sv': Server, s: State, s': State, t: Tid, th': Thread)
    requires LocksMatch(s) && Intact(sv, s) && t in s.threads && Kept(sv, sv', s, s', t, th')
    ensures Intact(sv', s')
  {
    forall u | u in s.threads && u != t
      ensures Backed(sv', s.threads[u])
    {
      var other := s.threads[u];
      assert Backed(sv, other);
      if other.Adding? && (other.add.LockIndex? || other.add.GetIndex? || other.add.SetIndex?) {
        assert ItemKey(other.id) in Held(other);
        HoldersDiffer(s, u, t, ItemKey(other.id));
      }
      if other.Processing? && OnUnlisted(other.at) {
        assert QueueKey in Held(other);
        HoldersDiffer(s, u, t, QueueKey);
      }
    }
  }

  lemma OtherAddKept(sv: Server, s: State, t: Tid, id: Id, mail: Mail, add: AddStep, env: Env, took: bool)
    requires Intact(sv, s) && t in s.threads && s.threads[t] == Adding(id, mail, add) && mail.relay.Some?
    requires !add.SetItem? && !add.SetIndex?
    ensures var s' := StepAdd(s, t, id, mail, add, env);
      Kept(sv, ServerNext(sv, s, Run(t, env), took), s, s', t, s'.threads[t])
  {
    assert Backed(sv, s.threads[t]);
    hide Complete;
  }

  /** A whole record is written, on the server or not. */
  lemma RecordKept(sv: Server, sv': Server, s: State, s': State, t: Tid, th': Thread, x: Id, r: Record)
    requires Intact(sv, s) && t in s.threads && s'.threads == s.threads[t := th'] && s'.index == s.index
    requires Complete(r, x) && (sv' == sv || sv' == sv.(items := sv.items[ItemKey(x) := r]))
    requires ItemKey(x) in Held(s.threads[t]) && Backed(sv', th')
    ensures Kept(sv, sv', s, s', t, th')
  {
    hide Complete;
  }

  lemma SetItemGoes(sv: Server, s: State, t: Tid, id: Id, mail: Mail, env: Env, took: bool)
    requires t in s.threads && s.threads[t] == Adding(id, mail, SetItem) && mail.relay.Some?
    requires Complete(NewRecord(id, mail), id)
    ensures var s', sv' := StepAdd(s, t, id, mail, SetItem, env), ServerNext(sv, s, Run(t, env), took);
      && t in s'.threads && s'.threads == s.threads[t := s'.threads[t]] && s'.index == s.index
      && Backed(sv', s'.threads[t])
      && (sv' == sv || sv' == sv.(items := sv.items[ItemKey(id) := NewRecord(id, mail)]))
  {
    hide Complete, NewRecord;
  }

  lemma SetItemKept(sv: Server, s: State, t: Tid, id: Id, mail: Mail, env: Env, took: bool)
    requires Intact(sv, s) && t in s.threads && s.threads[t] == Adding(id, mail, SetItem) && mail.relay.Some?
    ensures var s' := StepAdd(s, t, id, mail, SetItem, env);
      t in s'.threads && Kept(sv, ServerNext(sv, s, Run(t, env), took), s, s', t, s'.threads[t])
  {
    NewRecordComplete(id, mail);
    SetItemGoes(sv, s, t, id, mail, env, took);
    hide Complete, NewRecord, StepAdd, ServerNext, Intact, Kept, Backed;
    var s' := StepAdd(s, t, id, mail, SetItem, env);
    RecordKept(sv, ServerNext(sv, s, Run(t, env), took), s, s', t, s'.threads[t], id, NewRecord(id, mail));
  }

  /** Another index is written, on the server or not: it lists nothing that is not whole. */
  lemma IndexKept(sv: Server, sv': Server, s: State, s': State, t: Tid, th': Thread)
    requires Intact(sv, s) && t in s.threads && s'.threads == s.threads[t := th'] && QueueKey in Held(s.threads[t])
    requires sv' == sv || sv' == sv.(index := s'.index)
    requires forall id :: id in s'.index ==> s'.index[id] == ItemKey(id) && (id in s.index || Whole(sv, id))
    requires Backed(sv', th')
    ensures Kept(sv, sv', s, s', t, th')
  {
    hide Complete;
  }

  lemma SetIndexGoes(sv: Server, s: State, t: Tid, id: Id, mail: Mail, env: Env, took: bool)
    requires t in s.threads && s.threads[t] == Adding(id, mail, SetIndex(s.index)) && mail.relay.Some?
    requires env.write != Refused
    ensures var s', sv' := StepAdd(s, t, id, mail, SetIndex(s.index), env), ServerNext(sv, s, Run(t, env), took);
      && t in s'.threads && s'.threads == s.threads[t := s'.threads[t]] && s'.index == s.index[id := ItemKey(id)]
      && Backed(sv', s'.threads[t]) && (sv' == sv || sv' == sv.(index := s'.index))
  {
    hide Complete;
  }

  lemma SetIndexKept(sv: Server, s: State, t: Tid, id: Id, mail: Mail, env: Env, took: bool)
    requires Intact(sv, s) && IndexGood(s) && t in s.threads && s.threads[t] == Adding(id, mail, SetIndex(s.index))
    requires mail.relay.Some? && env.write != Refused
    ensures var s' := StepAdd(s, t, id, mail, SetIndex(s.index), env);
      t in s'.threads && Kept(sv, ServerNext(sv, s, Run(t, env), took), s, s', t, s'.threads[t])
  {
    assert Backed(sv, s.threads[t]);
    SetIndexGoes(sv, s, t, id, mail, env, took);
    hide Complete, StepAdd, ServerNext, Intact, Kept;
    var s' := StepAdd(s, t, id, mail, SetIndex(s.index), env);
    IndexKept(sv, ServerNext(sv, s, Run(t, env), took), s, s', t, s'.threads[t]);
  }

  lemma BumpGoes(sv: Server, s: State, t: Tid, p: Pass, at: PassStep, env: Env, took: bool)
    requires t in s.threads && s.threads[t] == Processing(p, at) && at.Bump? && at.item.Full? && PassGood(s, p, at)
    ensures var s', sv' := StepTry(s, t, p, at, env), ServerNext(sv, s, Run(t, env), took);
      var th' := Processing(p, UnlockEmail(at.id, at.key, false));
      && s'.threads == s.threads[t := th'] && s'.index == s.index && Backed(sv', th')
      && (sv' == sv || sv' == sv.(items := sv.items[ItemKey(at.id) := at.item.(attempts := Itoa(at.n + 1))]))
  {
    hide Attempts, Itoa;
  }

  lemma BumpKept(sv: Server, s: State, t: Tid, p: Pass, at: PassStep, env: Env, took: bool)
    requires Intact(sv, s) && IndexGood(s) && t in s.threads && s.threads[t] == Processing(p, at)
    requires at.Bump? && at.item.Full? && PassGood(s, p, at)
    ensures var s' := StepTry(s, t, p, at, env);
      t in s'.threads && Kept(sv, ServerNext(sv, s, Run(t, env), took), s, s', t, s'.threads[t])
  {
    BumpGoes(sv, s, t, p, at, env, took);
    hide Complete, Attempts, Itoa, StepTry, ServerNext, Intact, Kept, Backed;
    BumpComplete(at.item, at.id, at.n + 1);
    RecordKept(sv, ServerNext(sv, s, Run(t, env), took), s, StepTry(s, t, p, at, env), t,
               Processing(p, UnlockEmail(at.id, at.key, false)), at.id, at.item.(attempts := Itoa(at.n + 1)));
  }

  lemma UnlistGoes(sv: Server, s: State, t: Tid, p: Pass, at: PassStep, env: Env, took: bool)
    requires t in s.threads && s.threads[t] == Processing(p, at) && at.Unlist? && PassGood(s, p, at)
    requires env.write != Refused
    ensures var s', sv' := StepRemove(s, t, p, at, env), ServerNext(sv, s, Run(t, env), took);
      && t in s'.threads && s'.threads == s.threads[t := s'.threads[t]] && s'.index == s.index - {at.id}
      && Backed(sv', s'.threads[t]) && (sv' == sv || sv' == sv.(index := s'.index))
  {
    hide Complete, Attempts;
  }

  lemma UnlistKept(sv: Server, s: State, t: Tid, p: Pass, at: PassStep, env: Env, took: bool)
    requires Intact(sv, s) && IndexGood(s) && t in s.threads && s.threads[t] == Processing(p, at)
    requires at.Unlist? && PassGood(s, p, at) && env.write != Refused
    ensures var s' := StepRemove(s, t, p, at, env);
      t in s'.threads && Kept(sv, ServerNext(sv, s, Run(t, env), took), s, s', t, s'.threads[t])
  {
    UnlistGoes(sv, s, t, p, at, env, took);
    hide Complete, Attempts, StepRemove, ServerNext, Intact, Kept, Backed;
    var s' := StepRemove(s, t, p, at, env);
    IndexKept(sv, ServerNext(sv, s, Run(t, env), took), s, s', t, s'.threads[t]);
  }

  lemma BlankGoes(sv: Server, s: State, t: Tid, p: Pass, at: PassStep, env: Env, took: bool)
    requires t in s.threads && s.threads[t] == Processing(p, at) && at.WriteBlank? && PassGood(s, p, at)
    requires at.id !in sv.index
    ensures var s', sv' := StepRemove(s, t, p, at, env), ServerNext(sv, s, Run(t, env), took);
      && t in s'.threads && s'.threads == s.threads[t := s'.threads[t]] && s'.index == s.index
      && Backed(sv', s'.threads[t]) && (sv' == sv || sv' == sv.(items := sv.items[ItemKey(at.id) := Blank]))
  {
    hide Complete, Attempts;
  }

  /** The record of an email that is listed nowhere is blanked, on the server or not. */
  lemma BlankedKept(sv: Server, sv': Server, s: State, s': State, t: Tid, th': Thread, x: Id)
    requires Intact(sv, s) && t in s.threads && s'.threads == s.threads[t := th'] && s'.index == s.index
    requires x !in sv.index && x !in s.index && (sv' == sv || sv' == sv.(items := sv.items[ItemKey(x) := Blank]))
    requires ItemKey(x) in Held(s.threads[t]) && Backed(sv', th')
    ensures Kept(sv, sv', s, s', t, th')
  {
    hide Complete;
  }

  lemma BlankKept(sv: Server, s: State, t: Tid, p: Pass, at: PassStep, env: Env, took: bool)
    requires Intact(sv, s) && t in s.threads && s.threads[t] == Processing(p, at) && at.WriteBlank?
    requires PassGood(s, p, at)
    ensures var s' := StepRemove(s, t, p, at, env);
      t in s'.threads && Kept(sv, ServerNext(sv, s, Run(t, env), took), s, s', t, s'.threads[t])
  {
    assert Backed(sv, s.threads[t]);
    BlankGoes(sv, s, t, p, at, env, took);
    hide Complete, Attempts, StepRemove, ServerNext, Intact, Kept, Backed;
    var s' := StepRemove(s, t, p, at, env);
    BlankedKept(sv, ServerNext(sv, s, Run(t, env), took), s, s', t, s'.threads[t], at.id);
  }

  predicate Writes(at: PassStep) { at.Bump? || at.Unlist? || at.WriteBlank? }

  lemma QuietKept(sv: Server, s: State, s': State, t: Tid, th': Thread)
    requires Intact(sv, s) && t in s.threads && s'.threads == s.threads[t := th'] && s'.index == s.index
    requires Backed(sv, th')
    ensures Kept(sv, sv, s, s', t, th')
  {}

  lemma ReadingPass(sv: Server, s: State, t: Tid, p: Pass, at: PassStep, env: Env)
    requires Intact(sv, s) && t in s.threads && s.threads[t] == Processing(p, at) && !Writes(at)
    requires Fits(s.threads[t], env) && Sound(s.threads[t])
    ensures var s' := StepPass(s, t, p, at, env);
      s'.threads == s.threads[t := s'.threads[t]] && s'.index == s.index && Backed(sv, s'.threads[t])
  {
    assert Backed(sv, s.threads[t]);
    hide Complete, Attempts;
  }

  lemma PassKept(sv: Server, s: State, t: Tid, p: Pass, at: PassStep, env: Env, took: bool)
    requires Intact(sv, s) && Safe(s) && Ready(s, t, env) && s.threads[t] == Processing(p, at) && env.write != Refused
    ensures var s' := StepPass(s, t, p, at, env);
      t in s'.threads && Kept(sv, ServerNext(sv, s, Run(t, env), took), s, s', t, s'.threads[t])
  {
    assert ThreadGood(s, s.threads[t]);
    PassLocks(s, t, p, at, env);
    hide Intact, Safe, Kept, LocksMatch;
    if at.Bump? {
      BumpKept(sv, s, t, p, at, env, took);
    } else if at.Unlist? {
      UnlistKept(sv, s, t, p, at, env, took);
    } else if at.WriteBlank? {
      BlankKept(sv, s, t, p, at, env, took);
    } else {
      ReadingPass(sv, s, t, p, at, env);
      var s' := StepPass(s, t, p, at, env);
      hide StepPass;
      QuietKept(sv, s, s', t, s'.threads[t]);
    }
  }

  lemma AddKept(sv: Server, s: State, t: Tid, id: Id, mail: Mail, add: AddStep, env: Env, took: bool)
    requires Intact(sv, s) && Safe(s) && Ready(s, t, env) && s.threads[t] == Adding(id, mail, add)
    requires env.write != Refused
    ensures var s' := StepAdd(s, t, id, mail, add, env);
      t in s'.threads && Kept(sv, ServerNext(sv, s, Run(t, env), took), s, s', t, s'.threads[t])
  {
    assert ThreadGood(s, s.threads[t]);
    AddLocks(s, t, id, mail, add, env);
    hide Intact, Safe, Kept, LocksMatch;
    if add.SetItem? {
      SetItemKept(sv, s, t, id, mail, env, took);
    } else if add.SetIndex? {
      SetIndexKept(sv, s, t, id, mail, env, took);
    } else {
      OtherAddKept(sv, s, t, id, mail, add, env, took);
    }
  }

  lemma SendKept(sv: Server, s: State, t: Tid, id: Id, mail: Mail, env: Env, took: bool)
    requires Intact(sv, s) && Ready(s, t, env) && s.threads[t] == Sending(id, mail)
    ensures var s' := Step(s, t, env);
      t in s'.threads && Kept(sv, ServerNext(sv, s, Run(t, env), took), s, s', t, s'.threads[t])
  {
    SendLocks(s, t, id, mail, env.reply, FirstOf(env.reply));
    var s' := Step(s, t, env);
    QuietKept(sv, s, s', t, s'.threads[t]);
  }

  lemma IntactAfter(c: Config, sv: Server, s: State, a: Action, took: bool)
    requires Intact(sv, s) && Safe(s) && Allowed(c, s, a) && (a.Run? ==> a.env.write != Refused)
    ensures Intact(ServerNext(sv, s, a, took), Apply(c, s, a))
  {
    match a
    case CallSendmail(t, id, mail) =>
    case CallProcess(t, _, _) =>
    case Run(t, env) =>
      assert LocksMatch(s);
      match s.threads[t] {
        case Sending(id, mail) => SendKept(sv, s, t, id, mail, env, took);
        case Adding(id, mail, add) => AddKept(sv, s, t, id, mail, add, env, took);
        case Processing(p, at) => PassKept(sv, s, t, p, at, env, took);
      }
      hide Intact, Safe, Kept, LocksMatch, StepAdd, StepPass, StepSend, Stored;
      var s' := Step(s, t, env);
      OthersBacked(sv, ServerNext(sv, s, a, took), s, s', t, s'.threads[t]);
  }

  lemma {:induction false} EveryRunIntact(c: Config, run: seq<Action>, took: nat -> bool)
    requires Possible(c, run) && AllSeen(run)
    ensures Intact(ServerAfter(c, run, took), After(c, run))
  {
    if run != [] {
      var n := |run| - 1;
      EveryRunIntact(c, run[..n], took);
      EveryRunSafe(c, run[..n]);
      hide Intact, Safe, Apply, Allowed, ServerNext;
      IntactAfter(c, ServerAfter(c, run[..n], took), After(c, run[..n]), run[n], took(n));
    }
  }

  /** Wherever a run stops, whichever writes the server refused while the cache kept them, and whatever ids are
      used: every entry of the server's index points to its own key's whole record on the server. */
  lemma StoppedRunLeavesWholeRecords(c: Config, run: seq<Action>, took: nat -> bool, id: Id)
    requires Possible(c, run) && AllSeen(run) && id in ServerAfter(c, run, took).index
    ensures var sv := ServerAfter(c, run, took);
      sv.index[id] == ItemKey(id) && Complete(Fetch(sv.items, ItemKey(id)), id)
  {
    EveryRunIntact(c, run, took);
  }

  /** A server that takes every write holds just what the process sees. */
  lemma {:induction false} AckedMirrors(c: Config, run: seq<Action>, took: nat -> bool)
    requires Possible(c, run) && forall i :: 0 <= i < |run| && run[i].Run? ==> run[i].env.write == Acked
    ensures ServerAfter(c, run, took) == Server(After(c, run).index, After(c, run).items)
  {
    if run != [] {
      var n := |run| - 1;
      AckedMirrors(c, run[..n], took);
      EveryRunSafe(c, run[..n]);
      hide Safe, Apply, Allowed, ServerNext;
      MirrorStep(c, After(c, run[..n]), run[n], took(n));
    }
  }

  lemma MirrorStep(c: Config, s: State, a: Action, took: bool)
    requires Safe(s) && Allowed(c, s, a) && (a.Run? ==> a.env.write == Acked)
    ensures var s' := Apply(c, s, a); ServerNext(Server(s.index, s.items), s, a, took) == Server(s'.index, s'.items)
  {
    hide Safe;
    if a.Run? {
      match s.threads[a.t]
      case Sending(id, mail) => SendData(s, a.t, id, mail, a.env.reply, FirstOf(a.env.reply));
      case Adding(id, mail, add) => MirrorAdd(s, a.t, id, mail, add, a.env, took);
      case Processing(p, at) => MirrorPass(s, a.t, p, at, a.env, took);
    }
    hide StepSend, StepAdd, StepPass, Stored;
  }

  lemma MirrorAdd(s: State, t: Tid, id: Id, mail: Mail, add: AddStep, env: Env, took: bool)
    requires t in s.threads && s.threads[t] == Adding(id, mail, add) && mail.relay.Some? && env.write == Acked
    ensures var s' := StepAdd(s, t, id, mail, add, env);
      ServerNext(Server(s.index, s.items), s, Run(t, env), took) == Server(s'.index, s'.items)
  {
    hide NewRecord;
  }

  lemma MirrorPass(s: State, t: Tid, p: Pass, at: PassStep, env: Env, took: bool)
    requires t in s.threads && s.threads[t] == Processing(p, at) && env.write == Acked
    requires Fits(Processing(p, at), env) && Sound(Processing(p, at))
    ensures var s' := StepPass(s, t, p, at, env);
      ServerNext(Server(s.index, s.items), s, Run(t, env), took) == Server(s'.index, s'.items)
  {
    hide Attempts, Itoa;
  }
}
