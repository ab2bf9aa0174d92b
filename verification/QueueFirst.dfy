/** How `Sendmail` goes on after its own attempt: delivered, queued or given up, by the answer to that one attempt
    (internal/bot/email.go). */
module QueueFirst {
  import opened Text
  import opened QueueStore
  import opened QueueProtocol
  import opened QueueSafety
  import opened QueueDeadlock
  import opened QueueConservation

  /** The answers to an email's attempts outside the queue. */
  function Firsts(wire: seq<Sent>, id: Id): seq<Reply> {
    if wire == [] then []
    else
      var last := wire[|wire| - 1];
      Firsts(wire[..|wire| - 1], id) + if last.id == id && !last.queued then [last.reply] else []
  }

  lemma FirstsAppend(wire: seq<Sent>, sent: Sent, id: Id)
    ensures Firsts(wire + [sent], id) == Firsts(wire, id) + if sent.id == id && !sent.queued then [sent.reply] else []
  {
    assert (wire + [sent])[..|wire|] == wire;
  }

  /** What has become of an email after these answers. */
  predicate Follows(replies: seq<Reply>, first: First) {
    match first
    case NotYet => replies == []
    case Delivered => replies == [Accepted]
    case Temporary => |replies| == 1 && replies[0].Rejected? && ShouldQueue(replies[0].message)
    case Permanent => |replies| == 1 && replies[0].Rejected? && !ShouldQueue(replies[0].message)
  }

  ghost predicate FirstsKept(s: State) {
    && (forall id :: id in s.accounts ==> Follows(Firsts(s.wire, id), s.accounts[id].first))
    && (forall id :: id !in s.accounts ==> Firsts(s.wire, id) == [])
    && (forall t :: t in s.threads && s.threads[t].Sending? ==>
          s.threads[t].id in s.accounts && s.accounts[s.threads[t].id].first == NotYet)
  }

  lemma SendFollows(s: State, s': State, t: Tid, id: Id, mail: Mail, reply: Reply, th': Thread)
    requires FirstsKept(s) && t in s.threads && s.threads[t] == Sending(id, mail)
    requires s'.threads == s.threads[t := th'] && !th'.Sending?
    requires s'.accounts == s.accounts[id := Account(mail, FirstOf(reply))]
    requires forall u :: u in s.threads && u != t && s.threads[u].Sending? ==> s.threads[u].id != id
    requires forall x :: Firsts(s'.wire, x) == Firsts(s.wire, x) + if x == id then [reply] else []
    ensures FirstsKept(s')
  {
    hide ShouldQueue, Firsts;
  }

  lemma SendKeeps(s: State, t: Tid, env: Env)
    requires FirstsKept(s) && DistinctIds(s) && Ready(s, t, env) && s.threads[t].Sending?
    ensures FirstsKept(Step(s, t, env))
  {
    var id, mail := s.threads[t].id, s.threads[t].mail;
    forall u | u in s.threads && u != t && s.threads[u].Sending? ensures s.threads[u].id != id {
      assert Apart(s.threads[t], s.threads[u]);
    }
    FirstSendStep(s, t, id, mail, env.reply, FirstOf(env.reply));
    hide StepSend, DistinctIds, Firsts, FirstOf, FirstsKept;
    var s' := Step(s, t, env);
    hide Step;
    var sent := Sent(id, mail.from, mail.to, mail.data, mail.relay, false, env.reply);
    forall x ensures Firsts(s'.wire, x) == Firsts(s.wire, x) + if x == id then [env.reply] else [] {
      FirstsAppend(s.wire, sent, x);
    }
    SendFollows(s, s', t, id, mail, env.reply, s'.threads[t]);
  }

  /** Any other step sends nothing but from the queue, and begins no `Sendmail`. */
  lemma OthersKeep(s: State, t: Tid, env: Env)
    requires FirstsKept(s) && Safe(s) && Ready(s, t, env) && !s.threads[t].Sending?
    ensures FirstsKept(Step(s, t, env))
  {
    var s' := Step(s, t, env);
    StepTouchesOne(s, t, env);
    OtherWire(s, t, env);
    forall x ensures Firsts(s'.wire, x) == Firsts(s.wire, x) {
      if s'.wire != s.wire { FirstsAppend(s.wire, s'.wire[|s.wire|], x); }
    }
    hide Firsts, Follows, Step, Safe;
  }

  /** Nothing is sent, or one email from the queue. */
  predicate QueueWire(s: State, s': State) {
    || s'.wire == s.wire
    || (|s'.wire| == |s.wire| + 1 && s'.wire == s.wire + [s'.wire[|s.wire|]] && s'.wire[|s.wire|].queued)
  }

  lemma AddWire(s: State, t: Tid, id: Id, mail: Mail, add: AddStep, env: Env)
    requires mail.relay.Some?
    ensures var s' := StepAdd(s, t, id, mail, add, env);
      t in s'.threads && !s'.threads[t].Sending? && s'.accounts == s.accounts && s'.wire == s.wire
  {}

  lemma TryWire(s: State, t: Tid, p: Pass, at: PassStep, env: Env)
    requires InTry(at) && Sound(Processing(p, at))
    ensures var s' := StepTry(s, t, p, at, env);
      t in s'.threads && !s'.threads[t].Sending? && s'.accounts == s.accounts && QueueWire(s, s')
  {
    hide Attempts;
  }

  lemma RestWire(s: State, t: Tid, p: Pass, at: PassStep, env: Env)
    requires !InTry(at) && Fits(Processing(p, at), env)
    ensures var s' := StepPass(s, t, p, at, env);
      t in s'.threads && !s'.threads[t].Sending? && s'.accounts == s.accounts && s'.wire == s.wire
  {}

  lemma OtherWire(s: State, t: Tid, env: Env)
    requires Ready(s, t, env) && !s.threads[t].Sending?
    ensures var s' := Step(s, t, env);
      t in s'.threads && !s'.threads[t].Sending? && s'.accounts == s.accounts && QueueWire(s, s')
  {
    hide StepAdd, StepTry, StepLoop, StepRemove;
    match s.threads[t]
    case Adding(id, mail, add) => AddWire(s, t, id, mail, add, env);
    case Processing(p, at) =>
      if InTry(at) {
        TryWire(s, t, p, at, env);
      } else {
        RestWire(s, t, p, at, env);
      }
  }

  lemma CallKeeps(c: Config, s: State, a: Action)
    requires FirstsKept(s) && c.distinct && Allowed(c, s, a) && !a.Run?
    ensures FirstsKept(Apply(c, s, a))
  {
    hide Firsts;
  }

  lemma {:induction false} EveryRunFirsts(c: Config, run: seq<Action>)
    requires c.distinct && Possible(c, run)
    ensures FirstsKept(After(c, run))
  {
    if run != [] {
      var n := |run| - 1;
      var s, a := After(c, run[..n]), run[n];
      EveryRunFirsts(c, run[..n]);
      EveryRunSafe(c, run[..n]);
      EveryRunDistinct(c, run[..n]);
      hide FirstsKept, Safe, DistinctIds, Step;
      if !a.Run? {
        CallKeeps(c, s, a);
      } else if s.threads[a.t].Sending? {
        SendKeeps(s, a.t, a.env);
      } else {
        OthersKeep(s, a.t, a.env);
      }
    }
  }

  /** With distinct ids, in every reachable state, whatever the store does: an email has been tried outside the
      queue at most once. It counts as delivered if and only if that attempt was accepted, and goes to the queue if
      and only if it was refused with an answer that asks for it. */
  lemma FirstSendExact(c: Config, run: seq<Action>, id: Id)
    requires c.distinct && Possible(c, run) && id in After(c, run).accounts
    ensures var s := After(c, run); var replies := Firsts(s.wire, id);
      && |replies| <= 1
      && (replies == [] <==> s.accounts[id].first == NotYet)
      && (replies == [Accepted] <==> s.accounts[id].first == Delivered)
      && (replies != [] && replies[0].Rejected? && ShouldQueue(replies[0].message) <==>
            s.accounts[id].first == Temporary)
      && (replies != [] && replies[0].Rejected? && !ShouldQueue(replies[0].message) <==>
            s.accounts[id].first == Permanent)
  {
    EveryRunFirsts(c, run);
    hide Possible, After, Firsts, ShouldQueue;
    assert Follows(Firsts(After(c, run).wire, id), After(c, run).accounts[id].first);
  }
}
