/** What becomes of the answers to tunnel status commands: the states an agent reports are not among
    those the schema accepts. */
module StatusReplies {
  import opened Wrappers
  import opened Bus
  import opened Protocol
  import opened Correlation

  // ---------- no request returns a status report ----------

  /** Every future that has a result holds a reply that passed the schema. */
  ghost predicate Sound(y: System) {
    Inv(y) && forall i | 0 <= i < |y.bus.futures| && y.bus.futures[i].Result? :: Accepts(y.bus.futures[i].reply)
  }

  lemma SoundStep(y: System, a: Action)
    requires Sound(y) && Enabled(y, a)
    ensures Sound(Do(y, a))
  {
    InvStep(y, a);
    var z := Do(y, a);
    forall i | 0 <= i < |z.bus.futures| && z.bus.futures[i].Result? ensures Accepts(z.bus.futures[i].reply) {
      if i < |y.bus.futures| {
        if z.bus.futures[i] != y.bus.futures[i] {
          ResultStep(y, a, i);
        }
      } else {
        NewFuture(y, a, i);
      }
    }
  }

  lemma {:induction false} RunKeepsSound(y: System, steps: seq<Action>)
    requires Sound(y) && Runs(y, steps)
    ensures Sound(End(y, steps))
    decreases |steps|
  {
    hide Do, Sound, Enabled;
    if steps != [] {
      SoundStep(y, steps[0]);
      RunKeepsSound(Do(y, steps[0]), steps[1..]);
    }
  }

  /** In every run, with any traffic, no request of any kind to any server returns a status report:
      whatever is returned says `success`, `failed` or `running`. */
  lemma ReturnsAreAccepted(steps: seq<Action>)
    requires Runs(INITIAL, steps)
    ensures forall q | q in End(INITIAL, steps).requests && q.phase.Finished? && q.phase.outcome.Returned? ::
              q.phase.outcome.reply.status in {Success, Failed, Running}
  {
    RunKeepsSound(INITIAL, steps);
    var z := End(INITIAL, steps);
    forall q | q in z.requests && q.phase.Finished? && q.phase.outcome.Returned?
      ensures q.phase.outcome.reply.status in {Success, Failed, Running}
    {
      var i :| 0 <= i < |z.requests| && z.requests[i] == q;
      assert z.bus.futures[i] == Result(q.phase.outcome.reply);
    }
  }

  // ---------- a status request returns nothing ----------

  /** Of the messages under way, those that carry `id` are status commands and their answers. */
  ghost predicate OnlyStatus(n: Net, id: nat) {
    && (forall k | 0 <= k < |n.toAgent| && n.toAgent[k].id == id :: n.toAgent[k].kind.TunnelStatus?)
    && (forall reply | reply in n.owed && reply.id == id :: !Accepts(reply))
    && (forall k | 0 <= k < |n.toPanel| && n.toPanel[k].id == id :: !Accepts(n.toPanel[k]))
  }

  /** If the step sends server `s` a command that carries `id`, it asks for a tunnel's status. */
  predicate AsksStatus(a: Action, s: int, id: nat) {
    && (a.Begin? && a.s == s && a.command.id == id ==> a.command.kind.TunnelStatus?)
    && (a.Push? && a.s == s && a.command.id == id ==> a.command.kind.TunnelStatus?)
  }

  ghost predicate AllAskStatus(steps: seq<Action>, s: int, id: nat) {
    forall k | 0 <= k < |steps| :: AsksStatus(steps[k], s, id)
  }

  /** No request to `s` holds a reply that carries `id`. */
  ghost predicate Unanswered(y: System, s: int, id: nat) {
    && Inv(y) && OnlyStatus(NetOf(y, s), id)
    && (forall i | 0 <= i < |y.requests| && y.requests[i].server == s :: Silent(y, i, id))
  }

  predicate Silent(y: System, i: nat, id: nat)
    requires i < |y.requests| && |y.requests| == |y.bus.futures|
  {
    && (y.requests[i].command.id == id ==> y.requests[i].command.kind.TunnelStatus?)
    && (y.bus.futures[i].Result? ==> y.bus.futures[i].reply.id != id)
  }

  lemma OnlyStatusStep(y: System, a: Action, s: int, id: nat)
    requires Unanswered(y, s, id) && Enabled(y, a) && AsksStatus(a, s, id)
    ensures OnlyStatus(NetOf(Do(y, a), s), id)
  {
    NetStep(y, a, s);
    if a.Sent? || a.SendFailed? {
      assert y.requests[a.r].server == s ==> Silent(y, a.r, id);
      assert y.requests[a.r].server == s && y.requests[a.r].command.id == id ==>
               y.requests[a.r].command.kind.TunnelStatus?;
    }
    hide Do, Inv, BusOps, After, OnlyStatus, Answers, Silent;
    var n := NetOf(y, s);
    match a {
      case Sent(r) => StatusSend(n, y.requests[r].command, id);
      case SendFailed(r, _) => StatusSend(n, y.requests[r].command, id);
      case Push(_, command) => StatusSend(n, command, id);
      case Take(t, replies) => if t == s { StatusTake(n, replies, id); }
      case Answer(_, reply) => StatusMove(n, reply, id);
      case Forget(_, reply) => StatusMove(n, reply, id);
      case _ => StatusDrop(n, id);
    }
  }

  lemma StatusSend(n: Net, c: Command, id: nat)
    requires OnlyStatus(n, id)
    ensures (c.id == id ==> c.kind.TunnelStatus?) ==> OnlyStatus(n.(toAgent := n.toAgent + [c]), id)
  {
  }

  lemma StatusTake(n: Net, replies: seq<Reply>, id: nat)
    requires OnlyStatus(n, id) && n.toAgent != [] && Answers(n.toAgent[0], replies)
    ensures OnlyStatus(n.(toAgent := n.toAgent[1..], owed := n.owed + multiset(replies)), id)
  {
    assert n.toAgent[0].id == id ==> n.toAgent[0].kind.TunnelStatus?;
    assert forall reply | reply in multiset(replies) :: reply in replies;
    assert forall reply | reply in replies :: reply.id == n.toAgent[0].id;
  }

  lemma StatusMove(n: Net, reply: Reply, id: nat)
    requires OnlyStatus(n, id)
    ensures OnlyStatus(n.(owed := n.owed - multiset{reply}), id)
    ensures reply in n.owed ==>
              OnlyStatus(n.(owed := n.owed - multiset{reply}, toPanel := n.toPanel + [reply]), id)
  {
  }

  lemma StatusDrop(n: Net, id: nat)
    requires OnlyStatus(n, id)
    ensures n.toAgent != [] ==> OnlyStatus(n.(toAgent := n.toAgent[1..]), id)
    ensures n.toPanel != [] ==> OnlyStatus(n.(toPanel := n.toPanel[1..]), id)
  {
  }

  lemma SilentStep(y: System, a: Action, s: int, i: nat, id: nat)
    requires Unanswered(y, s, id) && Enabled(y, a) && AsksStatus(a, s, id) && Inv(Do(y, a))
    requires i < |Do(y, a).requests| && Do(y, a).requests[i].server == s
    ensures Silent(Do(y, a), i, id)
  {
    hide After, BusOps, Answers;
    if i < |y.requests| {
      assert Silent(y, i, id);
      if Do(y, a).bus.futures[i] != y.bus.futures[i] && Do(y, a).bus.futures[i].Result? {
        ResultStep(y, a, i);
      }
    } else {
      NewFuture(y, a, i);
    }
  }

  lemma UnansweredStep(y: System, a: Action, s: int, id: nat)
    requires Unanswered(y, s, id) && Enabled(y, a) && AsksStatus(a, s, id)
    ensures Unanswered(Do(y, a), s, id)
  {
    InvStep(y, a);
    OnlyStatusStep(y, a, s, id);
    var z := Do(y, a);
    forall i | 0 <= i < |z.requests| && z.requests[i].server == s ensures Silent(z, i, id) {
      SilentStep(y, a, s, i, id);
    }
    hide OnlyStatus, Silent, Do, Enabled;
  }

  lemma {:induction false} RunUnanswered(y: System, steps: seq<Action>, s: int, id: nat)
    requires Unanswered(y, s, id) && Runs(y, steps) && AllAskStatus(steps, s, id)
    ensures Unanswered(End(y, steps), s, id)
    decreases |steps|
  {
    hide Do, Unanswered, Enabled;
    if steps != [] {
      assert AsksStatus(steps[0], s, id);
      assert forall k | 0 <= k < |steps[1..]| :: steps[1..][k] == steps[k + 1];
      UnansweredStep(y, steps[0], s, id);
      RunUnanswered(Do(y, steps[0]), steps[1..], s, id);
    }
  }

  /** Whatever else a server is sent: if the commands that carry `id` ask for a tunnel's status, no
      request to it ever returns a reply that carries `id`; and where replies are matched with their
      requests, a request that carries `id` returns nothing at all. */
  lemma StatusNeverReturns(steps: seq<Action>, s: int, id: nat)
    requires Runs(INITIAL, steps) && AllAskStatus(steps, s, id)
    ensures forall q | q in End(INITIAL, steps).requests && q.server == s
                       && q.phase.Finished? && q.phase.outcome.Returned? ::
              && q.phase.outcome.reply.id != id
              && (OrderlyRun(INITIAL, steps, s) ==> q.command.id != id)
  {
    RunUnanswered(INITIAL, steps, s, id);
    var z := End(INITIAL, steps);
    if OrderlyRun(INITIAL, steps, s) {
      RightFromStart(steps, s);
    }
    hide Do, Enabled, Runs, End, OrderlyRun, OnlyStatus;
    forall q | q in z.requests && q.server == s && q.phase.Finished? && q.phase.outcome.Returned?
      ensures q.phase.outcome.reply.id != id
    {
      var i :| 0 <= i < |z.requests| && z.requests[i] == q;
      assert Silent(z, i, id);
      assert z.bus.futures[i] == Result(q.phase.outcome.reply);
    }
  }
}
