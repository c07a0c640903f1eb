/** When the reply a request returns is a reply to its own command: in which runs, exactly when, and
    how destroying a tunnel breaks it. */
module Correlation {
  import opened Wrappers
  import opened Bus
  import opened Protocol

  // ---------- a reply answers its own request ----------

  /** Nothing under way to or from the server could answer a request other than `id`. */
  predicate Clean(n: Net, id: nat) {
    && (forall k | 0 <= k < |n.toAgent| :: Own(n.toAgent[k], id))
    && (forall reply | reply in n.owed :: Harmless(reply, id))
    && (forall k | 0 <= k < |n.toPanel| :: Harmless(n.toPanel[k], id))
  }

  predicate Own(c: Command, id: nat) {
    c.id == id || c.kind.TunnelStatus?
  }

  predicate Harmless(reply: Reply, id: nat) {
    reply.id == id || !Accepts(reply)
  }

  ghost predicate Busy(y: System, s: int) {
    exists i: nat :: ActiveOn(y, i, s)
  }

  /** One request of server `s` at a time, installed when no foreign answer is under way; a command
      pushed meanwhile is one whose answer no request would take. Other servers are free. */
  ghost predicate Orderly(y: System, a: Action, s: int) {
    match a
    case Begin(t, command) => t == s ==> !Busy(y, s) && Clean(NetOf(y, s), command.id)
    case Push(t, command) =>
      t == s ==> forall i | 0 <= i < |y.requests| && ActiveOn(y, i, s) :: Own(command, y.requests[i].command.id)
    case _ => true
  }

  ghost predicate OrderlyRun(y: System, steps: seq<Action>, s: int)
    requires Runs(y, steps)
    decreases |steps|
  {
    steps == [] || (Orderly(y, steps[0], s) && OrderlyRun(Do(y, steps[0]), steps[1..], s))
  }

  predicate ActiveOn(y: System, i: nat, s: int) {
    i < |y.requests| && Active(y.requests[i]) && y.requests[i].server == s
  }

  /** The channels of `s` are clean for the one request under way, and no request of `s` from the index
      `from` on holds a foreign reply. */
  ghost predicate Matched(y: System, s: int, from: nat) {
    && Inv(y)
    && (forall i: nat | ActiveOn(y, i, s) :: Clean(NetOf(y, s), y.requests[i].command.id))
    && (forall i: nat, j: nat | ActiveOn(y, i, s) && ActiveOn(y, j, s) :: i == j)
    && (forall i | from <= i < |y.requests| && y.requests[i].server == s && y.bus.futures[i].Result? ::
          y.bus.futures[i].reply.id == y.requests[i].command.id)
  }

  /** A step leaves the server's channels clean for `id`, unless it adds a foreign command. */
  lemma CleanStep(y: System, a: Action, s: int, id: nat)
    requires Enabled(y, a) && Clean(NetOf(y, s), id)
    requires a.Push? && a.s == s ==> Own(a.command, id)
    requires (a.Sent? || a.SendFailed?) && y.requests[a.r].server == s ==> Own(y.requests[a.r].command, id)
    ensures Clean(NetOf(Do(y, a), s), id)
  {
    NetStep(y, a, s);
    hide Clean, Own, Do, Answers;
    var n := NetOf(y, s);
    if a.Sent? || a.SendFailed? {
      CleanSend(n, y.requests[a.r].command, id);
    } else if a.Push? {
      CleanSend(n, a.command, id);
    } else {
      CleanMove(y, a, s, id);
    }
  }

  lemma CleanMove(y: System, a: Action, s: int, id: nat)
    requires Enabled(y, a) && Clean(NetOf(y, s), id) && !a.Push? && !a.Sent? && !a.SendFailed?
    ensures match NetAfter(y, a) case None => true case Some((t, n)) => t == s ==> Clean(n, id)
  {
    hide Clean, Do, Answers;
    var n := NetOf(y, s);
    match a {
      case Take(t, replies) => if t == s { CleanTake(n, replies, id); }
      case Answer(t, reply) => if t == s { CleanAnswer(n, reply, id); }
      case Forget(t, reply) => if t == s { CleanAnswer(n, reply, id); }
      case LoseCommand(t) => if t == s { CleanDrop(n, id); }
      case LoseReply(t) => if t == s { CleanDrop(n, id); }
      case Deliver(t, _) => if t == s { CleanDrop(n, id); }
      case _ =>
    }
  }

  lemma CleanSend(n: Net, c: Command, id: nat)
    requires Clean(n, id)
    ensures Own(c, id) ==> Clean(n.(toAgent := n.toAgent + [c]), id)
  {
  }

  lemma CleanTake(n: Net, replies: seq<Reply>, id: nat)
    requires Clean(n, id) && n.toAgent != [] && Answers(n.toAgent[0], replies)
    ensures Clean(n.(toAgent := n.toAgent[1..], owed := n.owed + multiset(replies)), id)
  {
    assert Own(n.toAgent[0], id);
    forall reply | reply in replies ensures Harmless(reply, id) {
      var k :| 0 <= k < |replies| && replies[k] == reply;
    }
  }

  lemma CleanAnswer(n: Net, reply: Reply, id: nat)
    requires Clean(n, id) && reply in n.owed
    ensures Clean(n.(owed := n.owed - multiset{reply}), id)
    ensures Clean(n.(owed := n.owed - multiset{reply}, toPanel := n.toPanel + [reply]), id)
  {
  }

  lemma CleanDrop(n: Net, id: nat)
    requires Clean(n, id)
    ensures n.toAgent != [] ==> Clean(n.(toAgent := n.toAgent[1..]), id)
    ensures n.toPanel != [] ==> Clean(n.(toPanel := n.toPanel[1..]), id)
  {
  }

  lemma MatchedClean(y: System, a: Action, s: int, i: nat, from: nat)
    requires Matched(y, s, from) && Enabled(y, a) && Orderly(y, a, s) && ActiveOn(Do(y, a), i, s)
    ensures Clean(NetOf(Do(y, a), s), Do(y, a).requests[i].command.id)
  {
    hide Clean, Answers, Filed, After, BusOps;
    if i < |y.requests| {
      assert ActiveOn(y, i, s);
      if a.Sent? || a.SendFailed? {
        assert y.requests[a.r].server == s ==> ActiveOn(y, a.r, s);
      }
      CleanStep(y, a, s, y.requests[i].command.id);
    }
  }

  lemma MatchedResult(y: System, a: Action, s: int, i: nat, from: nat)
    requires Matched(y, s, from) && Enabled(y, a) && Inv(Do(y, a))
    requires from <= i < |Do(y, a).requests| && Do(y, a).requests[i].server == s && Do(y, a).bus.futures[i].Result?
    ensures Do(y, a).bus.futures[i].reply.id == Do(y, a).requests[i].command.id
  {
    hide Answers, After, BusOps;
    if i < |y.requests| {
      if Do(y, a).bus.futures[i] != y.bus.futures[i] {
        ResultStep(y, a, i);
        assert ActiveOn(y, i, s);
        assert Harmless(NetOf(y, s).toPanel[0], y.requests[i].command.id);
      }
    } else {
      BusStep(y, a);
    }
  }

  lemma MatchedSingle(y: System, a: Action, s: int, i: nat, j: nat, from: nat)
    requires Matched(y, s, from) && Enabled(y, a) && Orderly(y, a, s)
    requires ActiveOn(Do(y, a), i, s) && ActiveOn(Do(y, a), j, s)
    ensures i == j
  {
    hide Clean, Answers, Filed, After, BusOps, NetAfter, NetOf, Valid, Inv;
    assert i < |y.requests| ==> ActiveOn(y, i, s);
    assert j < |y.requests| ==> ActiveOn(y, j, s);
  }

  lemma MatchedStep(y: System, a: Action, s: int, from: nat)
    requires Matched(y, s, from) && Enabled(y, a) && Orderly(y, a, s)
    ensures Matched(Do(y, a), s, from)
  {
    InvStep(y, a);
    var z := Do(y, a);
    forall i: nat | ActiveOn(z, i, s) ensures Clean(NetOf(z, s), z.requests[i].command.id) {
      MatchedClean(y, a, s, i, from);
    }
    forall i: nat, j: nat | ActiveOn(z, i, s) && ActiveOn(z, j, s) ensures i == j {
      MatchedSingle(y, a, s, i, j, from);
    }
    forall i | from <= i < |z.requests| && z.requests[i].server == s && z.bus.futures[i].Result?
      ensures z.bus.futures[i].reply.id == z.requests[i].command.id
    {
      MatchedResult(y, a, s, i, from);
    }
    hide Do, Enabled, Orderly, Clean, ActiveOn, NetOf;
  }

  lemma {:induction false} MatchedRun(y: System, steps: seq<Action>, s: int, from: nat)
    requires Matched(y, s, from) && Runs(y, steps) && OrderlyRun(y, steps, s)
    ensures Matched(End(y, steps), s, from)
    decreases |steps|
  {
    if steps != [] {
      MatchedStep(y, steps[0], s, from);
      MatchedRun(Do(y, steps[0]), steps[1..], s, from);
    }
  }

  /** The request has not returned a reply to another command. */
  predicate Right(q: Request) {
    q.phase.Finished? && q.phase.outcome.Returned? ==> q.phase.outcome.reply.id == q.command.id
  }

  /** Where no request of the server is under way, later requests can be matched whatever earlier ones
      returned. */
  lemma MatchedFromHere(y: System, s: int)
    requires Inv(y) && !Busy(y, s)
    ensures Matched(y, s, |y.requests|)
  {
  }

  /** Reply correlation: from every reachable state in which the server has no request under way, and in
      every interleaving that is orderly for it from there, whatever a later request to that server
      returns is a reply to its own command. */
  lemma ReplyCorrelation(y: System, steps: seq<Action>, s: int)
    requires Inv(y) && !Busy(y, s) && Runs(y, steps) && OrderlyRun(y, steps, s)
    ensures forall i | |y.requests| <= i < |End(y, steps).requests| && End(y, steps).requests[i].server == s ::
              Right(End(y, steps).requests[i])
  {
    MatchedFromHere(y, s);
    MatchedRun(y, steps, s, |y.requests|);
  }

  /** From the start, that is every request to the server. */
  lemma RightFromStart(steps: seq<Action>, s: int)
    requires Runs(INITIAL, steps) && OrderlyRun(INITIAL, steps, s)
    ensures forall q | q in End(INITIAL, steps).requests && q.server == s :: Right(q)
  {
    assert !Busy(INITIAL, s);
    ReplyCorrelation(INITIAL, steps, s);
  }

  // ---------- and nothing less would do ----------

  /** Request `r` waits on a future that the next accepted reply from its server completes. */
  predicate Ready(y: System, s: int, r: nat) {
    InPhase(y, r, Waiting) && y.requests[r].server == s && Target(y.bus, s, COMMAND_RESULT) == Some(r)
  }

  predicate Quiet(a: Action, s: int) {
    (a.Begin? ==> a.s != s) && (a.Push? ==> a.s != s)
  }

  predicate AllQuiet(steps: seq<Action>, s: int) {
    forall k | 0 <= k < |steps| :: Quiet(steps[k], s)
  }

  ghost predicate Misled(y: System, steps: seq<Action>, s: int, r: nat) {
    && AllQuiet(steps, s) && Runs(y, steps)
    && r < |End(y, steps).requests| && !Right(End(y, steps).requests[r])
  }

  lemma MisledCons(y: System, a: Action, steps: seq<Action>, s: int, r: nat)
    requires Enabled(y, a) && Quiet(a, s) && Misled(Do(y, a), steps, s, r)
    ensures Misled(y, [a] + steps, s, r)
  {
    assert ([a] + steps)[1..] == steps;
  }

  /** A foreign reply at the head of the channel is taken for the answer. */
  lemma MisledByHead(y: System, s: int, r: nat) returns (steps: seq<Action>)
    requires Inv(y) && Ready(y, s, r) && NetOf(y, s).toPanel != []
    requires !Harmless(NetOf(y, s).toPanel[0], y.requests[r].command.id)
    ensures Misled(y, steps, s, r)
  {
    var z := Do(y, Deliver(s, true));
    BusStep(y, Deliver(s, true));
    InvStep(y, Deliver(s, true));
    var w := Do(z, Settle(r));
    assert !Right(w.requests[r]);
    assert Misled(w, [], s, r);
    MisledCons(z, Settle(r), [], s, r);
    MisledCons(y, Deliver(s, true), [Settle(r)] + [], s, r);
    steps := [Deliver(s, true)] + ([Settle(r)] + []);
  }

  /** A step that only moves messages leaves the request ready. */
  lemma ReadyKept(y: System, a: Action, s: int, r: nat)
    requires Inv(y) && Ready(y, s, r) && Enabled(y, a)
    requires a.Take? || a.Answer? || a.LoseCommand? || a == Deliver(s, false)
    ensures Ready(Do(y, a), s, r) && Inv(Do(y, a)) && Do(y, a).requests == y.requests && Do(y, a).bus == y.bus
  {
    BusStep(y, a);
    InvStep(y, a);
    hide Inv, BusOps, After, Answers, NetAfter;
  }

  lemma {:induction false} MisledByPanel(y: System, s: int, r: nat, k: nat) returns (steps: seq<Action>)
    requires Inv(y) && Ready(y, s, r) && k < |NetOf(y, s).toPanel|
    requires !Harmless(NetOf(y, s).toPanel[k], y.requests[r].command.id)
    ensures Misled(y, steps, s, r)
    decreases k
  {
    if k == 0 {
      steps := MisledByHead(y, s, r);
    } else {
      var a := Deliver(s, false);
      ReadyKept(y, a, s, r);
      steps := MisledByPanel(Do(y, a), s, r, k - 1);
      MisledCons(y, a, steps, s, r);
      steps := [a] + steps;
    }
  }

  lemma MisledByTask(y: System, s: int, r: nat, reply: Reply) returns (steps: seq<Action>)
    requires Inv(y) && Ready(y, s, r) && reply in NetOf(y, s).owed
    requires !Harmless(reply, y.requests[r].command.id)
    ensures Misled(y, steps, s, r)
  {
    var a := Answer(s, reply);
    ReadyKept(y, a, s, r);
    steps := MisledByPanel(Do(y, a), s, r, |NetOf(y, s).toPanel|);
    MisledCons(y, a, steps, s, r);
    steps := [a] + steps;
  }

  lemma {:induction false} MisledByCommand(y: System, s: int, r: nat, k: nat) returns (steps: seq<Action>)
    requires Inv(y) && Ready(y, s, r) && k < |NetOf(y, s).toAgent|
    requires !Own(NetOf(y, s).toAgent[k], y.requests[r].command.id)
    ensures Misled(y, steps, s, r)
    decreases k
  {
    if k == 0 {
      var c := NetOf(y, s).toAgent[0];
      var reply := Reply(c.id, Success);
      var a := Take(s, if c.kind.DestroyTunnel? then [reply, reply] else [reply]);
      ReadyKept(y, a, s, r);
      assert reply in a.replies;
      steps := MisledByTask(Do(y, a), s, r, reply);
      MisledCons(y, a, steps, s, r);
      steps := [a] + steps;
    } else {
      var a := LoseCommand(s);
      ReadyKept(y, a, s, r);
      steps := MisledByCommand(Do(y, a), s, r, k - 1);
      MisledCons(y, a, steps, s, r);
      steps := [a] + steps;
    }
  }

  lemma MisledByForeign(y: System, s: int, r: nat) returns (steps: seq<Action>)
    requires Inv(y) && Ready(y, s, r) && !Clean(NetOf(y, s), y.requests[r].command.id)
    ensures Misled(y, steps, s, r)
  {
    var n, id := NetOf(y, s), y.requests[r].command.id;
    if k :| 0 <= k < |n.toAgent| && !Own(n.toAgent[k], id) {
      steps := MisledByCommand(y, s, r, k);
    } else if reply :| reply in n.owed && !Harmless(reply, id) {
      steps := MisledByTask(y, s, r, reply);
    } else {
      var k :| 0 <= k < |n.toPanel| && !Harmless(n.toPanel[k], id);
      steps := MisledByPanel(y, s, r, k);
    }
  }

  /** Installing a request: it is the newest one, and its reply is awaited once the send completes. */
  lemma BeginReady(y: System, s: int, command: Command)
    requires Inv(y) && s in y.bus.byServer
    ensures var r := |y.requests|; var z := Do(y, Begin(s, command));
            && Inv(z) && Enabled(z, Sent(r)) && z.requests[r].command == command && z.requests[r].server == s
            && var w := Do(z, Sent(r));
               Inv(w) && Ready(w, s, r) && NetOf(w, s) == NetOf(y, s).(toAgent := NetOf(y, s).toAgent + [command])
               && w.requests[r].command == command
  {
    var r := |y.requests|;
    BusStep(y, Begin(s, command));
    InvStep(y, Begin(s, command));
    var z := Do(y, Begin(s, command));
    BusStep(z, Sent(r));
    InvStep(z, Sent(r));
  }

  /** For an idle, online server, whatever its requests returned before: every continuation without
      further commands to it answers the new request rightly, exactly when nothing foreign was under way
      at the installation. */
  lemma CorrelationIsExact(y: System, s: int, command: Command)
    requires Inv(y) && s in y.bus.byServer && !Busy(y, s)
    ensures (forall steps | AllQuiet(steps, s) && Runs(Do(y, Begin(s, command)), steps) ::
               var end := End(Do(y, Begin(s, command)), steps);
               |y.requests| < |end.requests| && Right(end.requests[|y.requests|]))
       <==> Clean(NetOf(y, s), command.id)
  {
    var r := |y.requests|;
    var z := Do(y, Begin(s, command));
    BeginReady(y, s, command);
    if Clean(NetOf(y, s), command.id) {
      MatchedFromHere(y, s);
      MatchedStep(y, Begin(s, command), s, r);
      forall steps | AllQuiet(steps, s) && Runs(z, steps)
        ensures r < |End(z, steps).requests| && Right(End(z, steps).requests[r])
      {
        QuietIsOrderly(z, steps, s);
        MatchedRun(z, steps, s, r);
        RequestsStay(z, steps, r);
      }
    } else {
      var w := Do(z, Sent(r));
      CleanPrefix(NetOf(y, s), command);
      var steps := MisledByForeign(w, s, r);
      MisledCons(z, Sent(r), steps, s, r);
    }
  }

  lemma CleanPrefix(n: Net, c: Command)
    ensures Clean(n.(toAgent := n.toAgent + [c]), c.id) ==> Clean(n, c.id)
  {
    var m := n.(toAgent := n.toAgent + [c]);
    assert forall k | 0 <= k < |n.toAgent| :: m.toAgent[k] == n.toAgent[k];
  }

  lemma {:induction false} QuietIsOrderly(y: System, steps: seq<Action>, s: int)
    requires AllQuiet(steps, s) && Runs(y, steps)
    ensures OrderlyRun(y, steps, s)
    decreases |steps|
  {
    if steps != [] {
      assert Quiet(steps[0], s);
      assert forall k | 0 <= k < |steps[1..]| :: steps[1..][k] == steps[k + 1];
      QuietIsOrderly(Do(y, steps[0]), steps[1..], s);
    }
  }

  lemma {:induction false} RequestsStay(y: System, steps: seq<Action>, r: nat)
    requires Runs(y, steps) && r < |y.requests|
    ensures r < |End(y, steps).requests|
    ensures End(y, steps).requests[r].command == y.requests[r].command
    ensures End(y, steps).requests[r].server == y.requests[r].server
    decreases |steps|
  {
    if steps != [] {
      RequestsStay(Do(y, steps[0]), steps[1..], r);
    }
  }

  // ---------- two answers to one command ----------

  lemma RunCons(y: System, a: Action, steps: seq<Action>)
    requires Enabled(y, a) && Runs(Do(y, a), steps)
    ensures Runs(y, [a] + steps) && End(y, [a] + steps) == End(Do(y, a), steps)
  {
    assert ([a] + steps)[1..] == steps;
  }

  /** The answer at the head of the channel completes the ready request. */
  lemma AnswerReturns(y: System, s: int, r: nat)
    requires Inv(y) && Ready(y, s, r) && NetOf(y, s).toPanel != [] && Accepts(NetOf(y, s).toPanel[0])
    ensures var z := Do(y, Deliver(s, true));
            && Enabled(z, Settle(r)) && Inv(z)
            && var w := Do(z, Settle(r));
               Inv(w) && w.bus.byServer == y.bus.byServer && NetOf(w, s).owed == NetOf(y, s).owed
               && w.requests == y.requests[r := y.requests[r].(phase := Finished(Returned(NetOf(y, s).toPanel[0])))]
  {
    BusStep(y, Deliver(s, true));
    InvStep(y, Deliver(s, true));
    var z := Do(y, Deliver(s, true));
    BusStep(z, Settle(r));
    InvStep(z, Settle(r));
  }

  /** From a ready request to destroy a tunnel to its return on the first of two reports. */
  lemma DestroyAnswered(y: System, s: int, r: nat, a: nat, one: Reply, two: Reply) returns (steps: seq<Action>)
    requires Inv(y) && Ready(y, s, r) && s in y.bus.byServer && one in Reports(a) && two in Reports(a)
    requires NetOf(y, s) == IDLE.(toAgent := [Command(a, DestroyTunnel)])
    ensures Runs(y, steps)
    ensures var z := End(y, steps);
            && Inv(z) && z.requests == y.requests[r := y.requests[r].(phase := Finished(Returned(one)))]
            && s in z.bus.byServer && NetOf(z, s).owed == multiset{two}
  {
    hide Do, Ready, Inv, Answers, Target, InPhase;
    var y3, y4 := TakeTwice(y, s, r, a, one, two);
    AnswerReturns(y4, s, r);
    var y5 := Do(y4, Deliver(s, true));
    RunCons(y5, Settle(r), []);
    RunCons(y4, Deliver(s, true), [Settle(r)] + []);
    RunCons(y3, Answer(s, one), [Deliver(s, true)] + ([Settle(r)] + []));
    RunCons(y, Take(s, [one, two]), [Answer(s, one)] + ([Deliver(s, true)] + ([Settle(r)] + [])));
    steps := [Take(s, [one, two])] + ([Answer(s, one)] + ([Deliver(s, true)] + ([Settle(r)] + [])));
  }

  /** One request to destroy a tunnel, from installation to its return. */
  lemma DestroyReturns(y: System, s: int, a: nat, one: Reply, two: Reply) returns (first: seq<Action>)
    requires Inv(y) && s in y.bus.byServer && !Busy(y, s) && NetOf(y, s) == IDLE
    requires one in Reports(a) && two in Reports(a)
    ensures Runs(y, first) && first != [] && first[0] == Begin(s, Command(a, DestroyTunnel))
    ensures var z := End(y, first); var r := |y.requests|;
            && Inv(z) && |z.requests| == r + 1 && z.requests[..r] == y.requests
            && z.requests[r].phase == Finished(Returned(one)) && z.requests[r].server == s
            && s in z.bus.byServer && NetOf(z, s).owed == multiset{two}
  {
    var r, command := |y.requests|, Command(a, DestroyTunnel);
    BeginReady(y, s, command);
    var y1 := Do(y, Begin(s, command));
    var y2 := Do(y1, Sent(r));
    BusStep(y, Begin(s, command));
    BusStep(y1, Sent(r));
    assert y2.requests[..r] == y.requests && |y2.requests| == r + 1 && s in y2.bus.byServer;
    hide Do, Ready, Inv, Enabled;
    var steps := DestroyAnswered(y2, s, r, a, one, two);
    RunCons(y1, Sent(r), steps);
    RunCons(y, Begin(s, command), [Sent(r)] + steps);
    first := [Begin(s, command)] + ([Sent(r)] + steps);
  }

  /** Any request begun while an accepted foreign reply is owed can be misled. */
  lemma OwedMisleads(z: System, s: int, next: Command, reply: Reply) returns (second: seq<Action>)
    requires Inv(z) && s in z.bus.byServer && reply in NetOf(z, s).owed && !Harmless(reply, next.id)
    ensures Misled(Do(z, Begin(s, next)), second, s, |z.requests|)
  {
    var r := |z.requests|;
    BeginReady(z, s, next);
    var z1 := Do(z, Begin(s, next));
    assert !Clean(NetOf(z, s), next.id);
    CleanPrefix(NetOf(z, s), next);
    hide Clean, Do, Harmless, Inv, Ready;
    second := MisledByForeign(Do(z1, Sent(r)), s, r);
    MisledCons(z1, Sent(r), second, s, r);
    second := [Sent(r)] + second;
  }

  /** Destroying a tunnel is answered twice: the stop handler answers the same message. On any idle,
      online server the request takes the first report, and the second one can be returned by the
      next request, whatever it asks and whatever the two say. */
  lemma DestroyMisleadsTheNext(y: System, s: int, a: nat, one: Reply, two: Reply, next: Command)
    returns (first: seq<Action>, second: seq<Action>)
    requires Inv(y) && s in y.bus.byServer && !Busy(y, s) && NetOf(y, s) == IDLE && next.id != a
    requires one in Reports(a) && two in Reports(a)
    ensures Runs(y, first) && first != [] && first[0] == Begin(s, Command(a, DestroyTunnel))
    ensures var z := End(y, first); var r := |y.requests|;
            && |z.requests| == r + 1 && z.requests[r].phase == Finished(Returned(one))
            && !Busy(z, s) && Misled(Do(z, Begin(s, next)), second, s, r + 1)
  {
    first := DestroyReturns(y, s, a, one, two);
    var z := End(y, first);
    IdleAgain(y, z, s);
    hide Do, Inv, Ready, Runs, End, Misled, Matched, Enabled, NetOf, Harmless, InPhase;
    assert !Harmless(two, next.id) by { NotHarmless(a, two, next.id); }
    second := OwedMisleads(z, s, next, two);
  }

  /** Requests that stay as they were and one more that has finished. */
  lemma IdleAgain(y: System, z: System, s: int)
    requires !Busy(y, s) && |z.requests| == |y.requests| + 1 && z.requests[..|y.requests|] == y.requests
    requires z.requests[|y.requests|].phase.Finished?
    ensures !Busy(z, s)
  {
    forall i: nat ensures !ActiveOn(z, i, s) {
      if i < |y.requests| {
        assert !ActiveOn(y, i, s) && z.requests[i] == z.requests[..|y.requests|][i];
      }
    }
  }

  lemma NotHarmless(a: nat, reply: Reply, id: nat)
    requires reply in Reports(a) && id != a
    ensures !Harmless(reply, id)
  {
  }

  /** A destroy command's task owes two replies. */
  lemma TakeOnce(y: System, s: int, r: nat, a: nat, one: Reply, two: Reply) returns (z: System)
    requires Inv(y) && Ready(y, s, r) && one in Reports(a) && two in Reports(a)
    requires NetOf(y, s) == IDLE.(toAgent := [Command(a, DestroyTunnel)])
    ensures Enabled(y, Take(s, [one, two])) && z == Do(y, Take(s, [one, two]))
    ensures Inv(z) && Ready(z, s, r) && z.requests == y.requests && z.bus == y.bus
    ensures NetOf(z, s) == Net([], multiset{one, two}, [])
  {
    hide Do, Ready, Inv, BusOps, After, RequestsAfter;
    var take := Take(s, [one, two]);
    z := Do(y, take);
    ReadyKept(y, take, s, r);
    NetStep(y, take, s);
    assert multiset([one, two]) == multiset{one, two};
  }

  lemma TakeTwice(y: System, s: int, r: nat, a: nat, one: Reply, two: Reply) returns (z: System, w: System)
    requires Inv(y) && Ready(y, s, r) && one in Reports(a) && two in Reports(a)
    requires NetOf(y, s) == IDLE.(toAgent := [Command(a, DestroyTunnel)])
    ensures Enabled(y, Take(s, [one, two])) && z == Do(y, Take(s, [one, two]))
    ensures Enabled(z, Answer(s, one)) && w == Do(z, Answer(s, one))
    ensures Inv(w) && Ready(w, s, r) && w.requests == y.requests && w.bus.byServer == y.bus.byServer
    ensures NetOf(w, s) == Net([], multiset{two}, [one]) && Accepts(one)
  {
    hide Do, Ready, Inv, NetOf, BusOps, After, RequestsAfter, Answers, InPhase;
    z := TakeOnce(y, s, r, a, one, two);
    w := Do(z, Answer(s, one));
    ReadyKept(z, Answer(s, one), s, r);
    NetStep(z, Answer(s, one), s);
    assert multiset{one, two} - multiset{one} == multiset{two};
  }
}
