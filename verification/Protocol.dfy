/** The request/reply protocol between the panel and the node agents, as a transition system over
    the registry. A step is what runs between two awaits on either side; each server has one
    message channel in each direction, and every command an agent takes becomes a task of its own. */
module Protocol {
  import opened Wrappers
  import opened Bus

  /** The commands a panel sends, by how the agent answers them. */
  datatype Kind = Execute | ApplyConfig | StartTunnel | StopTunnel | TunnelStatus | DestroyTunnel

  datatype Command = Command(id: nat, kind: Kind)

  /** All replies travel under this type, and requests wait for it. */
  const COMMAND_RESULT := "command_result"

  datatype Outcome = Returned(reply: Reply) | NoReply | Broken | TimedOut

  datatype Phase = Sending | Waiting | Finished(outcome: Outcome)

  /** A running `request`; the `i`-th request waits on the `i`-th future. */
  datatype Request = Request(server: int, conn: nat, command: Command, phase: Phase)

  /** Commands on their way to the agent, replies its tasks still owe, replies on their way back. */
  datatype Net = Net(toAgent: seq<Command>, owed: multiset<Reply>, toPanel: seq<Reply>)

  const IDLE := Net([], multiset{}, [])

  datatype System = System(bus: State, requests: seq<Request>, nets: map<int, Net>)

  const INITIAL := System(EMPTY, [], map[])

  function NetOf(y: System, s: int): Net {
    if s in y.nets then y.nets[s] else IDLE
  }

  // ---------- the steps ----------

  datatype Action =
    | Connect(s: int, socket: nat)
    | Leave(s: int, socket: nat)              // a handler's finally, or a failed push
    | Begin(s: int, command: Command)         // request() up to the send
    | Sent(r: nat)                            // the send completed
    | SendFailed(r: nat, arrived: bool)       // the send raised or timed out
    | Settle(r: nat)                          // the awaited future is done
    | Timeout(r: nat)                         // wait_for gave up
    | Push(s: int, command: Command)          // a command sent without waiting
    | Take(s: int, replies: seq<Reply>)       // the agent starts a task for the next command
    | Answer(s: int, reply: Reply)            // a task sends one of its replies
    | Forget(s: int, reply: Reply)            // a task finds its socket gone
    | LoseCommand(s: int)                     // the connection broke with a command under way
    | LoseReply(s: int)
    | Deliver(s: int, recorded: bool)         // the receive loop handles the next reply

  /** The replies a command's task may send: one, except that destroying a tunnel first runs the
      stop handler, which answers the same message; a status answer carries a state of its own. */
  predicate Answers(c: Command, replies: seq<Reply>) {
    match c.kind
    case TunnelStatus => replies == [Reply(c.id, Unrecognised)]
    case DestroyTunnel => |replies| == 2 && (forall k | 0 <= k < 2 :: IsVerdict(c, replies[k]))
    case _ => |replies| == 1 && IsVerdict(c, replies[0])
  }

  predicate IsVerdict(c: Command, reply: Reply) {
    reply.id == c.id && (reply.status.Success? || reply.status.Failed?)
  }

  /** The schema check a reply passes before it can reach a future. */
  predicate Accepts(reply: Reply) {
    !reply.status.Unrecognised?
  }

  predicate InPhase(y: System, r: nat, phase: Phase) {
    r < |y.requests| && y.requests[r].phase == phase
  }

  predicate Enabled(y: System, a: Action) {
    match a
    case Sent(r) => InPhase(y, r, Sending)
    case SendFailed(r, _) => InPhase(y, r, Sending)
    case Settle(r) => InPhase(y, r, Waiting) && r < |y.bus.futures| && !y.bus.futures[r].Undone?
    case Timeout(r) => InPhase(y, r, Waiting) && r < |y.bus.futures| && y.bus.futures[r].Undone?
    case Take(s, replies) => NetOf(y, s).toAgent != [] && Answers(NetOf(y, s).toAgent[0], replies)
    case Answer(s, reply) => reply in NetOf(y, s).owed
    case Forget(s, reply) => reply in NetOf(y, s).owed
    case LoseCommand(s) => NetOf(y, s).toAgent != []
    case LoseReply(s) => NetOf(y, s).toPanel != []
    case Deliver(s, _) => NetOf(y, s).toPanel != []
    case _ => true
  }

  /** What the step does to the registry. */
  function BusOps(y: System, a: Action): seq<Op>
    requires Enabled(y, a)
  {
    match a
    case Connect(s, socket) => [Register(s, socket)]
    case Leave(s, socket) => [Unregister(s, Some(socket))]
    case Begin(s, _) => [Install(s, COMMAND_RESULT)]
    case SendFailed(r, _) =>
      var q := y.requests[r];
      (if q.conn < |y.bus.conns| then [Unregister(q.server, Some(y.bus.conns[q.conn].socket))] else []) +
      [Pop(q.conn, COMMAND_RESULT)]
    case Settle(r) => [Pop(y.requests[r].conn, COMMAND_RESULT)]
    case Timeout(r) => [Expire(r), Pop(y.requests[r].conn, COMMAND_RESULT)]
    case Deliver(s, recorded) =>
      var reply := NetOf(y, s).toPanel[0];
      if Accepts(reply) && recorded then [Resolve(s, COMMAND_RESULT, reply)] else []
    case _ => []
  }

  function Concluded(f: Future): Outcome {
    match f
    case Result(reply) => Returned(reply)
    case _ => Broken
  }

  function RequestsAfter(y: System, a: Action): seq<Request>
    requires Enabled(y, a)
  {
    match a
    case Begin(s, command) =>
      if s in y.bus.byServer && y.bus.byServer[s] < |y.bus.conns|
      then y.requests + [Request(s, y.bus.byServer[s], command, Sending)] else y.requests
    case Sent(r) => y.requests[r := y.requests[r].(phase := Waiting)]
    case SendFailed(r, _) => y.requests[r := y.requests[r].(phase := Finished(NoReply))]
    case Settle(r) => y.requests[r := y.requests[r].(phase := Finished(Concluded(y.bus.futures[r])))]
    case Timeout(r) => y.requests[r := y.requests[r].(phase := Finished(TimedOut))]
    case _ => y.requests
  }

  /** The server whose channels the step touches, and what becomes of them. */
  function NetAfter(y: System, a: Action): Option<(int, Net)>
    requires Enabled(y, a)
  {
    match a
    case Sent(r) =>
      var q := y.requests[r]; var n := NetOf(y, q.server);
      Some((q.server, n.(toAgent := n.toAgent + [q.command])))
    case SendFailed(r, arrived) =>
      var q := y.requests[r]; var n := NetOf(y, q.server);
      Some((q.server, if arrived then n.(toAgent := n.toAgent + [q.command]) else n))
    case Push(s, command) => var n := NetOf(y, s); Some((s, n.(toAgent := n.toAgent + [command])))
    case Take(s, replies) =>
      var n := NetOf(y, s);
      Some((s, n.(toAgent := n.toAgent[1..], owed := n.owed + multiset(replies))))
    case Answer(s, reply) =>
      var n := NetOf(y, s);
      Some((s, n.(owed := n.owed - multiset{reply}, toPanel := n.toPanel + [reply])))
    case Forget(s, reply) => var n := NetOf(y, s); Some((s, n.(owed := n.owed - multiset{reply})))
    case LoseCommand(s) => var n := NetOf(y, s); Some((s, n.(toAgent := n.toAgent[1..])))
    case LoseReply(s) => var n := NetOf(y, s); Some((s, n.(toPanel := n.toPanel[1..])))
    case Deliver(s, _) => var n := NetOf(y, s); Some((s, n.(toPanel := n.toPanel[1..])))
    case _ => None
  }

  function Do(y: System, a: Action): System
    requires Enabled(y, a)
  {
    System(After(y.bus, BusOps(y, a)),
           RequestsAfter(y, a),
           match NetAfter(y, a) case None => y.nets case Some((s, n)) => y.nets[s := n])
  }

  predicate Runs(y: System, steps: seq<Action>)
    decreases |steps|
  {
    steps == [] || (Enabled(y, steps[0]) && Runs(Do(y, steps[0]), steps[1..]))
  }

  function End(y: System, steps: seq<Action>): System
    requires Runs(y, steps)
    decreases |steps|
  {
    if steps == [] then y else End(Do(y, steps[0]), steps[1..])
  }

  // ---------- what every run keeps ----------

  predicate Active(q: Request) {
    !q.phase.Finished?
  }

  ghost predicate Inv(y: System) {
    && Valid(y.bus)
    && |y.requests| == |y.bus.futures|
    && (forall i | 0 <= i < |y.requests| ::
          y.requests[i].conn < |y.bus.conns| && y.bus.conns[y.requests[i].conn].server == y.requests[i].server)
    && (forall c: nat, k, f: nat | Filed(y.bus, c, k, f) ::
          f < |y.requests| && y.requests[f].conn == c && Active(y.requests[f]) && k == COMMAND_RESULT)
    && (forall i | 0 <= i < |y.requests| && y.requests[i].phase.Finished? && y.requests[i].phase.outcome.Returned? ::
          y.bus.futures[i] == Result(y.requests[i].phase.outcome.reply))
  }

  lemma AfterOne(b: State, op: Op)
    ensures After(b, [op]) == Apply(b, op)
  {
    assert [op][..0] == [];
  }

  lemma AfterTwo(b: State, op1: Op, op2: Op)
    ensures After(b, [op1, op2]) == Apply(Apply(b, op1), op2)
  {
    AfterOne(b, op1);
    assert [op1, op2][..1] == [op1];
  }

  /** The registry after a step, spelled out. */
  lemma BusStep(y: System, a: Action)
    requires Enabled(y, a) && Inv(y)
    ensures var b := Do(y, a).bus;
            match a
            case Connect(s, socket) => b == Registered(y.bus, s, socket)
            case Leave(s, socket) => b == Unregistered(y.bus, s, Some(socket))
            case Begin(s, _) => b == if s in y.bus.byServer then Installed(y.bus, s, COMMAND_RESULT) else y.bus
            case SendFailed(r, _) =>
              var q := y.requests[r];
              b == Popped(Unregistered(y.bus, q.server, Some(y.bus.conns[q.conn].socket)), q.conn, COMMAND_RESULT)
            case Settle(r) => b == Popped(y.bus, y.requests[r].conn, COMMAND_RESULT)
            case Timeout(r) => b == Popped(Expired(y.bus, r), y.requests[r].conn, COMMAND_RESULT)
            case Deliver(s, recorded) =>
              var reply := NetOf(y, s).toPanel[0];
              b == if Accepts(reply) && recorded then Resolved(y.bus, s, COMMAND_RESULT, reply) else y.bus
            case _ => b == y.bus
  {
    var ops := BusOps(y, a);
    if |ops| == 1 {
      AfterOne(y.bus, ops[0]);
    } else if |ops| == 2 {
      AfterTwo(y.bus, ops[0], ops[1]);
      assert ops == [ops[0], ops[1]];
    }
    if a.SendFailed? {
      var q := y.requests[a.r];
      assert ops == [Unregister(q.server, Some(y.bus.conns[q.conn].socket)), Pop(q.conn, COMMAND_RESULT)];
    }
  }

  /** And the channels of a server. */
  lemma NetStep(y: System, a: Action, s: int)
    requires Enabled(y, a)
    ensures NetOf(Do(y, a), s) ==
            match NetAfter(y, a) case None => NetOf(y, s) case Some((t, n)) => if t == s then n else NetOf(y, s)
  {
    hide BusOps, RequestsAfter, After, Answers;
  }

  /** Conjunct by conjunct: the requests and their connections... */
  lemma RequestsStep(y: System, a: Action)
    requires Inv(y) && Enabled(y, a)
    ensures var z := Do(y, a);
            && |z.requests| == |z.bus.futures|
            && (forall i | 0 <= i < |z.requests| ::
                  && z.requests[i].conn < |z.bus.conns|
                  && z.bus.conns[z.requests[i].conn].server == z.requests[i].server)
  {
    BusStep(y, a);
    hide BusOps, NetAfter, After, Answers, Filed, NetOf, Accepts;
  }

  /** ...the futures that are filed... */
  lemma FiledStep(y: System, a: Action, c: nat, k: string, f: nat)
    requires Inv(y) && Enabled(y, a) && Filed(Do(y, a).bus, c, k, f)
    ensures var z := Do(y, a);
            f < |z.requests| && z.requests[f].conn == c && Active(z.requests[f]) && k == COMMAND_RESULT
  {
    BusStep(y, a);
    hide BusOps, NetAfter, After, Answers, NetOf, Accepts;
    if f < |y.bus.futures| {
      assert Filed(y.bus, c, k, f);
    }
  }

  /** ...and the replies that were returned. */
  lemma ReturnedStep(y: System, a: Action, i: nat)
    requires Inv(y) && Enabled(y, a)
    requires var z := Do(y, a); |z.requests| == |z.bus.futures| && i < |z.requests|
    requires Do(y, a).requests[i].phase.Finished? && Do(y, a).requests[i].phase.outcome.Returned?
    ensures Do(y, a).bus.futures[i] == Result(Do(y, a).requests[i].phase.outcome.reply)
  {
    BusStep(y, a);
    hide BusOps, NetAfter, After, Answers, NetOf, Accepts, Filed;
  }

  lemma InvStep(y: System, a: Action)
    requires Inv(y) && Enabled(y, a)
    ensures Inv(Do(y, a))
  {
    var z := Do(y, a);
    AfterValid(y.bus, BusOps(y, a));
    RequestsStep(y, a);
    forall c: nat, k, f: nat | Filed(z.bus, c, k, f)
      ensures f < |z.requests| && z.requests[f].conn == c && Active(z.requests[f]) && k == COMMAND_RESULT
    {
      FiledStep(y, a, c, k, f);
    }
    forall i | 0 <= i < |z.requests| && z.requests[i].phase.Finished? && z.requests[i].phase.outcome.Returned?
      ensures z.bus.futures[i] == Result(z.requests[i].phase.outcome.reply)
    {
      ReturnedStep(y, a, i);
    }
    assert Valid(z.bus);
    hide Do, Enabled, BusOps, After, Valid, Filed;
  }

  /** A future takes a result only from an accepted reply delivered to its own request's server,
      while that request is active. */
  lemma ResultStep(y: System, a: Action, i: nat)
    requires Inv(y) && Enabled(y, a) && i < |y.bus.futures| && i < |Do(y, a).bus.futures|
    requires Do(y, a).bus.futures[i].Result? && Do(y, a).bus.futures[i] != y.bus.futures[i]
    ensures a.Deliver? && a.s == y.requests[i].server && Active(y.requests[i])
    ensures NetOf(y, a.s).toPanel != [] && Accepts(NetOf(y, a.s).toPanel[0])
    ensures Do(y, a).bus.futures[i] == Result(NetOf(y, a.s).toPanel[0])
  {
    BusStep(y, a);
    if a.Deliver? {
      var f := Target(y.bus, a.s, COMMAND_RESULT);
      assert f == Some(i);
      assert Filed(y.bus, y.bus.byServer[a.s], COMMAND_RESULT, i);
    }
  }

  /** A step files at most one future, and that one is undone. */
  lemma NewFuture(y: System, a: Action, i: nat)
    requires Inv(y) && Enabled(y, a) && |y.bus.futures| <= i < |Do(y, a).bus.futures|
    ensures Do(y, a).bus.futures[i].Undone?
  {
    BusStep(y, a);
    hide Do, BusOps, After, Answers, NetOf, Accepts, Filed, Inv;
  }

  // ---------- what an agent owes ----------

  /** Taking a command makes its task owe: one report, success or failure, that carries the command's id;
      two of them for a destroy command, which runs the stop handler first; and for a tunnel's status
      one reply with a state the schema does not know. Nothing else. */
  lemma AgentOwes(y: System, s: int, replies: seq<Reply>)
    requires NetOf(y, s).toAgent != []
    ensures var c := NetOf(y, s).toAgent[0];
            && (c.kind == TunnelStatus ==> (Enabled(y, Take(s, replies)) <==> replies == [Reply(c.id, Unrecognised)]))
            && (c.kind == DestroyTunnel ==>
                  (Enabled(y, Take(s, replies)) <==>
                     |replies| == 2 && replies[0] in Reports(c.id) && replies[1] in Reports(c.id)))
            && (c.kind in {Execute, ApplyConfig, StartTunnel, StopTunnel} ==>
                  (Enabled(y, Take(s, replies)) <==> |replies| == 1 && replies[0] in Reports(c.id)))
            && (Enabled(y, Take(s, replies)) ==>
                  NetOf(Do(y, Take(s, replies)), s) ==
                  Net(NetOf(y, s).toAgent[1..], NetOf(y, s).owed + multiset(replies), NetOf(y, s).toPanel))
  {
    hide BusOps, After;
  }

  /** What a handler reports: the command worked or it did not. */
  function Reports(id: nat): set<Reply> {
    {Reply(id, Success), Reply(id, Failed)}
  }

  // ---------- what a delivered reply does ----------

  /** The request has not returned, and its undone future is the one filed with its server's registered
      connection. */
  predicate Awaited(y: System, r: nat) {
    && r < |y.requests| && r < |y.bus.futures|
    && !y.requests[r].phase.Finished? && y.bus.futures[r] == Undone
    && var s, c := y.requests[r].server, y.requests[r].conn;
       && s in y.bus.byServer && y.bus.byServer[s] == c && c < |y.bus.conns|
       && "command_result" in y.bus.conns[c].pending && y.bus.conns[c].pending["command_result"] == r
  }

  /** The next reply of the server, when the receive loop gets through to the registry with it: it
      becomes the result of the awaited future exactly when its status is `success`, `failed` or `running`,
      whatever command it answers, and a waiting request's next step returns it. A reply with any
      other status, or one whose recording raises, changes nothing in the registry. */
  lemma DeliveryDecides(y: System, r: nat, recorded: bool)
    requires Inv(y) && Awaited(y, r) && NetOf(y, y.requests[r].server).toPanel != []
    ensures var s := y.requests[r].server; var reply := NetOf(y, s).toPanel[0]; var z := Do(y, Deliver(s, recorded));
            && z.requests == y.requests && |z.bus.futures| == |y.bus.futures|
            && NetOf(z, s).toPanel == NetOf(y, s).toPanel[1..]
            && (z.bus.futures[r] == Result(reply) <==> recorded && reply.status in {Success, Failed, Running})
            && (z.bus.futures[r] == Result(reply) ==> z.bus == y.bus.(futures := y.bus.futures[r := Result(reply)]))
            && (z.bus.futures[r] != Result(reply) ==> z.bus == y.bus)
            && (z.bus.futures[r] == Result(reply) && y.requests[r].phase == Waiting ==>
                  && Enabled(z, Settle(r))
                  && Do(z, Settle(r)).requests == y.requests[r := y.requests[r].(phase := Finished(Returned(reply)))])
  {
    BusStep(y, Deliver(y.requests[r].server, recorded));
  }

  /** A reply from a server none of whose requests is awaited reaches nobody. */
  lemma DeliveryToNobody(y: System, s: int, recorded: bool)
    requires Inv(y) && NetOf(y, s).toPanel != []
    requires forall r: nat | Awaited(y, r) :: y.requests[r].server != s
    ensures var z := Do(y, Deliver(s, recorded)); z.bus == y.bus && z.requests == y.requests
  {
    BusStep(y, Deliver(s, recorded));
    TargetAwaited(y, s);
    hide BusOps, After, NetAfter, Answers, Accepts, Filed;
  }

  lemma TargetAwaited(y: System, s: int)
    requires Inv(y)
    ensures var f := Target(y.bus, s, COMMAND_RESULT);
            f.Some? ==> Awaited(y, f.value) && y.requests[f.value].server == s
  {
    if Target(y.bus, s, COMMAND_RESULT).Some? {
      assert Filed(y.bus, y.bus.byServer[s], COMMAND_RESULT, Target(y.bus, s, COMMAND_RESULT).value);
    }
  }

  // ---------- runs ----------

  lemma {:induction false} RunKeepsInv(y: System, steps: seq<Action>)
    requires Inv(y) && Runs(y, steps)
    ensures Inv(End(y, steps))
    decreases |steps|
  {
    hide Do, Inv, Enabled;
    if steps != [] {
      InvStep(y, steps[0]);
      RunKeepsInv(Do(y, steps[0]), steps[1..]);
    }
  }

  /** What the steps of a run do to the registry, one after the other. */
  function OpsOf(y: System, steps: seq<Action>): seq<Op>
    requires Runs(y, steps)
    decreases |steps|
  {
    if steps == [] then [] else BusOps(y, steps[0]) + OpsOf(Do(y, steps[0]), steps[1..])
  }

  /** The registry's part of a run is the run of its steps' registry operations, so what holds over
      all sequences of operations holds over all interleavings. */
  lemma {:induction false} RunOfBus(y: System, steps: seq<Action>)
    requires Runs(y, steps)
    ensures End(y, steps).bus == After(y.bus, OpsOf(y, steps))
    decreases |steps|
  {
    hide BusOps, Enabled;
    if steps != [] {
      RunOfBus(Do(y, steps[0]), steps[1..]);
      AfterConcat(y.bus, BusOps(y, steps[0]), OpsOf(Do(y, steps[0]), steps[1..]));
    }
  }

  lemma {:induction false} AfterConcat(b: State, xs: seq<Op>, ys: seq<Op>)
    ensures After(b, xs + ys) == After(After(b, xs), ys)
    decreases |ys|
  {
    if ys == [] {
      assert xs + ys == xs;
    } else {
      var n := |ys| - 1;
      assert (xs + ys)[..|xs + ys| - 1] == xs + ys[..n];
      AfterConcat(b, xs, ys[..n]);
    }
  }

  /** The last step of a run, and the run before it. */
  lemma {:induction false} RunSnoc(y: System, steps: seq<Action>)
    requires Runs(y, steps) && steps != []
    ensures var n := |steps| - 1;
            && Runs(y, steps[..n]) && Enabled(End(y, steps[..n]), steps[n])
            && End(y, steps) == Do(End(y, steps[..n]), steps[n])
    decreases |steps|
  {
    hide Do, Enabled;
    var n := |steps| - 1;
    if n > 0 {
      RunSnoc(Do(y, steps[0]), steps[1..]);
      assert steps[1..][..n - 1] == steps[..n][1..];
    }
  }

  // ---------- the registry in a run ----------

  function Connects(steps: seq<Action>): nat {
    if steps == [] then 0
    else Connects(steps[..|steps| - 1]) + (if steps[|steps| - 1].Connect? then 1 else 0)
  }

  /** The step ends the registration of server `s` on `socket`: a newer connection, its own handler's
      end, or a failed send on it. */
  predicate Severs(y: System, a: Action, s: int, socket: nat) {
    match a
    case Connect(t, _) => t == s
    case Leave(t, from) => t == s && from == socket
    case SendFailed(r, _) =>
      && r < |y.requests| && y.requests[r].server == s && y.requests[r].conn < |y.bus.conns|
      && y.bus.conns[y.requests[r].conn].socket == socket
    case _ => false
  }

  /** The `i`-th step connects `s` as connection `c`, and no step after it severs that. */
  ghost predicate Holds(steps: seq<Action>, i: nat, s: int, c: nat) {
    && i < |steps| && steps[i].Connect? && steps[i].s == s && Connects(steps[..i]) == c
    && forall j | i < j < |steps| ::
         Runs(INITIAL, steps[..j]) && !Severs(End(INITIAL, steps[..j]), steps[j], s, steps[i].socket)
  }

  lemma HoldsSnoc(steps: seq<Action>, i: nat, s: int, c: nat)
    requires steps != [] && Runs(INITIAL, steps[..|steps| - 1])
    ensures var n := |steps| - 1; var init, a := steps[..n], steps[n];
            Holds(steps, i, s, c) <==>
            if i == n then a.Connect? && a.s == s && Connects(init) == c
            else Holds(init, i, s, c) && !Severs(End(INITIAL, init), a, s, init[i].socket)
  {
    hide Runs, End, Severs, Connects;
    var n := |steps| - 1;
    if i < n {
      assert forall j | 0 <= j <= n :: steps[..n][..j] == steps[..j];
      if Holds(steps[..n], i, s, c) && !Severs(End(INITIAL, steps[..n]), steps[n], s, steps[i].socket) {
        forall j | i < j < |steps|
          ensures Runs(INITIAL, steps[..j]) && !Severs(End(INITIAL, steps[..j]), steps[j], s, steps[i].socket)
        {
          assert j < n ==> steps[..n][j] == steps[j];
        }
      }
    }
  }

  /** How one step changes a server's entry. */
  lemma EntryStep(y: System, a: Action, s: int)
    requires Inv(y) && Enabled(y, a)
    ensures var b, z := y.bus, Do(y, a).bus;
            && |z.conns| == |b.conns| + (if a.Connect? then 1 else 0)
            && (forall c | 0 <= c < |b.conns| :: z.conns[c].socket == b.conns[c].socket)
            && (a.Connect? && a.s == s ==>
                  s in z.byServer && z.byServer[s] == |b.conns| && z.conns[|b.conns|].socket == a.socket)
            && (!(a.Connect? && a.s == s) ==>
                  if s in b.byServer && !Severs(y, a, s, b.conns[b.byServer[s]].socket)
                  then s in z.byServer && z.byServer[s] == b.byServer[s]
                  else s !in z.byServer)
  {
    SocketsStep(y, a);
    if a.SendFailed? {
      FailedEntry(y, a, s);
    } else {
      BusStep(y, a);
    }
    hide Do, BusOps, After, Answers, NetOf, NetAfter, RequestsAfter, Accepts, Filed, FailEach, Target;
  }

  lemma FailedEntry(y: System, a: Action, s: int)
    requires Inv(y) && Enabled(y, a) && a.SendFailed?
    ensures var b, z := y.bus, Do(y, a).bus;
            if s in b.byServer && !Severs(y, a, s, b.conns[b.byServer[s]].socket)
            then s in z.byServer && z.byServer[s] == b.byServer[s]
            else s !in z.byServer
  {
    BusStep(y, a);
    hide Do, BusOps, After, Answers, NetOf, NetAfter, RequestsAfter, Accepts, Filed, FailEach, Target;
  }

  lemma SocketsStep(y: System, a: Action)
    requires Inv(y) && Enabled(y, a)
    ensures var b, z := y.bus, Do(y, a).bus;
            && |z.conns| == |b.conns| + (if a.Connect? then 1 else 0)
            && (forall c | 0 <= c < |b.conns| :: z.conns[c].socket == b.conns[c].socket)
            && (a.Connect? ==> z.conns[|b.conns|].socket == a.socket)
  {
    BusStep(y, a);
    hide Do, BusOps, After, Answers, NetOf, NetAfter, RequestsAfter, Accepts, Filed, FailEach;
  }

  /** In every run of the protocol a server's entry is its latest connection that no later step has
      severed, and there is none when there is no such connection. */
  lemma {:induction false} RunRegistry(steps: seq<Action>, s: int, c: nat)
    requires Runs(INITIAL, steps)
    ensures var b := End(INITIAL, steps).bus;
            && (s in b.byServer && b.byServer[s] == c <==> exists i: nat :: Holds(steps, i, s, c))
            && |b.conns| == Connects(steps)
            && (forall i: nat | Holds(steps, i, s, c) :: c < |b.conns| && b.conns[c].socket == steps[i].socket)
    decreases |steps|
  {
    if steps != [] {
      var n := |steps| - 1;
      var init, a := steps[..n], steps[n];
      RunSnoc(INITIAL, steps);
      var y := End(INITIAL, init);
      RunRegistry(init, s, c);
      RunKeepsInv(INITIAL, init);
      EntryStep(y, a, s);
      forall i: nat
        ensures Holds(steps, i, s, c) <==>
                if i == n then a.Connect? && a.s == s && Connects(init) == c
                else Holds(init, i, s, c) && !Severs(y, a, s, init[i].socket)
      {
        HoldsSnoc(steps, i, s, c);
      }
      hide Runs, End, Do, Inv, Severs, Enabled;
      var b := End(INITIAL, steps).bus;
      if s in b.byServer && b.byServer[s] == c {
        if a.Connect? && a.s == s {
          assert Holds(steps, n, s, c);
        } else {
          var i: nat :| Holds(init, i, s, c);
          assert y.bus.conns[c].socket == init[i].socket && !Severs(y, a, s, init[i].socket);
          assert i < n;
          assert Holds(steps, i, s, c);
        }
      }
    }
  }

  /** The connection that a handler's end or a failed send drops from the registry. */
  function Dropped(y: System, a: Action): Option<nat> {
    match a
    case Leave(s, socket) => if Drops(y.bus, s, Some(socket)) then Some(y.bus.byServer[s]) else None
    case SendFailed(r, _) =>
      if r < |y.requests| && y.requests[r].conn < |y.bus.conns| then
        var q := y.requests[r];
        if Drops(y.bus, q.server, Some(y.bus.conns[q.conn].socket)) then Some(y.bus.byServer[q.server]) else None
      else None
    case _ => None
  }

  /** It is the connection whose server has no entry any more. */
  lemma DroppedIs(y: System, a: Action, c: nat)
    requires Inv(y) && Enabled(y, a)
    ensures Dropped(y, a) == Some(c) <==>
            exists s :: s in y.bus.byServer && y.bus.byServer[s] == c && s !in Do(y, a).bus.byServer
  {
    BusStep(y, a);
    hide BusOps, After, NetAfter, Answers, Accepts, Filed, NetOf, RequestsAfter;
  }

  /** In every continuation of a run that dropped a connection, no request waits on a future filed
      with it, and no reply can reach a request that was made on it. */
  lemma RunDropped(before: seq<Action>, a: Action, later: seq<Action>)
    requires Runs(INITIAL, before) && Enabled(End(INITIAL, before), a)
    requires Runs(Do(End(INITIAL, before), a), later)
    requires Dropped(End(INITIAL, before), a).Some?
    ensures var c := Dropped(End(INITIAL, before), a).value; var z := End(Do(End(INITIAL, before), a), later);
            && Retired(z.bus, c)
            && |z.requests| == |z.bus.futures|
            && forall i | 0 <= i < |z.requests| && z.requests[i].conn == c :: !Reachable(z.bus, i)
  {
    var y := End(INITIAL, before);
    var z, c := Do(y, a), Dropped(y, a).value;
    RunKeepsInv(INITIAL, before);
    InvStep(y, a);
    RunKeepsInv(z, later);
    RunOfBus(z, later);
    DroppedAfter(y, a, OpsOf(z, later));
    var end := End(z, later);
    hide Runs, End, Do, Enabled, OpsOf, Retired;
    forall i | 0 <= i < |end.requests| && end.requests[i].conn == c ensures !Reachable(end.bus, i) {
      RetiredUnreachable(end, c, i);
    }
  }

  lemma DroppedAfter(y: System, a: Action, ops: seq<Op>)
    requires Inv(y) && Enabled(y, a) && Dropped(y, a).Some?
    ensures Retired(After(Do(y, a).bus, ops), Dropped(y, a).value)
  {
    var (s, socket) := match a
      case Leave(s, socket) => (s, socket)
      case SendFailed(r, _) => (y.requests[r].server, y.bus.conns[y.requests[r].conn].socket);
    var drop := Unregister(s, Some(socket));
    var rest := if a.Leave? then [] else [Pop(y.requests[a.r].conn, COMMAND_RESULT)];
    assert BusOps(y, a) == [drop] + rest;
    AfterConcat(y.bus, [drop], rest);
    AfterOne(y.bus, drop);
    AfterConcat(Apply(y.bus, drop), rest, ops);
    DroppedStaysRetired(y.bus, s, Some(socket), rest + ops);
  }

  lemma RetiredUnreachable(y: System, c: nat, i: nat)
    requires Inv(y) && Retired(y.bus, c) && i < |y.requests| && y.requests[i].conn == c
    ensures !Reachable(y.bus, i)
  {
    assert forall d: nat, k | Filed(y.bus, d, k, i) :: y.requests[i].conn == d;
  }
}
