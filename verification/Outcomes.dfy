/** How the requests of a run end, and where every message of a run goes. */
module Outcomes {
  import opened Wrappers
  import opened Bus
  import opened Protocol

  // ---------- how a request ends ----------

  /** The outcome against the future: a broken request's future was failed by the end of its connection,
      and a future is cancelled exactly when its request timed out. */
  ghost predicate OutcomesMatch(y: System) {
    |y.requests| == |y.bus.futures|
    && forall i | 0 <= i < |y.requests| :: Matches(y.requests[i].phase, y.bus.futures[i])
  }

  predicate Matches(phase: Phase, f: Future) {
    && (phase == Finished(Broken) ==> f == Disconnected)
    && (phase == Finished(TimedOut) <==> f == Cancelled)
    && (phase.Finished? && phase.outcome.Returned? ==> f == Result(phase.outcome.reply))
  }

  /** What a step does to one request. */
  lemma PhaseStep(y: System, a: Action, i: nat)
    requires Inv(y) && Enabled(y, a) && i < |y.requests| && OutcomesMatch(y)
    ensures var z := Do(y, a); var was := y.requests[i].phase;
            && i < |z.requests| && z.requests[i] == y.requests[i].(phase := z.requests[i].phase)
            && (was.Finished? ==> z.requests[i].phase == was)
            && (was.Sending? ==>
                  z.requests[i].phase ==
                  if a == Sent(i) then Waiting
                  else if a.SendFailed? && a.r == i then Finished(NoReply) else Sending)
            && (was.Waiting? && a != Settle(i) ==>
                  z.requests[i].phase == if a == Timeout(i) then Finished(TimedOut) else Waiting)
            && (was.Waiting? && a == Settle(i) ==>
                  match y.bus.futures[i]
                  case Result(reply) => z.requests[i].phase == Finished(Returned(reply))
                  case Disconnected => z.requests[i].phase == Finished(Broken)
                  case _ => false)
  {
    hide BusOps, After, NetAfter, Answers, Accepts, Inv, NetOf;
    if a == Settle(i) {
      assert Matches(y.requests[i].phase, y.bus.futures[i]);
    }
  }

  /** What a step does to one future. */
  lemma FutureStep(y: System, a: Action, i: nat)
    requires Inv(y) && Enabled(y, a) && i < |y.bus.futures|
    ensures var f, g := y.bus.futures[i], Do(y, a).bus.futures;
            && i < |g|
            && (f != Undone ==> g[i] == f)
            && (a == Timeout(i) ==> g[i] == Cancelled)
            && (a != Timeout(i) ==> g[i] != Cancelled || f == Cancelled)
  {
    hide Do, BusOps, After, NetAfter, RequestsAfter, Answers, Accepts, Inv, NetOf, Filed;
    FuturesOf(y, a);
  }

  lemma FuturesOf(y: System, a: Action)
    requires Inv(y) && Enabled(y, a)
    ensures var b, z := y.bus.futures, Do(y, a).bus.futures;
            match a
            case Begin(_, _) => |z| >= |b| && z[..|b|] == b
            case Leave(s, socket) => z == Unregistered(y.bus, s, Some(socket)).futures
            case SendFailed(r, _) =>
              z == Unregistered(y.bus, y.requests[r].server, Some(y.bus.conns[y.requests[r].conn].socket)).futures
            case Timeout(r) => z == Expired(y.bus, r).futures
            case Deliver(s, recorded) =>
              z == b || z == Resolved(y.bus, s, "command_result", NetOf(y, s).toPanel[0]).futures
            case _ => z == b
  {
    BusStep(y, a);
    hide Do, BusOps, After, NetAfter, RequestsAfter, Answers, Accepts, NetOf, Filed, Resolved, Unregistered, Expired;
  }

  lemma MatchesStep(y: System, a: Action, i: nat)
    requires Inv(y) && Enabled(y, a) && OutcomesMatch(y) && i < |Do(y, a).requests| == |Do(y, a).bus.futures|
    ensures Matches(Do(y, a).requests[i].phase, Do(y, a).bus.futures[i])
  {
    if i < |y.requests| {
      PhaseStep(y, a, i);
      FutureStep(y, a, i);
      assert Matches(y.requests[i].phase, y.bus.futures[i]);
      hide Do, Enabled;
    } else {
      NewRequest(y, a);
      NewFuture(y, a, i);
      hide Do, Enabled;
    }
    hide Inv;
  }

  /** Only the start of a request to a registered server adds one, on the registered connection. */
  lemma NewRequest(y: System, a: Action)
    requires Inv(y) && Enabled(y, a)
    ensures var z := Do(y, a);
            if a.Begin? && a.s in y.bus.byServer
            then z.requests == y.requests + [Request(a.s, y.bus.byServer[a.s], a.command, Sending)]
                 && z.bus.futures == y.bus.futures + [Undone]
            else |z.requests| == |y.requests| && |z.bus.futures| == |y.bus.futures|
  {
    BusStep(y, a);
    hide BusOps, After, NetAfter, Answers, Accepts, NetOf, Filed;
  }

  lemma OutcomesStep(y: System, a: Action)
    requires Inv(y) && Enabled(y, a) && OutcomesMatch(y)
    ensures OutcomesMatch(Do(y, a))
  {
    RequestsStep(y, a);
    forall i | 0 <= i < |Do(y, a).requests|
      ensures Matches(Do(y, a).requests[i].phase, Do(y, a).bus.futures[i])
    {
      MatchesStep(y, a, i);
    }
    hide Do, Enabled, Inv, Matches;
  }

  lemma {:induction false} RunOutcomes(y: System, steps: seq<Action>)
    requires Inv(y) && Runs(y, steps) && OutcomesMatch(y)
    ensures OutcomesMatch(End(y, steps))
    decreases |steps|
  {
    hide Do, Inv, Enabled, OutcomesMatch;
    if steps != [] {
      InvStep(y, steps[0]);
      OutcomesStep(y, steps[0]);
      RunOutcomes(Do(y, steps[0]), steps[1..]);
    }
  }

  /** The step that ends request `r`. */
  predicate EndsRequest(a: Action, r: nat) {
    a == Settle(r) || a == Timeout(r) || (a.SendFailed? && a.r == r)
  }

  /** What the ending step makes of the request. */
  predicate Decides(a: Action, phase: Phase, f: Future) {
    match a
    case SendFailed(_, _) => phase == Finished(NoReply)
    case Timeout(_) => phase == Finished(TimedOut)
    case _ =>
      match f
      case Result(reply) => phase == Finished(Returned(reply))
      case Disconnected => phase == Finished(Broken)
      case _ => false
  }

  /** In every run a request that has not ended stays the same request and ends exactly when a step of its
      own ends it; there is at most one such step... */
  lemma {:induction false} RequestEnds(y: System, steps: seq<Action>, r: nat)
    requires Inv(y) && Runs(y, steps) && OutcomesMatch(y) && r < |y.requests| && !y.requests[r].phase.Finished?
    ensures var z := End(y, steps);
            && r < |z.requests| && z.requests[r] == y.requests[r].(phase := z.requests[r].phase)
            && (z.requests[r].phase.Finished? <==> exists j :: 0 <= j < |steps| && EndsRequest(steps[j], r))
    ensures forall j, k | 0 <= j < k < |steps| :: !(EndsRequest(steps[j], r) && EndsRequest(steps[k], r))
    decreases |steps|
  {
    hide Do, Inv, Enabled, OutcomesMatch, EndsRequest;
    if steps != [] {
      var z := Do(y, steps[0]);
      InvStep(y, steps[0]);
      OutcomesStep(y, steps[0]);
      EndsNow(y, steps[0], r);
      assert forall j | 1 <= j < |steps| :: steps[j] == steps[1..][j - 1];
      if EndsRequest(steps[0], r) {
        StaysEnded(z, steps[1..], r);
      } else {
        RequestEnds(z, steps[1..], r);
      }
    }
  }

  lemma EndsNow(y: System, a: Action, r: nat)
    requires Inv(y) && Enabled(y, a) && OutcomesMatch(y) && r < |y.requests| && !y.requests[r].phase.Finished?
    ensures var z := Do(y, a);
            && r < |z.requests| && z.requests[r] == y.requests[r].(phase := z.requests[r].phase)
            && (z.requests[r].phase.Finished? <==> EndsRequest(a, r))
            && (EndsRequest(a, r) ==>
                  && r < |y.bus.futures| && Decides(a, z.requests[r].phase, y.bus.futures[r])
                  && (a.Settle? ==> y.bus.futures[r] != Undone))
  {
    PhaseStep(y, a, r);
    hide Do, Inv;
  }

  /** ...and that step decides the outcome: a failed send is no reply, a timeout is a timeout, and a settled
      future is its reply or the end of the connection. */
  lemma {:induction false} EndingDecides(y: System, steps: seq<Action>, r: nat, j: nat)
    requires Inv(y) && Runs(y, steps) && OutcomesMatch(y) && r < |y.requests| && !y.requests[r].phase.Finished?
    requires j < |steps| && EndsRequest(steps[j], r)
    ensures var z := End(y, steps);
            r < |z.requests| && r < |z.bus.futures| && Decides(steps[j], z.requests[r].phase, z.bus.futures[r])
    decreases |steps|
  {
    hide Do, Inv, Enabled, OutcomesMatch, EndsRequest;
    var z := Do(y, steps[0]);
    InvStep(y, steps[0]);
    OutcomesStep(y, steps[0]);
    EndsNow(y, steps[0], r);
    if EndsRequest(steps[0], r) {
      FutureStep(y, steps[0], r);
      StaysEnded(z, steps[1..], r);
      OnlyEnding(y, steps, r, j);
    } else {
      EndingDecides(z, steps[1..], r, j - 1);
    }
  }

  lemma OnlyEnding(y: System, steps: seq<Action>, r: nat, j: nat)
    requires Inv(y) && Runs(y, steps) && OutcomesMatch(y) && r < |y.requests| && !y.requests[r].phase.Finished?
    requires j < |steps| && EndsRequest(steps[0], r) && EndsRequest(steps[j], r)
    ensures j == 0
  {
    RequestEnds(y, steps, r);
    hide End, Runs, Inv, OutcomesMatch;
  }

  lemma {:induction false} StaysEnded(y: System, steps: seq<Action>, r: nat)
    requires Inv(y) && Runs(y, steps) && OutcomesMatch(y) && r < |y.requests| && y.requests[r].phase.Finished?
    ensures var z := End(y, steps); r < |z.requests| && r < |z.bus.futures| && z.requests[r] == y.requests[r]
    ensures y.bus.futures[r] != Undone ==> End(y, steps).bus.futures[r] == y.bus.futures[r]
    ensures forall j | 0 <= j < |steps| :: !EndsRequest(steps[j], r)
    decreases |steps|
  {
    if steps != [] {
      InvStep(y, steps[0]);
      OutcomesStep(y, steps[0]);
      PhaseStep(y, steps[0], r);
      FutureStep(y, steps[0], r);
      assert !EndsRequest(steps[0], r);
      StaysEnded(Do(y, steps[0]), steps[1..], r);
      hide Do, Inv, Enabled;
    }
  }

  // ---------- where the messages go ----------

  /** The commands put on the channel to server `s`: by sends that arrive and by pushes. */
  function Written(y: System, a: Action, s: int): seq<Command>
    requires Enabled(y, a)
  {
    match a
    case Push(t, command) => if t == s then [command] else []
    case Sent(r) => if y.requests[r].server == s then [y.requests[r].command] else []
    case SendFailed(r, arrived) => if arrived && y.requests[r].server == s then [y.requests[r].command] else []
    case _ => []
  }

  /** The commands its agent takes or a broken connection loses. */
  function Read(y: System, a: Action, s: int): seq<Command>
    requires Enabled(y, a)
  {
    if (a.Take? || a.LoseCommand?) && a.s == s then [NetOf(y, s).toAgent[0]] else []
  }

  /** The replies its tasks send, and the replies the panel handles or a broken connection loses. */
  function Replied(a: Action, s: int): seq<Reply> {
    if a.Answer? && a.s == s then [a.reply] else []
  }

  function Handled(y: System, a: Action, s: int): seq<Reply>
    requires Enabled(y, a)
  {
    if (a.Deliver? || a.LoseReply?) && a.s == s then [NetOf(y, s).toPanel[0]] else []
  }

  /** The replies that taking a command makes its task owe, and the ones sent or given up. */
  function Promised(a: Action, s: int): multiset<Reply> {
    if a.Take? && a.s == s then multiset(a.replies) else multiset{}
  }

  function Paid(a: Action, s: int): multiset<Reply> {
    if (a.Answer? || a.Forget?) && a.s == s then multiset{a.reply} else multiset{}
  }

  datatype Flow = Flow(written: seq<Command>, read: seq<Command>, replied: seq<Reply>, handled: seq<Reply>,
                       promised: multiset<Reply>, paid: multiset<Reply>)

  /** All of these over a run. */
  function FlowOf(y: System, steps: seq<Action>, s: int): Flow
    requires Runs(y, steps)
    decreases |steps|
  {
    if steps == [] then Flow([], [], [], [], multiset{}, multiset{})
    else
      var a := steps[0]; var f := FlowOf(Do(y, a), steps[1..], s);
      Flow(Written(y, a, s) + f.written, Read(y, a, s) + f.read, Replied(a, s) + f.replied,
           Handled(y, a, s) + f.handled, Promised(a, s) + f.promised, Paid(a, s) + f.paid)
  }

  /** The channels after a step, spelled out. */
  lemma ChannelsStep(y: System, a: Action, s: int)
    requires Enabled(y, a)
    ensures var n, m := NetOf(y, s), NetOf(Do(y, a), s);
            && m.toAgent == (if (a.Take? || a.LoseCommand?) && a.s == s then n.toAgent[1..]
                             else if Written(y, a, s) == [] then n.toAgent
                             else n.toAgent + Written(y, a, s))
            && m.toPanel == (if (a.Deliver? || a.LoseReply?) && a.s == s then n.toPanel[1..]
                             else if a.Answer? && a.s == s then n.toPanel + [a.reply]
                             else n.toPanel)
            && m.owed == (if a.Take? && a.s == s then n.owed + multiset(a.replies)
                          else if (a.Answer? || a.Forget?) && a.s == s then n.owed - multiset{a.reply}
                          else n.owed)
  {
    hide Answers, NetOf, Do, BusOps, RequestsAfter;
    NetStep(y, a, s);
  }

  lemma CommandsFlow(y: System, a: Action, s: int)
    requires Enabled(y, a)
    ensures NetOf(y, s).toAgent + Written(y, a, s) == Read(y, a, s) + NetOf(Do(y, a), s).toAgent
  {
    hide Answers, NetOf, Do, BusOps, RequestsAfter, NetAfter;
    ChannelsStep(y, a, s);
    Queue(NetOf(y, s).toAgent, Written(y, a, s), Read(y, a, s), NetOf(Do(y, a), s).toAgent);
  }

  lemma RepliesFlow(y: System, a: Action, s: int)
    requires Enabled(y, a)
    ensures NetOf(y, s).toPanel + Replied(a, s) == Handled(y, a, s) + NetOf(Do(y, a), s).toPanel
  {
    hide Answers, NetOf, Do, BusOps, RequestsAfter, NetAfter, Written;
    ChannelsStep(y, a, s);
    Queue(NetOf(y, s).toPanel, Replied(a, s), Handled(y, a, s), NetOf(Do(y, a), s).toPanel);
  }

  lemma OwedFlow(y: System, a: Action, s: int)
    requires Enabled(y, a)
    ensures NetOf(y, s).owed + Promised(a, s) == Paid(a, s) + NetOf(Do(y, a), s).owed
  {
    hide Answers, NetOf, Do, BusOps, RequestsAfter, NetAfter, Written;
    ChannelsStep(y, a, s);
    Balance(NetOf(y, s).owed, Promised(a, s), Paid(a, s), NetOf(Do(y, a), s).owed);
  }

  lemma Queue<T>(n: seq<T>, written: seq<T>, read: seq<T>, m: seq<T>)
    requires || (read == [] && m == if written == [] then n else n + written)
             || (written == [] && n != [] && read == [n[0]] && m == n[1..])
    ensures n + written == read + m
  {
  }

  lemma Balance<T>(n: multiset<T>, more: multiset<T>, less: multiset<T>, m: multiset<T>)
    requires (less == multiset{} && m == n + more) || (more == multiset{} && less <= n && m == n - less)
    ensures n + more == less + m
  {
  }

  /** Over every run, on the channels of every server: the commands under way at the start and those written
      since are, in this order, the commands read and those still under way at the end; the same of
      replies; and a task's replies are sent, given up, or still owed. Nothing is invented, doubled,
      reordered or silently dropped. */
  lemma {:induction false} MessagesAreConserved(y: System, steps: seq<Action>, s: int)
    requires Runs(y, steps)
    ensures var f, n, m := FlowOf(y, steps, s), NetOf(y, s), NetOf(End(y, steps), s);
            && n.toAgent + f.written == f.read + m.toAgent
            && n.toPanel + f.replied == f.handled + m.toPanel
            && n.owed + f.promised == f.paid + m.owed
    decreases |steps|
  {
    hide Do, Enabled, NetOf, Written, Read, Replied, Handled, Promised, Paid;
    if steps != [] {
      var a, z := steps[0], Do(y, steps[0]);
      CommandsFlow(y, a, s);
      RepliesFlow(y, a, s);
      OwedFlow(y, a, s);
      MessagesAreConserved(z, steps[1..], s);
      var f, n, m, e := FlowOf(z, steps[1..], s), NetOf(y, s), NetOf(z, s), NetOf(End(y, steps), s);
      Moved(n.toAgent, Written(y, a, s), Read(y, a, s), m.toAgent, f.written, f.read, e.toAgent);
      Moved(n.toPanel, Replied(a, s), Handled(y, a, s), m.toPanel, f.replied, f.handled, e.toPanel);
      Shifted(n.owed, Promised(a, s), Paid(a, s), m.owed, f.promised, f.paid, e.owed);
      assert FlowOf(y, steps, s) ==
             Flow(Written(y, a, s) + f.written, Read(y, a, s) + f.read, Replied(a, s) + f.replied,
                  Handled(y, a, s) + f.handled, Promised(a, s) + f.promised, Paid(a, s) + f.paid);
      hide FlowOf, End, Runs;
    }
  }

  lemma Shifted<T>(a: multiset<T>, more: multiset<T>, less: multiset<T>, b: multiset<T>,
                   more2: multiset<T>, less2: multiset<T>, c: multiset<T>)
    requires a + more == less + b && b + more2 == less2 + c
    ensures a + (more + more2) == (less + less2) + c
  {
    assert a + (more + more2) == (a + more) + more2 == less + (b + more2);
  }

  lemma Moved<T>(a: seq<T>, written: seq<T>, read: seq<T>, b: seq<T>, more: seq<T>, later: seq<T>, c: seq<T>)
    requires a + written == read + b && b + more == later + c
    ensures a + (written + more) == (read + later) + c
  {
    assert a + (written + more) == (a + written) + more == read + (b + more);
    assert read + (later + c) == (read + later) + c;
  }
}
