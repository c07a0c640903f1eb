/** A discipline the panel can keep on its own, without seeing the channels, under which every reply
    answers its own request. */
module SerialRequests {
  import opened Wrappers
  import opened Bus
  import opened Protocol
  import opened Correlation

  predicate HasReturned(q: Request) {
    q.phase.Finished? && q.phase.outcome.Returned?
  }

  predicate Open(y: System, i: nat, s: int) {
    i < |y.requests| && y.requests[i].server == s && !HasReturned(y.requests[i])
  }

  ghost predicate AllReturned(y: System, s: int) {
    forall i: nat :: !Open(y, i, s)
  }

  /** The panel sends server `s` only requests, never one that is answered twice, and begins each only
      when all before it have returned a reply. */
  ghost predicate Serial(y: System, a: Action, s: int) {
    match a
    case Begin(t, command) => t == s ==> !command.kind.DestroyTunnel? && AllReturned(y, s)
    case Push(t, _) => t != s
    case _ => true
  }

  ghost predicate SerialRun(y: System, steps: seq<Action>, s: int)
    requires Runs(y, steps)
    decreases |steps|
  {
    steps == [] || (Serial(y, steps[0], s) && SerialRun(Do(y, steps[0]), steps[1..], s))
  }

  // ---------- conservation of messages ----------

  /** How many messages are under way, in either direction or owed. */
  function Weight(n: Net): nat {
    |n.toAgent| + |n.owed| + |n.toPanel|
  }

  predicate AnsweredOnce(n: Net) {
    forall k | 0 <= k < |n.toAgent| :: !n.toAgent[k].kind.DestroyTunnel?
  }

  /** The one open request accounts for at most one message, and for none before it was sent or after
      its future got its result. */
  predicate Accounts(y: System, i: nat, s: int)
    requires i < |y.requests| == |y.bus.futures|
  {
    && Weight(NetOf(y, s)) <= 1
    && !y.requests[i].command.kind.DestroyTunnel?
    && (y.requests[i].phase.Sending? ==> Weight(NetOf(y, s)) == 0 && !y.bus.futures[i].Result?)
    && (y.bus.futures[i].Result? ==> Weight(NetOf(y, s)) == 0)
  }

  ghost predicate Accounted(y: System, s: int) {
    && Inv(y) && AnsweredOnce(NetOf(y, s))
    && (forall i: nat, j: nat | Open(y, i, s) && Open(y, j, s) :: i == j)
    && (forall i: nat | Open(y, i, s) :: Accounts(y, i, s))
    && (AllReturned(y, s) ==> Weight(NetOf(y, s)) == 0)
  }

  /** Taking a command that is answered once, or moving or losing a message, adds none. */
  lemma WeightMoves(y: System, a: Action, s: int)
    requires Enabled(y, a) && AnsweredOnce(NetOf(y, s))
    requires !a.Sent? && !a.SendFailed? && (a.Push? ==> a.s != s)
    ensures var n, m := NetOf(y, s), NetOf(Do(y, a), s);
            && AnsweredOnce(m) && Weight(m) <= Weight(n)
            && (a.Deliver? && a.s == s ==> Weight(m) < Weight(n))
  {
    NetStep(y, a, s);
    hide Do, BusOps, After, RequestsAfter;
    if a.Take? && a.s == s {
      assert !NetOf(y, s).toAgent[0].kind.DestroyTunnel?;
      assert |multiset(a.replies)| == |a.replies|;
    }
  }

  lemma WeightSends(y: System, a: Action, s: int)
    requires Enabled(y, a) && AnsweredOnce(NetOf(y, s)) && (a.Sent? || a.SendFailed?)
    ensures var n, m := NetOf(y, s), NetOf(Do(y, a), s);
            if y.requests[a.r].server != s then m == n
            else Weight(m) <= Weight(n) + 1
                 && (!y.requests[a.r].command.kind.DestroyTunnel? ==> AnsweredOnce(m))
  {
    hide Do, BusOps, After, RequestsAfter, Answers, NetOf, Weight, AnsweredOnce;
    NetStep(y, a, s);
    OneMore(NetOf(y, s), y.requests[a.r].command);
  }

  lemma OneMore(n: Net, c: Command)
    ensures var m := n.(toAgent := n.toAgent + [c]);
            && Weight(m) == Weight(n) + 1
            && (AnsweredOnce(n) && !c.kind.DestroyTunnel? ==> AnsweredOnce(m))
  {
  }

  lemma WeightStep(y: System, a: Action, s: int)
    requires Accounted(y, s) && Enabled(y, a) && Serial(y, a, s)
    ensures AnsweredOnce(NetOf(Do(y, a), s))
    ensures !a.Sent? && !a.SendFailed? ==> Weight(NetOf(Do(y, a), s)) <= Weight(NetOf(y, s))
  {
    if a.Sent? || a.SendFailed? {
      WeightSends(y, a, s);
      assert y.requests[a.r].server == s ==> Open(y, a.r, s) && Accounts(y, a.r, s);
    } else {
      WeightMoves(y, a, s);
    }
  }

  /** What is open after a step was open before it, or has just begun when nothing was. */
  lemma OpenStep(y: System, a: Action, s: int, i: nat)
    requires Inv(y) && Enabled(y, a) && Serial(y, a, s) && Open(Do(y, a), i, s)
    ensures Open(y, i, s) || (i == |y.requests| && AllReturned(y, s) && a.Begin? && a.s == s)
    ensures i == |y.requests| ==>
              Do(y, a).requests[i].phase.Sending? && !Do(y, a).requests[i].command.kind.DestroyTunnel?
    ensures i < |y.requests| ==> Do(y, a).requests[i].command == y.requests[i].command
    ensures i < |y.requests| && Do(y, a).requests[i].phase.Sending? ==> Do(y, a).requests[i] == y.requests[i]
  {
    hide BusOps, After, Answers, NetAfter, Inv, Accepts;
  }

  lemma AccountsStep(y: System, a: Action, s: int, i: nat)
    requires Accounted(y, s) && Enabled(y, a) && Serial(y, a, s) && Inv(Do(y, a)) && Open(Do(y, a), i, s)
    ensures Accounts(Do(y, a), i, s)
  {
    OpenStep(y, a, s, i);
    var z := Do(y, a);
    if i == |y.requests| {
      WeightMoves(y, a, s);
      NewFuture(y, a, i);
    } else {
      assert Accounts(y, i, s);
      if z.bus.futures[i].Result? && z.bus.futures[i] != y.bus.futures[i] {
        ResultStep(y, a, i);
        WeightMoves(y, a, s);
      } else if a.Sent? || a.SendFailed? {
        WeightSends(y, a, s);
        if y.requests[a.r].server == s {
          SentOpen(y, a, s, i);
        }
      } else {
        WeightMoves(y, a, s);
      }
    }
  }

  /** Sending to the server is the open request's doing, and ends its sending phase. */
  lemma SentOpen(y: System, a: Action, s: int, i: nat)
    requires Accounted(y, s) && Enabled(y, a) && (a.Sent? || a.SendFailed?)
    requires Open(y, i, s) && y.requests[a.r].server == s
    ensures a.r == i && y.requests[i].phase.Sending? && Weight(NetOf(y, s)) == 0
    ensures !Do(y, a).requests[i].phase.Sending?
  {
    assert Open(y, a.r, s);
    assert Accounts(y, i, s);
    hide BusOps, After, Answers, NetAfter, Inv, NetOf;
  }

  /** When the last open request returns, nothing is under way. */
  lemma AllReturnedStep(y: System, a: Action, s: int)
    requires Accounted(y, s) && Enabled(y, a) && Serial(y, a, s) && Inv(Do(y, a)) && AllReturned(Do(y, a), s)
    ensures Weight(NetOf(Do(y, a), s)) == 0
  {
    var z := Do(y, a);
    if a.Sent? || a.SendFailed? {
      SendKeepsOpen(y, a);
      WeightSends(y, a, s);
    } else {
      WeightMoves(y, a, s);
    }
    if i: nat :| Open(y, i, s) {
      assert Accounts(y, i, s);
      ReturnedNow(y, a, s, i);
    }
  }

  lemma SendKeepsOpen(y: System, a: Action)
    requires Enabled(y, a) && (a.Sent? || a.SendFailed?)
    ensures Open(y, a.r, y.requests[a.r].server) && Open(Do(y, a), a.r, y.requests[a.r].server)
    ensures forall i: nat, s | i != a.r :: Open(Do(y, a), i, s) == Open(y, i, s)
  {
    hide BusOps, After, Answers, NetAfter;
  }

  /** A request that has just returned had its result. */
  lemma ReturnedNow(y: System, a: Action, s: int, i: nat)
    requires Inv(y) && Enabled(y, a) && Open(y, i, s) && !Open(Do(y, a), i, s)
    ensures y.bus.futures[i].Result? && !a.Sent? && !a.SendFailed?
  {
    hide BusOps, After, Answers, NetAfter, NetOf;
  }

  lemma AccountedStep(y: System, a: Action, s: int)
    requires Accounted(y, s) && Enabled(y, a) && Serial(y, a, s)
    ensures Accounted(Do(y, a), s)
  {
    InvStep(y, a);
    WeightStep(y, a, s);
    var z := Do(y, a);
    forall i: nat, j: nat | Open(z, i, s) && Open(z, j, s) ensures i == j {
      OpenStep(y, a, s, i);
      OpenStep(y, a, s, j);
    }
    forall i: nat | Open(z, i, s) ensures Accounts(z, i, s) {
      AccountsStep(y, a, s, i);
    }
    if AllReturned(z, s) {
      AllReturnedStep(y, a, s);
    }
    hide Do, Enabled, Serial, Open, NetOf, Weight, AnsweredOnce, AllReturned, Inv;
  }

  /** With nothing under way and nothing open, the next request is begun in order. */
  lemma SerialStepIsOrderly(y: System, a: Action, s: int)
    requires Accounted(y, s) && Serial(y, a, s)
    ensures Orderly(y, a, s)
  {
    if a.Begin? && a.s == s {
      assert forall i: nat :: !Open(y, i, s) ==> !ActiveOn(y, i, s);
      assert NetOf(y, s).owed == multiset{};
    }
  }

  /** Serial requests are orderly, so each of them returns a reply to its own command or nothing. */
  lemma {:induction false} SerialIsOrderly(y: System, steps: seq<Action>, s: int)
    requires Accounted(y, s) && Runs(y, steps) && SerialRun(y, steps, s)
    ensures OrderlyRun(y, steps, s) && Accounted(End(y, steps), s)
    decreases |steps|
  {
    hide Do, Accounted, Enabled, Serial, Orderly;
    if steps != [] {
      SerialStepIsOrderly(y, steps[0], s);
      AccountedStep(y, steps[0], s);
      SerialIsOrderly(Do(y, steps[0]), steps[1..], s);
    }
  }

  /** In every run in which the panel is serial towards a server, every reply returned to one of its
      requests is a reply to that request's own command, and whenever all have returned the
      channels to and from it are empty. */
  lemma SerialRequestsAreAnswered(steps: seq<Action>, s: int)
    requires Runs(INITIAL, steps) && SerialRun(INITIAL, steps, s)
    ensures forall q | q in End(INITIAL, steps).requests && q.server == s :: Right(q)
    ensures AllReturned(End(INITIAL, steps), s) ==> NetOf(End(INITIAL, steps), s) == IDLE
  {
    SerialIsOrderly(INITIAL, steps, s);
    RightFromStart(steps, s);
    assert NetOf(INITIAL, s) == IDLE;
    var n := NetOf(End(INITIAL, steps), s);
    assert Weight(n) == 0 ==> n.owed == multiset{} && n == IDLE;
  }
}
