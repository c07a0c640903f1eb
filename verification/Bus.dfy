/** The panel's in-process registry of node-agent connections and the futures its requests wait on.
    Connections and futures are named by the order of their creation, so that sharing between the
    registry, a connection's pending table and a waiting request is explicit. Each method is one
    stretch of the source between two awaits, hence atomic. */
module Bus {
  import opened Wrappers

  /** The status field of a reply; the schema accepts the first three. */
  datatype Status = Success | Failed | Running | Unrecognised

  datatype Reply = Reply(id: nat, status: Status)

  datatype Future = Undone | Result(reply: Reply) | Disconnected | Cancelled

  datatype Connection = Connection(server: int, socket: nat, pending: map<string, nat>)

  datatype State = State(byServer: map<int, nat>, conns: seq<Connection>, futures: seq<Future>)

  const EMPTY := State(map[], [], [])

  ghost predicate Valid(b: State) {
    && (forall s | s in b.byServer :: b.byServer[s] < |b.conns| && b.conns[b.byServer[s]].server == s)
    && (forall c, k | 0 <= c < |b.conns| && k in b.conns[c].pending :: b.conns[c].pending[k] < |b.futures|)
  }

  // ---------- the operations as functions on the state ----------

  function Registered(b: State, s: int, socket: nat): State {
    b.(conns := b.conns + [Connection(s, socket, map[])], byServer := b.byServer[s := |b.conns|])
  }

  /** Whether `unregister` finds its own connection (or any, when called without a socket). */
  predicate Drops(b: State, s: int, socket: Option<nat>) {
    && s in b.byServer && b.byServer[s] < |b.conns|
    && (socket.Some? ==> b.conns[b.byServer[s]].socket == socket.value)
  }

  function FailEach(futures: seq<Future>, ids: set<nat>): seq<Future> {
    seq(|futures|, i requires 0 <= i < |futures| =>
      if i in ids && futures[i].Undone? then Disconnected else futures[i])
  }

  function Unregistered(b: State, s: int, socket: Option<nat>): State {
    if !Drops(b, s, socket) then b
    else b.(byServer := b.byServer - {s},
            futures := FailEach(b.futures, b.conns[b.byServer[s]].pending.Values))
  }

  /** A request for a reply of type `kind` files a new future with the current connection. */
  function Installed(b: State, s: int, kind: string): State
    requires s in b.byServer && b.byServer[s] < |b.conns|
  {
    var c := b.byServer[s];
    b.(futures := b.futures + [Undone],
       conns := b.conns[c := b.conns[c].(pending := b.conns[c].pending[kind := |b.futures|])])
  }

  /** The future a reply of type `kind` from server `s` would complete. */
  function Target(b: State, s: int, kind: string): Option<nat> {
    if s in b.byServer && b.byServer[s] < |b.conns| && kind in b.conns[b.byServer[s]].pending
    then
      var f := b.conns[b.byServer[s]].pending[kind];
      if f < |b.futures| && b.futures[f].Undone? then Some(f) else None
    else None
  }

  function Resolved(b: State, s: int, kind: string, reply: Reply): State {
    match Target(b, s, kind)
    case None => b
    case Some(f) => b.(futures := b.futures[f := Result(reply)])
  }

  /** `wait_for` gives up: the future is cancelled unless it is done. */
  function Expired(b: State, f: nat): State {
    if f < |b.futures| && b.futures[f].Undone? then b.(futures := b.futures[f := Cancelled]) else b
  }

  /** The request's `finally`: the entry is removed by its key, whatever future it holds. */
  function Popped(b: State, c: nat, kind: string): State {
    if c < |b.conns| then b.(conns := b.conns[c := b.conns[c].(pending := b.conns[c].pending - {kind})]) else b
  }

  // ---------- the registry object ----------

  class AgentBus {
    var byServer: map<int, nat>
    var conns: seq<Connection>
    var futures: seq<Future>

    ghost function Now(): State
      reads this
    {
      State(byServer, conns, futures)
    }

    constructor ()
      ensures Now() == EMPTY && Valid(Now())
    {
      byServer, conns, futures := map[], [], [];
    }

    method Register(s: int, socket: nat) returns (c: nat)
      requires Valid(Now())
      modifies this
      ensures Valid(Now()) && Now() == Registered(old(Now()), s, socket) && c == byServer[s]
    {
      c := |conns|;
      conns := conns + [Connection(s, socket, map[])];
      byServer := byServer[s := c];
    }

    method Unregister(s: int, socket: Option<nat>)
      requires Valid(Now())
      modifies this
      ensures Valid(Now()) && Now() == Unregistered(old(Now()), s, socket)
    {
      if s !in byServer {
        return;
      }
      var conn := conns[byServer[s]];
      if socket.Some? && conn.socket != socket.value {
        return;
      }
      byServer := byServer - {s};
      var todo := conn.pending.Keys;
      ghost var failed: set<nat> := {};
      while todo != {}
        invariant todo <= conn.pending.Keys
        invariant failed == (set k | k in conn.pending.Keys - todo :: conn.pending[k])
        invariant futures == FailEach(old(futures), failed)
        invariant byServer == old(byServer) - {s} && conns == old(conns)
      {
        var k :| k in todo;
        var f := conn.pending[k];
        if futures[f].Undone? {
          futures := futures[f := Disconnected];
        }
        todo := todo - {k};
        failed := failed + {f};
      }
      assert failed == conn.pending.Values;
    }

    /** The start of `request`, up to its first await; none when the server is offline. */
    method Install(s: int, kind: string) returns (f: Option<nat>)
      requires Valid(Now())
      modifies this
      ensures Valid(Now())
      ensures if s in old(byServer) then f == Some(|old(futures)|) && Now() == Installed(old(Now()), s, kind)
              else f == None && Now() == old(Now())
    {
      if s !in byServer {
        return None;
      }
      var c := byServer[s];
      f := Some(|futures|);
      futures := futures + [Undone];
      conns := conns[c := conns[c].(pending := conns[c].pending[kind := |futures| - 1])];
    }

    method ResolveCommand(s: int, kind: string, reply: Reply) returns (ok: bool)
      requires Valid(Now())
      modifies this
      ensures Valid(Now()) && Now() == Resolved(old(Now()), s, kind, reply)
      ensures ok == Target(old(Now()), s, kind).Some?
    {
      if s !in byServer {
        return false;
      }
      var conn := conns[byServer[s]];
      if kind !in conn.pending {
        return false;
      }
      var f := conn.pending[kind];
      if !futures[f].Undone? {
        return false;
      }
      futures := futures[f := Result(reply)];
      ok := true;
    }

    /** The end of `request`: the outcome is read (or the wait expires) and the entry is popped. */
    method Finish(c: nat, f: nat, kind: string) returns (outcome: Future)
      requires Valid(Now()) && c < |conns| && f < |futures|
      modifies this
      ensures Valid(Now()) && Now() == Popped(Expired(old(Now()), f), c, kind)
      ensures outcome == if old(futures[f]).Undone? then Cancelled else old(futures[f])
    {
      if futures[f].Undone? {
        futures := futures[f := Cancelled];
      }
      outcome := futures[f];
      conns := conns[c := conns[c].(pending := conns[c].pending - {kind})];
    }
  }

  // ---------- every run of the operations ----------

  datatype Op =
    | Register(s: int, socket: nat)
    | Unregister(s: int, from: Option<nat>)
    | Install(s: int, kind: string)
    | Resolve(s: int, kind: string, reply: Reply)
    | Expire(f: nat)
    | Pop(c: nat, kind: string)

  function Apply(b: State, op: Op): State {
    match op
    case Register(s, socket) => Registered(b, s, socket)
    case Unregister(s, from) => Unregistered(b, s, from)
    case Install(s, kind) => if s in b.byServer && b.byServer[s] < |b.conns| then Installed(b, s, kind) else b
    case Resolve(s, kind, reply) => Resolved(b, s, kind, reply)
    case Expire(f) => Expired(b, f)
    case Pop(c, kind) => Popped(b, c, kind)
  }

  function After(b: State, ops: seq<Op>): State {
    if ops == [] then b else Apply(After(b, ops[..|ops| - 1]), ops[|ops| - 1])
  }

  lemma ApplyValid(b: State, op: Op)
    requires Valid(b)
    ensures Valid(Apply(b, op))
  {
  }

  lemma {:induction false} AfterValid(b: State, ops: seq<Op>)
    requires Valid(b)
    ensures Valid(After(b, ops))
    decreases |ops|
  {
    if ops != [] {
      AfterValid(b, ops[..|ops| - 1]);
      ApplyValid(After(b, ops[..|ops| - 1]), ops[|ops| - 1]);
    }
  }

  /** A completed future never changes, and none disappears. */
  lemma {:induction false} CompletedOnce(b: State, ops: seq<Op>, f: nat)
    requires f < |b.futures|
    ensures f < |After(b, ops).futures|
    ensures b.futures[f].Undone? || After(b, ops).futures[f] == b.futures[f]
    decreases |ops|
  {
    if ops != [] {
      CompletedOnce(b, ops[..|ops| - 1], f);
    }
  }

  // ---------- the registry ----------

  /** How many connections the operations create. */
  function Registrations(ops: seq<Op>): nat {
    if ops == [] then 0
    else Registrations(ops[..|ops| - 1]) + (if ops[|ops| - 1].Register? then 1 else 0)
  }

  /** What ends the registration of server `s` on `socket`: a newer one, or its own unregistration. */
  predicate Ends(op: Op, s: int, socket: nat) {
    || (op.Register? && op.s == s)
    || (op.Unregister? && op.s == s && (op.from == None || op.from == Some(socket)))
  }

  /** The `i`-th operation registers `s` as connection `c`, and nothing after it ends that. */
  ghost predicate Stands(ops: seq<Op>, i: nat, s: int, c: nat) {
    && i < |ops| && ops[i].Register? && ops[i].s == s
    && Registrations(ops[..i]) == c
    && forall j | i < j < |ops| :: !Ends(ops[j], s, ops[i].socket)
  }

  lemma StandsSnoc(ops: seq<Op>, i: nat, s: int, c: nat)
    requires ops != []
    ensures var n := |ops| - 1; var init, op := ops[..n], ops[n];
            Stands(ops, i, s, c) <==>
            if i == n then op.Register? && op.s == s && Registrations(init) == c
            else Stands(init, i, s, c) && !Ends(op, s, init[i].socket)
  {
    var n := |ops| - 1;
    if i < n {
      assert ops[..n][..i] == ops[..i];
      if Stands(ops[..n], i, s, c) && !Ends(ops[n], s, ops[i].socket) {
        forall j | i < j < |ops| ensures !Ends(ops[j], s, ops[i].socket) {
          assert j < n ==> ops[..n][j] == ops[j];
        }
      }
    }
  }

  /** In every run, the registry maps a server to its most recently registered connection that has
      not since been unregistered with its own socket, and to nothing when there is none. */
  lemma {:induction false} RegistryIsLatest(ops: seq<Op>, s: int, c: nat)
    ensures var b := After(EMPTY, ops);
            s in b.byServer && b.byServer[s] == c <==> exists i: nat :: Stands(ops, i, s, c)
    ensures |After(EMPTY, ops).conns| == Registrations(ops)
    ensures forall i: nat | Stands(ops, i, s, c) ::
              c < |After(EMPTY, ops).conns| && After(EMPTY, ops).conns[c].socket == ops[i].socket
    decreases |ops|
  {
    var b := After(EMPTY, ops);
    if ops != [] {
      var n := |ops| - 1;
      var init, op := ops[..n], ops[n];
      var a := After(EMPTY, init);
      RegistryIsLatest(init, s, c);
      AfterValid(EMPTY, init);
      forall i: nat
        ensures Stands(ops, i, s, c) <==>
                if i == n then op.Register? && op.s == s && Registrations(init) == c
                else Stands(init, i, s, c) && !Ends(op, s, init[i].socket)
      {
        StandsSnoc(ops, i, s, c);
      }
      if s in b.byServer && b.byServer[s] == c {
        if op.Register? && op.s == s {
          assert Stands(ops, n, s, c);
        } else {
          var i: nat :| Stands(init, i, s, c);
          assert Stands(ops, i, s, c);
        }
      }
    }
  }

  /** A handler whose connection has been replaced changes nothing when it unregisters. */
  lemma StaleUnregister(b: State, s: int, socket: nat)
    requires Valid(b) && s in b.byServer && b.conns[b.byServer[s]].socket != socket
    ensures Apply(b, Unregister(s, Some(socket))) == b
  {
  }

  // ---------- futures that no reply can reach ----------

  ghost predicate Filed(b: State, c: nat, k: string, f: nat) {
    c < |b.conns| && k in b.conns[c].pending && b.conns[c].pending[k] == f
  }

  /** Some registered connection has the future filed, so a reply could complete it. */
  ghost predicate Reachable(b: State, f: nat) {
    exists s, k :: s in b.byServer && Filed(b, b.byServer[s], k, f)
  }

  /** A future is filed with at most one connection, under one key. */
  ghost predicate FiledOnce(b: State) {
    && Valid(b)
    && forall c: nat, d: nat, k, l, f: nat | Filed(b, c, k, f) && Filed(b, d, l, f) :: c == d && k == l
  }

  /** No operation files an existing future. */
  lemma FiledBefore(b: State, op: Op, c: nat, k: string, f: nat)
    requires Valid(b) && f < |b.futures| && Filed(Apply(b, op), c, k, f)
    ensures Filed(b, c, k, f)
  {
  }

  lemma FiledOnceStep(b: State, op: Op)
    requires FiledOnce(b)
    ensures FiledOnce(Apply(b, op))
  {
    ApplyValid(b, op);
    var a := Apply(b, op);
    forall c: nat, d: nat, k, l, f: nat | Filed(a, c, k, f) && Filed(a, d, l, f) ensures c == d && k == l {
      if f < |b.futures| {
        FiledBefore(b, op, c, k, f);
        FiledBefore(b, op, d, l, f);
      }
    }
  }

  lemma ReachableBefore(b: State, op: Op, f: nat)
    requires Valid(b) && f < |b.futures| && Reachable(Apply(b, op), f)
    ensures Reachable(b, f)
  {
    var a := Apply(b, op);
    ApplyValid(b, op);
    var s, k :| s in a.byServer && Filed(a, a.byServer[s], k, f);
    FiledBefore(b, op, a.byServer[s], k, f);
    assert s in b.byServer && b.byServer[s] == a.byServer[s];
  }

  lemma UnreachableStep(b: State, op: Op, f: nat)
    requires FiledOnce(b) && f < |b.futures| && !Reachable(b, f)
    ensures !Reachable(Apply(b, op), f)
    ensures Apply(b, op).futures[f] == b.futures[f] || (b.futures[f].Undone? && Apply(b, op).futures[f] == Cancelled)
  {
    if Reachable(Apply(b, op), f) {
      ReachableBefore(b, op, f);
    }
    match op {
      case Unregister(s, from) =>
        if Drops(b, s, from) && f in b.conns[b.byServer[s]].pending.Values {
          var c := b.byServer[s];
          var k :| k in b.conns[c].pending && b.conns[c].pending[k] == f;
          assert Filed(b, c, k, f);
        }
      case Resolve(s, kind, reply) =>
        if Target(b, s, kind) == Some(f) {
          assert Filed(b, b.byServer[s], kind, f);
        }
      case _ =>
    }
  }

  /** Once unreachable, a future can only be cancelled by its own timeout: in no continuation does
      a reply or a disconnection complete it. */
  lemma {:induction false} UnreachableForever(b: State, ops: seq<Op>, f: nat)
    requires FiledOnce(b) && f < |b.futures| && !Reachable(b, f)
    ensures var a := After(b, ops);
            FiledOnce(a) && f < |a.futures| && !Reachable(a, f)
            && (a.futures[f] == b.futures[f] || (b.futures[f].Undone? && a.futures[f] == Cancelled))
    decreases |ops|
  {
    if ops != [] {
      var init, op := ops[..|ops| - 1], ops[|ops| - 1];
      UnreachableForever(b, init, f);
      FiledOnceStep(After(b, init), op);
      UnreachableStep(After(b, init), op, f);
    }
  }

  /** The three ways a waiting request becomes unreachable: its connection is replaced, a later
      request of the same kind overwrites its entry, or another request's end pops its entry. */
  lemma MadeUnreachable(b: State, s: int, kind: string, op: Op)
    requires FiledOnce(b) && s in b.byServer && kind in b.conns[b.byServer[s]].pending
    requires (op.Register? && op.s == s) || op == Install(s, kind) || op == Pop(b.byServer[s], kind)
    ensures var f := b.conns[b.byServer[s]].pending[kind];
            !Reachable(Apply(b, op), f) && Apply(b, op).futures[f] == b.futures[f]
  {
    var c := b.byServer[s];
    var f := b.conns[c].pending[kind];
    var a := Apply(b, op);
    assert Filed(b, c, kind, f);
    forall t, k | t in a.byServer && Filed(a, a.byServer[t], k, f) ensures false {
      FiledBefore(b, op, a.byServer[t], k, f);
    }
  }

  // ---------- connections that were unregistered ----------

  /** No future filed with the connection is still waiting, and no server is registered with it. */
  ghost predicate Retired(b: State, c: nat) {
    && c < |b.conns|
    && (forall k, f: nat | Filed(b, c, k, f) && f < |b.futures| :: !b.futures[f].Undone?)
    && (forall s | s in b.byServer :: b.byServer[s] != c)
  }

  lemma RetiredStep(b: State, op: Op, c: nat)
    requires Valid(b) && Retired(b, c)
    ensures Retired(Apply(b, op), c)
  {
    var a := Apply(b, op);
    ApplyValid(b, op);
    forall k, f: nat | Filed(a, c, k, f) && f < |a.futures| ensures !a.futures[f].Undone? {
      assert Filed(b, c, k, f);
    }
  }

  /** The connection an `unregister` drops keeps no waiting future, then or ever after. */
  lemma {:induction false} DroppedStaysRetired(b: State, s: int, socket: Option<nat>, ops: seq<Op>)
    requires Valid(b) && Drops(b, s, socket)
    ensures var a := After(Apply(b, Unregister(s, socket)), ops);
            Valid(a) && Retired(a, b.byServer[s])
    decreases |ops|
  {
    var d := Apply(b, Unregister(s, socket));
    var c := b.byServer[s];
    ApplyValid(b, Unregister(s, socket));
    if ops == [] {
      forall k, f: nat | Filed(d, c, k, f) && f < |d.futures| ensures !d.futures[f].Undone? {
        assert f in b.conns[c].pending.Values;
      }
    } else {
      var init, op := ops[..|ops| - 1], ops[|ops| - 1];
      DroppedStaysRetired(b, s, socket, init);
      ApplyValid(After(d, init), op);
      RetiredStep(After(d, init), op, c);
    }
  }

  /** A connection replaced by a newer one may keep a waiting future: nothing completes it but its
      own timeout, not even the stale handler's unregistration. */
  lemma ReplacedMayHang()
    ensures var b := After(EMPTY, [Register(1, 10), Install(1, "command_result"), Register(1, 11),
                                   Unregister(1, Some(10)), Resolve(1, "command_result", Reply(0, Success))]);
            Filed(b, 0, "command_result", 0) && b.futures == [Undone] && b.byServer == map[1 := 1]
  {
    var ops := [Register(1, 10), Install(1, "command_result"), Register(1, 11),
                Unregister(1, Some(10)), Resolve(1, "command_result", Reply(0, Success))];
    var b1 := Apply(EMPTY, ops[0]);
    var b2 := Apply(b1, ops[1]);
    var b3 := Apply(b2, ops[2]);
    var b4 := Apply(b3, ops[3]);
    assert ops[..1][..0] == [] && After(EMPTY, ops[..1]) == b1;
    assert ops[..2][..1] == ops[..1] && After(EMPTY, ops[..2]) == b2;
    assert ops[..3][..2] == ops[..2] && After(EMPTY, ops[..3]) == b3;
    assert ops[..4][..3] == ops[..3] && After(EMPTY, ops[..4]) == b4;
  }
}
