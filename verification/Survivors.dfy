/** The machine the node runs on: child processes that outlive a life of the node go on beside those
    of the next one, which knows nothing of them. Which of them survive is left open. */
module Survivors {
  import opened Wrappers
  import opened Manager
  import opened NodeLives

  type Children = multiset<(Core, string)>

  /** The node and the processes earlier lives of it left running. */
  datatype Host = Host(node: Node, orphans: Children)

  /** The node's own live processes. */
  function Own(n: Node): Children {
    multiset(set p | p in n.processes && n.processes[p])
  }

  function Alive(h: Host): Children {
    h.orphans + Own(h.node)
  }

  /** The processes of a tunnel among `p`. */
  function Of(p: Children, id: string): nat {
    p[(Rathole, id)] + p[(Backhaul, id)] + p[(Chisel, id)] + p[(Frp, id)] + p[(Gost, id)] + p[(GreIpsec, id)]
  }

  // ---------- what can happen ----------

  /** An event of the manager, with the orphans its adapters' removals reap; or an orphan ends. */
  datatype Happening = Managed(event: Event, reaped: Children) | Ends(core: Core, id: string)

  /** The adapters whose `remove` kills by command line processes that carry the tunnel's id: rathole's
      and frp's are started on a configuration file named after it; chisel's and gost's command lines
      do not name the tunnel, and backhaul kills none. */
  predicate Reaps(core: Core) {
    core.Rathole? || core.Frp?
  }

  /** The event calls `remove` of the adapter for the tunnel. */
  predicate CallsRemove(n: Node, e: Event, core: Core, id: string) {
    match e
    case Remove(other, _, _) => other == id && id in n.active && n.active[id] == core
    case Apply(other, name, _, raises, _, _, _) =>
      && other == id
      && ((id in n.active && n.active[id] == core)
          || (!RemovalRaises(n, id, raises) && AdapterFor(name) == Some(core) && (core, id) in n.processes))
    case Exit(_, _) => false
  }

  ghost predicate Possible(h: Host, x: Happening) {
    match x
    case Managed(e, reaped) =>
      reaped <= h.orphans && forall core, id | (core, id) in reaped :: Reaps(core) && CallsRemove(h.node, e, core, id)
    case Ends(core, id) => (core, id) in h.orphans
  }

  function Next(h: Host, x: Happening): Host {
    match x
    case Managed(e, reaped) => Host(After(h.node, e), h.orphans - reaped)
    case Ends(core, id) => h.(orphans := h.orphans - multiset{(core, id)})
  }

  function EndOf(h: Host, run: seq<Happening>): Host {
    if run == [] then h else Next(EndOf(h, run[..|run| - 1]), run[|run| - 1])
  }

  ghost predicate CanRun(h: Host, run: seq<Happening>) {
    forall k | 0 <= k < |run| :: Possible(EndOf(h, run[..k]), run[k])
  }

  /** The manager's events of a run. */
  function EventsOf(run: seq<Happening>): seq<Event> {
    if run == [] then []
    else
      var init := EventsOf(run[..|run| - 1]);
      match run[|run| - 1]
      case Managed(e, _) => init + [e]
      case Ends(_, _) => init
  }

  /** The orphans that went in a run: reaped by a removal or ended by themselves. */
  function Gone(run: seq<Happening>): Children {
    if run == [] then multiset{}
    else
      Gone(run[..|run| - 1]) +
      match run[|run| - 1] case Managed(_, reaped) => reaped case Ends(core, id) => multiset{(core, id)}
  }

  lemma CanRunInit(h: Host, run: seq<Happening>)
    requires CanRun(h, run) && run != []
    ensures CanRun(h, run[..|run| - 1]) && Possible(EndOf(h, run[..|run| - 1]), run[|run| - 1])
  {
    var init := run[..|run| - 1];
    hide Possible, EndOf, Next;
    forall k | 0 <= k < |init| ensures Possible(EndOf(h, init[..k]), init[k]) {
      assert init[..k] == run[..k] && init[k] == run[k];
    }
  }

  /** Orphans neither help nor hinder the manager: it runs as it would without them. */
  lemma {:induction false} NodeOfRun(h: Host, run: seq<Happening>)
    ensures EndOf(h, run).node == AfterAll(h.node, EventsOf(run))
    decreases |run|
  {
    hide After;
    if run != [] {
      NodeOfRun(h, run[..|run| - 1]);
      var init := EventsOf(run[..|run| - 1]);
      assert forall e :: (init + [e])[..|init|] == init;
    }
  }

  /** No orphan appears, and none goes but by being reaped or by ending. */
  lemma {:induction false} OrphansOfRun(h: Host, run: seq<Happening>)
    requires CanRun(h, run)
    ensures EndOf(h, run).orphans + Gone(run) == h.orphans
    decreases |run|
  {
    if run != [] {
      CanRunInit(h, run);
      OrphansOfRun(h, run[..|run| - 1]);
      hide CanRun, CallsRemove, After;
    }
  }

  // ---------- counting ----------

  lemma OfSum(a: Children, b: Children, id: string)
    ensures Of(a + b, id) == Of(a, id) + Of(b, id)
  {
  }

  lemma OfWithin(a: Children, b: Children, id: string)
    requires a <= b
    ensures Of(a, id) <= Of(b, id)
  {
  }

  /** The manager serves the tunnel: it is active and its process runs. */
  predicate Serves(n: Node, id: string) {
    id in n.active && IsLive(n, n.active[id], id)
  }

  lemma OwnCount(n: Node, core: Core, id: string)
    ensures Own(n)[(core, id)] == if IsLive(n, core, id) then 1 else 0
  {
  }

  lemma OwnOf(n: Node, id: string)
    requires OneProcess(n)
    ensures Of(Own(n), id) == if Serves(n, id) then 1 else 0
  {
    OwnCount(n, Rathole, id);
    OwnCount(n, Backhaul, id);
    OwnCount(n, Chisel, id);
    OwnCount(n, Frp, id);
    OwnCount(n, Gost, id);
    OwnCount(n, GreIpsec, id);
    hide Own, IsLive;
    assert forall c: Core :: IsLive(n, c, id) ==> id in n.active && n.active[id] == c;
  }

  // ---------- lives on one machine ----------

  /** One life of the node on the machine: what it booted into and what happened until it died. */
  datatype Stay = Stay(boot: Host, launch: string -> Launch, run: seq<Happening>)

  function LastOf(stay: Stay): Host {
    EndOf(stay.boot, stay.run)
  }

  function DiskThen(d: Disk, stays: seq<Stay>, k: nat): Disk
    requires k <= |stays|
  {
    if k == 0 then d else LastOf(stays[k - 1]).node.disk
  }

  /** The processes running when the `k`-th life begins are some of these. */
  function AliveThen(stays: seq<Stay>, k: nat): Children
    requires k <= |stays|
  {
    if k == 0 then multiset{} else Alive(LastOf(stays[k - 1]))
  }

  /** The `k`-th life boots from the disk, and beside some of the processes, the one before left. */
  ghost predicate Follows(d: Disk, stays: seq<Stay>, k: nat)
    requires k < |stays|
  {
    && Booted(stays[k].boot.node, DiskThen(d, stays, k), stays[k].launch)
    && stays[k].boot.orphans <= AliveThen(stays, k)
    && CanRun(stays[k].boot, stays[k].run)
  }

  /** Lives on a machine on which at first nothing of the node's runs. */
  ghost predicate Outlived(d: Disk, stays: seq<Stay>) {
    forall k | 0 <= k < |stays| :: Follows(d, stays, k)
  }

  /** The node's part of a life. */
  function NodePart(stay: Stay): Life {
    Life(stay.boot.node, stay.launch, EventsOf(stay.run))
  }

  function NodeParts(stays: seq<Stay>): seq<Life> {
    seq(|stays|, k requires 0 <= k < |stays| => NodePart(stays[k]))
  }

  lemma {:induction false} LivedFromEach(d: Disk, lives: seq<Life>)
    requires forall k | 0 <= k < |lives| :: Booted(lives[k].boot, DiskBefore(d, lives, k), lives[k].launch)
    ensures Lived(d, lives)
    decreases |lives|
  {
    hide Booted, AfterAll;
    if lives != [] {
      var rest, e := lives[1..], Last(lives[0]).disk;
      forall k | 0 <= k < |rest| ensures Booted(rest[k].boot, DiskBefore(e, rest, k), rest[k].launch) {
        assert rest[k] == lives[k + 1] && DiskBefore(e, rest, k) == DiskBefore(d, lives, k + 1);
      }
      LivedFromEach(e, rest);
    }
  }

  /** With survivors at every boot the manager lives as it would without them, so all that holds of
      its lives holds on the machine. */
  lemma ManagerIsUnaware(d: Disk, stays: seq<Stay>)
    requires Outlived(d, stays)
    ensures Lived(d, NodeParts(stays))
  {
    var lives := NodeParts(stays);
    hide Booted, AfterAll, EndOf, CanRun;
    forall k | 0 <= k < |lives| ensures Booted(lives[k].boot, DiskBefore(d, lives, k), lives[k].launch) {
      assert Follows(d, stays, k);
      if k > 0 {
        NodeOfRun(stays[k - 1].boot, stays[k - 1].run);
      }
    }
    LivedFromEach(d, lives);
  }

  lemma ManagerIsSafe(d: Disk, stays: seq<Stay>, k: nat, moment: nat)
    requires Outlived(d, stays) && k < |stays| && moment <= |stays[k].run|
    ensures OneProcess(EndOf(stays[k].boot, stays[k].run[..moment]).node)
  {
    assert Follows(d, stays, k);
    var run := stays[k].run[..moment];
    NodeOfRun(stays[k].boot, run);
    RunKeepsMemory(DiskThen(d, stays, k), stays[k].launch, stays[k].boot.node, EventsOf(run));
  }

  /** At every moment of every life: a tunnel's live processes are its survivors that are not gone yet
      and the manager's own, one if it serves the tunnel and none otherwise. */
  lemma LiveProcesses(d: Disk, stays: seq<Stay>, k: nat, moment: nat, id: string)
    requires Outlived(d, stays) && k < |stays| && moment <= |stays[k].run|
    ensures var run := stays[k].run[..moment]; var h := EndOf(stays[k].boot, run);
            Of(Alive(h), id) + Of(Gone(run), id) == Of(stays[k].boot.orphans, id) + if Serves(h.node, id) then 1 else 0
  {
    var run := stays[k].run[..moment];
    var h := EndOf(stays[k].boot, run);
    ManagerIsSafe(d, stays, k, moment);
    CanRunPrefix(d, stays, k, moment);
    OrphansOfRun(stays[k].boot, run);
    OwnOf(h.node, id);
    OfSum(h.orphans, Own(h.node), id);
    OfSum(h.orphans, Gone(run), id);
    hide Of, Own, Serves, EndOf, Gone;
  }

  lemma CanRunPrefix(d: Disk, stays: seq<Stay>, k: nat, moment: nat)
    requires Outlived(d, stays) && k < |stays| && moment <= |stays[k].run|
    ensures CanRun(stays[k].boot, stays[k].run[..moment])
  {
    assert Follows(d, stays, k);
    var run := stays[k].run;
    hide Possible, EndOf, Booted;
    forall j | 0 <= j < moment ensures Possible(EndOf(stays[k].boot, run[..moment][..j]), run[..moment][j]) {
      assert run[..moment][..j] == run[..j] && run[..moment][j] == run[j];
    }
  }

  /** The boot starts a process for the tunnel. */
  predicate Restarts(d: Disk, launch: string -> Launch, id: string) {
    id in Load(d) && Activates(Load(d)[id], launch(id)) && HasProcess(AdapterFor(Load(d)[id].core).value)
  }

  lemma BootServes(n: Node, d: Disk, launch: string -> Launch, id: string)
    requires Booted(n, d, launch)
    ensures Serves(n, id) <==> Restarts(d, launch, id)
  {
    hide AdapterFor, Load;
    assert id in n.active <==> id in Load(d) && Activates(Load(d)[id], launch(id));
    if id in n.active && !HasProcess(n.active[id]) {
      GreHasNone(n, d, launch, id);
    }
  }

  /** A tunnel without a process of its own has none after a boot. */
  lemma GreHasNone(n: Node, d: Disk, launch: string -> Launch, id: string)
    requires Booted(n, d, launch) && id in n.active && !HasProcess(n.active[id])
    ensures !Serves(n, id)
  {
    hide AdapterFor, Load, Activates, TablesRestored, Running;
  }

  /** At every moment of every life a tunnel has two live processes or more exactly when two of its
      survivors are left, or one is and the manager serves the tunnel as well. */
  lemma TwoProcesses(d: Disk, stays: seq<Stay>, k: nat, moment: nat, id: string)
    requires Outlived(d, stays) && k < |stays| && moment <= |stays[k].run|
    ensures var h := EndOf(stays[k].boot, stays[k].run[..moment]); var left := Of(h.orphans, id);
            && left + Of(Gone(stays[k].run[..moment]), id) == Of(stays[k].boot.orphans, id)
            && (Of(Alive(h), id) >= 2 <==> left >= 2 || (left == 1 && Serves(h.node, id)))
  {
    var run := stays[k].run[..moment];
    var h := EndOf(stays[k].boot, run);
    LiveProcesses(d, stays, k, moment, id);
    CanRunPrefix(d, stays, k, moment);
    OrphansOfRun(stays[k].boot, run);
    OfSum(h.orphans, Gone(run), id);
    hide Of, Own, Serves, EndOf, Gone, Outlived;
  }

  /** Right after a boot that is when two survived, or one did and the boot starts another. */
  lemma TwoAtBoot(d: Disk, stays: seq<Stay>, k: nat, id: string)
    requires Outlived(d, stays) && k < |stays|
    ensures var survived := Of(stays[k].boot.orphans, id);
            Of(Alive(stays[k].boot), id) >= 2 <==>
              survived >= 2 || (survived == 1 && Restarts(DiskThen(d, stays, k), stays[k].launch, id))
  {
    LiveProcesses(d, stays, k, 0, id);
    assert stays[k].run[..0] == [] && Follows(d, stays, k);
    assert Of(Gone([]), id) == 0;
    BootServes(stays[k].boot.node, DiskThen(d, stays, k), stays[k].launch, id);
    hide Of, Booted, Serves, Restarts, Alive;
  }

  // ---------- how many they can become ----------

  /** Each life adds at most one process to a tunnel. */
  lemma {:induction false} OnePerLife(d: Disk, stays: seq<Stay>, k: nat, moment: nat, id: string)
    requires Outlived(d, stays) && k < |stays| && moment <= |stays[k].run|
    ensures Of(Alive(EndOf(stays[k].boot, stays[k].run[..moment])), id) <= k + 1
    decreases k
  {
    hide Of, Booted, CanRun, Alive, EndOf, Serves, Outlived;
    LiveProcesses(d, stays, k, moment, id);
    SurvivorsWithin(d, stays, k, id);
    if k > 0 {
      var last := stays[k - 1];
      assert last.run[..|last.run|] == last.run;
      OnePerLife(d, stays, k - 1, |last.run|, id);
    }
  }

  lemma SurvivorsWithin(d: Disk, stays: seq<Stay>, k: nat, id: string)
    requires Outlived(d, stays) && k < |stays|
    ensures Of(stays[k].boot.orphans, id) <= if k == 0 then 0 else Of(Alive(LastOf(stays[k - 1])), id)
  {
    assert Follows(d, stays, k);
    OfWithin(stays[k].boot.orphans, AliveThen(stays, k), id);
    hide Booted, CanRun, Alive, EndOf;
  }

  const ALL_START: string -> Launch := _ => Launch.Started

  /** The node after a boot from a file with one tunnel, whose process starts. */
  function Alone(id: string, name: string, spec: Spec, d: Disk): Node
    requires AdapterFor(name).Some?
  {
    var core := AdapterFor(name).value;
    Node(map[id := core], map[id := WithMode(Entry(name, spec))], map[(core, id) := true], d)
  }

  lemma AloneBoots(id: string, name: string, spec: Spec, d: Disk)
    requires AdapterFor(name).Some? && HasProcess(AdapterFor(name).value) && spec != map[]
    requires d.file == Some(Whole(map[id := Entry(name, spec)]))
    ensures Booted(Alone(id, name, spec, d), d, ALL_START)
    ensures Own(Alone(id, name, spec, d)) == multiset{(AdapterFor(name).value, id)}
  {
    hide AdapterFor, WithMode;
    var n, core := Alone(id, name, spec, d), AdapterFor(name).value;
    assert Load(d) == map[id := Entry(name, spec)];
    assert (set p | p in n.processes && n.processes[p]) == {(core, id)};
  }

  lemma OfOne(core: Core, id: string, count: nat)
    ensures Of(multiset{}[(core, id) := count], id) == count
  {
  }

  /** A life that begins beside `count` survivors and ends at once. */
  function Killed(n: Node, p: (Core, string), count: nat): Stay {
    Stay(Host(n, multiset{}[p := count]), ALL_START, [])
  }

  lemma KilledAlive(n: Node, p: (Core, string), count: nat)
    requires Own(n) == multiset{p}
    ensures var k := Killed(n, p, count);
            && k.boot == Host(n, multiset{}[p := count]) && k.launch == ALL_START && k.run == []
            && CanRun(k.boot, k.run) && LastOf(k).node == n && Alive(LastOf(k)) == multiset{}[p := count + 1]
    ensures Of(Alive(Killed(n, p, count).boot), p.1) == count + 1
  {
    OfOne(p.0, p.1, count + 1);
    hide Own, Of;
    assert Alive(Host(n, multiset{}[p := count])) == multiset{}[p := count + 1];
  }

  function Killeds(n: Node, p: (Core, string), lives: nat): seq<Stay> {
    seq(lives, k requires 0 <= k < lives => Killed(n, p, k))
  }

  lemma KilledFollows(d: Disk, n: Node, p: (Core, string), lives: nat, k: nat)
    requires Booted(n, d, ALL_START) && n.disk == d && Own(n) == multiset{p} && k < lives
    ensures var stays := Killeds(n, p, lives);
            Follows(d, stays, k) && stays[k].run == [] && Of(Alive(stays[k].boot), p.1) == k + 1
  {
    hide Booted, Own, Of, Alive, Killed;
    var stays := Killeds(n, p, lives);
    KilledAlive(n, p, k);
    assert stays[k] == Killed(n, p, k);
    if k > 0 {
      KilledAlive(n, p, k - 1);
      assert stays[k - 1] == Killed(n, p, k - 1);
    }
  }

  /** And that many they can become, for every tunnel whose adapter starts a process: a node that is
      killed after every boot and whose children all survive runs one more each time. */
  lemma Accumulates(id: string, name: string, spec: Spec, deaths: nat) returns (d: Disk, stays: seq<Stay>)
    requires AdapterFor(name).Some? && HasProcess(AdapterFor(name).value) && spec != map[]
    ensures Outlived(d, stays) && |stays| == deaths + 1
    ensures forall k | 0 <= k <= deaths :: stays[k].run == [] && Of(Alive(stays[k].boot), id) == k + 1
  {
    d := Disk(Some(Whole(map[id := Entry(name, spec)])), None);
    var n, p := Alone(id, name, spec, d), (AdapterFor(name).value, id);
    AloneBoots(id, name, spec, d);
    assert n.disk == d;
    hide Alone, AdapterFor, Booted, Own, Of, Alive, Follows;
    stays := Killeds(n, p, deaths + 1);
    forall k | 0 <= k <= deaths
      ensures Follows(d, stays, k) && stays[k].run == [] && Of(Alive(stays[k].boot), id) == k + 1
    {
      KilledFollows(d, n, p, deaths + 1, k);
    }
  }

  /** A survivor that no removal reaps outlasts whatever the manager does in that life, its tunnel's own
      removal included. */
  lemma {:induction false} OutlastsRemoval(h: Host, run: seq<Happening>, core: Core, id: string)
    requires CanRun(h, run) && !Reaps(core) && forall k | 0 <= k < |run| :: run[k] != Ends(core, id)
    ensures Alive(EndOf(h, run))[(core, id)] >= EndOf(h, run).orphans[(core, id)] == h.orphans[(core, id)]
    decreases |run|
  {
    if run != [] {
      var init := run[..|run| - 1];
      CanRunInit(h, run);
      assert forall k | 0 <= k < |init| :: init[k] == run[k];
      OutlastsRemoval(h, init, core, id);
      assert run[|run| - 1] != Ends(core, id);
      hide CanRun, CallsRemove, After;
    }
  }

  /** And a survivor of any adapter runs on while no tunnel of its name is applied or removed. */
  lemma {:induction false} OutlastsOthers(h: Host, run: seq<Happening>, core: Core, id: string)
    requires CanRun(h, run) && forall k | 0 <= k < |run| :: run[k] != Ends(core, id)
    requires forall k | 0 <= k < |run| && run[k].Managed? :: run[k].event.Exit? || run[k].event.id != id
    ensures Alive(EndOf(h, run))[(core, id)] >= EndOf(h, run).orphans[(core, id)] == h.orphans[(core, id)]
    decreases |run|
  {
    if run != [] {
      var init := run[..|run| - 1];
      CanRunInit(h, run);
      assert forall k | 0 <= k < |init| :: init[k] == run[k];
      OutlastsOthers(h, init, core, id);
      Spared(EndOf(h, init), run[|run| - 1], core, id);
      hide CanRun, Possible, Next, Alive;
      assert Alive(EndOf(h, run)) >= EndOf(h, run).orphans by {
        OrphansAlive(EndOf(h, run));
      }
    }
  }

  lemma OrphansAlive(h: Host)
    ensures Alive(h) >= h.orphans
  {
    hide Own;
  }

  lemma Spared(h: Host, x: Happening, core: Core, id: string)
    requires Possible(h, x) && x != Ends(core, id) && (x.Managed? ==> x.event.Exit? || x.event.id != id)
    ensures Next(h, x).orphans[(core, id)] == h.orphans[(core, id)]
  {
    hide After, RemovalRaises, AdapterFor;
  }

  /** But a rathole or frp survivor may be reaped or spared when its tunnel is removed under that core, and
      when it is applied: under that core so far, or under it from now on, beside a process of its own that
      the adapter knows. */
  lemma MayBeReaped(h: Host, e: Event, core: Core, id: string)
    requires (core, id) in h.orphans && core in {Rathole, Frp} && !e.Exit? && e.id == id
    ensures Possible(h, Managed(e, multiset{}))
    ensures (id in h.node.active && h.node.active[id] == core)
            || (e.Apply? && e.name == (if core == Rathole then "rathole" else "frp")
                && !RemovalRaises(h.node, id, e.raises) && (core, id) in h.node.processes) <==>
            Possible(h, Managed(e, multiset{(core, id)}))
  {
  }
}
