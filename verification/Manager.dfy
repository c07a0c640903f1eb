/** The node's tunnel manager: tunnels active in memory, their configurations in memory and on
    disk, and the child processes of the adapters. What the outside decides (whether a process
    starts, how far a save gets, whether deleting a file raises) is passed in as an argument. */
module Manager {
  import opened Wrappers

  // ---------- cores, specs and persisted entries ----------

  datatype Core = Rathole | Backhaul | Chisel | Frp | Gost | GreIpsec

  function AdapterFor(name: string): Option<Core> {
    if name == "rathole" then Some(Rathole)
    else if name == "backhaul" then Some(Backhaul)
    else if name == "chisel" then Some(Chisel)
    else if name == "frp" then Some(Frp)
    else if name == "gost" then Some(Gost)
    else if name == "gre_ipsec" then Some(GreIpsec)
    else None
  }

  /** All but the GRE adapter run a child process per tunnel. */
  predicate HasProcess(core: Core) {
    !core.GreIpsec?
  }

  /** The adapters whose `remove` can raise, after the process is gone. */
  predicate RemoveCanRaise(core: Core) {
    core.Rathole? || core.GreIpsec?
  }

  type Spec = map<string, string>

  /** An entry of the persisted map; a missing core reads as "" and a missing spec as {}. An entry
      that is no dict, or whose spec is none, is malformed. */
  datatype Entry = Entry(core: string, spec: Spec) | Malformed

  type Configs = map<string, Entry>

  /** Reverse tunnels without a mode are restored as clients; the change stays in memory. */
  function WithMode(e: Entry): Entry {
    if e.Entry? && e.spec != map[] && e.core in {"rathole", "backhaul", "chisel", "frp"}
       && ("mode" in e.spec ==> e.spec["mode"] == "N/A")
    then Entry(e.core, e.spec["mode" := "client"]) else e
  }

  // ---------- the file and its replacement ----------

  /** What a file holds: nothing, a whole JSON map, or text that is none (a torn write). */
  datatype Text = Blank | Whole(configs: Configs) | Torn

  datatype Disk = Disk(file: Option<Text>, temp: Option<Text>)

  /** The disk when a save has got this far: 0 not begun, 1 temporary file opened, 2 partly written,
      3 written and synced, 4 renamed over the file. */
  function SavedTo(d: Disk, configs: Configs, progress: nat): Disk {
    match progress
    case 0 => d
    case 1 => d.(temp := Some(Blank))
    case 2 => d.(temp := Some(Torn))
    case 3 => d.(temp := Some(Whole(configs)))
    case _ => Disk(Some(Whole(configs)), None)
  }

  const DONE: nat := 4

  /** `_load_tunnels`: anything unreadable, or any malformed entry, gives the empty map. */
  function Load(d: Disk): Configs {
    match d.file
    case Some(Whole(configs)) => if exists id | id in configs :: configs[id].Malformed? then map[] else configs
    case _ => map[]
  }

  // ---------- processes ----------

  /** Live or dead child processes, by adapter and tunnel. */
  type Processes = map<(Core, string), bool>

  /** How an adapter's `apply` goes: its own clean-up raises, no process is started, the process dies
      within the grace period, or it keeps running. */
  datatype Launch = Stuck | Rejected | Died | Started

  function Launched(p: Processes, core: Core, id: string, launch: Launch): Processes {
    var cleaned := p - {(core, id)};
    if !HasProcess(core) then p
    else match launch
      case Stuck => cleaned
      case Rejected => cleaned
      case Died => if core.Backhaul? then cleaned else cleaned[(core, id) := false]
      case Started => cleaned[(core, id) := true]
  }

  // ---------- the operations as functions ----------

  datatype Node = Node(active: map<string, Core>, configs: Configs, processes: Processes, disk: Disk)

  /** `remove_tunnel`; the flag says whether it returned normally. */
  function Removed(n: Node, id: string, raises: bool, progress: nat): (Node, bool) {
    var stopped := if id in n.active then n.(processes := n.processes - {(n.active[id], id)}) else n;
    if id in n.active && raises && RemoveCanRaise(n.active[id]) then (stopped, false)
    else
      var m := stopped.(active := stopped.active - {id});
      if id in m.configs then
        var rest := m.configs - {id};
        (m.(configs := rest, disk := SavedTo(m.disk, rest, progress)), true)
      else (m, true)
  }

  /** The sequence lists each of the ids once. */
  ghost predicate Enumerates(order: seq<string>, ids: set<string>) {
    Distinct(order) && forall id :: id in order <==> id in ids
  }

  predicate Distinct(order: seq<string>) {
    forall i, j | 0 <= i < j < |order| :: order[i] != order[j]
  }

  /** `cleanup` over the ids still to be removed; the flag says whether it got through. */
  function CleanedUp(n: Node, order: seq<string>, raises: set<string>, progress: string -> nat): (Node, bool)
    decreases |order|
  {
    if order == [] then (n, true)
    else
      var (m, ok) := Removed(n, order[0], order[0] in raises, progress(order[0]));
      if ok then CleanedUp(m, order[1..], raises, progress) else (m, false)
  }

  /** `apply_tunnel` on a tunnel that is not active. */
  function AppliedFresh(n: Node, id: string, name: string, spec: Spec, launch: Launch, progress: nat): (Node, bool) {
    match AdapterFor(name)
    case None => (n, false)
    case Some(core) =>
      var m := n.(processes := Launched(n.processes, core, id, launch));
      if !launch.Started? then (m, false)
      else
        var configs := m.configs[id := Entry(name, spec)];
        (Node(m.active[id := core], configs, m.processes, SavedTo(m.disk, configs, progress)), true)
  }

  function Applied(n: Node, id: string, name: string, spec: Spec, raises: bool, first: nat, launch: Launch,
                   second: nat): (Node, bool)
  {
    if id in n.active then
      var (m, ok) := Removed(n, id, raises, first);
      if ok then AppliedFresh(m, id, name, spec, launch, second) else (m, false)
    else AppliedFresh(n, id, name, spec, launch, second)
  }

  /** Whether `restore_tunnels` activates an entry. */
  predicate Activates(e: Entry, launch: Launch) {
    e.Entry? && e.spec != map[] && AdapterFor(e.core).Some? && launch.Started?
  }

  /** The tables after the entries outside `todo` have been restored. */
  ghost predicate Restored(loaded: Configs, todo: set<string>, n: Node, launch: string -> Launch) {
    && TablesRestored(loaded, todo, n.configs, n.active, launch)
    && (forall c, id | (c, id) in n.processes :: HasProcess(c) && id in loaded && id !in todo)
    && Running(n)
  }

  ghost predicate TablesRestored(loaded: Configs, todo: set<string>, configs: Configs, active: map<string, Core>,
                                 launch: string -> Launch)
  {
    && configs.Keys == loaded.Keys
    && (forall id | id in loaded :: configs[id] == if id in todo then loaded[id] else WithMode(loaded[id]))
    && active.Keys == (set id | id in loaded && id !in todo && Activates(loaded[id], launch(id)))
    && (forall id | id in active :: Some(active[id]) == AdapterFor(loaded[id].core))
  }

  /** Exactly the active tunnels of the adapters that have processes run one. */
  ghost predicate Running(n: Node) {
    OneProcess(n) && forall id | id in n.active && HasProcess(n.active[id]) :: IsLive(n, n.active[id], id)
  }

  predicate IsLive(n: Node, core: Core, id: string) {
    (core, id) in n.processes && n.processes[(core, id)]
  }

  /** A live process belongs to an active tunnel of its adapter; so no tunnel has two. */
  ghost predicate OneProcess(n: Node) {
    forall c, id | IsLive(n, c, id) :: id in n.active && n.active[id] == c
  }

  /** A new manager over the disk, after `restore_tunnels`. */
  ghost predicate Booted(n: Node, d: Disk, launch: string -> Launch) {
    n.disk == d && Restored(Load(d), {}, n, launch)
  }

  lemma WithModeIdle(e: Entry)
    requires e.Entry?
    ensures e.spec == map[] || AdapterFor(e.core) == None ==> WithMode(e) == e
  {
  }

  lemma NothingRestored(loaded: Configs, d: Disk, launch: string -> Launch)
    ensures Restored(loaded, loaded.Keys, Node(map[], loaded, map[], d), launch)
  {
  }

  lemma RestoredKeys(loaded: Configs, todo: set<string>, n: Node, launch: string -> Launch)
    requires Restored(loaded, todo, n, launch)
    ensures n.configs.Keys == loaded.Keys && |n.configs| == |loaded|
    ensures forall id | id in todo && id in loaded :: n.configs[id] == loaded[id] && id !in n.active
  {
    assert |n.configs.Keys| == |n.configs| && |loaded.Keys| == |loaded|;
  }

  /** An entry that is skipped. */
  lemma RestoreSkips(loaded: Configs, todo: set<string>, id: string, n: Node, launch: string -> Launch)
    requires Restored(loaded, todo, n, launch) && id in todo && id in loaded && loaded[id].Entry?
    requires loaded[id].spec == map[] || AdapterFor(loaded[id].core) == None
    ensures Restored(loaded, todo - {id}, n, launch)
  {
    hide AdapterFor, WithMode;
    WithModeIdle(loaded[id]);
  }

  /** The node after an inactive tunnel's adapter was asked to apply it. */
  function Started(n: Node, core: Core, id: string, launch: Launch): Node {
    var m := n.(processes := Launched(n.processes, core, id, launch));
    if launch.Started? then m.(active := n.active[id := core]) else m
  }

  lemma StartedKeepsProcesses(n: Node, core: Core, id: string, launch: Launch)
    requires Running(n) && id !in n.active
    ensures Running(Started(n, core, id, launch))
  {
    var r := Started(n, core, id, launch);
    var p := Launched(n.processes, core, id, launch);
    assert r.processes == p;
    LaunchedOthers(n, core, id, launch);
    LaunchedOnly(n, core, id, launch);
    hide Launched;
    forall c, i | IsLive(r, c, i) ensures i in r.active && r.active[i] == c {
      assert IsLive(n.(processes := p), c, i);
    }
    forall i | i in r.active && HasProcess(r.active[i]) ensures IsLive(r, r.active[i], i) {
      assert i != id ==> IsLive(n, n.active[i], i);
    }
  }

  lemma TablesApply(loaded: Configs, todo: set<string>, id: string, configs: Configs, active: map<string, Core>,
                    launch: string -> Launch)
    requires TablesRestored(loaded, todo, configs, active, launch) && id in todo && id in loaded && loaded[id].Entry?
    requires loaded[id].spec != map[] && AdapterFor(loaded[id].core).Some?
    ensures TablesRestored(loaded, todo - {id}, configs[id := WithMode(loaded[id])],
              if launch(id).Started? then active[id := AdapterFor(loaded[id].core).value] else active, launch)
    ensures id !in active
  {
    hide AdapterFor, WithMode;
  }

  /** An entry whose adapter is asked to apply it. */
  lemma RestoreApplies(loaded: Configs, todo: set<string>, id: string, n: Node, launch: string -> Launch)
    requires Restored(loaded, todo, n, launch) && id in todo && id in loaded && loaded[id].Entry?
    requires loaded[id].spec != map[] && AdapterFor(loaded[id].core).Some?
    ensures var core := AdapterFor(loaded[id].core).value;
            var m := n.(configs := n.configs[id := WithMode(loaded[id])],
                        processes := Launched(n.processes, core, id, launch(id)));
            Restored(loaded, todo - {id}, if launch(id).Started? then m.(active := n.active[id := core]) else m, launch)
  {
    hide AdapterFor, WithMode;
    var core := AdapterFor(loaded[id].core).value;
    TablesApply(loaded, todo, id, n.configs, n.active, launch);
    StartedKeepsProcesses(n, core, id, launch(id));
    LaunchedOthers(n, core, id, launch(id));
    var s := Started(n, core, id, launch(id));
    SameProcesses(s, s.(configs := n.configs[id := WithMode(loaded[id])]));
    hide Launched, Running, IsLive, TablesRestored;
  }

  /** The configuration map has no part in liveness. */
  lemma SameProcesses(m: Node, n: Node)
    requires n == m.(configs := n.configs) && Running(m)
    ensures Running(n)
  {
    forall c, i | IsLive(n, c, i) ensures i in n.active && n.active[i] == c {
      assert IsLive(m, c, i);
    }
    forall i | i in n.active && HasProcess(n.active[i]) ensures IsLive(n, n.active[i], i) {
      assert IsLive(m, m.active[i], i);
    }
  }

  /** Launching a tunnel leaves the processes of other tunnels as they are. */
  lemma LaunchedOthers(n: Node, core: Core, id: string, launch: Launch)
    ensures var p := Launched(n.processes, core, id, launch);
            && (forall c, i | (c, i) in p :: (c, i) in n.processes || (HasProcess(c) && i == id))
            && (forall c, i | IsLive(n, c, i) && i != id :: (c, i) in p && p[(c, i)])
            && (HasProcess(core) && launch.Started? ==> (core, id) in p && p[(core, id)])
  {
  }

  lemma LaunchedOnly(n: Node, core: Core, id: string, launch: Launch)
    requires OneProcess(n) && id !in n.active
    ensures var m := n.(processes := Launched(n.processes, core, id, launch));
            forall c, i | IsLive(m, c, i) ::
              (i in n.active && n.active[i] == c) || (c == core && i == id && launch.Started?)
  {
    var m := n.(processes := Launched(n.processes, core, id, launch));
    forall c, i | IsLive(m, c, i)
      ensures (i in n.active && n.active[i] == c) || (c == core && i == id && launch.Started?)
    {
      if (c, i) != (core, id) || !HasProcess(core) {
        assert IsLive(n, c, i);
      }
    }
  }

  // ---------- the manager object ----------

  class AdapterManager {
    var active: map<string, Core>
    var configs: Configs
    var processes: Processes
    var disk: Disk

    ghost function State(): Node
      reads this
    {
      Node(active, configs, processes, disk)
    }

    /** A manager starts with empty tables; the disk is what it finds. */
    constructor (d: Disk)
      ensures State() == Node(map[], map[], map[], d)
    {
      active, configs, processes, disk := map[], map[], map[], d;
    }

    /** Writes the temporary file, then renames it over the file; stops where `progress` says, by an
        exception that is swallowed or by the death of the node. */
    method SaveTunnels(progress: nat)
      modifies this`disk
      ensures disk == SavedTo(old(disk), configs, progress)
    {
      if progress == 0 {
        return;
      }
      disk := disk.(temp := Some(Blank));
      if progress == 1 {
        return;
      }
      disk := disk.(temp := Some(Torn));
      if progress == 2 {
        return;
      }
      disk := disk.(temp := Some(Whole(configs)));
      if progress == 3 {
        return;
      }
      disk := Disk(disk.temp, None);
    }

    method LoadTunnels()
      modifies this`configs
      ensures configs == Load(disk)
    {
      configs := map[];
      if disk.file.Some? && disk.file.value.Whole? {
        configs := disk.file.value.configs;
        if exists id | id in configs :: configs[id].Malformed? {
          configs := map[];
        }
      }
    }

    /** An adapter's `apply`: an old process of the tunnel is removed first, and the new one is
        recorded before the check that it survived, except by the Backhaul adapter. */
    method AdapterApply(core: Core, id: string, launch: Launch) returns (ok: bool)
      modifies this`processes
      ensures processes == Launched(old(processes), core, id, launch) && ok == launch.Started?
    {
      ok := launch.Started?;
      if !HasProcess(core) {
        return;
      }
      if (core, id) in processes {
        processes := processes - {(core, id)};
      }
      if launch.Stuck? || launch.Rejected? {
        return;
      }
      if core.Backhaul? {
        if launch.Died? {
          return;
        }
        processes := processes[(core, id) := true];
      } else {
        processes := processes[(core, id) := launch.Started?];
      }
    }

    method RemoveTunnel(id: string, raises: bool, progress: nat) returns (ok: bool)
      modifies this
      ensures (State(), ok) == Removed(old(State()), id, raises, progress)
    {
      if id in active {
        var core := active[id];
        processes := processes - {(core, id)};
        if raises && RemoveCanRaise(core) {
          return false;
        }
        active := active - {id};
      } else {
        assert active - {id} == active;
      }
      if id in configs {
        configs := configs - {id};
        SaveTunnels(progress);
      }
      ok := true;
    }

    method ApplyTunnel(id: string, name: string, spec: Spec, raises: bool, first: nat, launch: Launch, second: nat)
      returns (ok: bool)
      modifies this
      ensures (State(), ok) == Applied(old(State()), id, name, spec, raises, first, launch, second)
    {
      if id in active {
        ok := RemoveTunnel(id, raises, first);
        if !ok {
          return;
        }
      }
      var adapter := AdapterFor(name);
      if adapter == None {
        return false;
      }
      ok := AdapterApply(adapter.value, id, launch);
      if !ok {
        return;
      }
      active := active[id := adapter.value];
      configs := configs[id := Entry(name, spec)];
      SaveTunnels(second);
    }

    /** Called once, on a new manager. */
    method RestoreTunnels(launch: string -> Launch) returns (restored: nat, failed: nat)
      requires active == map[] && processes == map[]
      modifies this
      ensures Booted(State(), old(disk), launch)
      ensures restored == |active| && restored + failed == |configs|
    {
      hide AdapterFor, WithMode, Restored, Launched;
      LoadTunnels();
      restored, failed := 0, 0;
      NothingRestored(configs, disk, launch);
      ghost var loaded := configs;
      var todo := configs.Keys;
      while todo != {}
        invariant todo <= loaded.Keys && disk == old(disk) && loaded == Load(disk)
        invariant restored == |active| && restored + failed + |todo| == |loaded|
        invariant Restored(loaded, todo, State(), launch)
      {
        var id :| id in todo;
        RestoredKeys(loaded, todo, State(), launch);
        LoadedEntries(disk);
        var entry := configs[id];
        if entry.spec == map[] {
          RestoreSkips(loaded, todo, id, State(), launch);
          todo := todo - {id};
          failed := failed + 1;
          continue;
        }
        var adapter := AdapterFor(entry.core);
        if adapter == None {
          RestoreSkips(loaded, todo, id, State(), launch);
          todo := todo - {id};
          failed := failed + 1;
          continue;
        }
        RestoreApplies(loaded, todo, id, State(), launch);
        todo := todo - {id};
        configs := configs[id := WithMode(entry)];
        var ok := AdapterApply(adapter.value, id, launch(id));
        if ok {
          active := active[id := adapter.value];
          restored := restored + 1;
        } else {
          failed := failed + 1;
        }
      }
      RestoredKeys(loaded, todo, State(), launch);
    }

    /** Removes the active tunnels in the order of their table, until one removal raises. */
    method Cleanup(order: seq<string>, raises: set<string>, progress: string -> nat) returns (ok: bool)
      requires Enumerates(order, active.Keys)
      modifies this
      ensures (State(), ok) == CleanedUp(old(State()), order, raises, progress)
    {
      hide Removed;
      for i := 0 to |order|
        invariant CleanedUp(State(), order[i..], raises, progress) == CleanedUp(old(State()), order, raises, progress)
      {
        assert order[i..][1..] == order[i + 1..];
        ok := RemoveTunnel(order[i], order[i] in raises, progress(order[i]));
        if !ok {
          return;
        }
      }
      ok := true;
    }
  }

  // ---------- core by core ----------

  /** The tunnel is active with the adapter, and it alone has a process of the tunnel that runs. */
  ghost predicate ServedBy(n: Node, id: string, core: Core) {
    && id in n.active && n.active[id] == core
    && forall c :: IsLive(n, c, id) <==> c == core
  }

  /** A successful apply, core by core: each name starts its own adapter, the process-based ones with
      one running process and no other. Any other name fails and starts nothing. */
  lemma AppliedByName(n: Node, id: string, name: string, spec: Spec, raises: bool, first: nat, launch: Launch,
                      second: nat)
    requires OneProcess(n)
    ensures var (m, ok) := Applied(n, id, name, spec, raises, first, launch, second);
            && (ok <==> && name in {"rathole", "backhaul", "chisel", "frp", "gost", "gre_ipsec"}
                        && launch == Launch.Started
                        && !(id in n.active && n.active[id] in {Rathole, GreIpsec} && raises))
            && (ok ==> id in m.configs && m.configs[id] == Entry(name, spec))
            && (ok && name == "rathole" ==> ServedBy(m, id, Rathole))
            && (ok && name == "backhaul" ==> ServedBy(m, id, Backhaul))
            && (ok && name == "chisel" ==> ServedBy(m, id, Chisel))
            && (ok && name == "frp" ==> ServedBy(m, id, Frp))
            && (ok && name == "gost" ==> ServedBy(m, id, Gost))
            && (ok && name == "gre_ipsec" ==>
                  id in m.active && m.active[id] == GreIpsec && (id !in n.active ==> m.processes == n.processes))
            && (name !in {"rathole", "backhaul", "chisel", "frp", "gost", "gre_ipsec"} ==>
                  && !ok && m.active.Keys <= n.active.Keys
                  && forall c, other | IsLive(m, c, other) :: IsLive(n, c, other))
  {
    if id in n.active {
      var (m, ok) := Removed(n, id, raises, first);
      RemovedLive(n, id, raises, first);
      if ok {
        FreshByName(m, id, name, spec, launch, second);
      }
    } else {
      FreshByName(n, id, name, spec, launch, second);
    }
  }

  /** A removal that goes through leaves the tunnel no running process and starts none. */
  lemma RemovedLive(n: Node, id: string, raises: bool, progress: nat)
    requires OneProcess(n)
    ensures var (m, ok) := Removed(n, id, raises, progress);
            && m.active.Keys <= n.active.Keys && OneProcess(m)
            && (ok ==> id !in m.active)
            && (ok <==> !(id in n.active && n.active[id] in {Rathole, GreIpsec} && raises))
            && forall c, other | IsLive(m, c, other) :: IsLive(n, c, other)
  {
    var m := Removed(n, id, raises, progress).0;
    forall c, i | IsLive(m, c, i) ensures i in m.active && m.active[i] == c {
      assert IsLive(n, c, i);
    }
  }

  /** What a removal does: the process goes first; if the adapter then raises, as rathole's and the GRE
      adapter's may, the tunnel stays active and configured and nothing is saved; otherwise it is gone
      from both tables, and a configured one's removal is saved. Other tunnels keep everything. */
  lemma RemovalIs(n: Node, id: string, raises: bool, progress: nat)
    ensures var (m, ok) := Removed(n, id, raises, progress);
            && (ok <==> !(id in n.active && n.active[id] in {Rathole, GreIpsec} && raises))
            && (id in n.active ==> (n.active[id], id) !in m.processes)
            && (forall p | p in n.processes && !(id in n.active && p == (n.active[id], id)) ::
                  p in m.processes && m.processes[p] == n.processes[p])
            && m.processes.Keys <= n.processes.Keys
            && (!ok ==> m.active == n.active && m.configs == n.configs && m.disk == n.disk)
            && (ok ==> m.active == n.active - {id} && m.configs == n.configs - {id})
            && (ok && id !in n.configs ==> m.disk == n.disk)
            && (ok && id in n.configs && progress >= 4 ==> m.disk == Disk(Some(Whole(n.configs - {id})), None))
            && (ok && id in n.configs && progress < 4 ==> m.disk.file == n.disk.file)
  {
    if id !in n.active {
      assert n.active - {id} == n.active;
    }
    if id !in n.configs {
      assert n.configs - {id} == n.configs;
    }
  }

  /** What the table of processes holds of a tunnel after its adapter's `apply`: a running process if that
      went well; if the process died within the grace period a dead one, but none with backhaul; and none
      if no process was started. Other tunnels and adapters keep theirs, and the GRE adapter has none. */
  lemma LaunchLeaves(p: Processes, core: Core, id: string, launch: Launch)
    ensures var q := Launched(p, core, id, launch);
            && (forall c, other | (c, other) != (core, id) ::
                  ((c, other) in q <==> (c, other) in p) && ((c, other) in p ==> q[(c, other)] == p[(c, other)]))
            && (core == GreIpsec ==> q == p)
            && (core != GreIpsec && launch == Launch.Started ==> (core, id) in q && q[(core, id)])
            && (core in {Rathole, Chisel, Frp, Gost} && launch == Died ==> (core, id) in q && !q[(core, id)])
            && (core == Backhaul && launch == Died ==> (core, id) !in q)
            && (core != GreIpsec && launch in {Stuck, Rejected} ==> (core, id) !in q)
  {
  }

  lemma FreshByName(n: Node, id: string, name: string, spec: Spec, launch: Launch, progress: nat)
    requires OneProcess(n) && id !in n.active
    ensures var (m, ok) := AppliedFresh(n, id, name, spec, launch, progress);
            && (ok <==> name in {"rathole", "backhaul", "chisel", "frp", "gost", "gre_ipsec"}
                        && launch == Launch.Started)
            && (ok ==> id in m.configs && m.configs[id] == Entry(name, spec))
            && (ok && name == "rathole" ==> ServedBy(m, id, Rathole))
            && (ok && name == "backhaul" ==> ServedBy(m, id, Backhaul))
            && (ok && name == "chisel" ==> ServedBy(m, id, Chisel))
            && (ok && name == "frp" ==> ServedBy(m, id, Frp))
            && (ok && name == "gost" ==> ServedBy(m, id, Gost))
            && (ok && name == "gre_ipsec" ==> id in m.active && m.active[id] == GreIpsec && m.processes == n.processes)
            && (name !in {"rathole", "backhaul", "chisel", "frp", "gost", "gre_ipsec"} ==> !ok && m == n)
  {
    var (m, ok) := AppliedFresh(n, id, name, spec, launch, progress);
    assert forall c :: !IsLive(n, c, id);
    if ok {
      StartedAlone(n, AdapterFor(name).value, id, launch);
      var s := n.(processes := Launched(n.processes, AdapterFor(name).value, id, launch));
      assert forall c :: IsLive(m, c, id) <==> IsLive(s, c, id);
      hide Launched, SavedTo, OneProcess, IsLive;
    }
  }

  /** Starting a tunnel that has no running process gives it one. */
  lemma StartedAlone(n: Node, core: Core, id: string, launch: Launch)
    requires launch.Started? && forall c: Core :: !IsLive(n, c, id)
    ensures var m := n.(processes := Launched(n.processes, core, id, launch));
            && (core in {Rathole, Backhaul, Chisel, Frp, Gost} ==> forall c :: IsLive(m, c, id) <==> c == core)
            && (core == GreIpsec ==> m == n)
  {
    var m := n.(processes := Launched(n.processes, core, id, launch));
    forall c | IsLive(m, c, id) && c != core ensures false {
      assert IsLive(n, c, id);
    }
  }

  /** What a boot makes of the file, entry by entry and core by core: a rathole, backhaul, chisel or frp
      entry without a mode becomes a client, in memory only; every other entry stays as it is; and an
      entry is active, with the adapter of its name, exactly when it has a spec, the name is one of the
      six, and the start goes well. */
  lemma RestoredByName(n: Node, d: Disk, launch: string -> Launch, id: string)
    requires Booted(n, d, launch)
    ensures n.configs.Keys == Load(d).Keys && n.disk == d && (id in n.active ==> id in Load(d))
    ensures id in Load(d) ==>
              var e := Load(d)[id];
              && e.Entry?
              && ((e.core in {"rathole", "backhaul", "chisel", "frp"} && e.spec != map[]
                   && ("mode" !in e.spec || e.spec["mode"] == "N/A")) ==>
                    n.configs[id] == Entry(e.core, e.spec["mode" := "client"]))
              && ((e.core !in {"rathole", "backhaul", "chisel", "frp"} || e.spec == map[]
                   || ("mode" in e.spec && e.spec["mode"] != "N/A")) ==> n.configs[id] == e)
              && (id in n.active <==>
                    && e.spec != map[] && launch(id) == Launch.Started
                    && e.core in {"rathole", "backhaul", "chisel", "frp", "gost", "gre_ipsec"})
              && (id in n.active && e.core == "rathole" ==> ServedBy(n, id, Rathole))
              && (id in n.active && e.core == "backhaul" ==> ServedBy(n, id, Backhaul))
              && (id in n.active && e.core == "chisel" ==> ServedBy(n, id, Chisel))
              && (id in n.active && e.core == "frp" ==> ServedBy(n, id, Frp))
              && (id in n.active && e.core == "gost" ==> ServedBy(n, id, Gost))
              && (id in n.active && e.core == "gre_ipsec" ==> n.active[id] == GreIpsec && forall c :: !IsLive(n, c, id))
  {
    LoadedEntries(d);
    if id in Load(d) {
      var e := Load(d)[id];
      assert n.configs[id] == WithMode(e);
      assert id in n.active <==> Activates(e, launch(id));
      assert id in n.active ==> Some(n.active[id]) == AdapterFor(e.core);
      assert id in n.active ==> forall c | IsLive(n, c, id) :: c == n.active[id] && HasProcess(c);
      assert id in n.active && HasProcess(n.active[id]) ==> IsLive(n, n.active[id], id);
      AdapterNames(e.core);
      ModeDefault(e);
      hide Load, Booted, AdapterFor, WithMode, IsLive;
    }
  }

  lemma AdapterNames(name: string)
    ensures (name == "rathole" ==> AdapterFor(name) == Some(Rathole))
         && (name == "backhaul" ==> AdapterFor(name) == Some(Backhaul))
         && (name == "chisel" ==> AdapterFor(name) == Some(Chisel))
         && (name == "frp" ==> AdapterFor(name) == Some(Frp))
         && (name == "gost" ==> AdapterFor(name) == Some(Gost))
         && (name == "gre_ipsec" ==> AdapterFor(name) == Some(GreIpsec))
    ensures name in {"rathole", "backhaul", "chisel", "frp", "gost", "gre_ipsec"} <==> AdapterFor(name).Some?
  {
  }

  lemma ModeDefault(e: Entry)
    requires e.Entry?
    ensures WithMode(e) == if e.core in {"rathole", "backhaul", "chisel", "frp"} && e.spec != map[]
                              && ("mode" !in e.spec || e.spec["mode"] == "N/A")
                           then Entry(e.core, e.spec["mode" := "client"]) else e
  {
  }

  // ---------- every run ----------

  datatype Event =
    | Apply(id: string, name: string, spec: Spec, raises: bool, first: nat, launch: Launch, second: nat)
    | Remove(id: string, raises: bool, progress: nat)
    | Exit(core: Core, id: string)      // a process dies on its own

  function After(n: Node, e: Event): Node {
    match e
    case Apply(id, name, spec, raises, first, launch, second) =>
      Applied(n, id, name, spec, raises, first, launch, second).0
    case Remove(id, raises, progress) => Removed(n, id, raises, progress).0
    case Exit(core, id) => if IsLive(n, core, id) then n.(processes := n.processes[(core, id) := false]) else n
  }

  /** A process that dies on its own leaves a dead record, and nothing else changes. */
  lemma ExitKills(n: Node, core: Core, id: string)
    ensures var m := After(n, Exit(core, id));
            && m == n.(processes := m.processes) && m.processes.Keys == n.processes.Keys
            && forall c, other :: IsLive(m, c, other) <==> IsLive(n, c, other) && (c, other) != (core, id)
  {
  }

  /** A run of one life of the node, from the state it booted into. */
  function AfterAll(n: Node, events: seq<Event>): Node {
    if events == [] then n else After(AfterAll(n, events[..|events| - 1]), events[|events| - 1])
  }

  /** An active tunnel is configured, and its adapter is the one its configuration names. */
  ghost predicate MemoryAgrees(n: Node) {
    forall id | id in n.active ::
      id in n.configs && n.configs[id].Entry? && AdapterFor(n.configs[id].core) == Some(n.active[id])
  }

  /** The file holds the configurations in memory, up to the mode that restoring fills in. */
  ghost predicate DiskAgrees(n: Node) {
    var saved := Load(n.disk);
    && saved.Keys == n.configs.Keys
    && (forall id | id in saved :: n.configs[id] == saved[id] || n.configs[id] == WithMode(saved[id]))
    && (forall id | id in n.configs :: n.configs[id].Entry?)
  }

  predicate SavesSucceed(e: Event) {
    match e
    case Apply(_, _, _, _, first, _, second) => first >= DONE && second >= DONE
    case Remove(_, _, progress) => progress >= DONE
    case Exit(_, _) => true
  }

  lemma FreshKeeps(n: Node, id: string, name: string, spec: Spec, launch: Launch, progress: nat)
    requires OneProcess(n) && MemoryAgrees(n) && id !in n.active
    ensures var m := AppliedFresh(n, id, name, spec, launch, progress).0;
            OneProcess(m) && MemoryAgrees(m)
  {
    if AdapterFor(name).Some? {
      var core := AdapterFor(name).value;
      LaunchedOnly(n, core, id, launch);
      var m := AppliedFresh(n, id, name, spec, launch, progress).0;
      forall c, i | IsLive(m, c, i) ensures i in m.active && m.active[i] == c {
        assert IsLive(n.(processes := m.processes), c, i);
      }
    }
  }

  lemma RemovedKeeps(n: Node, id: string, raises: bool, progress: nat)
    requires OneProcess(n) && MemoryAgrees(n)
    ensures var (m, ok) := Removed(n, id, raises, progress);
            OneProcess(m) && MemoryAgrees(m) && (ok ==> id !in m.active)
  {
    var m := Removed(n, id, raises, progress).0;
    forall c, i | IsLive(m, c, i) ensures i in m.active && m.active[i] == c {
      assert IsLive(n, c, i);
    }
  }

  lemma EventKeeps(n: Node, e: Event)
    requires OneProcess(n) && MemoryAgrees(n)
    ensures OneProcess(After(n, e)) && MemoryAgrees(After(n, e))
  {
    match e {
      case Apply(id, name, spec, raises, first, launch, second) =>
        if id in n.active {
          RemovedKeeps(n, id, raises, first);
          var (m, ok) := Removed(n, id, raises, first);
          if ok {
            FreshKeeps(m, id, name, spec, launch, second);
          }
        } else {
          FreshKeeps(n, id, name, spec, launch, second);
        }
      case Remove(id, raises, progress) => RemovedKeeps(n, id, raises, progress);
      case Exit(core, id) =>
        forall c, i | IsLive(After(n, e), c, i) ensures i in n.active && n.active[i] == c {
          assert IsLive(n, c, i);
        }
    }
  }

  /** In every run, however applies, removals and saves fail: each tunnel has a live process with at
      most one adapter, the one it is active with, and active tunnels are configured for it. */
  lemma {:induction false} RunKeepsMemory(d: Disk, launch: string -> Launch, boot: Node, events: seq<Event>)
    requires Booted(boot, d, launch)
    ensures var n := AfterAll(boot, events);
            && OneProcess(n) && MemoryAgrees(n)
            && forall id, c1, c2 | IsLive(n, c1, id) && IsLive(n, c2, id) :: c1 == c2
    decreases |events|
  {
    if events != [] {
      var init := events[..|events| - 1];
      RunKeepsMemory(d, launch, boot, init);
      EventKeeps(AfterAll(boot, init), events[|events| - 1]);
    } else {
      BootAgrees(boot, d, launch);
    }
  }

  lemma LoadedEntries(d: Disk)
    ensures forall id | id in Load(d) :: Load(d)[id].Entry?
  {
  }

  lemma BootAgrees(n: Node, d: Disk, launch: string -> Launch)
    requires Booted(n, d, launch)
    ensures OneProcess(n) && MemoryAgrees(n) && DiskAgrees(n)
  {
    LoadedEntries(d);
  }

  lemma SavedAgrees(n: Node)
    requires n.disk.file == Some(Whole(n.configs)) && forall id | id in n.configs :: n.configs[id].Entry?
    ensures DiskAgrees(n)
  {
  }

  lemma EventKeepsDisk(n: Node, e: Event)
    requires DiskAgrees(n) && SavesSucceed(e)
    ensures DiskAgrees(After(n, e))
  {
    match e {
      case Apply(id, name, spec, raises, first, launch, second) =>
        var (m, ok) := if id in n.active then Removed(n, id, raises, first) else (n, true);
        if id in n.active {
          RemovedKeepsDisk(n, id, raises, first);
        }
        if ok && AdapterFor(name).Some? && launch.Started? {
          SavedAgrees(AppliedFresh(m, id, name, spec, launch, second).0);
        }
      case Remove(id, raises, progress) => RemovedKeepsDisk(n, id, raises, progress);
      case Exit(_, _) =>
    }
  }

  lemma RemovedKeepsDisk(n: Node, id: string, raises: bool, progress: nat)
    requires DiskAgrees(n) && progress >= DONE
    ensures DiskAgrees(Removed(n, id, raises, progress).0)
  {
    var (m, ok) := Removed(n, id, raises, progress);
    if m.configs != n.configs {
      SavedAgrees(m);
    }
  }

  /** In every run whose saves succeed, the file agrees with the configurations in memory. */
  lemma {:induction false} RunKeepsDisk(d: Disk, launch: string -> Launch, boot: Node, events: seq<Event>)
    requires Booted(boot, d, launch) && forall k | 0 <= k < |events| :: SavesSucceed(events[k])
    ensures DiskAgrees(AfterAll(boot, events))
    decreases |events|
  {
    if events != [] {
      var init := events[..|events| - 1];
      RunKeepsDisk(d, launch, boot, init);
      EventKeepsDisk(AfterAll(boot, init), events[|events| - 1]);
    } else {
      BootAgrees(boot, d, launch);
    }
  }
}
