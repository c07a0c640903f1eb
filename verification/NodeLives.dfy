/** The node over several lives: what a crash or a shutdown leaves in the file, and what later boots
    make of it. */
module NodeLives {
  import opened Wrappers
  import opened Manager

  // ---------- one save, one apply ----------

  /** A save that stops anywhere leaves the file whole: the old one or, once renamed, the new one. */
  lemma SaveIsAtomic(d: Disk, configs: Configs, progress: nat)
    ensures SavedTo(d, configs, 0) == d
    ensures SavedTo(d, configs, 1).temp == Some(Blank) && SavedTo(d, configs, 2).temp == Some(Torn)
    ensures SavedTo(d, configs, 3).temp == Some(Whole(configs))
    ensures progress >= 4 ==> SavedTo(d, configs, progress).temp == None
    ensures SavedTo(d, configs, progress).file == if progress >= DONE then Some(Whole(configs)) else d.file
  {
  }

  /** The removal that an apply of an active tunnel begins with raises. */
  predicate RemovalRaises(n: Node, id: string, raises: bool) {
    id in n.active && raises && RemoveCanRaise(n.active[id])
  }

  /** The file after an apply whose first save got to `first` and whose second to `second`, wherever
      an exception or the death of the node stopped it. */
  lemma CrashDuringApply(n: Node, id: string, name: string, spec: Spec, raises: bool, first: nat,
                         launch: Launch, second: nat)
    ensures Applied(n, id, name, spec, raises, first, launch, second).0.disk.file ==
            if !RemovalRaises(n, id, raises) && AdapterFor(name).Some? && launch.Started? && second >= DONE
            then Some(Whole(n.configs[id := Entry(name, spec)]))
            else if !RemovalRaises(n, id, raises) && id in n.active && id in n.configs && first >= DONE
            then Some(Whole(n.configs - {id}))
            else n.disk.file
  {
    hide AdapterFor, SavedTo, Launched;
    if id in n.active {
      var (m, ok) := Removed(n, id, raises, first);
      SaveIsAtomic(n.disk, n.configs - {id}, first);
      SaveIsAtomic(m.disk, m.configs[id := Entry(name, spec)], second);
      assert (n.configs - {id})[id := Entry(name, spec)] == n.configs[id := Entry(name, spec)];
    } else {
      SaveIsAtomic(n.disk, n.configs[id := Entry(name, spec)], second);
    }
  }

  /** No configuration in memory is malformed. */
  ghost predicate Configured(n: Node) {
    forall id | id in n.configs :: n.configs[id].Entry?
  }

  /** Re-applying an active tunnel leaves it in the file exactly when the new process starts and the
      second save completes, or when its removal raises or was not saved and it was in the file. */
  lemma ReapplyKeeps(n: Node, id: string, name: string, spec: Spec, raises: bool, first: nat,
                     launch: Launch, second: nat)
    requires Configured(n) && MemoryAgrees(n) && id in n.active
    ensures id in Load(Applied(n, id, name, spec, raises, first, launch, second).0.disk) <==>
              (!RemovalRaises(n, id, raises) && AdapterFor(name).Some? && launch.Started? && second >= DONE)
              || ((RemovalRaises(n, id, raises) || first < DONE) && id in Load(n.disk))
  {
    CrashDuringApply(n, id, name, spec, raises, first, launch, second);
    hide Applied, AdapterFor;
  }

  // ---------- shutdown ----------

  /** How many of the removals come before the first that raises. */
  function Stop(active: map<string, Core>, order: seq<string>, raises: set<string>): nat
    decreases |order|
  {
    if order == [] || (order[0] in active && order[0] in raises && RemoveCanRaise(active[order[0]])) then 0
    else 1 + Stop(active, order[1..], raises)
  }

  /** How many of the first `n` removals the last completed save among them includes. */
  function Saved(order: seq<string>, progress: string -> nat, n: nat): (k: nat)
    requires n <= |order|
    ensures k <= n && (k > 0 ==> progress(order[k - 1]) >= DONE)
    ensures forall i | k <= i < n :: progress(order[i]) < DONE
  {
    if n == 0 then 0 else if progress(order[n - 1]) >= DONE then n else Saved(order, progress, n - 1)
  }

  lemma {:induction false} StopWithin(active: map<string, Core>, order: seq<string>, raises: set<string>)
    ensures Stop(active, order, raises) <= |order|
    decreases |order|
  {
    if order != [] {
      StopWithin(active, order[1..], raises);
    }
  }

  /** Removing another tunnel does not move the stop. */
  lemma {:induction false} StopKept(active: map<string, Core>, order: seq<string>, raises: set<string>, id: string)
    requires id !in order
    ensures Stop(active - {id}, order, raises) == Stop(active, order, raises)
    decreases |order|
  {
    if order != [] {
      assert id != order[0];
      StopKept(active, order[1..], raises, id);
    }
  }

  lemma {:induction false} SavedTail(order: seq<string>, progress: string -> nat, n: nat)
    requires 1 <= n <= |order|
    ensures var k := Saved(order[1..], progress, n - 1);
            Saved(order, progress, n) ==
            if k > 0 then k + 1 else if progress(order[0]) >= DONE then 1 else 0
    decreases n
  {
    if n > 1 {
      assert order[1..][n - 2] == order[n - 1];
      if progress(order[n - 1]) < DONE {
        SavedTail(order, progress, n - 1);
      }
    }
  }

  /** The ids of the first `n` removals. */
  function Among(order: seq<string>, n: nat): set<string>
    requires n <= |order|
  {
    set i | 0 <= i < n :: order[i]
  }

  lemma AmongCons(order: seq<string>, n: nat)
    requires 1 <= n <= |order|
    ensures Among(order, n) == {order[0]} + Among(order[1..], n - 1)
  {
    forall id | id in Among(order, n) ensures id in {order[0]} + Among(order[1..], n - 1) {
      var i :| 0 <= i < n && order[i] == id;
      assert i > 0 ==> order[1..][i - 1] == id;
    }
    forall id | id in Among(order[1..], n - 1) ensures id in Among(order, n) {
      var i :| 0 <= i < n - 1 && order[1..][i] == id;
      assert order[i + 1] == id;
    }
  }

  lemma MinusTwice(m: Configs, a: set<string>, b: set<string>)
    ensures m - a - b == m - (a + b)
  {
  }

  lemma ActiveMinusTwice(m: map<string, Core>, a: set<string>, b: set<string>)
    ensures m - a - b == m - (a + b)
  {
  }

  /** The first `stop` removals of `order` took `n` to `m`: those tunnels are gone from memory, and the
      file is what the last completed save among them wrote. */
  ghost predicate Removals(n: Node, order: seq<string>, progress: string -> nat, stop: nat, m: Node)
    requires stop <= |order|
  {
    && m.active == n.active - Among(order, stop) && m.configs == n.configs - Among(order, stop)
    && var saved := Saved(order, progress, stop);
       m.disk.file == if saved == 0 then n.disk.file else Some(Whole(n.configs - Among(order, saved)))
  }

  /** The node after `cleanup`, whatever raises and wherever saves stop: the removals before the first
      one that raises took place. */
  lemma {:induction false} CleanupOutcome(n: Node, order: seq<string>, raises: set<string>, progress: string -> nat)
    requires Distinct(order) && forall id | id in order :: id in n.active && id in n.configs
    ensures var (m, ok) := CleanedUp(n, order, raises, progress);
            var stop := Stop(n.active, order, raises);
            stop <= |order| && (ok <==> stop == |order|) && Removals(n, order, progress, stop, m)
    decreases |order|
  {
    StopWithin(n.active, order, raises);
    var m, stop := CleanedUp(n, order, raises, progress).0, Stop(n.active, order, raises);
    if stop == 0 {
      StoppedAtOnce(n, order, raises, progress);
    } else {
      var id, rest := order[0], order[1..];
      var next := Removed(n, id, id in raises, progress(id)).0;
      RemovedOne(n, id, id in raises, progress(id));
      TailDistinct(order);
      CleanupOutcome(next, rest, raises, progress);
      StopKept(n.active, rest, raises, id);
      RemovalsCons(n, next, order, progress, stop, m);
      hide Removed, Removals, RemovalRaises, Distinct;
    }
  }

  lemma StoppedAtOnce(n: Node, order: seq<string>, raises: set<string>, progress: string -> nat)
    requires Stop(n.active, order, raises) == 0 && forall id | id in order :: id in n.active && id in n.configs
    ensures var (m, ok) := CleanedUp(n, order, raises, progress);
            (ok <==> order == []) && Removals(n, order, progress, 0, m)
  {
    assert n.active - {} == n.active && n.configs - {} == n.configs;
    assert Among(order, 0) == {};
  }

  lemma RemovalsCons(n: Node, next: Node, order: seq<string>, progress: string -> nat, stop: nat, m: Node)
    requires 1 <= stop <= |order|
    requires next.active == n.active - {order[0]} && next.configs == n.configs - {order[0]}
    requires next.disk.file ==
             if progress(order[0]) >= DONE then Some(Whole(n.configs - {order[0]})) else n.disk.file
    requires Removals(next, order[1..], progress, stop - 1, m)
    ensures Removals(n, order, progress, stop, m)
  {
    var id, rest := order[0], order[1..];
    SavedTail(order, progress, stop);
    var saved := Saved(rest, progress, stop - 1);
    AmongCons(order, stop);
    ActiveMinusTwice(n.active, {id}, Among(rest, stop - 1));
    MinusTwice(n.configs, {id}, Among(rest, stop - 1));
    AmongCons(order, saved + 1);
    MinusTwice(n.configs, {id}, Among(rest, saved));
    assert Among(order, 1) == {id};
    hide Among, Saved;
  }

  lemma TailDistinct(order: seq<string>)
    requires order != [] && Distinct(order)
    ensures Distinct(order[1..]) && order[0] !in order[1..]
    ensures forall id | id in order[1..] :: id in order && id != order[0]
  {
    assert forall i | 0 <= i < |order| - 1 :: order[1..][i] == order[i + 1];
  }

  /** Removing one active tunnel whose removal does not raise. */
  lemma RemovedOne(n: Node, id: string, raises: bool, progress: nat)
    requires id in n.active && id in n.configs && !RemovalRaises(n, id, raises)
    ensures var (m, ok) := Removed(n, id, raises, progress);
            && ok && m.active == n.active - {id} && m.configs == n.configs - {id}
            && m.disk.file == if progress >= DONE then Some(Whole(n.configs - {id})) else n.disk.file
  {
    SaveIsAtomic(n.disk, n.configs - {id}, progress);
  }

  /** One of the first `stop` removals completed its save. */
  ghost predicate SomeSaved(order: seq<string>, progress: string -> nat, stop: nat)
    requires stop <= |order|
  {
    exists k | 0 <= k < stop :: progress(order[k]) >= DONE
  }

  /** What a shutdown leaves for later boots, whatever the file held before. If no save completed up to
      the first removal that raised, the file is left as it was. Otherwise an active tunnel
      stays in the file exactly when no save completed from its own removal on, and what was not active
      is there exactly when memory had it. */
  lemma ShutdownForgets(n: Node, order: seq<string>, raises: set<string>, progress: string -> nat)
    requires Configured(n) && MemoryAgrees(n) && Enumerates(order, n.active.Keys)
    ensures var left := Load(CleanedUp(n, order, raises, progress).0.disk);
            var stop := Stop(n.active, order, raises);
            && stop <= |order|
            && (!SomeSaved(order, progress, stop) ==> left == Load(n.disk))
            && (SomeSaved(order, progress, stop) ==>
                  && (forall i | 0 <= i < |order| ::
                        order[i] in left <==> forall k | i <= k < stop :: progress(order[k]) < DONE)
                  && (forall id | id !in n.active :: id in left <==> id in n.configs))
  {
    CleanupOutcome(n, order, raises, progress);
    var left, stop := Load(CleanedUp(n, order, raises, progress).0.disk), Stop(n.active, order, raises);
    var saved := Saved(order, progress, stop);
    LeftBehind(n, order, saved, CleanedUp(n, order, raises, progress).0.disk);
    hide CleanedUp, Stop, Load, Configured, Removals;
    assert SomeSaved(order, progress, stop) <==> saved > 0;
    if saved > 0 {
      forall i | 0 <= i < |order|
        ensures order[i] in left <==> forall k | i <= k < stop :: progress(order[k]) < DONE
      {
        assert order[i] in n.active.Keys;
        AmongIs(order, saved, i);
      }
      forall id | id !in n.active ensures id in left <==> id in n.configs {
        assert id !in order;
      }
    }
  }

  lemma LeftBehind(n: Node, order: seq<string>, saved: nat, d: Disk)
    requires Configured(n) && saved <= |order|
    requires d.file == if saved == 0 then n.disk.file else Some(Whole(n.configs - Among(order, saved)))
    ensures saved == 0 ==> Load(d) == Load(n.disk)
    ensures saved > 0 ==> forall id :: id in Load(d) <==> id in n.configs && id !in Among(order, saved)
  {
  }

  lemma AmongIs(order: seq<string>, n: nat, i: nat)
    requires Distinct(order) && n <= |order| && i < |order|
    ensures order[i] in Among(order, n) <==> i < n
  {
  }

  // ---------- several lives ----------

  /** One life of the node: what it booted into, how its restore's starts went, and what it did until
      it died or was shut down. */
  datatype Life = Life(boot: Node, launch: string -> Launch, events: seq<Event>)

  function Last(life: Life): Node {
    AfterAll(life.boot, life.events)
  }

  /** Each life boots from the disk the one before left behind. */
  ghost predicate Lived(d: Disk, lives: seq<Life>)
    decreases |lives|
  {
    lives == [] || (Booted(lives[0].boot, d, lives[0].launch) && Lived(Last(lives[0]).disk, lives[1..]))
  }

  /** The disk before the `k`-th life. */
  function DiskBefore(d: Disk, lives: seq<Life>, k: nat): Disk
    requires k <= |lives|
  {
    if k == 0 then d else Last(lives[k - 1]).disk
  }

  lemma {:induction false} LivedAt(d: Disk, lives: seq<Life>, k: nat)
    requires Lived(d, lives) && k < |lives|
    ensures Booted(lives[k].boot, DiskBefore(d, lives, k), lives[k].launch)
    decreases |lives|
  {
    hide Booted, AfterAll;
    if k > 0 {
      LivedAt(Last(lives[0]).disk, lives[1..], k - 1);
    }
  }

  /** At every moment of every life, from any disk: no tunnel has two live processes that this life
      started, a live one is its active adapter's, and active tunnels are configured for their adapter.
      What may still run from earlier lives is the subject of the module `Survivors`. */
  lemma LivesAreSafe(d: Disk, lives: seq<Life>, k: nat, moment: nat)
    requires Lived(d, lives) && k < |lives| && moment <= |lives[k].events|
    ensures var n := AfterAll(lives[k].boot, lives[k].events[..moment]);
            OneProcess(n) && MemoryAgrees(n)
  {
    LivedAt(d, lives, k);
    RunKeepsMemory(DiskBefore(d, lives, k), lives[k].launch, lives[k].boot, lives[k].events[..moment]);
  }

  /** There is no file yet, or it holds a whole map of well-formed entries. */
  ghost predicate Readable(d: Disk) {
    match d.file
    case None => true
    case Some(Whole(configs)) => forall id | id in configs :: configs[id].Entry?
    case _ => false
  }

  ghost predicate WellFormed(n: Node) {
    Readable(n.disk) && Configured(n)
  }

  lemma SavedReadable(d: Disk, configs: Configs, progress: nat)
    requires Readable(d) && forall id | id in configs :: configs[id].Entry?
    ensures Readable(SavedTo(d, configs, progress))
  {
    SaveIsAtomic(d, configs, progress);
  }

  lemma RemovedWellFormed(n: Node, id: string, raises: bool, progress: nat)
    requires WellFormed(n)
    ensures WellFormed(Removed(n, id, raises, progress).0)
  {
    SavedReadable(n.disk, n.configs - {id}, progress);
    hide SavedTo, Readable;
  }

  lemma FreshWellFormed(n: Node, id: string, name: string, spec: Spec, launch: Launch, progress: nat)
    requires WellFormed(n)
    ensures WellFormed(AppliedFresh(n, id, name, spec, launch, progress).0)
  {
    SavedReadable(n.disk, n.configs[id := Entry(name, spec)], progress);
    hide SavedTo, Readable, AdapterFor, Launched;
  }

  lemma EventWellFormed(n: Node, e: Event)
    requires WellFormed(n)
    ensures WellFormed(After(n, e))
  {
    hide WellFormed, AppliedFresh, Removed;
    match e {
      case Apply(id, name, spec, raises, first, launch, second) =>
        RemovedWellFormed(n, id, raises, first);
        FreshWellFormed(Removed(n, id, raises, first).0, id, name, spec, launch, second);
        FreshWellFormed(n, id, name, spec, launch, second);
      case Remove(id, raises, progress) =>
        RemovedWellFormed(n, id, raises, progress);
      case Exit(core, id) =>
        ExitWellFormed(n, core, id);
    }
  }

  lemma ExitWellFormed(n: Node, core: Core, id: string)
    requires WellFormed(n)
    ensures WellFormed(After(n, Exit(core, id)))
  {
  }

  lemma {:induction false} RunWellFormed(n: Node, events: seq<Event>)
    requires WellFormed(n)
    ensures WellFormed(AfterAll(n, events))
    decreases |events|
  {
    hide WellFormed, After;
    if events != [] {
      RunWellFormed(n, events[..|events| - 1]);
      EventWellFormed(AfterAll(n, events[..|events| - 1]), events[|events| - 1]);
    }
  }

  /** Crash safety over any number of lives: however each of them ends, in the middle of whatever save,
      the next one finds a file it can read. */
  lemma {:induction false} LivesKeepTheFile(d: Disk, lives: seq<Life>, k: nat)
    requires Readable(d) && Lived(d, lives) && k <= |lives|
    ensures Readable(DiskBefore(d, lives, k))
    decreases k
  {
    hide Booted, AfterAll, Readable, WellFormed, Lived;
    if k > 0 {
      LivesKeepTheFile(d, lives, k - 1);
      LivedAt(d, lives, k - 1);
      LifeKeepsTheFile(lives[k - 1], DiskBefore(d, lives, k - 1));
    }
  }

  lemma LifeKeepsTheFile(life: Life, d: Disk)
    requires Booted(life.boot, d, life.launch) && Readable(d)
    ensures Readable(Last(life).disk)
  {
    hide Booted, AfterAll, Readable, WellFormed;
    BootWellFormed(life.boot, d, life.launch);
    RunWellFormed(life.boot, life.events);
    FileReadable(Last(life));
  }

  lemma FileReadable(n: Node)
    requires WellFormed(n)
    ensures Readable(n.disk)
  {
  }

  lemma BootWellFormed(n: Node, d: Disk, launch: string -> Launch)
    requires Booted(n, d, launch) && Readable(d)
    ensures WellFormed(n)
  {
    LoadedEntries(d);
  }

  // ---------- what is forgotten stays forgotten ----------

  predicate Applies(e: Event, id: string) {
    e.Apply? && e.id == id
  }

  ghost predicate NeverApplied(lives: seq<Life>, id: string) {
    forall k, i | 0 <= k < |lives| && 0 <= i < |lives[k].events| :: !Applies(lives[k].events[i], id)
  }

  /** Neither memory nor file knows the tunnel. */
  predicate Unknown(n: Node, id: string) {
    id !in n.active && id !in n.configs && id !in Load(n.disk)
  }

  lemma SavedUnknown(d: Disk, configs: Configs, progress: nat, id: string)
    requires id !in Load(d) && id !in configs
    ensures id !in Load(SavedTo(d, configs, progress))
  {
    SaveIsAtomic(d, configs, progress);
    hide SavedTo;
  }

  lemma RemovedUnknown(n: Node, other: string, raises: bool, progress: nat, id: string)
    requires Unknown(n, id)
    ensures Unknown(Removed(n, other, raises, progress).0, id)
  {
    SavedUnknown(n.disk, n.configs - {other}, progress, id);
    hide SavedTo, Load;
  }

  lemma FreshUnknown(n: Node, other: string, name: string, spec: Spec, launch: Launch, progress: nat, id: string)
    requires Unknown(n, id) && other != id
    ensures Unknown(AppliedFresh(n, other, name, spec, launch, progress).0, id)
  {
    SavedUnknown(n.disk, n.configs[other := Entry(name, spec)], progress, id);
    hide SavedTo, Load, AdapterFor, Launched;
  }

  lemma EventUnknown(n: Node, e: Event, id: string)
    requires Unknown(n, id) && !Applies(e, id)
    ensures Unknown(After(n, e), id)
  {
    hide AppliedFresh, Removed, Load;
    match e {
      case Apply(other, name, spec, raises, first, launch, second) =>
        RemovedUnknown(n, other, raises, first, id);
        FreshUnknown(Removed(n, other, raises, first).0, other, name, spec, launch, second, id);
        FreshUnknown(n, other, name, spec, launch, second, id);
      case Remove(other, raises, progress) =>
        RemovedUnknown(n, other, raises, progress, id);
      case Exit(_, _) =>
    }
  }

  lemma {:induction false} RunUnknown(n: Node, events: seq<Event>, id: string)
    requires Unknown(n, id) && forall i | 0 <= i < |events| :: !Applies(events[i], id)
    ensures Unknown(AfterAll(n, events), id)
    decreases |events|
  {
    hide Unknown, After;
    if events != [] {
      RunUnknown(n, events[..|events| - 1], id);
      EventUnknown(AfterAll(n, events[..|events| - 1]), events[|events| - 1], id);
    }
  }

  lemma LifeUnknown(life: Life, id: string, moment: nat)
    requires Unknown(life.boot, id) && moment <= |life.events|
    requires forall i | 0 <= i < |life.events| :: !Applies(life.events[i], id)
    ensures Unknown(AfterAll(life.boot, life.events[..moment]), id)
    ensures moment == |life.events| ==> id !in Load(Last(life).disk)
  {
    hide AfterAll, Load;
    RunUnknown(life.boot, life.events[..moment], id);
    if moment == |life.events| {
      assert life.events[..moment] == life.events;
    }
  }

  /** A tunnel that is not in the file is absent from every later boot, and from every moment of every
      later life, until it is applied again. */
  lemma {:induction false} StaysForgotten(d: Disk, lives: seq<Life>, id: string, k: nat)
    requires id !in Load(d) && Lived(d, lives) && NeverApplied(lives, id) && k < |lives|
    ensures id !in Load(DiskBefore(d, lives, k)) && Unknown(lives[k].boot, id)
    ensures forall moment | 0 <= moment <= |lives[k].events| ::
              Unknown(AfterAll(lives[k].boot, lives[k].events[..moment]), id)
    decreases k
  {
    hide Booted, AfterAll, Load, Lived, Unknown, Applies;
    var life := lives[k];
    if k > 0 {
      StaysForgotten(d, lives, id, k - 1);
      LifeUnknown(lives[k - 1], id, |lives[k - 1].events|);
    }
    LivedAt(d, lives, k);
    BootUnknown(life.boot, DiskBefore(d, lives, k), life.launch, id);
    forall moment | 0 <= moment <= |life.events| ensures Unknown(AfterAll(life.boot, life.events[..moment]), id) {
      LifeUnknown(life, id, moment);
    }
  }

  lemma BootUnknown(n: Node, d: Disk, launch: string -> Launch, id: string)
    requires Booted(n, d, launch) && id !in Load(d)
    ensures Unknown(n, id)
  {
    assert n.active.Keys <= n.configs.Keys;
  }
}
