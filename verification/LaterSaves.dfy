/** What the rest of a life does to a tunnel that is not applied again: the later saves of the same
    life decide whether the file still knows it when the node dies. */
module LaterSaves {
  import opened Wrappers
  import opened Manager
  import opened NodeLives

  /** The event, coming upon `n`, completes a save. */
  predicate CompletesSave(n: Node, e: Event) {
    match e
    case Apply(id, name, _, raises, first, launch, second) =>
      !RemovalRaises(n, id, raises)
      && ((AdapterFor(name).Some? && launch.Started? && second >= DONE)
          || (id in n.active && id in n.configs && first >= DONE))
    case Remove(id, raises, progress) => !RemovalRaises(n, id, raises) && id in n.configs && progress >= DONE
    case Exit(_, _) => false
  }

  /** The last of the events that completes a save. */
  function LastSave(n: Node, events: seq<Event>): (last: Option<nat>)
    ensures last.Some? ==> last.value < |events|
  {
    if events == [] then None
    else
      var init := events[..|events| - 1];
      if CompletesSave(AfterAll(n, init), events[|events| - 1]) then Some(|events| - 1) else LastSave(n, init)
  }

  /** `LastSave` is what its name says. */
  lemma {:induction false} LastSaveIsLast(n: Node, events: seq<Event>)
    ensures forall k | 0 <= k < |events| ::
              (LastSave(n, events) == Some(k) <==>
                && CompletesSave(AfterAll(n, events[..k]), events[k])
                && forall i | k < i < |events| :: !CompletesSave(AfterAll(n, events[..i]), events[i]))
    ensures LastSave(n, events) == None <==>
              forall i | 0 <= i < |events| :: !CompletesSave(AfterAll(n, events[..i]), events[i])
    decreases |events|
  {
    hide CompletesSave, AfterAll;
    if events != [] {
      var init := events[..|events| - 1];
      LastSaveIsLast(n, init);
      assert forall i | 0 <= i < |init| :: init[..i] == events[..i] && init[i] == events[i];
    }
  }

  /** The event removes the tunnel: it is no removal that raises. `n` is any node that knows it. */
  predicate Drops(n: Node, e: Event, id: string) {
    e.Remove? && e.id == id && !RemovalRaises(n, id, e.raises)
  }

  predicate NeverApplies(events: seq<Event>, id: string) {
    forall i | 0 <= i < |events| :: !Applies(events[i], id)
  }

  /** The two nodes agree on the tunnel in memory. */
  predicate SameTunnel(m: Node, n: Node, id: string) {
    && (id in m.configs <==> id in n.configs)
    && (id in m.active <==> id in n.active)
    && (id in n.active ==> m.active[id] == n.active[id])
  }

  /** An event that does not apply the tunnel leaves it as it is or removes it. */
  lemma EventMemory(n: Node, e: Event, id: string)
    requires !Applies(e, id)
    ensures if Drops(n, e, id) then id !in After(n, e).configs else SameTunnel(After(n, e), n, id)
  {
    if e.Apply? {
      AppliedActive(n, e.id, e.name, e.spec, e.raises, e.first, e.launch, e.second, id);
      AppliedConfigs(n, e.id, e.name, e.spec, e.raises, e.first, e.launch, e.second);
      hide Applied, AdapterFor;
    } else {
      hide SavedTo;
    }
  }

  /** An apply leaves other tunnels active or inactive as they are. */
  lemma AppliedActive(n: Node, id: string, name: string, spec: Spec, raises: bool, first: nat, launch: Launch,
                      second: nat, other: string)
    requires other != id
    ensures var m := Applied(n, id, name, spec, raises, first, launch, second).0;
            && (other in m.active <==> other in n.active)
            && (other in n.active ==> m.active[other] == n.active[other])
  {
    FreshActive(n, id, name, spec, launch, second, other);
    FreshActive(Removed(n, id, raises, first).0, id, name, spec, launch, second, other);
    hide AppliedFresh, SavedTo;
  }

  lemma FreshActive(n: Node, id: string, name: string, spec: Spec, launch: Launch, progress: nat, other: string)
    requires other != id
    ensures var m := AppliedFresh(n, id, name, spec, launch, progress).0;
            && (other in m.active <==> other in n.active)
            && (other in n.active ==> m.active[other] == n.active[other])
  {
    hide AdapterFor, SavedTo, Launched;
  }

  lemma GoneStaysGone(n: Node, e: Event, id: string)
    requires !Applies(e, id) && id !in n.configs
    ensures id !in After(n, e).configs
  {
    EventMemory(n, e, id);
  }

  /** In memory a tunnel that is not applied again lasts until it is removed. */
  lemma {:induction false} RunMemory(n: Node, events: seq<Event>, id: string)
    requires NeverApplies(events, id)
    ensures var m := AfterAll(n, events);
            var stays := forall i | 0 <= i < |events| :: !Drops(n, events[i], id);
            && (id in m.configs <==> id in n.configs && stays)
            && (stays ==> SameTunnel(m, n, id))
    decreases |events|
  {
    hide After, Applies;
    if events != [] {
      var init, last := events[..|events| - 1], events[|events| - 1];
      var m := AfterAll(n, init);
      RunMemory(n, init, id);
      EventMemory(m, last, id);
      if id !in m.configs {
        GoneStaysGone(m, last, id);
      }
      assert forall i | 0 <= i < |init| :: init[i] == events[i];
    }
  }

  /** A completed save writes what memory says of every tunnel the event does not apply; nothing else
      changes the file. */
  lemma EventFile(n: Node, e: Event, id: string)
    requires Configured(n) && !Applies(e, id)
    ensures var m := After(n, e);
            if CompletesSave(n, e) then id in Load(m.disk) <==> id in m.configs else m.disk.file == n.disk.file
  {
    hide Load;
    match e {
      case Apply(other, name, spec, raises, first, launch, second) =>
        CrashDuringApply(n, other, name, spec, raises, first, launch, second);
        AppliedConfigs(n, other, name, spec, raises, first, launch, second);
        WholeLoads(After(n, e).disk, n.configs[other := Entry(name, spec)]);
        WholeLoads(After(n, e).disk, n.configs - {other});
        hide Applied, AdapterFor, Configured;
      case Remove(other, raises, progress) =>
        SaveIsAtomic(n.disk, n.configs - {other}, progress);
        WholeLoads(After(n, e).disk, n.configs - {other});
        hide SavedTo, Configured;
      case Exit(_, _) =>
    }
  }

  lemma WholeLoads(d: Disk, configs: Configs)
    requires forall id | id in configs :: configs[id].Entry?
    ensures d.file == Some(Whole(configs)) ==> Load(d) == configs
  {
  }

  /** The configurations in memory after an apply. */
  lemma AppliedConfigs(n: Node, id: string, name: string, spec: Spec, raises: bool, first: nat, launch: Launch,
                       second: nat)
    ensures Applied(n, id, name, spec, raises, first, launch, second).0.configs ==
            if RemovalRaises(n, id, raises) then n.configs
            else if AdapterFor(name).Some? && launch.Started? then n.configs[id := Entry(name, spec)]
            else if id in n.active then n.configs - {id}
            else n.configs
  {
    hide AdapterFor, SavedTo, Launched;
    assert id !in n.configs ==> n.configs - {id} == n.configs;
    assert (n.configs - {id})[id := Entry(name, spec)] == n.configs[id := Entry(name, spec)];
  }

  lemma EventConfigured(n: Node, e: Event)
    requires Configured(n)
    ensures Configured(After(n, e))
  {
    if e.Apply? {
      AppliedConfigs(n, e.id, e.name, e.spec, e.raises, e.first, e.launch, e.second);
      hide Applied, AdapterFor;
    } else {
      hide SavedTo;
    }
  }

  lemma {:induction false} RunConfigured(n: Node, events: seq<Event>)
    requires Configured(n)
    ensures Configured(AfterAll(n, events))
    decreases |events|
  {
    hide Configured, After;
    if events != [] {
      RunConfigured(n, events[..|events| - 1]);
      EventConfigured(AfterAll(n, events[..|events| - 1]), events[|events| - 1]);
    }
  }

  /** So it is at every moment of every life, whatever disk it booted from. */
  lemma LivesAreConfigured(boot: Node, d: Disk, launch: string -> Launch, events: seq<Event>)
    requires Booted(boot, d, launch)
    ensures Configured(AfterAll(boot, events))
  {
    LoadedEntries(d);
    assert Configured(boot);
    RunConfigured(boot, events);
  }

  /** Up to the last completed save nothing had removed the tunnel; without one, the file was never
      written. */
  ghost predicate FileKnows(n: Node, events: seq<Event>, id: string) {
    match LastSave(n, events)
    case None => id in Load(n.disk)
    case Some(k) => id in n.configs && forall i | 0 <= i <= k :: !Drops(n, events[i], id)
  }

  /** The file when a life ends, from any moment of it on and for every tunnel not applied since: the
      last completed save decides, and it writes what memory knows by then. */
  lemma {:induction false} FileAtTheEnd(n: Node, events: seq<Event>, id: string)
    requires Configured(n) && NeverApplies(events, id)
    ensures id in Load(AfterAll(n, events).disk) <==> FileKnows(n, events, id)
    decreases |events|
  {
    if events != [] {
      var init, last := events[..|events| - 1], events[|events| - 1];
      RunConfigured(n, init);
      EventFile(AfterAll(n, init), last, id);
      RunMemory(n, events, id);
      FileAtTheEnd(n, init, id);
      SameFile(After(AfterAll(n, init), last).disk, AfterAll(n, init).disk);
      hide After, CompletesSave, Load, Configured, Drops, Applies;
      assert LastSave(n, events) != Some(|events| - 1) ==> LastSave(n, events) == LastSave(n, init);
      assert forall i | 0 <= i < |init| :: init[i] == events[i];
    }
  }

  lemma SameFile(c: Disk, d: Disk)
    ensures c.file == d.file ==> Load(c) == Load(d)
  {
  }

  // ---------- the life after a re-apply ----------

  /** The new process of an apply is running when its adapter returns. */
  predicate Starts(name: string, launch: Launch) {
    AdapterFor(name).Some? && launch.Started?
  }

  /** Whether the file knows the tunnel when the node dies, after a re-apply of the active tunnel and a
      rest of the life that does not apply it again. A completed save of the rest restores the tunnel
      if the re-apply kept it in memory (and the rest had not removed it by then) and drops it
      otherwise; without such a save the saves of the re-apply itself decide. */
  ghost predicate Remembered(n: Node, id: string, name: string, spec: Spec, raises: bool, first: nat, launch: Launch,
                             second: nat, rest: seq<Event>)
  {
    var m := Applied(n, id, name, spec, raises, first, launch, second).0;
    match LastSave(m, rest)
    case None =>
      if !RemovalRaises(n, id, raises) && Starts(name, launch) && second >= DONE then true
      else (RemovalRaises(n, id, raises) || first < DONE) && id in Load(n.disk)
    case Some(k) =>
      (RemovalRaises(n, id, raises) || Starts(name, launch)) && forall i | 0 <= i <= k :: !Drops(m, rest[i], id)
  }

  lemma ReapplyRemembered(n: Node, id: string, name: string, spec: Spec, raises: bool, first: nat, launch: Launch,
                          second: nat, rest: seq<Event>)
    requires Configured(n) && MemoryAgrees(n) && id in n.active && NeverApplies(rest, id)
    ensures var m := Applied(n, id, name, spec, raises, first, launch, second).0;
            id in Load(AfterAll(m, rest).disk) <==>
              Remembered(n, id, name, spec, raises, first, launch, second, rest)
  {
    var m := Applied(n, id, name, spec, raises, first, launch, second).0;
    ReapplyKeeps(n, id, name, spec, raises, first, launch, second);
    AppliedConfigs(n, id, name, spec, raises, first, launch, second);
    EventConfigured(n, Apply(id, name, spec, raises, first, launch, second));
    FileAtTheEnd(m, rest, id);
    assert id in n.configs;
    hide Applied, AdapterFor, Load, Drops, LastSave, AfterAll, MemoryAgrees, RemovalRaises, Configured;
  }

  /** What later lives make of a re-applied tunnel: the next boot knows it exactly when the file
      remembers it, and what the file forgot is absent from every later boot until applied again. */
  lemma ReapplyDecides(n: Node, id: string, name: string, spec: Spec, raises: bool, first: nat, launch: Launch,
                       second: nat, rest: seq<Event>, lives: seq<Life>, k: nat)
    requires Configured(n) && MemoryAgrees(n) && id in n.active && NeverApplies(rest, id)
    requires Lived(AfterAll(Applied(n, id, name, spec, raises, first, launch, second).0, rest).disk, lives)
    requires NeverApplied(lives, id) && k < |lives|
    ensures var remembered := Remembered(n, id, name, spec, raises, first, launch, second, rest);
            && (id in lives[0].boot.configs <==> remembered)
            && (!remembered ==> Unknown(lives[k].boot, id))
  {
    var d := AfterAll(Applied(n, id, name, spec, raises, first, launch, second).0, rest).disk;
    ReapplyRemembered(n, id, name, spec, raises, first, launch, second, rest);
    hide Applied, AdapterFor, Unknown, Remembered, AfterAll;
    if id !in Load(d) {
      StaysForgotten(d, lives, id, k);
    }
    LivedAt(d, lives, 0);
    assert lives[0].boot.configs.Keys == Load(d).Keys;
  }

  /** A re-apply whose removal was saved and whose process does not start forgets the tunnel for good:
      short of applying it again, nothing in the rest of that life or in later lives brings it back. */
  lemma FailedReapplyForgets(n: Node, id: string, name: string, spec: Spec, raises: bool, first: nat, launch: Launch,
                             second: nat, rest: seq<Event>, lives: seq<Life>, k: nat)
    requires Configured(n) && MemoryAgrees(n) && id in n.active && NeverApplies(rest, id)
    requires !RemovalRaises(n, id, raises) && first >= DONE && !Starts(name, launch)
    requires Lived(AfterAll(Applied(n, id, name, spec, raises, first, launch, second).0, rest).disk, lives)
    requires NeverApplied(lives, id) && k < |lives|
    ensures forall moment | 0 <= moment <= |rest| ::
              Unknown(AfterAll(Applied(n, id, name, spec, raises, first, launch, second).0, rest[..moment]), id)
    ensures Unknown(lives[k].boot, id)
  {
    var m := Applied(n, id, name, spec, raises, first, launch, second).0;
    FailedReapplyUnknown(n, id, name, spec, raises, first, launch, second);
    hide Applied, AdapterFor, AfterAll, Lived;
    forall moment | 0 <= moment <= |rest| ensures Unknown(AfterAll(m, rest[..moment]), id) {
      RunUnknown(m, rest[..moment], id);
    }
    assert rest[..|rest|] == rest && Unknown(AfterAll(m, rest[..|rest|]), id);
    StaysForgotten(AfterAll(m, rest).disk, lives, id, k);
  }

  lemma FailedReapplyUnknown(n: Node, id: string, name: string, spec: Spec, raises: bool, first: nat, launch: Launch,
                             second: nat)
    requires Configured(n) && MemoryAgrees(n) && id in n.active
    requires !RemovalRaises(n, id, raises) && first >= DONE && !Starts(name, launch)
    ensures Unknown(Applied(n, id, name, spec, raises, first, launch, second).0, id)
  {
    ReapplyKeeps(n, id, name, spec, raises, first, launch, second);
    RemovedOne(n, id, raises, first);
    hide Load, SavedTo, Launched, Configured;
  }
}
