/** The usage cycle over the subscribers of the tunnels, and the operator steps beside it. */
module Usage {
  import opened Wrappers

  /** A subscriber row; a quota of zero means none. Status is free text in the table. */
  datatype Client = Client(tunnel: Option<int>, quota: nat, used: nat, expires: Option<int>, status: string)

  // ---------- one subscriber ----------

  predicate Expired(c: Client, now: int) {
    c.expires.Some? && c.expires.value <= now
  }

  predicate OverQuota(c: Client) {
    c.quota > 0 && c.used >= c.quota
  }

  function Enforced(c: Client, traffic: Option<nat>, now: int): Client {
    if Expired(c, now) then c.(status := "expired")
    else
      var m := if traffic.Some? then c.(used := traffic.value) else c;
      if OverQuota(m) then m.(status := "over_quota") else m
  }

  /** What the traffic of a subscriber's tunnel asked as: nothing without a tunnel, or when the tunnel
      row is gone, or when its plugin reports nothing. */
  function Traffic(c: Client, tunnels: map<int, Option<nat>>): Option<nat> {
    if c.tunnel.Some? then Reading(tunnels, c.tunnel.value) else None
  }

  function Reading(tunnels: map<int, Option<nat>>, tunnel: int): Option<nat> {
    if tunnel in tunnels then tunnels[tunnel] else None
  }

  // ---------- one pass, with its cache ----------

  /** One of the first `n` subscribers is attached to the tunnel. */
  ghost predicate Uses(clients: seq<Client>, n: nat, tunnel: int)
    requires n <= |clients|
  {
    exists k :: 0 <= k < n && clients[k].tunnel == Some(tunnel)
  }

  lemma UsesNext(clients: seq<Client>, n: nat, tunnel: int)
    requires n < |clients|
    ensures Uses(clients, n + 1, tunnel) <==> Uses(clients, n, tunnel) || clients[n].tunnel == Some(tunnel)
  {
  }

  /** The pass over all subscribers, each at its own instant, over one snapshot of the tunnels.
      `asked` is the sequence of tunnel rows the pass asks about. */
  method RunUsageCycle(clients: seq<Client>, tunnels: map<int, Option<nat>>, clock: seq<int>)
    returns (after: seq<Client>, asked: seq<int>)
    requires |clock| == |clients|
    ensures |after| == |clients|
    ensures forall k | 0 <= k < |clients| :: after[k] == Enforced(clients[k], Traffic(clients[k], tunnels), clock[k])
    ensures forall k | 0 <= k < |clients| && clients[k].tunnel.Some? && clients[k].tunnel.value in tunnels ::
              after[k] == Enforced(clients[k], tunnels[clients[k].tunnel.value], clock[k])
    ensures forall k | 0 <= k < |clients| && (clients[k].tunnel == None || clients[k].tunnel.value !in tunnels) ::
              after[k] == Enforced(clients[k], None, clock[k])
    ensures forall j, k | 0 <= j < k < |asked| :: asked[j] != asked[k]
    ensures forall t :: t in asked <==> Uses(clients, |clients|, t)
  {
    after, asked := [], [];
    var cache: map<int, Option<nat>> := map[];
    for i := 0 to |clients|
      invariant |after| == i
      invariant forall k | 0 <= k < i :: after[k] == Enforced(clients[k], Traffic(clients[k], tunnels), clock[k])
      invariant forall j, k | 0 <= j < k < |asked| :: asked[j] != asked[k]
      invariant forall t :: t in asked <==> t in cache
      invariant forall t :: t in cache <==> Uses(clients, i, t)
      invariant forall t | t in cache :: cache[t] == Reading(tunnels, t)
    {
      var client := clients[i];
      forall t ensures Uses(clients, i + 1, t) <==> Uses(clients, i, t) || client.tunnel == Some(t) {
        UsesNext(clients, i, t);
      }
      var traffic: Option<nat> := None;
      if client.tunnel.Some? && client.tunnel.value in cache {
        traffic := cache[client.tunnel.value];
      } else if client.tunnel.Some? {
        assert forall k | 0 <= k < |asked| :: asked[k] in asked;
        asked := asked + [client.tunnel.value];
        if client.tunnel.value in tunnels {
          traffic := tunnels[client.tunnel.value];
        }
        assert traffic == Reading(tunnels, client.tunnel.value);
        cache := cache[client.tunnel.value := traffic];
      }
      assert traffic == Traffic(client, tunnels);
      after := after + [Enforced(client, traffic, clock[i])];
    }
  }

  /** Right after a pass, a subscriber that is active was unexpired when checked and is within quota. */
  lemma ActiveIsWithinLimits(c: Client, traffic: Option<nat>, now: int)
    ensures var a := Enforced(c, traffic, now);
            && (a.status == "active" ==> !Expired(a, now) && !OverQuota(a) && c.status == "active")
            && (Expired(c, now) ==> a == c.(status := "expired"))
            && (!Expired(c, now) && traffic.Some? ==> a.used == traffic.value)
            && a.quota == c.quota && a.expires == c.expires && a.tunnel == c.tunnel
  {
    assert "expired"[0] != "active"[0] && "over_quota"[0] != "active"[0];
  }

  /** What a pass writes: `expired` from the very instant of expiry on, with the counter left alone;
      before it, the traffic if there is a reading, and `over_quota` as soon as a quota is used up. */
  lemma PassDecides(c: Client, traffic: Option<nat>, now: int)
    ensures var a := Enforced(c, traffic, now); var used := if traffic.Some? then traffic.value else c.used;
            && (c.expires.Some? && now >= c.expires.value ==>
                  a == Client(c.tunnel, c.quota, c.used, c.expires, "expired"))
            && (c.expires == None || now < c.expires.value ==>
                  && (c.quota >= 1 && used >= c.quota ==> a == Client(c.tunnel, c.quota, used, c.expires, "over_quota"))
                  && (c.quota == 0 || used < c.quota ==> a == Client(c.tunnel, c.quota, used, c.expires, c.status)))
  {
  }

  // ---------- whole runs of one subscriber ----------

  datatype Event =
    | Cycle(traffic: Option<nat>, now: int)
    | Topup(quota: Option<nat>, expires: Option<int>)
    | Edit(quota: Option<nat>, used: Option<nat>, expires: Option<int>, status: Option<string>)

  function Or<T>(o: Option<T>, default: T): T {
    if o.Some? then o.value else default
  }

  function After(c: Client, e: Event): Client {
    match e
    case Cycle(traffic, now) => Enforced(c, traffic, now)
    case Topup(quota, expires) =>
      c.(quota := if quota.Some? && quota.value > 0 then quota.value else c.quota,
         expires := if expires.Some? then expires else c.expires, status := "active")
    case Edit(quota, used, expires, status) =>
      c.(quota := Or(quota, c.quota), used := Or(used, c.used),
         expires := if expires.Some? then expires else c.expires, status := Or(status, c.status))
  }

  function AfterAll(c: Client, events: seq<Event>): Client {
    if events == [] then c else After(AfterAll(c, events[..|events| - 1]), events[|events| - 1])
  }

  /** What the operator's two steps write: what they carry, a top-up no zero quota; and a top-up
      activates. Nothing else. */
  lemma OperatorsWrite(c: Client, quota: Option<nat>, used: Option<nat>, expires: Option<int>, status: Option<string>)
    ensures var t, e := After(c, Topup(quota, expires)), After(c, Edit(quota, used, expires, status));
            && t.status == "active" && t.used == c.used && t.tunnel == c.tunnel && e.tunnel == c.tunnel
            && (quota == None || quota == Some(0) ==> t.quota == c.quota)
            && (quota.Some? && quota.value >= 1 ==> t.quota == quota.value)
            && (expires == None ==> t.expires == c.expires && e.expires == c.expires)
            && (expires.Some? ==> t.expires == expires && e.expires == expires)
            && (quota == None ==> e.quota == c.quota) && (quota.Some? ==> e.quota == quota.value)
            && (used == None ==> e.used == c.used) && (used.Some? ==> e.used == used.value)
            && (status == None ==> e.status == c.status) && (status.Some? ==> e.status == status.value)
  {
  }

  /** The operator steps that reactivate. */
  predicate Reactivates(e: Event) {
    e.Topup? || (e.Edit? && e.status == Some("active"))
  }

  /** Over whole runs only an operator brings a subscriber back to active. */
  lemma {:induction false} OnlyOperatorsReactivate(c: Client, events: seq<Event>)
    requires c.status != "active" && AfterAll(c, events).status == "active"
    ensures exists k :: 0 <= k < |events| && Reactivates(events[k])
    decreases |events|
  {
    var n := |events| - 1;
    if !Reactivates(events[n]) {
      var b := AfterAll(c, events[..n]);
      if events[n].Cycle? {
        ActiveIsWithinLimits(b, events[n].traffic, events[n].now);
      }
      OnlyOperatorsReactivate(c, events[..n]);
      var k :| 0 <= k < n && Reactivates(events[..n][k]);
      assert Reactivates(events[k]);
    }
  }

  /** A subscriber that the passes find within its limits keeps its status, and its counter is the latest
      reading. */
  lemma {:induction false} PassesWithinLimits(c: Client, cycles: seq<Event>)
    requires forall k | 0 <= k < |cycles| ::
               && cycles[k].Cycle? && cycles[k].traffic.Some? && !Expired(c, cycles[k].now)
               && (c.quota == 0 || cycles[k].traffic.value < c.quota)
    ensures AfterAll(c, cycles) == if cycles == [] then c else c.(used := cycles[|cycles| - 1].traffic.value)
    decreases |cycles|
  {
    if cycles != [] {
      var n := |cycles| - 1;
      assert forall k | 0 <= k < n :: cycles[..n][k] == cycles[k];
      PassesWithinLimits(c, cycles[..n]);
      assert cycles[n].Cycle?;
    }
  }

  /** Topping up without raising the quota or the expiry lasts until the next pass: it asked the same
      counters and suspends the subscriber again. */
  lemma TopupWithoutRoomIsUndone(c: Client, traffic: Option<nat>, now: int)
    ensures var again := After(After(c, Topup(None, None)), Cycle(traffic, now));
            again.status == "active" <==>
              !Expired(c, now) && !(c.quota > 0 && (if traffic.Some? then traffic.value else c.used) >= c.quota)
  {
    assert "expired"[0] != "active"[0] && "over_quota"[0] != "active"[0];
  }
}
