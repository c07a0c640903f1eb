/** What the frp adapter makes of the halves the panel sends, and that the two ends meet. */
module FrpAdapter {
  import opened Wrappers
  import opened Text
  import opened Address
  import opened Specs
  import opened Dialling

  // ---------- configurations ----------

  /** An exposed port: `remote` on the server leads to `local` at the client's `host`. */
  datatype Proxy = Proxy(name: string, host: string, local: string, remote: string)

  datatype FrpConfig =
    | FrpServer(bindPort: string, token: string)
    | FrpClient(serverAddr: string, serverPort: string, token: string, kind: string, proxies: seq<Proxy>)

  function Unbracket(s: string): string {
    if s != "" && s[0] == '[' && s[|s| - 1] == ']' then s[1..|s| - 1] else s
  }

  predicate IsLoopback(host: string) {
    host == "0.0.0.0" || host == "localhost" || host == "127.0.0.1" || host == "::1"
  }

  /** The entries to expose: the port list, or one made from the local and the remote port. */
  function FrpPorts(spec: Spec): Option<seq<Json>> {
    var local, remote := Get(spec, LOCAL_PORT), FrpRemote(spec);
    if Truthy(Get(spec, PORTS)) then Items(Get(spec, PORTS))
    else if Truthy(local) || Truthy(remote) then Some([Pair(Or(local, remote), Or(remote, local))])
    else None
  }

  function ProxyOf(name: string, host: string, port: Json): Proxy {
    match port
    case Obj(entry) => Proxy(name, host, Show(Get(entry, LOCAL)), Show(Get(entry, REMOTE)))
    case _ => Proxy(name, host, Show(port), Show(port))
  }

  function Proxies(id: string, host: string, ports: seq<Json>): seq<Proxy> {
    seq(|ports|, i requires 0 <= i < |ports| => ProxyOf(ServiceName(id, |ports|, i), host, ports[i]))
  }

  /** The adapter's loop over the entries. */
  method DeclareProxies(id: string, host: string, ports: seq<Json>) returns (proxies: seq<Proxy>)
    ensures proxies == Proxies(id, host, ports)
  {
    proxies := [];
    for i := 0 to |ports|
      invariant proxies == Proxies(id, host, ports)[..i]
    {
      var local, remote := ports[i], ports[i];
      if ports[i].Obj? {
        local, remote := Get(ports[i].fields, LOCAL), Get(ports[i].fields, REMOTE);
      }
      var name := id;
      if |ports| > 1 {
        name := id + "_" + Decimal(i);
      }
      proxies := proxies + [Proxy(name, host, Show(local), Show(remote))];
    }
  }

  /** No two proxies of a configuration share a name. */
  ghost predicate DistinctNames(proxies: seq<Proxy>) {
    forall i, j | 0 <= i < j < |proxies| :: proxies[i].name != proxies[j].name
  }

  lemma ProxiesDistinct(id: string, host: string, ports: seq<Json>)
    ensures DistinctNames(Proxies(id, host, ports))
  {
    var proxies := Proxies(id, host, ports);
    forall i, j | 0 <= i < j < |proxies| ensures proxies[i].name != proxies[j].name {
      ServiceNamesDistinct(id, |ports|, i, j);
    }
  }

  function FrpApply(id: string, spec: Spec): Option<FrpConfig> {
    if GetOr(spec, MODE, Str("client")) == Str("server")
    then Some(FrpServer(Show(GetOr(spec, BIND_PORT, Num(7000))), TokenText(Get(spec, TOKEN))))
    else DialFrp(id, spec)
  }

  function DialFrp(id: string, spec: Spec): Option<FrpConfig> {
    var address, kind, ports := SolidText(spec, SERVER_ADDR), GetOr(spec, TYPE, Str("tcp")), FrpPorts(spec);
    if address == None || !kind.Str? || ports == None then None
    else if Lower(kind.s) != "tcp" && Lower(kind.s) != "udp" then None
    else
      var host := Unbracket(address.value);
      if host == "" || IsLoopback(host) then None
      else
        var proxies := Proxies(id, Show(GetOr(spec, LOCAL_IP, Str("127.0.0.1"))), ports.value);
        Some(FrpClient(host, Show(GetOr(spec, SERVER_PORT, Num(7000))), TokenText(Get(spec, TOKEN)),
                       Lower(kind.s), proxies))
  }

  // ---------- the two ends meet ----------

  /** One of the three derivations of frp. */
  predicate FrpDerived(spec: Spec, ip: string, kind: string, d: Derivation) {
    d == FrpHalves(spec, ip, kind) || d == FrpReset(spec, ip, kind) || d == FrpReapplied(spec, ip, kind)
  }

  /** The type the panel sends. */
  function SentKind(kind: string): string {
    if Lower(kind) == "udp" then "udp" else "tcp"
  }

  /** What all three derivations give a pair of frp halves. */
  predicate FrpPair(spec: Spec, server: Spec, client: Spec, ip: string, kind: string) {
    var port := GetOr(spec, BIND_PORT, Num(7000));
    && Get(server, MODE) == Str("server") && GetOr(server, BIND_PORT, Num(7000)) == port
    && Get(client, MODE) == Str("client") && GetOr(client, SERVER_PORT, Num(7000)) == port
    && Get(client, SERVER_ADDR) == Str(ip) && Get(client, TYPE) == Str(SentKind(kind))
    && Get(server, TOKEN) == Get(spec, TOKEN) && Get(client, TOKEN) == Get(spec, TOKEN)
  }

  lemma FrpRestoredPair(spec: Spec, ip: string, kind: string)
    requires ip != ""
    ensures var d := FrpHalves(spec, ip, kind); d.Halves? && FrpPair(spec, d.server, d.client, ip, kind)
  {
    hide Lower;
  }

  /** What resetting and re-applying add to the client's half does not touch the pair. */
  lemma FrpPairKept(spec: Spec, server: Spec, client: Spec, ip: string, kind: string, key: Key, value: Json)
    requires FrpPair(spec, server, client, ip, kind) && (key == LOCAL_IP || key == LOCAL_PORT || key == PORTS)
    ensures FrpPair(spec, server, client[key := value], ip, kind)
  {
    hide Lower;
  }

  lemma FrpResetPair(spec: Spec, ip: string, kind: string)
    requires ip != ""
    ensures var d := FrpReset(spec, ip, kind); d.Halves? && FrpPair(spec, d.server, d.client, ip, kind)
  {
    FrpRestoredPair(spec, ip, kind);
    var h := FrpHalves(spec, ip, kind);
    var host := Or(Get(h.client, LOCAL_IP), Str(ip));
    var port := Or(Get(h.client, LOCAL_PORT), GetOr(spec, BIND_PORT, Num(7000)));
    hide FrpHalves, FrpPair, Truthy, Or, Get, GetOr;
    FrpPairKept(spec, h.server, h.client, ip, kind, LOCAL_IP, host);
    FrpPairKept(spec, h.server, h.client[LOCAL_IP := host], ip, kind, LOCAL_PORT, port);
  }

  lemma FrpReappliedPair(spec: Spec, ip: string, kind: string)
    requires FrpReapplied(spec, ip, kind).Halves?
    ensures var d := FrpReapplied(spec, ip, kind); FrpPair(spec, d.server, d.client, ip, kind)
  {
    SkippedWithoutAddress(spec, kind);
    FrpRestoredPair(spec, ip, kind);
    var h, d := FrpHalves(spec, ip, kind), FrpReapplied(spec, ip, kind);
    hide FrpHalves, FrpPair, Truthy, Or, Get, GetOr, PortNumber, IsPort, Pair, FrpRemote;
    if d.client != h.client {
      FrpPairKept(spec, h.server, h.client, ip, kind, PORTS, d.client[PORTS]);
    }
  }

  lemma SkippedWithoutAddress(spec: Spec, kind: string)
    ensures FrpHalves(spec, "", kind) == FrpReset(spec, "", kind) == FrpReapplied(spec, "", kind) == Skip
  {
  }

  lemma FrpDerivedPair(spec: Spec, ip: string, kind: string, d: Derivation)
    requires FrpDerived(spec, ip, kind, d) && d.Halves?
    ensures FrpPair(spec, d.server, d.client, ip, kind)
  {
    SkippedWithoutAddress(spec, kind);
    hide FrpHalves, FrpReset, FrpReapplied, FrpPair;
    assert ip != "";
    if d == FrpHalves(spec, ip, kind) {
      FrpRestoredPair(spec, ip, kind);
    } else if d == FrpReset(spec, ip, kind) {
      FrpResetPair(spec, ip, kind);
    } else {
      FrpReappliedPair(spec, ip, kind);
    }
  }

  lemma LowerKinds()
    ensures Lower("udp") == "udp" && Lower("tcp") == "tcp"
  {
    assert "udp"[1..] == "dp" && "dp"[1..] == "p" && "p"[1..] == "";
    assert "tcp"[1..] == "cp" && "cp"[1..] == "p";
  }

  lemma ServeFrpIs(id: string, spec: Spec, server: Spec, client: Spec, ip: string, kind: string)
    requires FrpPair(spec, server, client, ip, kind)
    ensures FrpApply(id, server) ==
            Some(FrpServer(Show(GetOr(spec, BIND_PORT, Num(7000))), TokenText(Get(spec, TOKEN))))
  {
    hide Show, Lower, Truthy;
  }

  lemma DialFrpIs(id: string, spec: Spec, server: Spec, client: Spec, ip: string, kind: string)
    requires FrpPair(spec, server, client, ip, kind)
    ensures var host := Unbracket(Strip(ip));
            FrpApply(id, client) ==
            if host == "" || IsLoopback(host) || FrpPorts(client) == None then None
            else Some(FrpClient(host, Show(GetOr(spec, BIND_PORT, Num(7000))), TokenText(Get(spec, TOKEN)),
                                SentKind(kind), Proxies(id, Show(GetOr(client, LOCAL_IP, Str("127.0.0.1"))),
                                                        FrpPorts(client).value)))
  {
    LowerKinds();
    AddressText(client, ip);
    hide Show, Strip, IsLoopback, Lower, FrpPorts, SolidText, Proxies, Truthy, TokenText, Unbracket;
  }

  /** Frp agrees on port, token and type whatever the spec and the address, in every derivation; the
      client is configured exactly when the address is a usable one and there is something to expose. */
  lemma FrpMeets(id: string, spec: Spec, ip: string, kind: string, d: Derivation)
    requires FrpDerived(spec, ip, kind, d) && d.Halves?
    ensures var host := Unbracket(Strip(ip));
            && FrpApply(id, d.server).Some? && FrpApply(id, d.server).value.FrpServer?
            && (FrpApply(id, d.client).Some? <==> host != "" && !IsLoopback(host) && FrpPorts(d.client).Some?)
            && (FrpApply(id, d.client).Some? ==>
                  var s, c := FrpApply(id, d.server).value, FrpApply(id, d.client).value;
                  && c.FrpClient? && c.serverPort == s.bindPort && c.token == s.token && c.serverAddr == host
                  && c.kind == SentKind(kind) && DistinctNames(c.proxies)
                  && c.proxies == Proxies(id, Show(GetOr(d.client, LOCAL_IP, Str("127.0.0.1"))),
                                          FrpPorts(d.client).value))
  {
    FrpDerivedPair(spec, ip, kind, d);
    ServeFrpIs(id, spec, d.server, d.client, ip, kind);
    DialFrpIs(id, spec, d.server, d.client, ip, kind);
    if FrpPorts(d.client).Some? {
      ProxiesDistinct(id, Show(GetOr(d.client, LOCAL_IP, Str("127.0.0.1"))), FrpPorts(d.client).value);
    }
    hide DistinctNames;
    hide FrpDerived, FrpPair, FrpApply, Show, Strip, IsLoopback, SentKind, FrpPorts, Proxies, TokenText, Unbracket;
  }

  lemma AddressText(client: Spec, ip: string)
    requires Get(client, SERVER_ADDR) == Str(ip)
    ensures SolidText(client, SERVER_ADDR) == if Strip(ip) == "" then None else Some(Strip(ip))
    ensures Unbracket("") == ""
  {
    hide Strip;
  }

  // ---------- the three derivations compared ----------

  /** What each derivation leaves a tunnel without a port list to expose. */
  lemma FrpSinglePorts(spec: Spec, ip: string, kind: string)
    requires ip != "" && !Truthy(Get(spec, PORTS))
    ensures var local, remote, bind := Get(spec, LOCAL_PORT), FrpRemote(spec), GetOr(spec, BIND_PORT, Num(7000));
            var restored, reset, reapplied :=
              FrpHalves(spec, ip, kind), FrpReset(spec, ip, kind), FrpReapplied(spec, ip, kind);
            && restored.Halves? && reset.Halves?
            && FrpPorts(restored.client) ==
                 (if Truthy(local) || Truthy(remote) then Some([Pair(Or(local, remote), Or(remote, local))]) else None)
            && FrpPorts(reset.client) ==
                 (if Truthy(local) || Truthy(bind) then Some([Pair(Or(local, bind), Or(remote, Or(local, bind)))])
                  else if Truthy(remote) then Some([Pair(remote, remote)]) else None)
            && (reapplied.Halves? <==> IsPort(remote) && IsPort(local))
            && (reapplied.Halves? ==>
                  FrpPorts(reapplied.client) ==
                  if Truthy(local) || Truthy(remote)
                  then Some([Pair(Num(PortNumber(Or(local, remote)).value), Num(PortNumber(Or(remote, local)).value))])
                  else None)
  {
    hide Lower, PortNumber, Show;
  }

  /** The list of an unlisted tunnel. */
  function OnePair(id: string, host: Json, local: Json, remote: Json): seq<Proxy> {
    [Proxy(id, Show(host), Show(local), Show(remote))]
  }

  /** What a client's half is configured to expose. */
  function Exposed(id: string, client: Spec): seq<Proxy>
    requires FrpPorts(client).Some?
  {
    Proxies(id, Show(GetOr(client, LOCAL_IP, Str("127.0.0.1"))), FrpPorts(client).value)
  }

  lemma ExposedPair(id: string, client: Spec, local: Json, remote: Json)
    requires FrpPorts(client) == Some([Pair(local, remote)])
    ensures Exposed(id, client) == OnePair(id, GetOr(client, LOCAL_IP, Str("127.0.0.1")), local, remote)
  {
    hide Show, FrpPorts;
  }

  /** The local host of the restored and re-applied clients, and that of the reset one. */
  function FrpHost(spec: Spec): Json {
    GetOr(spec, LOCAL_IP, Str("127.0.0.1"))
  }

  function FrpResetHost(spec: Spec, ip: string): Json {
    Or(Get(spec, LOCAL_IP), Str(ip))
  }

  lemma LocalHosts(spec: Spec, ip: string, kind: string)
    requires ip != ""
    ensures var host := Str("127.0.0.1");
            && FrpHalves(spec, ip, kind).Halves? && FrpReset(spec, ip, kind).Halves?
            && GetOr(FrpHalves(spec, ip, kind).client, LOCAL_IP, host) == FrpHost(spec)
            && GetOr(FrpReset(spec, ip, kind).client, LOCAL_IP, host) == FrpResetHost(spec, ip)
            && (FrpReapplied(spec, ip, kind).Halves? ==>
                  GetOr(FrpReapplied(spec, ip, kind).client, LOCAL_IP, host) == FrpHost(spec))
  {
    hide Lower, PortNumber, Truthy, FrpRemote, IsPort, Pair;
  }

  /** Resetting keeps the local host: a local IP is stated, or the Iran address is the host that a spec
      without one has, the loopback unless an empty one is spelt out. */
  predicate SameHost(spec: Spec, ip: string) {
    Truthy(Get(spec, LOCAL_IP)) || ip == Show(GetOr(spec, LOCAL_IP, Str("127.0.0.1")))
  }

  lemma HostsAgree(spec: Spec, ip: string)
    ensures Show(FrpResetHost(spec, ip)) == Show(FrpHost(spec)) <==> SameHost(spec, ip)
  {
  }

  /** The port lists of the three clients of a tunnel that has one. */
  lemma FrpListedPorts(spec: Spec, ip: string, kind: string)
    requires ip != "" && Truthy(Get(spec, PORTS))
    ensures var restored, reset, reapplied :=
              FrpHalves(spec, ip, kind), FrpReset(spec, ip, kind), FrpReapplied(spec, ip, kind);
            && restored.Halves? && reset.Halves? && reapplied == restored
            && FrpPorts(restored.client) == FrpPorts(reset.client) == Items(Get(spec, PORTS))
  {
    hide Lower, PortNumber, Show, Items;
  }

  lemma HostsDecide(id: string, a: string, b: string, ports: seq<Json>)
    requires ports != []
    ensures Proxies(id, a, ports) == Proxies(id, b, ports) <==> a == b
  {
    if Proxies(id, a, ports) == Proxies(id, b, ports) {
      assert Proxies(id, a, ports)[0].host == a && Proxies(id, b, ports)[0].host == b;
    }
    hide Show;
  }

  /** With a port list, for every spec: re-applying changes nothing, and resetting moves every listed
      proxy to the Iran address, unless a local IP is stated, or that address is the loopback. */
  lemma FrpListsCompared(id: string, spec: Spec, ip: string, kind: string)
    requires ip != "" && Truthy(Get(spec, PORTS))
    ensures var restored, reset, reapplied :=
              FrpHalves(spec, ip, kind), FrpReset(spec, ip, kind), FrpReapplied(spec, ip, kind);
            && restored.Halves? && reset.Halves? && reapplied == restored
            && (FrpPorts(restored.client).Some? <==> FrpPorts(reset.client).Some?)
            && (FrpPorts(restored.client).Some? ==>
                  (Exposed(id, reset.client) == Exposed(id, restored.client) <==> SameHost(spec, ip)))
  {
    FrpListedPorts(spec, ip, kind);
    LocalHosts(spec, ip, kind);
    HostsAgree(spec, ip);
    var ports := Items(Get(spec, PORTS));
    hide FrpHalves, FrpReset, FrpReapplied, FrpPorts, Proxies, FrpHost, FrpResetHost, Show, SameHost;
    if ports.Some? {
      assert ports.value != [];
      HostsDecide(id, Show(FrpResetHost(spec, ip)), Show(FrpHost(spec)), ports.value);
    }
  }

  /** Printing the number a port value stands for gives the value back. */
  predicate Canonical(port: Json) {
    PortNumber(port).Some? && Show(port) == Decimal(PortNumber(port).value)
  }

  /** What each client of a tunnel without a port list exposes, for every spec. */
  lemma FrpSingleProxies(id: string, spec: Spec, ip: string, kind: string)
    requires ip != "" && !Truthy(Get(spec, PORTS))
    ensures var restored, reset, reapplied :=
              FrpHalves(spec, ip, kind), FrpReset(spec, ip, kind), FrpReapplied(spec, ip, kind);
            var local, remote, bind := Get(spec, LOCAL_PORT), FrpRemote(spec), GetOr(spec, BIND_PORT, Num(7000));
            && restored.Halves? && reset.Halves? && (reapplied.Halves? <==> IsPort(remote) && IsPort(local))
            && (FrpPorts(restored.client).Some? <==> Truthy(local) || Truthy(remote))
            && (FrpPorts(restored.client).Some? ==>
                  Exposed(id, restored.client) == OnePair(id, FrpHost(spec), Or(local, remote), Or(remote, local)))
            && (FrpPorts(reset.client).Some? <==> Truthy(local) || Truthy(remote) || Truthy(bind))
            && (FrpPorts(reset.client).Some? ==>
                  Exposed(id, reset.client) ==
                  OnePair(id, FrpResetHost(spec, ip), Or(local, Or(bind, remote)), Or(remote, Or(local, bind))))
            && (reapplied.Halves? ==>
                  && (FrpPorts(reapplied.client).Some? <==> Truthy(local) || Truthy(remote))
                  && (FrpPorts(reapplied.client).Some? ==>
                        Exposed(id, reapplied.client) ==
                        OnePair(id, FrpHost(spec), Num(PortNumber(Or(local, remote)).value),
                                Num(PortNumber(Or(remote, local)).value))))
  {
    FrpSinglePorts(spec, ip, kind);
    LocalHosts(spec, ip, kind);
    var restored, reset, reapplied :=
      FrpHalves(spec, ip, kind), FrpReset(spec, ip, kind), FrpReapplied(spec, ip, kind);
    var local, remote, bind := Get(spec, LOCAL_PORT), FrpRemote(spec), GetOr(spec, BIND_PORT, Num(7000));
    hide FrpHalves, FrpReset, FrpReapplied, FrpPorts, Exposed, FrpRemote, Pair, GetOr, PortNumber, Get;
    hide FrpHost, FrpResetHost, OnePair;
    if Truthy(local) || Truthy(remote) {
      ExposedPair(id, restored.client, Or(local, remote), Or(remote, local));
      if reapplied.Halves? {
        ExposedPair(id, reapplied.client, Num(PortNumber(Or(local, remote)).value),
                    Num(PortNumber(Or(remote, local)).value));
      }
    }
    if Truthy(local) || Truthy(bind) {
      ExposedPair(id, reset.client, Or(local, bind), Or(remote, Or(local, bind)));
    } else if Truthy(remote) {
      ExposedPair(id, reset.client, remote, remote);
    }
  }

  /** Without a port list, for every spec: what restoring exposes, if anything, resetting exposes too
      exactly when the local hosts agree and the local port is stated, or the bind port it defaults to
      is the remote port; and re-applying exactly when the ports are printed as the numerals they are.
      What restoring does not expose at all, resetting exposes where there is a bind port. */
  lemma FrpProxiesCompared(id: string, spec: Spec, ip: string, kind: string)
    requires ip != "" && !Truthy(Get(spec, PORTS))
    ensures var restored, reset, reapplied :=
              FrpHalves(spec, ip, kind), FrpReset(spec, ip, kind), FrpReapplied(spec, ip, kind);
            var local, remote, bind := Get(spec, LOCAL_PORT), FrpRemote(spec), GetOr(spec, BIND_PORT, Num(7000));
            && restored.Halves? && reset.Halves?
            && (FrpPorts(restored.client).Some? <==> Truthy(local) || Truthy(remote))
            && (FrpPorts(reset.client).Some? <==> Truthy(local) || Truthy(remote) || Truthy(bind))
            && (FrpPorts(restored.client).Some? ==>
                  (Exposed(id, reset.client) == Exposed(id, restored.client) <==>
                     SameHost(spec, ip) && (Truthy(local) || !Truthy(bind) || Show(bind) == Show(remote))))
            && (reapplied.Halves? <==> IsPort(remote) && IsPort(local))
            && (reapplied.Halves? ==>
                  && (FrpPorts(reapplied.client).Some? <==> FrpPorts(restored.client).Some?)
                  && (FrpPorts(restored.client).Some? ==>
                        (Exposed(id, reapplied.client) == Exposed(id, restored.client) <==>
                           Canonical(Or(local, remote)) && Canonical(Or(remote, local)))))
  {
    var local, remote, bind := Get(spec, LOCAL_PORT), FrpRemote(spec), GetOr(spec, BIND_PORT, Num(7000));
    hide FrpHalves, FrpReset, FrpReapplied, FrpPorts, Exposed, Decimal, FrpRemote, GetOr, PortNumber, Get;
    hide FrpHost, FrpResetHost, Show, SameHost;
    HostsAgree(spec, ip);
    FrpSingleProxies(id, spec, ip, kind);
    PairsCompared(id, FrpHost(spec), FrpResetHost(spec, ip), Or(local, remote), Or(remote, local),
                  Or(local, Or(bind, remote)), Or(remote, Or(local, bind)));
    if IsPort(local) && IsPort(remote) && (Truthy(local) || Truthy(remote)) {
      PairsCompared(id, FrpHost(spec), FrpHost(spec), Or(local, remote), Or(remote, local),
                    Num(PortNumber(Or(local, remote)).value), Num(PortNumber(Or(remote, local)).value));
      ShowNumber(PortNumber(Or(local, remote)).value);
      ShowNumber(PortNumber(Or(remote, local)).value);
    }
    hide OnePair;
  }

  lemma PairsCompared(id: string, host1: Json, host2: Json, local1: Json, remote1: Json, local2: Json, remote2: Json)
    ensures OnePair(id, host2, local2, remote2) == OnePair(id, host1, local1, remote1) <==>
              Show(host2) == Show(host1) && Show(local2) == Show(local1) && Show(remote2) == Show(remote1)
  {
    hide Show;
    if OnePair(id, host2, local2, remote2) == OnePair(id, host1, local1, remote1) {
      assert OnePair(id, host2, local2, remote2)[0] == OnePair(id, host1, local1, remote1)[0];
    }
  }

  lemma ShowNumber(n: nat)
    ensures Show(Num(n)) == Decimal(n)
  {
  }
}
