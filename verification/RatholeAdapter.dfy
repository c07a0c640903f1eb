/** What the rathole adapter makes of the halves the panel sends, and that the two ends meet. */
module RatholeAdapter {
  import opened Wrappers
  import opened Text
  import opened Address
  import opened Specs
  import opened Dialling

  // ---------- configurations ----------

  datatype Service = Service(name: string, port: string)

  datatype RatholeConfig =
    | RatholeServer(bind: string, token: string, websocket: bool, tls: bool, services: seq<Service>)
    | RatholeClient(remote: string, token: string, websocket: bool, tls: bool, services: seq<Service>)

  function Services(id: string, ports: seq<Json>): seq<Service> {
    seq(|ports|, i requires 0 <= i < |ports| => Service(ServiceName(id, |ports|, i), PortText(ports[i])))
  }

  /** The adapters' loop over the ports. */
  method DeclareServices(id: string, ports: seq<Json>) returns (services: seq<Service>)
    ensures services == Services(id, ports)
  {
    services := [];
    for i := 0 to |ports|
      invariant services == Services(id, ports)[..i]
    {
      var name := id;
      if |ports| > 1 {
        name := id + "_" + Decimal(i);
      }
      services := services + [Service(name, PortText(ports[i]))];
    }
  }

  /** No two services of a tunnel share a name. */
  lemma ServicesDistinct(id: string, ports: seq<Json>, i: nat, j: nat)
    requires i < j < |ports|
    ensures Services(id, ports)[i].name != Services(id, ports)[j].name
  {
    ServiceNamesDistinct(id, |ports|, i, j);
  }

  function ServerPorts(spec: Spec): Option<seq<Json>> {
    var proxy := Or(Or(Get(spec, PROXY_PORT), Get(spec, REMOTE_PORT)), Get(spec, LISTEN_PORT));
    if Truthy(Get(spec, PORTS)) then Items(Get(spec, PORTS))
    else if Truthy(proxy) then Some([proxy])
    else None
  }

  function ClientPorts(spec: Spec): Option<seq<Json>> {
    var local := GetOr(spec, LOCAL_ADDR, Str("127.0.0.1:8080"));
    if Truthy(Get(spec, PORTS)) then Items(Get(spec, PORTS))
    else if Truthy(local) && !local.Str? then None
    else Some([Num(if StatedPort(local) != 0 then StatedPort(local) else 8080)])
  }

  /** The configuration written for the tunnel's process, or none when the adapter raises. */
  function RatholeApply(id: string, spec: Spec): Option<RatholeConfig> {
    if GetOr(spec, MODE, Str("client")) == Str("server") then ServeRathole(id, spec) else DialRathole(id, spec)
  }

  function ServeRathole(id: string, spec: Spec): Option<RatholeConfig> {
    var transport, bind := Transport(spec), GetOr(spec, BIND_ADDR, Str("0.0.0.0:23333"));
    var token, ports := SolidText(spec, TOKEN), ServerPorts(spec);
    if !transport.Str? || token == None || ports == None || (Truthy(bind) && !bind.Str?) then None
    else
      var port := StatedPort(bind);
      Some(RatholeServer(
        if port != 0 then ParseAddressPort(bind.s).host + ":" + Decimal(port) else "0.0.0.0:23333",
        token.value, IsWebsocket(transport.s), IsWebsocket(transport.s) && WantsTls(spec), Services(id, ports.value)))
  }

  function DialRathole(id: string, spec: Spec): Option<RatholeConfig> {
    var transport, remote := Transport(spec), SolidText(spec, REMOTE_ADDR);
    var token, ports := SolidText(spec, TOKEN), ClientPorts(spec);
    if !transport.Str? || token == None || ports == None || remote == None then None
    else
      Some(RatholeClient(
        StripScheme(remote.value), token.value, IsWebsocket(transport.s),
        IsWebsocket(transport.s) && (SaysTls(remote.value) || WantsTls(spec)), Services(id, ports.value)))
  }

  /** The rathole adapter's `apply` up to the start of the process. */
  method ConfigureRathole(id: string, spec: Spec) returns (config: Option<RatholeConfig>)
    ensures config == RatholeApply(id, spec)
  {
    hide Services, IsWebsocket, WantsTls, Strip, StripScheme, SaysTls, ParseAddressPort, Decimal, IsNumeral;
    var transport := Or(Or(Get(spec, TRANSPORT), Get(spec, TYPE)), Str("tcp"));
    if !transport.Str? {
      return None;
    }
    var websocket, tls := IsWebsocket(transport.s), WantsTls(spec);
    var token := GetOr(spec, TOKEN, Str(""));
    var ports := Get(spec, PORTS);
    if GetOr(spec, MODE, Str("client")) == Str("server") {
      var bind := GetOr(spec, BIND_ADDR, Str("0.0.0.0:23333"));
      if !Truthy(ports) {
        var proxy := Or(Or(Get(spec, PROXY_PORT), Get(spec, REMOTE_PORT)), Get(spec, LISTEN_PORT));
        ports := if Truthy(proxy) then Arr([proxy]) else Null;
      }
      if !token.Str? || Strip(token.s) == "" || (Truthy(bind) && !bind.Str?) || Items(ports) == None {
        return None;
      }
      assert Items(ports) == ServerPorts(spec);
      var address := "0.0.0.0:23333";
      if StatedPort(bind) != 0 {
        address := ParseAddressPort(bind.s).host + ":" + Decimal(StatedPort(bind));
      }
      var services := DeclareServices(id, Items(ports).value);
      config := Some(RatholeServer(address, Strip(token.s), websocket, websocket && tls, services));
    } else {
      var remote := GetOr(spec, REMOTE_ADDR, Str(""));
      if !Truthy(ports) {
        var local := GetOr(spec, LOCAL_ADDR, Str("127.0.0.1:8080"));
        if Truthy(local) && !local.Str? {
          return None;
        }
        ports := Arr([Num(if StatedPort(local) != 0 then StatedPort(local) else 8080)]);
      }
      if !token.Str? || Strip(token.s) == "" || !remote.Str? || Strip(remote.s) == "" || Items(ports) == None {
        return None;
      }
      assert Items(ports) == ClientPorts(spec);
      if SaysTls(Strip(remote.s)) {
        tls := true;
      }
      var services := DeclareServices(id, Items(ports).value);
      var address := StripScheme(Strip(remote.s));
      config := Some(RatholeClient(address, Strip(token.s), websocket, websocket && tls, services));
    }
  }

  // ---------- the two ends meet ----------

  /** What either derivation gives a pair of rathole halves. */
  predicate RatholePair(server: Spec, client: Spec, ip: string, control: nat) {
    && control != 0
    && Get(server, MODE) == Str("server") && Get(client, MODE) == Str("client")
    && Get(server, BIND_ADDR) == Str("0.0.0.0:" + Decimal(control))
    && Transport(server).Str? && Transport(client) == Transport(server)
    && Get(client, REMOTE_ADDR) ==
         Str(Scheme(IsWebsocket(Transport(server).s), WantsTls(server)) + ip + ":" + Decimal(control))
    && WantsTls(client) == WantsTls(server)
    && Truthy(Get(server, TOKEN)) && Get(client, TOKEN) == Get(server, TOKEN)
    && Truthy(Get(server, PROXY_PORT))
    && Get(client, PORTS) == Get(server, PORTS)
  }

  /** The fields of a restored or reset server's half. */
  lemma ServerHalf(spec: Spec, control: nat)
    requires Truthy(Get(spec, TOKEN)) && Truthy(RatholeProxy(spec))
    ensures var h := RatholeServerHalf(spec, control);
            && Get(h, MODE) == Str("server") && Get(h, BIND_ADDR) == Str("0.0.0.0:" + Decimal(control))
            && Get(h, PROXY_PORT) == RatholeProxy(spec)
            && Get(h, TOKEN) == Get(spec, TOKEN) && Get(h, PORTS) == Get(spec, PORTS)
            && Transport(h) == Transport(spec) && WantsTls(h) == WantsTls(spec)
  {
    hide Decimal, RatholeProxy;
    TransportKept(spec, RatholeServerHalf(spec, control));
    hide Transport;
  }

  /** The fields of a restored or reset client's half. */
  lemma ClientHalf(spec: Spec, ip: string, control: nat)
    requires Truthy(Get(spec, TOKEN)) && Transport(spec).Str?
    ensures var server := RatholeServerHalf(spec, control); var h := RatholeClientHalf(spec, ip, control, server);
            && Get(h, MODE) == Str("client")
            && Get(h, REMOTE_ADDR) == Str(Scheme(IsWebsocket(Transport(spec).s), WantsTls(server))
                                          + ip + ":" + Decimal(control))
            && Get(h, LOCAL_ADDR) == Or(Get(spec, LOCAL_ADDR), Str(ip + ":" + Show(RatholeProxy(spec))))
            && Get(h, TOKEN) == Get(spec, TOKEN) && Get(h, PORTS) == Get(spec, PORTS)
            && Transport(h) == Transport(spec)
  {
    hide Decimal, RatholeProxy, Scheme, IsWebsocket, WantsTls, Show, RatholeServerHalf;
    TransportKept(spec, RatholeClientHalf(spec, ip, control, RatholeServerHalf(spec, control)));
    hide Transport, Truthy, Or;
  }

  lemma ClientTls(spec: Spec, ip: string, control: nat)
    requires Transport(spec).Str?
    ensures WantsTls(RatholeClientHalf(spec, ip, control, RatholeServerHalf(spec, control))) == WantsTls(spec)
  {
    hide Decimal, RatholeProxy, Scheme, IsWebsocket, Show, Transport;
  }

  lemma RatholeRestoredPair(spec: Spec, ip: string, fallback: nat)
    requires RatholeHalves(spec, ip, fallback).Halves? && fallback > 0
    ensures var d := RatholeHalves(spec, ip, fallback);
            RatholePair(d.server, d.client, ip, RatholeControl(spec, fallback))
  {
    var control := RatholeControl(spec, fallback);
    ServerHalf(spec, control);
    ClientHalf(spec, ip, control);
    ClientTls(spec, ip, control);
    hide RatholeServerHalf, RatholeClientHalf, Decimal, StatedPort, Scheme, IsWebsocket, WantsTls;
    hide Transport, Or, Truthy, RatholeProxy, Get, GetOr, RatholeAddress;
  }

  lemma RatholeReappliedPair(spec: Spec, ip: string, hash: nat)
    requires RatholeReapplied(spec, ip, hash).Halves?
    ensures var d := RatholeReapplied(spec, ip, hash);
            RatholePair(d.server, d.client, ip, RatholeControl(spec, 23333 + hash % 1000))
  {
    hide Decimal, StatedPort, Lower, Scheme, IsWebsocket, Show;
  }

  /** The server adapter binds the port it is told. */
  lemma BoundPort(control: nat)
    requires control != 0
    ensures var bind := "0.0.0.0:" + Decimal(control);
            && DialPort(bind) == Some(control) && StatedPort(Str(bind)) == control
            && ParseAddressPort(bind).host == "0.0.0.0"
  {
    hide IsIPv6, Value, ParseAddressPort, IsNumeral, Decimal;
    var d := Decimal(control);
    var s := "0.0.0.0:" + d;
    assert s == "0.0.0.0" + ":" + d;
    JoinedPortAt("0.0.0.0", d);
    OneColonNotIPv6("0.0.0.0", d);
    PlainHostEndpoint("0.0.0.0", d);
    DecimalValue(control);
  }

  /** A scheme of the panel's is seen by the client adapter, and says TLS exactly for `wss`. */
  lemma SchemeSeen(tls: bool, rest: string)
    requires rest != "" && !IsSpace(rest[|rest| - 1])
    ensures var s := Scheme(true, tls) + rest; Strip(s) == s && SaysTls(s) == tls
  {
    var s := Scheme(true, tls) + rest;
    assert s[0] == 'w' && s[|s| - 1] == rest[|rest| - 1];
    SolidEnds(s);
    if tls {
      assert s[..6] == "wss://";
    } else {
      assert s[2] == ':';
      assert |s| >= 6 ==> s[..6][2] == s[2];
    }
  }

  lemma TlsSeen(tls: bool, ip: string, numeral: string)
    requires IsNumeral(numeral)
    ensures SaysTls(Strip(Scheme(true, tls) + ip + ":" + numeral)) == tls
  {
    hide IsNumeral, SaysTls, Strip, Scheme;
    LastDigit(numeral);
    var rest := ip + ":" + numeral;
    assert rest[|rest| - 1] == numeral[|numeral| - 1];
    SchemeSeen(tls, rest);
    assert Scheme(true, tls) + ip + ":" + numeral == Scheme(true, tls) + rest;
  }

  /** The same names, in the same order, pairwise distinct. */
  predicate SameServices(a: seq<Service>, b: seq<Service>) {
    && |a| == |b|
    && (forall i | 0 <= i < |a| :: a[i].name == b[i].name)
    && (forall i, j | 0 <= i < j < |a| :: a[i].name != a[j].name)
  }

  lemma ServicesPaired(id: string, a: seq<Json>, b: seq<Json>)
    requires |a| == |b|
    ensures SameServices(Services(id, a), Services(id, b))
  {
    forall i, j | 0 <= i < j < |a| ensures Services(id, a)[i].name != Services(id, a)[j].name {
      ServicesDistinct(id, a, i, j);
    }
  }

  /** The configuration the server's half leads to. */
  lemma ServeRatholeIs(id: string, server: Spec, client: Spec, ip: string, control: nat)
    requires RatholePair(server, client, ip, control)
    ensures ServerPorts(server).Some? <==> PortsUsable(Get(server, PORTS))
    ensures var token, ports := SolidText(server, TOKEN), ServerPorts(server);
            var websocket := IsWebsocket(Transport(server).s);
            RatholeApply(id, server) ==
            if token == None || ports == None then None
            else Some(RatholeServer("0.0.0.0:" + Decimal(control), token.value, websocket,
                                    websocket && WantsTls(server), Services(id, ports.value)))
  {
    hide StatedPort, Decimal, WantsTls, IsWebsocket, Services, Transport, Items, SolidText, ParseAddressPort, Scheme;
    BoundPort(control);
    assert "0.0.0.0" + ":" + Decimal(control) == "0.0.0.0:" + Decimal(control);
  }

  /** The address in the client's half. */
  function Remote(server: Spec, ip: string, control: nat): string
    requires Transport(server).Str?
  {
    Scheme(IsWebsocket(Transport(server).s), WantsTls(server)) + ip + ":" + Decimal(control)
  }

  /** The configuration the client's half leads to. */
  lemma DialRatholeIs(id: string, server: Spec, client: Spec, ip: string, control: nat)
    requires RatholePair(server, client, ip, control)
    ensures ClientPorts(client).Some? <==>
              PortsUsable(Get(server, PORTS)) && (Truthy(Get(server, PORTS)) || AddressUsable(Get(client, LOCAL_ADDR)))
    ensures var token, ports := SolidText(server, TOKEN), ClientPorts(client);
            var websocket := IsWebsocket(Transport(server).s);
            RatholeApply(id, client) ==
            if token == None || ports == None then None
            else Some(RatholeClient(StripScheme(Strip(Remote(server, ip, control))), token.value, websocket,
                                    websocket && WantsTls(server), Services(id, ports.value)))
  {
    RemoteText(server, client, ip, control);
    DialMode(id, server, client, ip, control);
    hide StatedPort, Decimal, WantsTls, IsWebsocket, Services, Transport, Items, SolidText, StripScheme, Strip, Scheme;
    hide SaysTls, Remote, RatholeApply;
  }

  lemma DialMode(id: string, server: Spec, client: Spec, ip: string, control: nat)
    requires RatholePair(server, client, ip, control)
    ensures RatholeApply(id, client) == DialRathole(id, client)
  {
    hide DialRathole, ServeRathole, Transport, WantsTls, Decimal, Scheme;
  }

  /** The address is not blank, and says TLS just when the server wants it. */
  lemma RemoteSaysTls(server: Spec, ip: string, control: nat)
    requires Transport(server).Str?
    ensures Strip(Remote(server, ip, control)) != ""
    ensures IsWebsocket(Transport(server).s) ==> SaysTls(Strip(Remote(server, ip, control))) == WantsTls(server)
  {
    var websocket, tls := IsWebsocket(Transport(server).s), WantsTls(server);
    hide WantsTls, IsWebsocket, Transport, Strip, SaysTls, Decimal, DialPort, StripScheme, Value, IsIPv6, PlainHost;
    SchemeCases(websocket, tls);
    DialledAddress(Scheme(websocket, tls), ip, Decimal(control));
    if websocket {
      TlsSeen(tls, ip, Decimal(control));
    }
  }

  /** What the client adapter reads of its half's address, token and scheme. */
  lemma RemoteText(server: Spec, client: Spec, ip: string, control: nat)
    requires RatholePair(server, client, ip, control)
    ensures var remote := Strip(Remote(server, ip, control));
            && SolidText(client, REMOTE_ADDR) == Some(remote)
            && SolidText(client, TOKEN) == SolidText(server, TOKEN)
            && (IsWebsocket(Transport(server).s) ==> SaysTls(remote) == WantsTls(server))
  {
    RemoteSaysTls(server, ip, control);
    hide Decimal, WantsTls, IsWebsocket, Transport, Strip, Scheme, SaysTls;
  }

  /** Both rathole ends, for any derivation: when each configures its process, they agree on
      transport, TLS, token and services, and meet on the control port unless the dialled address
      runs together into an IPv6 address. */
  lemma RatholeMeets(id: string, server: Spec, client: Spec, ip: string, control: nat)
    requires RatholePair(server, client, ip, control)
    ensures RatholeApply(id, server).Some? <==> SolidText(server, TOKEN).Some? && PortsUsable(Get(server, PORTS))
    ensures RatholeApply(id, client).Some? <==>
              SolidText(server, TOKEN).Some? && PortsUsable(Get(server, PORTS))
              && (Truthy(Get(server, PORTS)) || AddressUsable(Get(client, LOCAL_ADDR)))
    ensures RatholeApply(id, server).Some? && RatholeApply(id, client).Some? ==>
              var s, c := RatholeApply(id, server).value, RatholeApply(id, client).value;
              && s.RatholeServer? && c.RatholeClient?
              && s.bind == "0.0.0.0:" + Decimal(control) && DialPort(s.bind) == Some(control)
              && (DialPort(c.remote) == Some(control) <==> !IsIPv6(Strip(c.remote)))
              && (PlainHost(ip) ==> c.remote == ip + ":" + Decimal(control))
              && c.websocket == s.websocket && c.tls == s.tls && c.token == s.token
              && SameServices(s.services, c.services)
              && (Truthy(Get(server, PORTS)) ==> s.services == c.services)
  {
    ServeRatholeIs(id, server, client, ip, control);
    DialRatholeIs(id, server, client, ip, control);
    SchemeCases(IsWebsocket(Transport(server).s), WantsTls(server));
    BoundPort(control);
    DecimalValue(control);
    DialledAddress(Scheme(IsWebsocket(Transport(server).s), WantsTls(server)), ip, Decimal(control));
    if ServerPorts(server).Some? && ClientPorts(client).Some? {
      PortCounts(server, client, ip, control);
      ServicesPaired(id, ServerPorts(server).value, ClientPorts(client).value);
    }
    hide RatholeApply, ServerPorts, ClientPorts, SolidText, Decimal, Value, IsIPv6, DialPort, StripScheme, Strip;
    hide PlainHost, IsNumeral, Scheme, IsWebsocket, WantsTls, Transport, PortsUsable, AddressUsable, Services;
    hide SameServices, Truthy, Get, RatholePair, ParseAddressPort, StatedPort;
  }

  /** Both sides list as many ports, and the same ones when a list is given. */
  lemma PortCounts(server: Spec, client: Spec, ip: string, control: nat)
    requires RatholePair(server, client, ip, control)
    requires ServerPorts(server).Some? && ClientPorts(client).Some?
    ensures |ServerPorts(server).value| == |ClientPorts(client).value|
    ensures Truthy(Get(server, PORTS)) ==> ServerPorts(server) == ClientPorts(client)
  {
    hide StatedPort, Decimal, WantsTls, IsWebsocket, Transport, Items, Scheme;
  }

  /** Restoring, resetting (`fallback` 23333) and re-applying (`23333 + hash % 1000`) all give such a
      pair; a plain host without a colon, or a zone-free IPv6 literal at a port of five digits, is always met. */
  lemma RatholeAlwaysMeets(id: string, spec: Spec, ip: string, fallback: nat, hash: nat, d: Derivation)
    requires fallback > 0 && d.Halves?
    requires d == RatholeHalves(spec, ip, fallback)
          || (d == RatholeReapplied(spec, ip, hash) && fallback == 23333 + hash % 1000)
    requires RatholeApply(id, d.server).Some? && RatholeApply(id, d.client).Some?
    requires PlainHost(ip)
    ensures var s, c := RatholeApply(id, d.server).value, RatholeApply(id, d.client).value;
            var control := RatholeControl(spec, fallback);
            && s.RatholeServer? && c.RatholeClient? && DialPort(s.bind) == Some(control)
            && (DialPort(c.remote) == Some(control) <==> !IsIPv6(ip + ":" + Decimal(control)))
            && (':' !in ip ==> DialPort(c.remote) == Some(control))
            && (IsIPv6(ip) ==>
                  (DialPort(c.remote) == Some(control) <==>
                     !HasZone(ip) && (HasRoomForGroup(ip) ==> control >= 10000)))
  {
    hide RatholeHalves, RatholeReapplied, RatholeApply, RatholePair, RatholeControl;
    hide IsIPv6, HasZone, HasRoomForGroup, PlainHost, Strip, IsNumeral, DialPort, Decimal;
    var control := RatholeControl(spec, fallback);
    if d == RatholeHalves(spec, ip, fallback) {
      RatholeRestoredPair(spec, ip, fallback);
    } else {
      RatholeReappliedPair(spec, ip, hash);
    }
    RatholeMeets(id, d.server, d.client, ip, control);
    RunTogether(ip, Decimal(control));
    DecimalLength(control);
  }

  // ---------- a single service ----------

  /** Where the client leads a tunnel without a port list, given its local address. */
  function LocalTarget(address: Json): nat {
    if StatedPort(address) != 0 then StatedPort(address) else 8080
  }

  lemma SingleService(id: string, a: Json, m: nat, n: nat)
    requires PortText(a) == Decimal(m)
    ensures Services(id, [Num(n)]) == Services(id, [a]) <==> m == n
  {
    hide Decimal;
    if m != n {
      assert Services(id, [Num(n)])[0].port == Decimal(n) && Services(id, [a])[0].port == Decimal(m);
      if Decimal(n) == Decimal(m) {
        DecimalInjective(n, m);
      }
    } else {
      assert Services(id, [Num(n)]) == Services(id, [a]);
    }
  }

  /** The adapter's own default local address. */
  lemma DefaultTarget()
    ensures LocalTarget(Str("127.0.0.1:8080")) == 8080
  {
    hide IsIPv6, Strip, ParseAddressPort;
    assert "127.0.0.1:8080" == "127.0.0.1" + ":" + "8080";
    StatedAfterHost("127.0.0.1", "8080");
    assert "8080"[..3] == "808" && "808"[..2] == "80" && "80"[..1] == "8";
    assert Value("80") == 80 && Value("808") == 808 && Value("8080") == 8080;
  }

  /** What restoring leaves the two adapters of a tunnel without a port list. */
  lemma RestoredSingle(spec: Spec, ip: string, fallback: nat)
    requires RatholeHalves(spec, ip, fallback).Halves?
    ensures var d, stated := RatholeHalves(spec, ip, fallback), Get(spec, LOCAL_ADDR);
            && Truthy(RatholeProxy(spec)) && Get(d.server, PROXY_PORT) == RatholeProxy(spec)
            && Get(d.server, PORTS) == Get(spec, PORTS) && Get(d.client, PORTS) == Get(spec, PORTS)
            && forall default :: GetOr(d.client, LOCAL_ADDR, default) ==
                 if Truthy(stated) then stated else Str(ip + ":" + Show(RatholeProxy(spec)))
  {
    ServerHalf(spec, RatholeControl(spec, fallback));
    ClientHalf(spec, ip, RatholeControl(spec, fallback));
    NotNull(Get(spec, LOCAL_ADDR));
    hide RatholeServerHalf, RatholeClientHalf, Decimal, Scheme, IsWebsocket, WantsTls, StatedPort;
    hide RatholeControl, Show, Transport, RatholeProxy, RatholeAddress, Truthy;
  }

  lemma NotNull(j: Json)
    ensures Truthy(j) ==> j != Null
  {
  }

  lemma ReappliedSingle(spec: Spec, ip: string, hash: nat)
    requires RatholeReapplied(spec, ip, hash).Halves?
    ensures var d := RatholeReapplied(spec, ip, hash);
            && Truthy(RatholeProxy(spec)) && Get(d.server, PROXY_PORT) == RatholeProxy(spec)
            && Get(d.server, PORTS) == Get(spec, PORTS) && Get(d.client, PORTS) == Get(spec, PORTS)
            && forall default :: GetOr(d.client, LOCAL_ADDR, default) == GetOr(spec, LOCAL_ADDR, default)
  {
    hide StatedPort, Decimal, Scheme, IsWebsocket, WantsTls, RatholeControl, Transport, RatholeProxy, Truthy;
  }

  /** What the derivations leave the two adapters of a tunnel without a port list. */
  lemma SinglePorts(spec: Spec, ip: string, fallback: nat, hash: nat, reapplied: bool, d: Derivation)
    requires d == if reapplied then RatholeReapplied(spec, ip, hash) else RatholeHalves(spec, ip, fallback)
    requires d.Halves? && !Truthy(Get(spec, PORTS))
    ensures ServerPorts(d.server) == Some([RatholeProxy(spec)])
    ensures ClientPorts(d.client).Some? <==> AddressUsable(Get(spec, LOCAL_ADDR))
    ensures ClientPorts(d.client).Some? ==>
              ClientPorts(d.client) == Some([Num(
                if Truthy(Get(spec, LOCAL_ADDR)) then LocalTarget(Get(spec, LOCAL_ADDR))
                else if reapplied then 8080
                else LocalTarget(Str(ip + ":" + Show(RatholeProxy(spec)))))])
  {
    if reapplied {
      ReappliedSingle(spec, ip, hash);
    } else {
      RestoredSingle(spec, ip, fallback);
    }
    hide RatholeHalves, RatholeReapplied;
    ServedSingle(d.server, RatholeProxy(spec));
    DialledSingle(d.client);
    DefaultTarget();
    hide RatholeProxy, StatedPort, Show, ServerPorts, ClientPorts;
  }

  lemma ServedSingle(server: Spec, proxy: Json)
    requires !Truthy(Get(server, PORTS)) && Truthy(proxy) && Get(server, PROXY_PORT) == proxy
    ensures ServerPorts(server) == Some([proxy])
  {
  }

  /** A client without a port list leads to its local address. */
  lemma DialledSingle(client: Spec)
    requires !Truthy(Get(client, PORTS))
    ensures var local := GetOr(client, LOCAL_ADDR, Str("127.0.0.1:8080"));
            ClientPorts(client) == if AddressUsable(local) then Some([Num(LocalTarget(local))]) else None
    ensures forall address :: !Truthy(address) ==> LocalTarget(address) == 8080
  {
  }

  /** A tunnel without a port list: its one service leads to the proxied port on both sides exactly
      when the stated local address, if any, names that port; if none is stated, the client of a
      re-applied tunnel always falls back to 8080, and that of a restored or reset one only when the
      Iran address and the port run together. */
  lemma RatholeSingleService(id: string, spec: Spec, ip: string, fallback: nat, hash: nat, reapplied: bool,
                             d: Derivation, proxy: nat)
    requires d == if reapplied then RatholeReapplied(spec, ip, hash) else RatholeHalves(spec, ip, fallback)
    requires d.Halves? && !Truthy(Get(spec, PORTS)) && PortNumber(RatholeProxy(spec)) == Some(proxy)
    ensures ServerPorts(d.server).Some?
    ensures ClientPorts(d.client).Some? <==> AddressUsable(Get(spec, LOCAL_ADDR))
    ensures ClientPorts(d.client).Some? ==>
              (Services(id, ClientPorts(d.client).value) == Services(id, ServerPorts(d.server).value) <==>
                 if Truthy(Get(spec, LOCAL_ADDR)) then LocalTarget(Get(spec, LOCAL_ADDR)) == proxy
                 else if reapplied then proxy == 8080
                 else (proxy != 0 && !IsIPv6(Strip(ip + ":" + Show(RatholeProxy(spec))))) || proxy == 8080)
  {
    SinglePorts(spec, ip, fallback, hash, reapplied, d);
    ProxyNumeral(RatholeProxy(spec));
    StatedAfterHost(ip, Show(RatholeProxy(spec)));
    hide RatholeHalves, RatholeReapplied, ServerPorts, ClientPorts, IsIPv6, Value, Strip, IsNumeral, Decimal;
    hide RatholeProxy, PortNumber, PortText, Show, Services;
    if ClientPorts(d.client).Some? {
      SingleService(id, RatholeProxy(spec), proxy, ClientPorts(d.client).value[0].n);
    }
  }
}
