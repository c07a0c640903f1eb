/** What the backhaul adapter makes of the halves the panel sends, and that the two ends meet. */
module BackhaulAdapter {
  import opened Wrappers
  import opened Text
  import opened Address
  import opened Specs
  import opened Dialling

  // ---------- configurations ----------

  datatype BackhaulConfig =
    | BackhaulServer(bind: string, transport: string, token: string, ports: seq<string>)
    | BackhaulClient(remote: string, transport: string, token: string)

  predicate IsBackhaulTransport(transport: string) {
    transport == "tcp" || transport == "udp" || transport == "ws" || transport == "wsmux" || transport == "tcpmux"
  }

  /** `dict(spec.get(key) or {})` */
  function Options(spec: Spec, key: Key): Option<Spec> {
    match Get(spec, key)
    case Obj(fields) => Some(fields)
    case other => if Truthy(other) then None else Some(map[])
  }

  const CLIENT_OPTIONS := OTHER("client_options")

  const CONTROL_ADDR := OTHER("control_addr")

  const TARGET_ADDR := OTHER("target_addr")

  function TargetHost(spec: Spec): Json {
    GetOr(spec, TARGET_HOST, Str("127.0.0.1"))
  }

  /** The text an entry of the port list is written as, if any; `host` is the default target host. */
  function PortEntry(p: Json, host: Json): Option<string> {
    if !Truthy(p) then None
    else match p
      case Obj(entry) =>
        var local := Or(Or(Get(entry, LOCAL), Get(entry, LISTEN_PORT)), Get(entry, PUBLIC_PORT));
        var target := Or(Or(Get(entry, TARGET_PORT), Get(entry, REMOTE_PORT)), local);
        if Truthy(local) then Some(Forward(local, Or(Get(entry, TARGET_HOST), host), target)) else None
      case _ => Some(Show(p))
  }

  /** `local=host:port` */
  function Forward(local: Json, host: Json, port: Json): string {
    Show(local) + "=" + (Show(host) + ":" + Show(port))
  }

  function PortEntries(items: seq<Json>, host: Json): seq<string> {
    if items == [] then []
    else
      var n := |items| - 1;
      PortEntries(items[..n], host) + (match PortEntry(items[n], host) case Some(text) => [text] case None => [])
  }

  /** The adapter's loop over a port list. */
  method ProcessPorts(items: seq<Json>, host: Json) returns (ports: seq<string>)
    ensures ports == PortEntries(items, host)
  {
    hide Show;
    ports := [];
    for i := 0 to |items|
      invariant ports == PortEntries(items[..i], host)
    {
      var p := items[i];
      assert items[..i + 1][..i] == items[..i];
      if !Truthy(p) {
        continue;
      }
      if p.Obj? {
        var local := Or(Or(Get(p.fields, LOCAL), Get(p.fields, LISTEN_PORT)), Get(p.fields, PUBLIC_PORT));
        var targetHost := Or(Get(p.fields, TARGET_HOST), host);
        var targetPort := Or(Or(Get(p.fields, TARGET_PORT), Get(p.fields, REMOTE_PORT)), local);
        if Truthy(local) {
          ports := ports + [Forward(local, targetHost, targetPort)];
        }
      } else {
        ports := ports + [Show(p)];
      }
    }
    assert items[..|items|] == items;
  }

  /** The ports of the server's configuration: the list, or one entry made from the listening port. */
  function ServedPorts(spec: Spec): seq<string> {
    var listen := Or(Get(spec, PUBLIC_PORT), Get(spec, LISTEN_PORT));
    if Truthy(Get(spec, PORTS)) then
      match Get(spec, PORTS)
      case Arr(items) => PortEntries(items, TargetHost(spec))
      case other => [Show(other)]
    else if !Truthy(listen) then []
    else if Truthy(Get(spec, TARGET_ADDR)) then [Show(listen) + "=" + Show(Get(spec, TARGET_ADDR))]
    else [Forward(listen, TargetHost(spec), Or(Get(spec, TARGET_PORT), listen))]
  }

  function BackhaulApply(spec: Spec): Option<BackhaulConfig> {
    if GetOr(spec, MODE, Str("client")) == Str("server") then ServeBackhaul(spec) else DialBackhaul(spec)
  }

  function ServeBackhaul(spec: Spec): Option<BackhaulConfig> {
    var transport, options, bind := Transport(spec), Options(spec, SERVER_OPTIONS), Get(spec, BIND_ADDR);
    if !transport.Str? || !IsBackhaulTransport(Lower(transport.s)) || options == None then None
    else
      var built := Show(GetOr(spec, BIND_IP, Str("0.0.0.0"))) + ":" + Show(BackhaulControl(spec, 3080));
      Some(BackhaulServer(if Truthy(bind) then Show(bind) else built, Lower(transport.s),
                          TokenText(Or(Get(spec, TOKEN), Get(options.value, TOKEN))), ServedPorts(spec)))
  }

  function DialBackhaul(spec: Spec): Option<BackhaulConfig> {
    var transport, options := Transport(spec), Options(spec, CLIENT_OPTIONS);
    var remote := Or(Or(Get(spec, REMOTE_ADDR), Get(spec, CONTROL_ADDR)), Get(spec, BIND_ADDR));
    if !transport.Str? || !IsBackhaulTransport(Lower(transport.s)) || options == None then None
    else if !remote.Str? || remote.s == "" then None
    else Some(BackhaulClient(StripScheme(remote.s), Lower(transport.s),
                             TokenText(Or(Get(spec, TOKEN), Get(options.value, TOKEN)))))
  }

  // ---------- the two ends meet ----------

  /** The fields both derivations pass through. */
  predicate SameOptions(spec: Spec, server: Spec, client: Spec) {
    && Get(server, TOKEN) == Get(spec, TOKEN) && Get(client, TOKEN) == Get(spec, TOKEN)
    && Get(server, SERVER_OPTIONS) == Get(spec, SERVER_OPTIONS)
    && Get(client, CLIENT_OPTIONS) == Get(spec, CLIENT_OPTIONS)
  }

  /** What either derivation gives a pair of backhaul halves. */
  predicate BackhaulPair(spec: Spec, server: Spec, client: Spec, bindIp: string, scheme: string, ip: string,
                         control: Json)
  {
    && Get(server, MODE) == Str("server") && Get(client, MODE) == Str("client")
    && Transport(spec).Str? && Transport(server) == Transport(spec) && Transport(client) == Transport(spec)
    && Get(server, BIND_ADDR) == Str(bindIp + ":" + Show(control))
    && Get(client, REMOTE_ADDR) == Str(scheme + ip + ":" + Show(control))
    && (scheme == "" || scheme == "ws://" || scheme == "wss://")
    && SameOptions(spec, server, client)
  }

  function BackhaulScheme(spec: Spec): string
    requires Transport(spec).Str? && (IsBackhaulWebsocket(Transport(spec).s) ==> BackhaulTls(spec).Some?)
  {
    var websocket := IsBackhaulWebsocket(Transport(spec).s);
    Scheme(websocket, websocket && BackhaulTls(spec).value)
  }

  function BackhaulBindIp(spec: Spec): string {
    Show(Or(Or(Get(spec, BIND_IP), Get(spec, LISTEN_IP)), Str("0.0.0.0")))
  }

  lemma BackhaulRestoredPair(spec: Spec, ip: string, fallback: nat)
    requires BackhaulHalves(spec, ip, fallback).Halves?
    ensures var d := BackhaulHalves(spec, ip, fallback);
            BackhaulPair(spec, d.server, d.client, BackhaulBindIp(spec), BackhaulScheme(spec), ip,
                         BackhaulControl(spec, fallback))
  {
    hide Show, Lower, BackhaulPublic, BackhaulControl;
  }

  lemma ReappliedServer(spec: Spec, ip: string)
    requires BackhaulReapplied(spec, ip).Halves?
    ensures var server := BackhaulReapplied(spec, ip).server;
            && Get(server, MODE) == Str("server")
            && Get(server, BIND_ADDR) == Str("0.0.0.0:" + Show(BackhaulReappliedControl(spec)))
  {
    hide Show, Lower, BackhaulReappliedControl, Truthy, Scheme, IsBackhaulWebsocket, BackhaulTls, Transport, Or;
  }

  lemma ReappliedClient(spec: Spec, ip: string)
    requires BackhaulReapplied(spec, ip).Halves?
    ensures Transport(spec).Str? && (IsBackhaulWebsocket(Transport(spec).s) ==> BackhaulTls(spec).Some?)
    ensures var client := BackhaulReapplied(spec, ip).client;
            && Get(client, MODE) == Str("client")
            && Get(client, REMOTE_ADDR) ==
                 Str(BackhaulScheme(spec) + ip + ":" + Show(BackhaulReappliedControl(spec)))
  {
    hide Show, Lower, BackhaulReappliedControl, Truthy, Scheme, IsBackhaulWebsocket, BackhaulTls, Transport, Or;
  }

  lemma BackhaulReappliedPair(spec: Spec, ip: string)
    requires BackhaulReapplied(spec, ip).Halves?
    ensures Transport(spec).Str? && (IsBackhaulWebsocket(Transport(spec).s) ==> BackhaulTls(spec).Some?)
    ensures var d := BackhaulReapplied(spec, ip);
            BackhaulPair(spec, d.server, d.client, "0.0.0.0", BackhaulScheme(spec), ip, BackhaulReappliedControl(spec))
  {
    ReappliedServer(spec, ip);
    ReappliedClient(spec, ip);
    BackhaulReappliedTransport(spec, ip);
    assert "0.0.0.0" + ":" + Show(BackhaulReappliedControl(spec)) == "0.0.0.0:" + Show(BackhaulReappliedControl(spec));
    hide BackhaulReapplied, SameOptions, Show, BackhaulReappliedControl, BackhaulScheme, IsBackhaulWebsocket;
    hide BackhaulTls, Transport, Get;
  }

  lemma BackhaulReappliedTransport(spec: Spec, ip: string)
    requires BackhaulReapplied(spec, ip).Halves?
    ensures var d := BackhaulReapplied(spec, ip);
            && Transport(spec).Str? && Transport(d.server) == Transport(spec) && Transport(d.client) == Transport(spec)
            && BackhaulScheme(spec) in {"", "ws://", "wss://"}
            && SameOptions(spec, d.server, d.client)
  {
    hide Show, Lower, BackhaulReappliedControl, Truthy, Scheme, BackhaulTls;
    var d, websocket := BackhaulReapplied(spec, ip), IsBackhaulWebsocket(Transport(spec).s);
    SchemeCases(websocket, websocket && BackhaulTls(spec).value);
    TransportKept(spec, d.server);
    TransportKept(spec, d.client);
    hide Transport, Or, IsBackhaulWebsocket;
  }

  lemma ServeBackhaulIs(spec: Spec, server: Spec, client: Spec, bindIp: string, scheme: string, ip: string,
                        control: Json)
    requires BackhaulPair(spec, server, client, bindIp, scheme, ip, control)
    ensures var transport, options := Lower(Transport(spec).s), Options(spec, SERVER_OPTIONS);
            BackhaulApply(server) ==
            if !IsBackhaulTransport(transport) || options == None then None
            else Some(BackhaulServer(bindIp + ":" + Show(control), transport,
                                     TokenText(Or(Get(spec, TOKEN), Get(options.value, TOKEN))), ServedPorts(server)))
  {
    NotBlank(bindIp, Show(control));
    hide Show, Lower, IsBackhaulTransport, Transport, Truthy, TokenText, ServedPorts, BackhaulControl;
  }

  lemma NotBlank(a: string, b: string)
    ensures a + ":" + b != "" && Truthy(Str(a + ":" + b)) && Show(Str(a + ":" + b)) == a + ":" + b
  {
  }

  lemma DialBackhaulIs(spec: Spec, server: Spec, client: Spec, bindIp: string, scheme: string, ip: string,
                       control: Json)
    requires BackhaulPair(spec, server, client, bindIp, scheme, ip, control)
    ensures var transport, options := Lower(Transport(spec).s), Options(spec, CLIENT_OPTIONS);
            BackhaulApply(client) ==
            if !IsBackhaulTransport(transport) || options == None then None
            else Some(BackhaulClient(StripScheme(scheme + ip + ":" + Show(control)), transport,
                                     TokenText(Or(Get(spec, TOKEN), Get(options.value, TOKEN)))))
  {
    NotBlank(scheme + ip, Show(control));
    hide Show, Lower, IsBackhaulTransport, Transport, Truthy, TokenText, StripScheme;
  }

  /** Both backhaul ends, for any derivation: the same transport always; the same token exactly when
      the spec has one or the two sets of options agree on it; the same port unless an
      address runs together. */
  lemma BackhaulMeets(spec: Spec, server: Spec, client: Spec, bindIp: string, scheme: string, ip: string, control: Json)
    requires BackhaulPair(spec, server, client, bindIp, scheme, ip, control) && PortNumber(control).Some?
    ensures var supported := IsBackhaulTransport(Lower(Transport(spec).s));
            && (BackhaulApply(server).Some? <==> supported && Options(spec, SERVER_OPTIONS).Some?)
            && (BackhaulApply(client).Some? <==> supported && Options(spec, CLIENT_OPTIONS).Some?)
    ensures BackhaulApply(server).Some? && BackhaulApply(client).Some? ==>
              var s, c := BackhaulApply(server).value, BackhaulApply(client).value;
              && s.BackhaulServer? && c.BackhaulClient? && c.transport == s.transport
              && (c.token == s.token <==>
                    Truthy(Get(spec, TOKEN))
                    || TokenText(Get(Options(spec, CLIENT_OPTIONS).value, TOKEN))
                       == TokenText(Get(Options(spec, SERVER_OPTIONS).value, TOKEN)))
              && (DialPort(s.bind) == PortNumber(control) <==> !IsIPv6(Strip(s.bind)))
              && (DialPort(c.remote) == PortNumber(control) <==> !IsIPv6(Strip(c.remote)))
              && (PlainHost(bindIp) ==> s.bind == bindIp + ":" + Show(control))
              && (PlainHost(ip) ==> c.remote == ip + ":" + Show(control))
  {
    ServeBackhaulIs(spec, server, client, bindIp, scheme, ip, control);
    DialBackhaulIs(spec, server, client, bindIp, scheme, ip, control);
    ProxyNumeral(control);
    var numeral := Show(control);
    JoinedPortAt(bindIp, numeral);
    DialPortAt(bindIp + ":" + numeral, |bindIp|);
    DialledAddress(scheme, ip, numeral);
    hide IsIPv6, Value, Strip, IsNumeral, DialPort, StripScheme, PortNumber, Show, Lower, IsBackhaulTransport;
    hide Transport, PlainHost, BackhaulApply, Options, Truthy, TokenText, ServedPorts, Get, PortAt;
  }

  lemma AnyAddressPlain()
    ensures PlainHost("0.0.0.0")
  {
  }

  /** Restored, reset or re-applied: with plain hosts both ends configure the control port exactly
      when it runs together with neither the address bound nor the address dialled. */
  lemma BackhaulAlwaysMeets(spec: Spec, ip: string, fallback: nat, reapplied: bool, d: Derivation)
    requires d == if reapplied then BackhaulReapplied(spec, ip) else BackhaulHalves(spec, ip, fallback)
    requires d.Halves?
    requires BackhaulApply(d.server).Some? && BackhaulApply(d.client).Some?
    requires PlainHost(ip) && (!reapplied ==> PlainHost(BackhaulBindIp(spec)))
    ensures BackhaulApply(d.server).value.BackhaulServer? && BackhaulApply(d.client).value.BackhaulClient?
    ensures var s, c := BackhaulApply(d.server).value, BackhaulApply(d.client).value;
            var control := if reapplied then BackhaulReappliedControl(spec) else BackhaulControl(spec, fallback);
            var bindIp := if reapplied then "0.0.0.0" else BackhaulBindIp(spec);
            c.transport == s.transport
            && (PortNumber(control).Some? ==>
                  (DialPort(s.bind) == PortNumber(control) && DialPort(c.remote) == PortNumber(control) <==>
                     !IsIPv6(bindIp + ":" + Show(control)) && !IsIPv6(ip + ":" + Show(control))))
  {
    var scheme := BackhaulScheme(spec);
    hide BackhaulHalves, BackhaulReapplied, BackhaulApply, BackhaulPair, BackhaulControl, BackhaulReappliedControl;
    hide BackhaulBindIp, IsIPv6, Strip, IsNumeral, DialPort, PlainHost, PortNumber, Show, BackhaulScheme;
    hide ServedPorts, Truthy, Get, TokenText, Options, IsBackhaulTransport, Lower, Transport;
    var control := if reapplied then BackhaulReappliedControl(spec) else BackhaulControl(spec, fallback);
    var bindIp := if reapplied then "0.0.0.0" else BackhaulBindIp(spec);
    if reapplied {
      BackhaulReappliedPair(spec, ip);
    } else {
      BackhaulRestoredPair(spec, ip, fallback);
    }
    ServeBackhaulIs(spec, d.server, d.client, bindIp, scheme, ip, control);
    DialBackhaulIs(spec, d.server, d.client, bindIp, scheme, ip, control);
    if PortNumber(control).Some? {
      BackhaulMeets(spec, d.server, d.client, bindIp, scheme, ip, control);
      ProxyNumeral(control);
      AnyAddressPlain();
      RunTogether(ip, Show(control));
      RunTogether(bindIp, Show(control));
    }
  }

  // ---------- what the server publishes ----------

  function ReappliedPublic(spec: Spec): Json {
    Or(Or(Get(spec, PUBLIC_PORT), Get(spec, LISTEN_PORT)), BackhaulReappliedControl(spec))
  }

  /** Restored or reset, the server publishes the public port alone, whatever port list the spec has. */
  lemma RestoredPorts(spec: Spec, ip: string, fallback: nat)
    requires BackhaulHalves(spec, ip, fallback).Halves?
    ensures var public := BackhaulPublic(spec);
            ServedPorts(BackhaulHalves(spec, ip, fallback).server) ==
            [Forward(public, TargetHost(spec), Or(Get(spec, TARGET_PORT), public))]
  {
    var public := BackhaulPublic(spec);
    var entry := Forward(public, TargetHost(spec), Or(Get(spec, TARGET_PORT), public));
    assert Get(BackhaulHalves(spec, ip, fallback).server, PORTS) == Arr([Str(entry)]);
    SingleEntry(entry, TargetHost(BackhaulHalves(spec, ip, fallback).server));
    NotBlankEntry(public, TargetHost(spec), Or(Get(spec, TARGET_PORT), public));
    hide BackhaulHalves, Forward, PortEntries, PortEntry, BackhaulPublic, TargetHost, Show;
  }

  lemma SingleEntry(entry: string, host: Json)
    requires entry != ""
    ensures PortEntries([Str(entry)], host) == [entry] && Truthy(Arr([Str(entry)]))
  {
    assert [Str(entry)][..0] == [];
  }

  lemma NotBlankEntry(local: Json, host: Json, port: Json)
    ensures Forward(local, host, port) != ""
  {
    hide Show;
  }

  /** Re-applied, the server publishes the port list if there is one, and otherwise the listening port. */
  lemma ReappliedPorts(spec: Spec, ip: string)
    requires BackhaulReapplied(spec, ip).Halves?
    ensures var public, served := ReappliedPublic(spec), ServedPorts(BackhaulReapplied(spec, ip).server);
            if Truthy(Get(spec, PORTS)) then
              (Get(spec, PORTS).Arr? ==> served == PortEntries(Get(spec, PORTS).items, TargetHost(spec)))
            else if Truthy(Get(spec, TARGET_ADDR)) then served == [Show(public) + "=" + Show(Get(spec, TARGET_ADDR))]
            else served == [Forward(public, TargetHost(spec), Or(Get(spec, TARGET_PORT), public))]
  {
    hide Show, Forward, PortEntries, Lower, Scheme, BackhaulTls, IsBackhaulWebsocket;
  }

  /** Text before the first `=` determines itself. */
  lemma SplitsAtEquals(a: string, x: string, b: string, y: string)
    requires '=' !in a && '=' !in b && a + "=" + x == b + "=" + y
    ensures a == b && x == y
  {
    var s := a + "=" + x;
    assert s[|a|] == '=' && s[|b|] == '=';
    assert forall i | 0 <= i < |a| :: s[i] == a[i];
    assert forall i | 0 <= i < |b| :: s[i] == b[i];
    assert s[..|a|] == a && s[|a| + 1..] == x;
    assert s[..|b|] == b && s[|b| + 1..] == y;
  }

  lemma ForwardsCompared(a: Json, b: Json, host: Json, target: Json)
    requires PortNumber(a).Some? && PortNumber(b).Some?
    ensures Forward(a, host, Or(target, a)) == Forward(b, host, Or(target, b)) <==> Show(a) == Show(b)
  {
    ProxyNumeral(a);
    ProxyNumeral(b);
    var x, y := Show(host) + ":" + Show(Or(target, a)), Show(host) + ":" + Show(Or(target, b));
    if Forward(a, host, Or(target, a)) == Forward(b, host, Or(target, b)) {
      SplitsAtEquals(Show(a), x, Show(b), y);
    }
  }

  /** A spec without a port list and target address: restored and re-applied servers publish the same
      exactly when both derivations choose the same public port. */
  lemma BackhaulPortsServed(spec: Spec, ip: string, fallback: nat)
    requires BackhaulHalves(spec, ip, fallback).Halves? && BackhaulReapplied(spec, ip).Halves?
    requires !Truthy(Get(spec, PORTS)) && !Truthy(Get(spec, TARGET_ADDR))
    requires PortNumber(BackhaulPublic(spec)).Some? && PortNumber(ReappliedPublic(spec)).Some?
    ensures ServedPorts(BackhaulHalves(spec, ip, fallback).server) == ServedPorts(BackhaulReapplied(spec, ip).server)
       <==> Show(BackhaulPublic(spec)) == Show(ReappliedPublic(spec))
  {
    RestoredPorts(spec, ip, fallback);
    ReappliedPorts(spec, ip);
    ForwardsCompared(BackhaulPublic(spec), ReappliedPublic(spec), TargetHost(spec), Get(spec, TARGET_PORT));
    hide BackhaulHalves, BackhaulReapplied, ServedPorts, Forward, Show, BackhaulPublic, ReappliedPublic, PortNumber;
  }
}
