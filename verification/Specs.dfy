/** How the panel splits a stored tunnel spec into the server's half and the client's half. Restoring
    at start-up and resetting a core share one derivation up to a constant; the periodic re-apply has
    its own. Specs are JSON objects; port numbers are naturals or digit strings. */
module Specs {
  import opened Wrappers
  import opened Text
  import opened Address

  // ---------- JSON values as Python sees them ----------

  /** The fields the derivations and the adapters name, and all others. */
  datatype Key =
    | MODE | TRANSPORT | TYPE | TOKEN | TLS | WEBSOCKET_TLS | PORTS
    | REMOTE_ADDR | BIND_ADDR | LOCAL_ADDR | SERVER_ADDR | SERVER_URL
    | REMOTE_PORT | LISTEN_PORT | PROXY_PORT | CONTROL_PORT | SERVER_PORT | REVERSE_PORT | BIND_PORT
    | PUBLIC_PORT | TARGET_PORT | TARGET_HOST | BIND_IP | LISTEN_IP | SERVER_OPTIONS | TLS_CERT
    | OTHER(name: string)

  const LOCAL_IP := OTHER("local_ip")
  const LOCAL_PORT := OTHER("local_port")
  const LOCAL := OTHER("local")
  const REMOTE := OTHER("remote")

  datatype Json =
    | Null
    | Bool(b: bool)
    | Num(n: nat)
    | Str(s: string)
    | Arr(items: seq<Json>)
    | Obj(fields: map<Key, Json>)

  type Spec = map<Key, Json>

  /** `spec.get(key)` */
  function Get(spec: Spec, key: Key): Json {
    GetOr(spec, key, Null)
  }

  /** `spec.get(key, default)` */
  function GetOr(spec: Spec, key: Key, default: Json): Json {
    if key in spec then spec[key] else default
  }

  predicate Truthy(j: Json) {
    match j
    case Null => false
    case Bool(b) => b
    case Num(n) => n != 0
    case Str(s) => s != ""
    case Arr(items) => items != []
    case Obj(fields) => fields != map[]
  }

  /** `a or b` */
  function Or(a: Json, b: Json): Json {
    if Truthy(a) then a else b
  }

  /** `f"{j}"`; of a list or an object only the opening bracket matters here. */
  function Show(j: Json): string {
    match j
    case Null => "None"
    case Bool(b) => if b then "True" else "False"
    case Num(n) => Decimal(n)
    case Str(s) => s
    case Arr(_) => "["
    case Obj(_) => "{"
  }

  /** The number a port value stands for. */
  function PortNumber(j: Json): Option<nat> {
    match j
    case Num(n) => Some(n)
    case Str(s) => if IsNumeral(s) then Some(Value(s)) else None
    case _ => None
  }

  function LowerChar(c: char): char {
    if 'A' <= c <= 'Z' then 'a' + (c - 'A') else c
  }

  /** `s.lower()` */
  function Lower(s: string): string {
    if s == "" then "" else [LowerChar(s[0])] + Lower(s[1..])
  }

  // ---------- what the derivations decide ----------

  /** A tunnel is skipped, or its derivation raises, or it yields the two halves. */
  datatype Derivation = Skip | Raise | Halves(server: Spec, client: Spec)

  function Transport(spec: Spec): Json {
    Or(Or(Get(spec, TRANSPORT), Get(spec, TYPE)), Str("tcp"))
  }

  function Scheme(websocket: bool, tls: bool): string {
    if !websocket then "" else if tls then "wss://" else "ws://"
  }

  function RatholeProxy(spec: Spec): Json {
    Or(Get(spec, REMOTE_PORT), Get(spec, LISTEN_PORT))
  }

  function RatholeAddress(spec: Spec): Json {
    GetOr(spec, REMOTE_ADDR, Str("0.0.0.0:23333"))
  }

  /** The port a stored address names, if any; the source raises on one that is neither falsy nor a string. */
  function StatedPort(address: Json): nat {
    if Truthy(address) && address.Str? && ParseAddressPort(address.s).port.Some?
    then ParseAddressPort(address.s).port.value else 0
  }

  function RatholeControl(spec: Spec, fallback: nat): nat {
    var stated := StatedPort(RatholeAddress(spec));
    if stated != 0 then stated else fallback
  }

  predicate WantsTls(spec: Spec) {
    Truthy(Or(Get(spec, WEBSOCKET_TLS), Get(spec, TLS)))
  }

  predicate IsWebsocket(transport: string) {
    Lower(transport) == "websocket" || Lower(transport) == "ws"
  }

  /** A half whose `websocket_tls` is taken from the other half, or from its `tls`. */
  function WithTls(half: Spec, from: Spec): Spec {
    if WEBSOCKET_TLS in from then half[WEBSOCKET_TLS := from[WEBSOCKET_TLS]]
    else if TLS in from then half[WEBSOCKET_TLS := from[TLS]]
    else half
  }

  function ChiselListen(spec: Spec): Json {
    Or(Get(spec, LISTEN_PORT), Get(spec, REMOTE_PORT))
  }

  /** The control port of a chisel tunnel: the stated one, or the listening port moved by `offset`. */
  function ChiselControl(spec: Spec, offset: nat): Option<Json> {
    if Truthy(Get(spec, CONTROL_PORT)) then Some(Get(spec, CONTROL_PORT))
    else match PortNumber(ChiselListen(spec))
      case None => None
      case Some(n) => Some(Num(n + offset))
  }

  function BackhaulPublic(spec: Spec): Json {
    Or(Or(Get(spec, PUBLIC_PORT), Get(spec, REMOTE_PORT)), Get(spec, LISTEN_PORT))
  }

  function BackhaulControl(spec: Spec, fallback: nat): Json {
    Or(Or(Get(spec, CONTROL_PORT), Get(spec, LISTEN_PORT)), Num(fallback))
  }

  function BackhaulReappliedControl(spec: Spec): Json {
    Or(Or(Or(Get(spec, CONTROL_PORT), Get(spec, PUBLIC_PORT)), Get(spec, LISTEN_PORT)), Num(3080))
  }

  predicate IsBackhaulWebsocket(transport: string) {
    Lower(transport) == "ws" || Lower(transport) == "wsmux"
  }

  /** Whether the URL scheme says TLS; none when `server_options` is not an object. */
  function BackhaulTls(spec: Spec): Option<bool> {
    if Truthy(Get(spec, TLS_CERT)) then Some(true)
    else match GetOr(spec, SERVER_OPTIONS, Obj(map[]))
      case Obj(options) => Some(Truthy(Get(options, TLS_CERT)))
      case _ => None
  }

  // ---------- restore and reset ----------

  function RatholeServerHalf(spec: Spec, control: nat): Spec {
    var bound := spec[MODE := Str("server")][BIND_ADDR := Str("0.0.0.0:" + Decimal(control))]
                     [PROXY_PORT := RatholeProxy(spec)][TRANSPORT := Transport(spec)][TYPE := Transport(spec)];
    WithTls(bound, bound)
  }

  function RatholeClientHalf(spec: Spec, ip: string, control: nat, server: Spec): Spec
    requires Transport(spec).Str?
  {
    var scheme := Scheme(IsWebsocket(Transport(spec).s), WantsTls(server));
    var dialling := spec[MODE := Str("client")][REMOTE_ADDR := Str(scheme + ip + ":" + Decimal(control))]
                        [TRANSPORT := Transport(spec)][TYPE := Transport(spec)][TOKEN := Get(spec, TOKEN)];
    var client := WithTls(dialling, server);
    client[LOCAL_ADDR := Or(Get(client, LOCAL_ADDR), Str(ip + ":" + Show(RatholeProxy(spec))))]
  }

  /** Rathole, restored (`fallback` 23333 plus the hash of the id modulo 1000) or reset (23333). */
  function RatholeHalves(spec: Spec, ip: string, fallback: nat): Derivation {
    var remote := RatholeAddress(spec);
    if !Truthy(RatholeProxy(spec)) || !Truthy(Get(spec, TOKEN)) then Skip
    else if Truthy(remote) && !remote.Str? then Raise
    else if ip == "" then Skip
    else if !Transport(spec).Str? then Raise
    else
      var control := RatholeControl(spec, fallback);
      var server := RatholeServerHalf(spec, control);
      Halves(server, RatholeClientHalf(spec, ip, control, server))
  }

  /** Chisel, restored (`offset` 10000 plus the hash modulo 1000) or reset (10000). */
  function ChiselHalves(spec: Spec, ip: string, offset: nat): Derivation {
    var listen := ChiselListen(spec);
    if !Truthy(listen) || ip == "" then Skip
    else match ChiselControl(spec, offset)
      case None => Raise
      case Some(control) =>
        Halves(spec[MODE := Str("server")][SERVER_PORT := control][REVERSE_PORT := listen],
               spec[MODE := Str("client")][SERVER_URL := Str("http://" + ip + ":" + Show(control))]
                   [REVERSE_PORT := listen]
                   [LOCAL_ADDR := Or(Get(spec, LOCAL_ADDR), Str(ip + ":" + Show(listen)))])
  }

  /** Frp, restored. */
  function FrpHalves(spec: Spec, ip: string, kind: string): Derivation {
    var port := GetOr(spec, BIND_PORT, Num(7000));
    if ip == "" then Skip
    else Halves(spec[MODE := Str("server")][BIND_PORT := port],
                spec[MODE := Str("client")][SERVER_ADDR := Str(ip)][SERVER_PORT := port]
                    [TYPE := Str(if Lower(kind) == "udp" then "udp" else "tcp")])
  }

  /** Frp, reset: the local side defaults to the Iran node and the bind port. */
  function FrpReset(spec: Spec, ip: string, kind: string): Derivation {
    match FrpHalves(spec, ip, kind)
    case Halves(server, client) =>
      Halves(server, client[LOCAL_IP := Or(Get(client, LOCAL_IP), Str(ip))]
                           [LOCAL_PORT := Or(Get(client, LOCAL_PORT), GetOr(spec, BIND_PORT, Num(7000)))])
    case other => other
  }

  /** Backhaul, restored (`fallback` 3080 plus the hash modulo 1000) or reset (3080). */
  function BackhaulHalves(spec: Spec, ip: string, fallback: nat): Derivation {
    var transport, control, public := Transport(spec), BackhaulControl(spec, fallback), BackhaulPublic(spec);
    if !Truthy(public) || ip == "" then Skip
    else if !transport.Str? || (IsBackhaulWebsocket(transport.s) && BackhaulTls(spec) == None) then Raise
    else
      var websocket := IsBackhaulWebsocket(transport.s);
      var scheme := Scheme(websocket, websocket && BackhaulTls(spec).value);
      var bindIp := Or(Or(Get(spec, BIND_IP), Get(spec, LISTEN_IP)), Str("0.0.0.0"));
      var target := Show(GetOr(spec, TARGET_HOST, Str("127.0.0.1"))) + ":" + Show(Or(Get(spec, TARGET_PORT), public));
      Halves(spec[MODE := Str("server")][BIND_ADDR := Str(Show(bindIp) + ":" + Show(control))]
                 [TRANSPORT := transport][TYPE := transport][PORTS := Arr([Str(Show(public) + "=" + target)])],
             spec[MODE := Str("client")][REMOTE_ADDR := Str(scheme + ip + ":" + Show(control))]
                 [TRANSPORT := transport][TYPE := transport])
  }

  // ---------- re-apply ----------

  function RatholeReapplied(spec: Spec, ip: string, hash: nat): Derivation {
    var proxy, token, remote, transport := RatholeProxy(spec), Get(spec, TOKEN), RatholeAddress(spec), Transport(spec);
    if !Truthy(proxy) || !Truthy(token) then Skip
    else if Truthy(remote) && !remote.Str? then Raise
    else if ip == "" then Skip
    else if !transport.Str? then Raise
    else
      var control := Decimal(RatholeControl(spec, 23333 + hash % 1000));
      Halves(spec[MODE := Str("server")][BIND_ADDR := Str("0.0.0.0:" + control)][PROXY_PORT := proxy]
                 [TRANSPORT := transport][TOKEN := token],
             spec[MODE := Str("client")]
                 [REMOTE_ADDR := Str(Scheme(IsWebsocket(transport.s), WantsTls(spec)) + ip + ":" + control)]
                 [TRANSPORT := transport][TOKEN := token])
  }

  /** An IPv6 literal is bracketed in the URL, which the other derivations do not do. */
  function ChiselReapplied(spec: Spec, ip: string, hash: nat): Derivation {
    var listen := ChiselListen(spec);
    if !Truthy(listen) then Skip
    else match ChiselControl(spec, 10000 + hash % 1000)
      case None => Raise
      case Some(control) =>
        if ip == "" then Skip
        else
          var host := if IsIPv6(ip) then "[" + ip + "]" else ip;
          Halves(spec[MODE := Str("server")][SERVER_PORT := control][REVERSE_PORT := listen],
                 spec[MODE := Str("client")][SERVER_URL := Str("http://" + host + ":" + Show(control))]
                     [REVERSE_PORT := listen])
  }

  function FrpRemote(spec: Spec): Json {
    Or(Get(spec, REMOTE_PORT), Get(spec, LISTEN_PORT))
  }

  predicate IsPort(j: Json) {
    Truthy(j) ==> PortNumber(j).Some?
  }

  /** Frp, re-applied: without a port list the ports are made numbers and listed. */
  function FrpReapplied(spec: Spec, ip: string, kind: string): Derivation {
    var remote, local := FrpRemote(spec), Get(spec, LOCAL_PORT);
    match FrpHalves(spec, ip, kind)
    case Halves(server, client) =>
      if Truthy(Get(spec, PORTS)) || (!Truthy(remote) && !Truthy(local)) then Halves(server, client)
      else if !IsPort(remote) || !IsPort(local) then Raise
      else Halves(server, client[PORTS := Arr([Pair(Num(PortNumber(Or(local, remote)).value),
                                                    Num(PortNumber(Or(remote, local)).value))])])
    case other => other
  }

  /** An entry of an frp port list. */
  function Pair(local: Json, remote: Json): Json {
    Obj(map[LOCAL := local, REMOTE := remote])
  }

  function BackhaulReapplied(spec: Spec, ip: string): Derivation {
    var transport, control := Transport(spec), BackhaulReappliedControl(spec);
    var public := Or(Or(Get(spec, PUBLIC_PORT), Get(spec, LISTEN_PORT)), control);
    if ip == "" then Skip
    else if !transport.Str? || (IsBackhaulWebsocket(transport.s) && BackhaulTls(spec) == None) then Raise
    else
      var websocket := IsBackhaulWebsocket(transport.s);
      var scheme := Scheme(websocket, websocket && BackhaulTls(spec).value);
      Halves(spec[MODE := Str("server")][BIND_ADDR := Str("0.0.0.0:" + Show(control))][CONTROL_PORT := control]
                 [PUBLIC_PORT := public][LISTEN_PORT := public],
             spec[MODE := Str("client")][REMOTE_ADDR := Str(scheme + ip + ":" + Show(control))][TRANSPORT := transport])
  }

  // ---------- the same, as the panel does it: field by field in two dicts ----------

  lemma OrChooses(a: Json, b: Json)
    ensures Or(a, b) == if Truthy(a) then a else b
  {
  }

  /** The URL scheme put in front of the Iran address. */
  method Protocol(websocket: bool, tls: bool) returns (prefix: string)
    ensures prefix == Scheme(websocket, tls)
  {
    prefix := "";
    if websocket {
      prefix := if tls then "wss://" else "ws://";
    }
  }

  method CopyTls(half: Spec, from: Spec) returns (r: Spec)
    ensures r == WithTls(half, from)
  {
    r := half;
    if WEBSOCKET_TLS in from {
      r := r[WEBSOCKET_TLS := from[WEBSOCKET_TLS]];
    } else if TLS in from {
      r := r[WEBSOCKET_TLS := from[TLS]];
    }
  }

  /** One rathole tunnel's turn when restoring or resetting. */
  method DeriveRathole(spec: Spec, ip: string, fallback: nat) returns (d: Derivation)
    ensures d == RatholeHalves(spec, ip, fallback)
  {
    hide Decimal, StatedPort, Lower, Truthy, Show, IsWebsocket, WantsTls, WithTls, Scheme, Or;
    var server := spec[MODE := Str("server")];
    var client := spec[MODE := Str("client")];
    var transport := Or(Or(Get(server, TRANSPORT), Get(server, TYPE)), Str("tcp"));
    var proxy := Or(Get(server, REMOTE_PORT), Get(server, LISTEN_PORT));
    var token := Get(server, TOKEN);
    if !Truthy(proxy) || !Truthy(token) {
      return Skip;
    }
    var remote := GetOr(server, REMOTE_ADDR, Str("0.0.0.0:23333"));
    if Truthy(remote) && !remote.Str? {
      return Raise;
    }
    var control := StatedPort(remote);
    if control == 0 {
      control := fallback;
    }
    assert transport == Transport(spec) && proxy == RatholeProxy(spec) && token == Get(spec, TOKEN);
    assert remote == RatholeAddress(spec) && control == RatholeControl(spec, fallback);
    hide Transport, RatholeProxy, RatholeAddress, RatholeControl, Get, GetOr;
    server := server[BIND_ADDR := Str("0.0.0.0:" + Decimal(control))];
    server := server[PROXY_PORT := proxy];
    server := server[TRANSPORT := transport];
    server := server[TYPE := transport];
    server := CopyTls(server, server);
    if ip == "" {
      return Skip;
    }
    if !transport.Str? {
      return Raise;
    }
    var protocol := Protocol(IsWebsocket(transport.s), WantsTls(server));
    client := client[REMOTE_ADDR := Str(protocol + ip + ":" + Decimal(control))];
    client := client[TRANSPORT := transport];
    client := client[TYPE := transport];
    client := client[TOKEN := token];
    client := CopyTls(client, server);
    var local := Get(client, LOCAL_ADDR);
    if !Truthy(local) {
      local := Str(ip + ":" + Show(proxy));
    }
    OrChooses(Get(client, LOCAL_ADDR), Str(ip + ":" + Show(proxy)));
    client := client[LOCAL_ADDR := local];
    d := Halves(server, client);
  }

  /** One chisel tunnel's turn. */
  method DeriveChisel(spec: Spec, ip: string, offset: nat) returns (d: Derivation)
    ensures d == ChiselHalves(spec, ip, offset)
  {
    hide PortNumber, Show;
    var server := spec[MODE := Str("server")];
    var client := spec[MODE := Str("client")];
    var listen := Or(Get(server, LISTEN_PORT), Get(server, REMOTE_PORT));
    if !Truthy(listen) || ip == "" {
      return Skip;
    }
    var control := Get(server, CONTROL_PORT);
    if !Truthy(control) {
      if PortNumber(listen) == None {
        return Raise;
      }
      control := Num(PortNumber(listen).value + offset);
    }
    server := server[SERVER_PORT := control];
    server := server[REVERSE_PORT := listen];
    client := client[SERVER_URL := Str("http://" + ip + ":" + Show(control))];
    client := client[REVERSE_PORT := listen];
    var local := Get(client, LOCAL_ADDR);
    if !Truthy(local) {
      local := Str(ip + ":" + Show(listen));
    }
    client := client[LOCAL_ADDR := local];
    d := Halves(server, client);
  }

  /** One frp tunnel's turn. */
  method DeriveFrp(spec: Spec, ip: string, kind: string) returns (d: Derivation)
    ensures d == FrpHalves(spec, ip, kind)
  {
    hide Lower;
    var server := spec[MODE := Str("server")];
    var client := spec[MODE := Str("client")];
    var port := GetOr(server, BIND_PORT, Num(7000));
    server := server[BIND_PORT := port];
    if ip == "" {
      return Skip;
    }
    client := client[SERVER_ADDR := Str(ip)];
    client := client[SERVER_PORT := port];
    client := client[TYPE := Str(if Lower(kind) == "udp" then "udp" else "tcp")];
    d := Halves(server, client);
  }

  /** Resetting goes on filling the client's half. */
  method ResetFrp(spec: Spec, ip: string, kind: string) returns (d: Derivation)
    ensures d == FrpReset(spec, ip, kind)
  {
    hide Lower;
    d := DeriveFrp(spec, ip, kind);
    if d == Skip {
      return;
    }
    var client := d.client;
    var localIp, localPort := Get(client, LOCAL_IP), Get(client, LOCAL_PORT);
    if !Truthy(localIp) {
      localIp := Str(ip);
    }
    if !Truthy(localPort) {
      localPort := Get(d.server, BIND_PORT);
    }
    client := client[LOCAL_IP := localIp];
    client := client[LOCAL_PORT := localPort];
    d := Halves(d.server, client);
  }

  /** One backhaul tunnel's turn. */
  method DeriveBackhaul(spec: Spec, ip: string, fallback: nat) returns (d: Derivation)
    ensures d == BackhaulHalves(spec, ip, fallback)
  {
    hide Show, Lower, Truthy, Scheme;
    var server := spec[MODE := Str("server")];
    var client := spec[MODE := Str("client")];
    var transport := Or(Or(Get(server, TRANSPORT), Get(server, TYPE)), Str("tcp"));
    var control := Or(Or(Get(server, CONTROL_PORT), Get(server, LISTEN_PORT)), Num(fallback));
    var public := Or(Or(Get(server, PUBLIC_PORT), Get(server, REMOTE_PORT)), Get(server, LISTEN_PORT));
    var host := GetOr(server, TARGET_HOST, Str("127.0.0.1"));
    var port := Or(Get(server, TARGET_PORT), public);
    assert transport == Transport(spec) && control == BackhaulControl(spec, fallback) && public == BackhaulPublic(spec);
    hide Transport, BackhaulControl, BackhaulPublic;
    if !Truthy(public) || ip == "" {
      return Skip;
    }
    var bindIp := Or(Or(Get(server, BIND_IP), Get(server, LISTEN_IP)), Str("0.0.0.0"));
    if !transport.Str? || (IsBackhaulWebsocket(transport.s) && BackhaulTls(server) == None) {
      return Raise;
    }
    var websocket := IsBackhaulWebsocket(transport.s);
    var protocol := Protocol(websocket, websocket && BackhaulTls(server).value);
    server := server[BIND_ADDR := Str(Show(bindIp) + ":" + Show(control))];
    server := server[TRANSPORT := transport];
    server := server[TYPE := transport];
    server := server[PORTS := Arr([Str(Show(public) + "=" + (Show(host) + ":" + Show(port)))])];
    client := client[REMOTE_ADDR := Str(protocol + ip + ":" + Show(control))];
    client := client[TRANSPORT := transport];
    client := client[TYPE := transport];
    d := Halves(server, client);
  }

  /** One rathole tunnel's turn in the periodic re-apply. */
  method ReapplyRathole(spec: Spec, ip: string, hash: nat) returns (d: Derivation)
    ensures d == RatholeReapplied(spec, ip, hash)
  {
    hide Decimal, StatedPort, Lower, Truthy, Show, IsWebsocket, Scheme, Or;
    var server := spec[MODE := Str("server")];
    var client := spec[MODE := Str("client")];
    var transport := Or(Or(Get(server, TRANSPORT), Get(server, TYPE)), Str("tcp"));
    var proxy := Or(Get(server, REMOTE_PORT), Get(server, LISTEN_PORT));
    var token := Get(server, TOKEN);
    if !Truthy(proxy) || !Truthy(token) {
      return Skip;
    }
    var remote := GetOr(server, REMOTE_ADDR, Str("0.0.0.0:23333"));
    if Truthy(remote) && !remote.Str? {
      return Raise;
    }
    var control := StatedPort(remote);
    if control == 0 {
      control := 23333 + hash % 1000;
    }
    assert transport == Transport(spec) && proxy == RatholeProxy(spec) && token == Get(spec, TOKEN);
    assert remote == RatholeAddress(spec) && control == RatholeControl(spec, 23333 + hash % 1000);
    hide Transport, RatholeProxy, RatholeAddress, RatholeControl;
    server := server[BIND_ADDR := Str("0.0.0.0:" + Decimal(control))];
    server := server[PROXY_PORT := proxy];
    server := server[TRANSPORT := transport];
    server := server[TOKEN := token];
    if ip == "" {
      return Skip;
    }
    if !transport.Str? {
      return Raise;
    }
    assert WantsTls(server) == WantsTls(spec);
    hide WantsTls, Get, GetOr;
    var protocol := Protocol(IsWebsocket(transport.s), WantsTls(server));
    client := client[REMOTE_ADDR := Str(protocol + ip + ":" + Decimal(control))];
    client := client[TRANSPORT := transport];
    client := client[TOKEN := token];
    d := Halves(server, client);
  }

  method ReapplyChisel(spec: Spec, ip: string, hash: nat) returns (d: Derivation)
    ensures d == ChiselReapplied(spec, ip, hash)
  {
    hide PortNumber, Show, IsIPv6;
    var server := spec[MODE := Str("server")];
    var client := spec[MODE := Str("client")];
    var listen := Or(Get(server, LISTEN_PORT), Get(server, REMOTE_PORT));
    if !Truthy(listen) {
      return Skip;
    }
    var control := Get(server, CONTROL_PORT);
    if !Truthy(control) {
      if PortNumber(listen) == None {
        return Raise;
      }
      control := Num(PortNumber(listen).value + (10000 + hash % 1000));
    }
    server := server[SERVER_PORT := control];
    server := server[REVERSE_PORT := listen];
    if ip == "" {
      return Skip;
    }
    var host := ip;
    if IsIPv6(ip) {
      host := "[" + ip + "]";
    }
    client := client[SERVER_URL := Str("http://" + host + ":" + Show(control))];
    client := client[REVERSE_PORT := listen];
    d := Halves(server, client);
  }

  method ReapplyFrp(spec: Spec, ip: string, kind: string) returns (d: Derivation)
    ensures d == FrpReapplied(spec, ip, kind)
  {
    hide Lower, PortNumber;
    d := DeriveFrp(spec, ip, kind);
    if d == Skip || Truthy(Get(spec, PORTS)) {
      return;
    }
    var remote, local := Or(Get(spec, REMOTE_PORT), Get(spec, LISTEN_PORT)), Get(spec, LOCAL_PORT);
    if !Truthy(remote) && !Truthy(local) {
      return;
    }
    if (Truthy(remote) && PortNumber(remote) == None) || (Truthy(local) && PortNumber(local) == None) {
      return Raise;
    }
    var pair: Json;
    if Truthy(remote) && Truthy(local) {
      pair := Pair(Num(PortNumber(local).value), Num(PortNumber(remote).value));
    } else if Truthy(remote) {
      pair := Pair(Num(PortNumber(remote).value), Num(PortNumber(remote).value));
    } else {
      pair := Pair(Num(PortNumber(local).value), Num(PortNumber(local).value));
    }
    d := Halves(d.server, d.client[PORTS := Arr([pair])]);
  }

  method ReapplyBackhaul(spec: Spec, ip: string) returns (d: Derivation)
    ensures d == BackhaulReapplied(spec, ip)
  {
    hide Show, Lower, Truthy, Scheme;
    var server := spec[MODE := Str("server")];
    var client := spec[MODE := Str("client")];
    var transport := Or(Or(Get(server, TRANSPORT), Get(server, TYPE)), Str("tcp"));
    var control := Or(Or(Or(Get(server, CONTROL_PORT), Get(server, PUBLIC_PORT)), Get(server, LISTEN_PORT)), Num(3080));
    var public := Or(Or(Get(server, PUBLIC_PORT), Get(server, LISTEN_PORT)), control);
    assert transport == Transport(spec) && control == BackhaulReappliedControl(spec);
    assert public == Or(Or(Get(spec, PUBLIC_PORT), Get(spec, LISTEN_PORT)), control);
    hide Or, Transport, BackhaulReappliedControl;
    server := server[BIND_ADDR := Str("0.0.0.0:" + Show(control))];
    server := server[CONTROL_PORT := control];
    server := server[PUBLIC_PORT := public];
    server := server[LISTEN_PORT := public];
    if ip == "" {
      return Skip;
    }
    if !transport.Str? || (IsBackhaulWebsocket(transport.s) && BackhaulTls(server) == None) {
      return Raise;
    }
    var websocket := IsBackhaulWebsocket(transport.s);
    var protocol := Protocol(websocket, websocket && BackhaulTls(server).value);
    client := client[REMOTE_ADDR := Str(protocol + ip + ":" + Show(control))];
    client := client[TRANSPORT := transport];
    d := Halves(server, client);
  }

  // ---------- the three derivations compared ----------

  lemma BindAddressInjective(a: nat, b: nat)
    ensures "0.0.0.0:" + Decimal(a) == "0.0.0.0:" + Decimal(b) <==> a == b
  {
    if "0.0.0.0:" + Decimal(a) == "0.0.0.0:" + Decimal(b) {
      assert ("0.0.0.0:" + Decimal(a))[8..] == Decimal(a);
      assert ("0.0.0.0:" + Decimal(b))[8..] == Decimal(b);
      DecimalInjective(a, b);
    }
  }

  /** Rathole: restore and re-apply choose the same control port; reset chooses it too exactly when
      the spec states a non-zero port or the hash happens to vanish. */
  lemma RatholePortsCompared(spec: Spec, ip: string, hash: nat)
    requires RatholeHalves(spec, ip, 23333).Halves?
    ensures var restored, reset, reapplied :=
              RatholeHalves(spec, ip, 23333 + hash % 1000), RatholeHalves(spec, ip, 23333),
              RatholeReapplied(spec, ip, hash);
            && restored.Halves? && reapplied.Halves?
            && Get(restored.server, BIND_ADDR) == Get(reapplied.server, BIND_ADDR)
            && (Get(restored.server, BIND_ADDR) == Get(reset.server, BIND_ADDR) <==>
                  StatedPort(RatholeAddress(spec)) != 0 || hash % 1000 == 0)
  {
    hide Decimal, StatedPort, Scheme, IsWebsocket;
    BindAddressInjective(RatholeControl(spec, 23333 + hash % 1000), RatholeControl(spec, 23333));
  }

  /** Chisel: likewise, with a stated `control_port`. */
  lemma ChiselPortsCompared(spec: Spec, ip: string, hash: nat)
    requires ChiselHalves(spec, ip, 10000).Halves?
    ensures var restored, reset, reapplied :=
              ChiselHalves(spec, ip, 10000 + hash % 1000), ChiselHalves(spec, ip, 10000),
              ChiselReapplied(spec, ip, hash);
            && restored.Halves? && reapplied.Halves?
            && Get(restored.server, SERVER_PORT) == Get(reapplied.server, SERVER_PORT)
            && (Get(restored.server, SERVER_PORT) == Get(reset.server, SERVER_PORT) <==>
                  Truthy(Get(spec, CONTROL_PORT)) || hash % 1000 == 0)
  {
    hide PortNumber, Show, IsIPv6;
  }

  /** Backhaul: the three control ports print alike exactly when one is stated; or else the listening
      port decides and no different public port is stated; or else the hash vanishes and the public
      port, if stated, is 3080. */
  lemma BackhaulPortsCompared(spec: Spec, hash: nat)
    ensures var restored, reset, reapplied :=
              BackhaulControl(spec, 3080 + hash % 1000), BackhaulControl(spec, 3080), BackhaulReappliedControl(spec);
            var stated, public, listen := Get(spec, CONTROL_PORT), Get(spec, PUBLIC_PORT), Get(spec, LISTEN_PORT);
            Show(restored) == Show(reset) == Show(reapplied) <==>
            if Truthy(stated) then true
            else if Truthy(listen) then Truthy(public) ==> Show(public) == Show(listen)
            else hash % 1000 == 0 && (Truthy(public) ==> Show(public) == Show(Num(3080)))
  {
    if Decimal(3080 + hash % 1000) == Decimal(3080) {
      DecimalInjective(3080 + hash % 1000, 3080);
    }
  }
}
