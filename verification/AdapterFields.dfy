/** What each adapter configures for any spec it is handed, told from the spec's own fields: where its
    addresses, ports and flags come from, what it falls back to, and what it refuses. */
module AdapterFields {
  import opened Wrappers
  import opened Text
  import opened Address
  import opened Specs
  import opened Dialling
  import opened DerivedFields
  import opened RatholeAdapter
  import opened ChiselAdapter
  import opened FrpAdapter
  import opened BackhaulAdapter

  // ---------- rathole ----------

  /** The port an address field leads to: the one it states, unless that is 0, and else the default. */
  ghost predicate PortIs(spec: Spec, key: Key, default: nat, port: nat) {
    && (key !in spec ==> port == default)
    && (key in spec && !Truthy(spec[key]) ==> port == default)
    && (forall host, p | Recoverable(host, p) && Get(spec, key) == Str(FormatAddressPort(host, p)) ::
          port == if p == None || p == Some(0) then default else p.value)
  }

  lemma DefaultLocal()
    ensures StatedPort(Str("127.0.0.1:8080")) == 8080
  {
    DefaultTarget();
    if StatedPort(Str("127.0.0.1:8080")) == 0 {
      EightyEighty();
    }
    hide StatedPort;
  }

  lemma EightyEighty()
    ensures StatedPort(Str("127.0.0.1:8080")) != 0
  {
    hide IsIPv6, Strip, ParseAddressPort, Value;
    assert "127.0.0.1:8080" == "127.0.0.1" + ":" + "8080";
    StatedAfterHost("127.0.0.1", "8080");
    SolidEnds("127.0.0.1:8080");
    OneColonNotIPv6("127.0.0.1", "8080");
    ValueSnoc("8", '0');
    ValueSnoc("80", '8');
    ValueSnoc("808", '0');
    SingleDigit('8');
    assert "8" + ['0'] == "80" && "80" + ['8'] == "808" && "808" + ['0'] == "8080";
  }

  lemma SingleDigit(c: char)
    requires IsDigit(c)
    ensures IsNumeral([c]) && Value([c]) == DigitValue(c)
  {
  }

  /** The port the client leads to when it has no list is that of its local address, 8080 by default. */
  lemma RatholeLocalPort(spec: Spec)
    requires !Truthy(Get(spec, PORTS))
    ensures ClientPorts(spec).Some? <==> (LOCAL_ADDR in spec && Truthy(spec[LOCAL_ADDR]) ==> spec[LOCAL_ADDR].Str?)
    ensures ClientPorts(spec).Some? ==>
              |ClientPorts(spec).value| == 1 && ClientPorts(spec).value[0].Num?
              && PortIs(spec, LOCAL_ADDR, 8080, ClientPorts(spec).value[0].n)
  {
    DefaultLocal();
    forall host, p | Recoverable(host, p) && Get(spec, LOCAL_ADDR) == Str(FormatAddressPort(host, p))
      ensures StatedPort(Get(spec, LOCAL_ADDR)) == if p.Some? then p.value else 0
    {
      StatedPrinted(host, p);
    }
    assert !Truthy(Get(spec, LOCAL_ADDR)) ==> StatedPort(Get(spec, LOCAL_ADDR)) == 0;
    hide Recoverable, FormatAddressPort, StatedPort;
  }

  /** A rathole server: transport, TLS and token as the spec says; the ports of its list, or else the first of
      three fields. Without token or ports it raises. */
  lemma RatholeServes(id: string, spec: Spec, transport: string, token: string, proxy: Json)
    requires Get(spec, MODE) == Str("server") && Names(spec, transport) && Get(spec, TOKEN) == Str(token)
    requires IsFirst(proxy, [Get(spec, PROXY_PORT), Get(spec, REMOTE_PORT), Get(spec, LISTEN_PORT)])
    requires BIND_ADDR in spec && Truthy(spec[BIND_ADDR]) ==> spec[BIND_ADDR].Str?
    ensures var a := RatholeApply(id, spec);
            var websocket := Lower(transport) == "ws" || Lower(transport) == "websocket";
            var tls := Truthy(Get(spec, WEBSOCKET_TLS)) || Truthy(Get(spec, TLS));
            && (Strip(token) == "" ==> a == None)
            && (Strip(token) != "" && !Truthy(Get(spec, PORTS)) && !Truthy(proxy) ==> a == None)
            && (Strip(token) != "" && !Truthy(Get(spec, PORTS)) && Truthy(proxy) ==>
                  exists bind :: a == Some(RatholeServer(bind, Strip(token), websocket, websocket && tls,
                                                         Services(id, [proxy]))) && BindIs(spec, bind))
            && (Strip(token) != "" && Truthy(Get(spec, PORTS)) && Get(spec, PORTS).Arr? ==>
                  exists bind :: a == Some(RatholeServer(bind, Strip(token), websocket, websocket && tls,
                                                         Services(id, Get(spec, PORTS).items))) && BindIs(spec, bind))
  {
    NamedTransport(spec, transport);
    FirstOfThree(proxy, Get(spec, PROXY_PORT), Get(spec, REMOTE_PORT), Get(spec, LISTEN_PORT));
    ServedAt(id, spec, transport, token);
    TlsAsked(transport, spec);
    BindCases(spec);
    hide Names, IsFirst, Lower, Services, BindIs, Transport, Strip, BindAddress, RatholeApply, IsWebsocket, WantsTls;
    PortsServed(spec);
    hide ServerPorts, Truthy, Get, Or;
  }

  lemma PortsServed(spec: Spec)
    ensures var proxy := Or(Or(Get(spec, PROXY_PORT), Get(spec, REMOTE_PORT)), Get(spec, LISTEN_PORT));
            && (!Truthy(Get(spec, PORTS)) ==> ServerPorts(spec) == if Truthy(proxy) then Some([proxy]) else None)
            && (Truthy(Get(spec, PORTS)) && Get(spec, PORTS).Arr? ==> ServerPorts(spec) == Some(Get(spec, PORTS).items))
  {
  }

  /** What the server's configuration is made of. */
  lemma ServedAt(id: string, spec: Spec, transport: string, token: string)
    requires Get(spec, MODE) == Str("server") && Transport(spec) == Str(transport) && Get(spec, TOKEN) == Str(token)
    requires BIND_ADDR in spec && Truthy(spec[BIND_ADDR]) ==> spec[BIND_ADDR].Str?
    ensures RatholeApply(id, spec) ==
            if Strip(token) == "" || ServerPorts(spec) == None then None
            else Some(RatholeServer(BindAddress(spec), Strip(token), IsWebsocket(transport),
                                    IsWebsocket(transport) && WantsTls(spec), Services(id, ServerPorts(spec).value)))
  {
    hide Services, IsWebsocket, WantsTls, Strip, ServerPorts, ParseAddressPort, Decimal, Transport;
  }

  lemma TlsAsked(transport: string, spec: Spec)
    ensures IsWebsocket(transport) <==> Lower(transport) == "ws" || Lower(transport) == "websocket"
    ensures WantsTls(spec) <==> Truthy(Get(spec, WEBSOCKET_TLS)) || Truthy(Get(spec, TLS))
  {
    hide Lower, Truthy;
  }

  function BindAddress(spec: Spec): string {
    var bind := GetOr(spec, BIND_ADDR, Str("0.0.0.0:23333"));
    if StatedPort(bind) != 0 && bind.Str? then ParseAddressPort(bind.s).host + ":" + Decimal(StatedPort(bind))
    else "0.0.0.0:23333"
  }

  /** The address a rathole server binds: all addresses at 23333 unless its field states a port other than 0,
      and then the host and the port that it states. */
  ghost predicate BindIs(spec: Spec, bind: string) {
    && (BIND_ADDR !in spec || !Truthy(spec[BIND_ADDR]) ==> bind == "0.0.0.0:23333")
    && (forall host, p | Recoverable(host, p) && Get(spec, BIND_ADDR) == Str(FormatAddressPort(host, p)) ::
          bind == if p == None || p == Some(0) then "0.0.0.0:23333" else host + ":" + Decimal(p.value))
  }

  lemma BindCases(spec: Spec)
    requires BIND_ADDR in spec && Truthy(spec[BIND_ADDR]) ==> spec[BIND_ADDR].Str?
    ensures BindIs(spec, BindAddress(spec))
  {
    hide Recoverable, FormatAddressPort, StatedPort, ParseAddressPort, Truthy, Decimal, IsIPv6;
    var bind := GetOr(spec, BIND_ADDR, Str("0.0.0.0:23333"));
    DefaultBound();
    StatedOnlyInText(bind);
    forall host, p | Recoverable(host, p) && Get(spec, BIND_ADDR) == Str(FormatAddressPort(host, p))
      ensures StatedPort(bind) == if p.Some? then p.value else 0
      ensures bind == Str(FormatAddressPort(host, p)) && ParseAddressPort(bind.s).host == host
    {
      StatedPrinted(host, p);
      RoundTrip(host, p);
    }
  }

  lemma StatedOnlyInText(j: Json)
    ensures StatedPort(j) != 0 ==> j.Str? && Truthy(j)
  {
    hide ParseAddressPort;
  }

  lemma DefaultBound()
    ensures StatedPort(Str("0.0.0.0:23333")) == 23333 && ParseAddressPort("0.0.0.0:23333").host == "0.0.0.0"
    ensures "0.0.0.0" + ":" + Decimal(23333) == "0.0.0.0:23333"
  {
    hide ParseAddressPort, StatedPort, IsIPv6, Value, Decimal, IsNumeral, PlainHost;
    DefaultStated();
    Spelt23333();
    AnyAddressPlain();
    assert "0.0.0.0" + ":" + "23333" == "0.0.0.0:23333";
    PlainHostEndpoint("0.0.0.0", "23333");
    OneColonNotIPv6("0.0.0.0", "23333");
    Decimal23333();
  }

  lemma Decimal23333()
    ensures Decimal(23333) == "23333"
  {
    assert Decimal(2) == "2";
    assert Decimal(23) == "23";
    assert Decimal(233) == "233";
    assert Decimal(2333) == "2333";
  }

  /** A rathole client: the address without the scheme, TLS when the scheme or the spec says so. */
  lemma RatholeDials(id: string, spec: Spec, transport: string, token: string, remote: string)
    requires Get(spec, MODE) != Str("server") && Names(spec, transport)
    requires Get(spec, TOKEN) == Str(token) && Strip(token) != ""
    requires Get(spec, REMOTE_ADDR) == Str(remote) && ClientPorts(spec).Some?
    ensures var a := RatholeApply(id, spec);
            var websocket := Lower(transport) == "ws" || Lower(transport) == "websocket";
            var tls := Truthy(Get(spec, WEBSOCKET_TLS)) || Truthy(Get(spec, TLS));
            var services := Services(id, ClientPorts(spec).value);
            && (Strip(remote) == "" ==> a == None)
            && (forall rest | Strip(remote) == "ws://" + rest ::
                  a == Some(RatholeClient(rest, Strip(token), websocket, websocket && tls, services)))
            && (forall rest | Strip(remote) == "wss://" + rest ::
                  a == Some(RatholeClient(rest, Strip(token), websocket, websocket, services)))
            && (Strip(remote) != "" && !("ws://" <= Strip(remote)) && !("wss://" <= Strip(remote)) ==>
                  a == Some(RatholeClient(Strip(remote), Strip(token), websocket, websocket && tls, services)))
  {
    NamedTransport(spec, transport);
    DialledAt(id, spec, transport, token, remote);
    TlsAsked(transport, spec);
    SchemeDropped(Strip(remote));
    hide Names, Lower, Truthy, Services, Transport, Strip, ClientPorts, SaysTls, StripScheme, IsWebsocket, WantsTls;
    hide RatholeApply, Get;
  }

  /** What the client's configuration is made of. */
  lemma DialledAt(id: string, spec: Spec, transport: string, token: string, remote: string)
    requires Get(spec, MODE) != Str("server") && Transport(spec) == Str(transport)
    requires Get(spec, TOKEN) == Str(token) && Strip(token) != ""
    requires Get(spec, REMOTE_ADDR) == Str(remote) && ClientPorts(spec).Some?
    ensures RatholeApply(id, spec) ==
            if Strip(remote) == "" then None
            else Some(RatholeClient(StripScheme(Strip(remote)), Strip(token), IsWebsocket(transport),
                                    IsWebsocket(transport) && (SaysTls(Strip(remote)) || WantsTls(spec)),
                                    Services(id, ClientPorts(spec).value)))
  {
    hide Services, IsWebsocket, WantsTls, Strip, ClientPorts, StripScheme, SaysTls, Transport;
  }

  /** What the adapters do to a scheme. */
  lemma SchemeDropped(s: string)
    ensures forall rest | s == "ws://" + rest :: StripScheme(s) == rest && !SaysTls(s)
    ensures forall rest | s == "wss://" + rest :: StripScheme(s) == rest && SaysTls(s)
    ensures !("ws://" <= s) && !("wss://" <= s) ==> StripScheme(s) == s && !SaysTls(s)
  {
    forall rest | s == "ws://" + rest ensures StripScheme(s) == rest && !SaysTls(s) {
      assert s[..5] == "ws://" && s[5..] == rest && s[2] == ':';
      assert |s| >= 6 ==> s[..6][2] == s[2];
    }
    forall rest | s == "wss://" + rest ensures StripScheme(s) == rest && SaysTls(s) {
      assert s[..6] == "wss://" && s[6..] == rest && s[2] == 's';
      assert s[..5][2] == s[2];
    }
  }

  // ---------- chisel ----------

  /** A chisel server: it needs a port to serve and a port to expose, each the first of three fields. */
  lemma ChiselServes(spec: Spec, port: Json, reverse: Json)
    requires Get(spec, MODE) == Str("server")
    requires IsFirst(port, [Get(spec, SERVER_PORT), Get(spec, CONTROL_PORT), Get(spec, LISTEN_PORT)])
    requires IsFirst(reverse, [Get(spec, REVERSE_PORT), Get(spec, REMOTE_PORT), Get(spec, LISTEN_PORT)])
    ensures ChiselApply(spec) == if Truthy(port) && Truthy(reverse) then Some(ChiselServer(Show(port))) else None
  {
    FirstOfThree(port, Get(spec, SERVER_PORT), Get(spec, CONTROL_PORT), Get(spec, LISTEN_PORT));
    FirstOfThree(reverse, Get(spec, REVERSE_PORT), Get(spec, REMOTE_PORT), Get(spec, LISTEN_PORT));
    hide IsFirst, Truthy, Show;
  }

  /** What a chisel client exposes: its list, or else the first of four fields. */
  lemma ChiselDials(spec: Spec, reverse: Json)
    requires IsFirst(reverse, [Get(spec, REVERSE_PORT), Get(spec, REMOTE_PORT), Get(spec, LISTEN_PORT),
                               Get(spec, SERVER_PORT)])
    ensures Truthy(Get(spec, PORTS)) && Get(spec, PORTS).Arr? ==> ChiselPorts(spec) == Some(Get(spec, PORTS).items)
    ensures !Truthy(Get(spec, PORTS)) ==> ChiselPorts(spec) == if Truthy(reverse) then Some([reverse]) else None
  {
    FirstOfFour(reverse, Get(spec, REVERSE_PORT), Get(spec, REMOTE_PORT), Get(spec, LISTEN_PORT),
                Get(spec, SERVER_PORT));
    hide IsFirst, Truthy;
  }

  // ---------- frp ----------

  /** An frp server binds its bind port, 7000 by default. */
  lemma FrpServes(id: string, spec: Spec)
    requires Get(spec, MODE) == Str("server")
    ensures FrpApply(id, spec) ==
            Some(FrpServer(Show(if BIND_PORT in spec then spec[BIND_PORT] else Num(7000)),
                           if Truthy(Get(spec, TOKEN)) then Show(Get(spec, TOKEN)) else ""))
  {
    hide Show, Truthy;
  }

  /** An frp client: it refuses an empty address, the unspecified one and three names of this host, also
      in brackets; and any type but tcp and udp. The type defaults to tcp, the port to 7000, the local
      host to the loopback. */
  lemma FrpDials(id: string, spec: Spec, address: string, kind: string)
    requires Get(spec, MODE) != Str("server")
    requires Get(spec, SERVER_ADDR) == Str(address) && Strip(address) == address
    requires if TYPE in spec then spec[TYPE] == Str(kind) else kind == "tcp"
    requires FrpPorts(spec).Some?
    ensures var a := FrpApply(id, spec);
            && (address in {"", "0.0.0.0", "localhost", "127.0.0.1", "::1", "[]", "[::1]", "[127.0.0.1]"} ==> a == None)
            && (Lower(kind) != "tcp" && Lower(kind) != "udp" ==> a == None)
            && (a.Some? ==>
                  && a.value.FrpClient? && a.value.kind == Lower(kind)
                  && a.value.serverPort == Show(if SERVER_PORT in spec then spec[SERVER_PORT] else Num(7000))
                  && a.value.proxies ==
                       Proxies(id, Show(if LOCAL_IP in spec then spec[LOCAL_IP] else Str("127.0.0.1")),
                               FrpPorts(spec).value)
                  && (forall host | address == "[" + host + "]" :: a.value.serverAddr == host)
                  && ((address[0] != '[' || address[|address| - 1] != ']') ==> a.value.serverAddr == address))
            && (((Lower(kind) == "tcp" || Lower(kind) == "udp") && address != "" && address[0] != '['
                 && address !in {"0.0.0.0", "localhost", "127.0.0.1", "::1"}) ==> a.Some?)
  {
    DialledTo(id, spec, address, kind);
    Unbracketed(address);
    hide Lower, Show, Truthy, FrpPorts, Proxies, TokenText, FrpApply, Unbracket, IsLoopback, Strip, Get;
  }

  lemma DialledTo(id: string, spec: Spec, address: string, kind: string)
    requires Get(spec, MODE) != Str("server") && Get(spec, SERVER_ADDR) == Str(address) && Strip(address) == address
    requires if TYPE in spec then spec[TYPE] == Str(kind) else kind == "tcp"
    requires FrpPorts(spec).Some?
    ensures var host := Unbracket(address);
            FrpApply(id, spec) ==
            if address == "" || (Lower(kind) != "tcp" && Lower(kind) != "udp") || host == "" || IsLoopback(host)
            then None
            else Some(FrpClient(host, Show(if SERVER_PORT in spec then spec[SERVER_PORT] else Num(7000)),
                                TokenText(Get(spec, TOKEN)), Lower(kind),
                                Proxies(id, Show(if LOCAL_IP in spec then spec[LOCAL_IP] else Str("127.0.0.1")),
                                        FrpPorts(spec).value)))
  {
    hide Lower, Show, Truthy, FrpPorts, Proxies, TokenText, Unbracket, IsLoopback, Strip;
  }

  /** Brackets around an address go, and the names of this host are refused. */
  lemma Unbracketed(address: string)
    ensures forall host | address == "[" + host + "]" :: Unbracket(address) == host
    ensures address == "" || address[0] != '[' || address[|address| - 1] != ']' ==> Unbracket(address) == address
    ensures IsLoopback(Unbracket(address)) || Unbracket(address) == "" <==>
              || address == "" || IsLoopback(address) || address == "[]" || address == "[0.0.0.0]"
              || address == "[localhost]" || address == "[127.0.0.1]" || address == "[::1]"
    ensures IsLoopback(address) <==> address in {"0.0.0.0", "localhost", "127.0.0.1", "::1"}
  {
    forall host | address == "[" + host + "]" ensures Unbracket(address) == host {
      InBrackets(host);
    }
    if |address| >= 2 && address[0] == '[' && address[|address| - 1] == ']' {
      var n := |address| - 1;
      var host := address[1..n];
      assert [address[0]] == "[" && [address[n]] == "]";
      assert address == [address[0]] + host + [address[n]];
      assert Unbracket(address) == host && !IsLoopback(address);
      LoopbackInBrackets(host);
    } else {
      assert Unbracket(address) == address;
      NoBrackets(address);
    }
    hide Unbracket;
  }

  lemma InBrackets(host: string)
    ensures Unbracket("[" + host + "]") == host
  {
    var s := "[" + host + "]";
    assert s[0] == '[' && s[|s| - 1] == ']' && s[1..|s| - 1] == host;
  }

  lemma LoopbackInBrackets(host: string)
    ensures IsLoopback(host) || host == "" <==>
              var s := "[" + host + "]";
              s == "[]" || s == "[0.0.0.0]" || s == "[localhost]" || s == "[127.0.0.1]" || s == "[::1]"
  {
    var s := "[" + host + "]";
    assert s[1..|s| - 1] == host;
    assert "[]"[1..1] == "" && "[0.0.0.0]"[1..8] == "0.0.0.0" && "[localhost]"[1..10] == "localhost";
    assert "[127.0.0.1]"[1..10] == "127.0.0.1" && "[::1]"[1..4] == "::1";
  }

  lemma NoBrackets(s: string)
    requires |s| < 2 || s[0] != '[' || s[|s| - 1] != ']'
    ensures s != "[]" && s != "[0.0.0.0]" && s != "[localhost]" && s != "[127.0.0.1]" && s != "[::1]"
  {
  }

  // ---------- backhaul ----------

  lemma BackhaulTransports(transport: string)
    ensures IsBackhaulTransport(transport) <==> transport in {"tcp", "udp", "ws", "wsmux", "tcpmux"}
  {
  }

  /** A set of options is an object, or nothing at all. */
  lemma OptionsAre(spec: Spec, key: Key)
    ensures key in spec && spec[key].Obj? ==> Options(spec, key) == Some(spec[key].fields)
    ensures key !in spec || (!spec[key].Obj? && !Truthy(spec[key])) ==> Options(spec, key) == Some(map[])
    ensures key in spec && !spec[key].Obj? && Truthy(spec[key]) ==> Options(spec, key) == None
  {
  }

  /** A backhaul server: the address it is told, or else one made of a host and the first of two ports, 3080
      by default; and a token from the spec or from the server options. */
  lemma BackhaulServes(spec: Spec, transport: string, control: Json, options: Spec, token: Json)
    requires Get(spec, MODE) == Str("server") && Names(spec, transport)
    requires IsFirst(control, [Get(spec, CONTROL_PORT), Get(spec, LISTEN_PORT), Num(3080)])
    requires Options(spec, SERVER_OPTIONS) == Some(options) && IsFirst(token, [Get(spec, TOKEN), Get(options, TOKEN)])
    ensures BackhaulApply(spec) ==
            if Lower(transport) !in {"tcp", "udp", "ws", "wsmux", "tcpmux"} then None
            else Some(BackhaulServer(
              if Truthy(Get(spec, BIND_ADDR)) then Show(Get(spec, BIND_ADDR))
              else Show(if BIND_IP in spec then spec[BIND_IP] else Str("0.0.0.0")) + ":" + Show(control),
              Lower(transport), if Truthy(token) then Show(token) else "", ServedPorts(spec)))
  {
    NamedTransport(spec, transport);
    BackhaulTransports(Lower(transport));
    FirstOfThree(control, Get(spec, CONTROL_PORT), Get(spec, LISTEN_PORT), Num(3080));
    FirstOfTwo(token, Get(spec, TOKEN), Get(options, TOKEN));
    hide Names, IsFirst, Lower, Truthy, Show, ServedPorts, Options, Transport, IsBackhaulTransport, Or;
  }

  /** A backhaul client: the first of three addresses, without the scheme. */
  lemma BackhaulDials(spec: Spec, transport: string, remote: Json, options: Spec, token: Json)
    requires Get(spec, MODE) != Str("server") && Names(spec, transport)
    requires IsFirst(remote, [Get(spec, REMOTE_ADDR), Get(spec, OTHER("control_addr")), Get(spec, BIND_ADDR)])
    requires Options(spec, OTHER("client_options")) == Some(options)
    requires IsFirst(token, [Get(spec, TOKEN), Get(options, TOKEN)])
    ensures BackhaulApply(spec) ==
            if Lower(transport) !in {"tcp", "udp", "ws", "wsmux", "tcpmux"} || !remote.Str? || remote.s == "" then None
            else Some(BackhaulClient(StripScheme(remote.s), Lower(transport),
                                     if Truthy(token) then Show(token) else ""))
  {
    NamedTransport(spec, transport);
    BackhaulTransports(Lower(transport));
    FirstOfThree(remote, Get(spec, REMOTE_ADDR), Get(spec, OTHER("control_addr")), Get(spec, BIND_ADDR));
    FirstOfTwo(token, Get(spec, TOKEN), Get(options, TOKEN));
    hide Names, IsFirst, Lower, Truthy, Show, Options, Transport, IsBackhaulTransport, StripScheme, Or;
  }

  /** The one entry of a server without a port list: the first of two ports, to the stated target address, or
      else to the target host and port. */
  lemma BackhaulSingle(spec: Spec, listen: Json, target: Json)
    requires !Truthy(Get(spec, PORTS)) && IsFirst(listen, [Get(spec, PUBLIC_PORT), Get(spec, LISTEN_PORT)])
    requires IsFirst(target, [Get(spec, TARGET_PORT), listen])
    ensures ServedPorts(spec) ==
            if !Truthy(listen) then []
            else if Truthy(Get(spec, OTHER("target_addr"))) then
              [Show(listen) + "=" + Show(Get(spec, OTHER("target_addr")))]
            else [Show(listen) + "=" + (Show(HostOf(spec)) + ":" + Show(target))]
  {
    FirstOfTwo(listen, Get(spec, PUBLIC_PORT), Get(spec, LISTEN_PORT));
    FirstOfTwo(target, Get(spec, TARGET_PORT), listen);
    hide IsFirst, Truthy, Show;
  }

  /** A port list entry by entry: what counts as false is skipped; an object gives the first of three local
      ports, or nothing, and leads it to its own host or the spec's and to the first of its two target ports
      or the local one; anything else stands as it is printed. */
  lemma BackhaulEntry(spec: Spec, items: seq<Json>, i: nat, local: Json, host: Json, target: Json)
    requires i < |items|
    requires items[i].Obj? ==>
               var entry := items[i].fields;
               && IsFirst(local, [Get(entry, OTHER("local")), Get(entry, LISTEN_PORT), Get(entry, PUBLIC_PORT)])
               && IsFirst(host, [Get(entry, TARGET_HOST), HostOf(spec)])
               && IsFirst(target, [Get(entry, TARGET_PORT), Get(entry, REMOTE_PORT), local])
    ensures var before, after := PortEntries(items[..i], HostOf(spec)), PortEntries(items[..i + 1], HostOf(spec));
            && (!Truthy(items[i]) || (items[i].Obj? && !Truthy(local)) ==> after == before)
            && (Truthy(items[i]) && items[i].Obj? && Truthy(local) ==>
                  after == before + [Show(local) + "=" + (Show(host) + ":" + Show(target))])
            && (Truthy(items[i]) && !items[i].Obj? ==> after == before + [Show(items[i])])
    ensures PortEntries(items[..0], HostOf(spec)) == [] && items[..|items|] == items
    ensures Truthy(Get(spec, PORTS)) && Get(spec, PORTS) == Arr(items) ==>
              ServedPorts(spec) == PortEntries(items, HostOf(spec))
  {
    EntriesStep(items, i, HostOf(spec));
    EntryText(items[i], HostOf(spec), local, host, target);
    ListServed(spec, items);
    hide IsFirst, Show, PortEntry, PortEntries, Truthy, ServedPorts, HostOf, Get;
  }

  lemma EntriesStep(items: seq<Json>, i: nat, host: Json)
    requires i < |items|
    ensures PortEntries(items[..i + 1], host) ==
            PortEntries(items[..i], host) + match PortEntry(items[i], host) case Some(text) => [text] case None => []
    ensures PortEntries(items[..0], host) == []
  {
    assert items[..i + 1][..i] == items[..i];
    hide PortEntry;
  }

  lemma ListServed(spec: Spec, items: seq<Json>)
    ensures items[..|items|] == items
    ensures Truthy(Get(spec, PORTS)) && Get(spec, PORTS) == Arr(items) ==>
              ServedPorts(spec) == PortEntries(items, HostOf(spec))
  {
    hide PortEntries;
  }

  lemma EntryText(item: Json, default: Json, local: Json, host: Json, target: Json)
    requires item.Obj? ==>
               var entry := item.fields;
               && IsFirst(local, [Get(entry, OTHER("local")), Get(entry, LISTEN_PORT), Get(entry, PUBLIC_PORT)])
               && IsFirst(host, [Get(entry, TARGET_HOST), default])
               && IsFirst(target, [Get(entry, TARGET_PORT), Get(entry, REMOTE_PORT), local])
    ensures PortEntry(item, default) ==
            if !Truthy(item) || (item.Obj? && !Truthy(local)) then None
            else if item.Obj? then Some(Show(local) + "=" + (Show(host) + ":" + Show(target)))
            else Some(Show(item))
  {
    if item.Obj? {
      var entry := item.fields;
      FirstOfThree(local, Get(entry, OTHER("local")), Get(entry, LISTEN_PORT), Get(entry, PUBLIC_PORT));
      FirstOfTwo(host, Get(entry, TARGET_HOST), default);
      FirstOfThree(target, Get(entry, TARGET_PORT), Get(entry, REMOTE_PORT), local);
    }
    hide IsFirst, Truthy, Show;
  }

  // ---------- what is missing, and what is no list ----------

  /** Without a token, or without an address to dial, there is nothing to configure. */
  lemma MissingFields(id: string, spec: Spec)
    ensures TOKEN !in spec ==> RatholeApply(id, spec) == None
    ensures Get(spec, MODE) != Str("server") && REMOTE_ADDR !in spec ==> RatholeApply(id, spec) == None
    ensures Get(spec, MODE) != Str("server") && SERVER_URL !in spec ==> ChiselApply(spec) == None
    ensures Get(spec, MODE) != Str("server") && SERVER_ADDR !in spec ==> FrpApply(id, spec) == None
    ensures (Get(spec, MODE) != Str("server") && REMOTE_ADDR !in spec && OTHER("control_addr") !in spec
             && BIND_ADDR !in spec) ==> BackhaulApply(spec) == None
  {
    assert Strip("") == "";
    hide Services, IsWebsocket, WantsTls, Strip, ServerPorts, ClientPorts, ParseAddressPort, Decimal, Transport, Lower;
    hide ChiselPorts, FrpPorts, ReverseOf, Proxies, Show, Options, IsBackhaulTransport, ServedPorts, StripScheme;
    hide SaysTls;
  }

  /** A port list that is a text is taken character by character; one that is a number or a boolean raises,
      where it counts as true. */
  lemma OtherPorts(spec: Spec, text: string)
    ensures Get(spec, PORTS) == Str(text) && text != "" ==>
              var ports := seq(|text|, k requires 0 <= k < |text| => Str([text[k]]));
              ServerPorts(spec) == ClientPorts(spec) == ChiselPorts(spec) == FrpPorts(spec) == Some(ports)
    ensures (exists n: nat :: n > 0 && Get(spec, PORTS) == Num(n)) || Get(spec, PORTS) == Bool(true) ==>
              ServerPorts(spec) == ClientPorts(spec) == ChiselPorts(spec) == FrpPorts(spec) == None
  {
    hide StatedPort;
  }
}
