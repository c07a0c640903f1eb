/** What the chisel adapter makes of the halves the panel sends, and that the two ends meet. */
module ChiselAdapter {
  import opened Wrappers
  import opened Text
  import opened Address
  import opened Specs
  import opened Dialling

  // ---------- configurations ----------

  datatype Reverse = Reverse(port: string, host: string, local: string)

  datatype ChiselConfig =
    | ChiselServer(port: string)
    | ChiselClient(url: string, reverses: seq<Reverse>)

  /** Where the traffic of an exposed port goes; `local` is the stated local address. */
  function ReverseOf(port: Json, local: Json): Reverse
    requires Truthy(local) ==> local.Str?
  {
    var text := PortText(port);
    var address := if Truthy(local) then local.s else "127.0.0.1:" + text;
    var end := ParseAddressPort(address);
    if end.port == None || end.port == Some(0) then Reverse(text, if end.ipv6 then "[127.0.0.1]" else "127.0.0.1", text)
    else Reverse(text, if end.ipv6 then "[" + end.host + "]" else end.host, Decimal(end.port.value))
  }

  function ChiselPorts(spec: Spec): Option<seq<Json>> {
    var listen := Or(Or(Get(spec, REVERSE_PORT), Get(spec, REMOTE_PORT)), Get(spec, LISTEN_PORT));
    var reverse := Or(listen, Get(spec, SERVER_PORT));
    if Truthy(Get(spec, PORTS)) then Items(Get(spec, PORTS))
    else if Truthy(reverse) then Some([reverse])
    else None
  }

  function ChiselApply(spec: Spec): Option<ChiselConfig> {
    if GetOr(spec, MODE, Str("client")) == Str("server") then ServeChisel(spec) else DialChisel(spec)
  }

  function ServeChisel(spec: Spec): Option<ChiselConfig> {
    var port := Or(Or(Get(spec, SERVER_PORT), Get(spec, CONTROL_PORT)), Get(spec, LISTEN_PORT));
    var reverse := Or(Or(Get(spec, REVERSE_PORT), Get(spec, REMOTE_PORT)), Get(spec, LISTEN_PORT));
    if !Truthy(port) || !Truthy(reverse) then None else Some(ChiselServer(Show(port)))
  }

  function DialChisel(spec: Spec): Option<ChiselConfig> {
    var url, ports, local := SolidText(spec, SERVER_URL), ChiselPorts(spec), Get(spec, LOCAL_ADDR);
    if url == None || ports == None || (Truthy(local) && !local.Str?) then None
    else
      var list := ports.value;
      Some(ChiselClient(url.value, seq(|list|, i requires 0 <= i < |list| => ReverseOf(list[i], local))))
  }

  // ---------- the two ends meet ----------

  /** The authority part of an `http://` URL. */
  function Authority(url: string): string {
    if |url| >= 7 && url[..7] == "http://" then url[7..] else url
  }

  /** The host the URL names: re-applying brackets an IPv6 literal, the other derivations do not. */
  function ChiselHost(ip: string, brackets: bool): string {
    if brackets && IsIPv6(ip) then "[" + ip + "]" else ip
  }

  lemma UrlKept(host: string, numeral: string)
    requires IsNumeral(numeral)
    ensures var url := "http://" + host + ":" + numeral; Strip(url) == url && Authority(url) == host + ":" + numeral
  {
    LastDigit(numeral);
    var url := "http://" + host + ":" + numeral;
    assert url[0] == 'h' && url[|url| - 1] == numeral[|numeral| - 1];
    SolidEnds(url);
    assert url == "http://" + (host + ":" + numeral);
  }

  lemma BracketedNeverRunsTogether(host: string, numeral: string)
    requires host != "" && host[0] == '[' && IsNumeral(numeral)
    ensures !IsIPv6(Strip(host + ":" + numeral))
  {
    LastDigit(numeral);
    var s := host + ":" + numeral;
    assert s[0] == '[' && s[|s| - 1] == numeral[|numeral| - 1];
    SolidEnds(s);
    BracketedIsNotIPv6(s);
  }

  /** What either derivation gives a pair of chisel halves. */
  predicate ChiselPair(server: Spec, client: Spec, host: string, control: Json) {
    && Get(server, MODE) == Str("server") && Get(client, MODE) == Str("client")
    && Truthy(control) && Get(server, SERVER_PORT) == control
    && Truthy(Get(server, REVERSE_PORT)) && Get(client, REVERSE_PORT) == Get(server, REVERSE_PORT)
    && Get(client, SERVER_URL) == Str("http://" + host + ":" + Show(control))
  }

  lemma ChiselRestoredPair(spec: Spec, ip: string, offset: nat)
    requires ChiselHalves(spec, ip, offset).Halves? && offset > 0
    ensures var d := ChiselHalves(spec, ip, offset);
            ChiselPair(d.server, d.client, ChiselHost(ip, false), ChiselControl(spec, offset).value)
            && Get(d.client, PORTS) == Get(spec, PORTS) && Get(d.client, REVERSE_PORT) == ChiselListen(spec)
  {
    hide PortNumber, Show, IsIPv6;
  }

  lemma ChiselReappliedPair(spec: Spec, ip: string, hash: nat)
    requires ChiselReapplied(spec, ip, hash).Halves?
    ensures var d := ChiselReapplied(spec, ip, hash);
            ChiselPair(d.server, d.client, ChiselHost(ip, true), ChiselControl(spec, 10000 + hash % 1000).value)
            && Get(d.client, PORTS) == Get(spec, PORTS) && Get(d.client, REVERSE_PORT) == ChiselListen(spec)
  {
    hide PortNumber, Show, IsIPv6;
  }

  function Bracketed(ip: string): string {
    if IsIPv6(ip) then "[" + ip + "]" else ip
  }

  /** The reverse tunnel of an exposed port leads to the stated local address; to the same port of this
      host when the address states no port, or port 0, or is not stated at all. */
  ghost predicate Leads(r: Reverse, port: Json, local: Json) {
    && r.port == PortText(port)
    && (!Truthy(local) && PortNumber(port).Some? ==> r.host == "127.0.0.1" && r.local == r.port)
    && forall host, p | Recoverable(host, p) && host != "" && local == Str(FormatAddressPort(host, p)) ::
         if p == None || p == Some(0)
         then r.host == (if IsIPv6(host) then "[127.0.0.1]" else "127.0.0.1") && r.local == r.port
         else r.host == Bracketed(host) && r.local == Decimal(p.value)
  }

  lemma ReverseLeads(port: Json, local: Json)
    requires AddressUsable(local)
    ensures Leads(ReverseOf(port, local), port, local)
  {
    var r := ReverseOf(port, local);
    if !Truthy(local) && PortNumber(port).Some? {
      DefaultReverse(port, local);
    }
    forall host, p | Recoverable(host, p) && host != "" && local == Str(FormatAddressPort(host, p))
      ensures if p == None || p == Some(0)
              then r.host == (if IsIPv6(host) then "[127.0.0.1]" else "127.0.0.1") && r.local == r.port
              else r.host == Bracketed(host) && r.local == Decimal(p.value)
    {
      StatedReverse(port, host, p);
    }
    assert r.port == PortText(port);
    hide Recoverable, FormatAddressPort, ReverseOf, IsIPv6, PortText, Decimal, Bracketed;
  }

  lemma StatedReverse(port: Json, host: string, p: Option<nat>)
    requires Recoverable(host, p) && host != ""
    ensures ReverseOf(port, Str(FormatAddressPort(host, p))) ==
            if p == None || p == Some(0)
            then Reverse(PortText(port), if IsIPv6(host) then "[127.0.0.1]" else "127.0.0.1", PortText(port))
            else Reverse(PortText(port), Bracketed(host), Decimal(p.value))
  {
    hide Recoverable, FormatAddressPort, ParseAddressPort, IsIPv6, PortText, Decimal;
    RoundTrip(host, p);
    PrintedNotEmpty(host, p);
  }

  lemma PrintedNotEmpty(host: string, port: Option<nat>)
    requires host != ""
    ensures FormatAddressPort(host, port) != ""
  {
    hide IsIPv6, Decimal;
  }

  /** The client exposes the listed ports in order, or else the one reverse port, each leading where
      the local address says. */
  ghost predicate Exposes(c: ChiselConfig, client: Spec, reverse: Json) {
    && c.ChiselClient?
    && if Truthy(Get(client, PORTS)) then
         && Items(Get(client, PORTS)).Some? && |c.reverses| == |Items(Get(client, PORTS)).value|
         && forall i | 0 <= i < |c.reverses| ::
              Leads(c.reverses[i], Items(Get(client, PORTS)).value[i], Get(client, LOCAL_ADDR))
       else |c.reverses| == 1 && Leads(c.reverses[0], reverse, Get(client, LOCAL_ADDR))
  }

  /** The client's configuration: its URL, and what it exposes. */
  lemma DialChiselIs(server: Spec, client: Spec, host: string, control: Json)
    requires ChiselPair(server, client, host, control) && IsNumeral(Show(control))
    ensures ChiselApply(client).Some? <==> PortsUsable(Get(client, PORTS)) && AddressUsable(Get(client, LOCAL_ADDR))
    ensures ChiselApply(client).Some? ==>
              var c := ChiselApply(client).value;
              Exposes(c, client, Get(server, REVERSE_PORT)) && c.url == "http://" + host + ":" + Show(control)
  {
    var url := "http://" + host + ":" + Show(control);
    UrlKept(host, Show(control));
    assert url != "";
    hide IsNumeral, Show, ReverseOf, Strip, Authority, PortText, Items, Leads;
    assert SolidText(client, SERVER_URL) == Some(url);
    if AddressUsable(Get(client, LOCAL_ADDR)) {
      forall port ensures Leads(ReverseOf(port, Get(client, LOCAL_ADDR)), port, Get(client, LOCAL_ADDR)) {
        ReverseLeads(port, Get(client, LOCAL_ADDR));
      }
    }
  }

  /** Both chisel ends, for any derivation: the server always starts on the control port; the client
      dials it unless host and port run together, and exposes the listed ports or the listening one,
      leading each to the stated local address. */
  lemma ChiselMeets(server: Spec, client: Spec, host: string, control: Json)
    requires ChiselPair(server, client, host, control) && PortNumber(control).Some?
    ensures ChiselApply(server) == Some(ChiselServer(Show(control)))
    ensures ChiselApply(client).Some? <==> PortsUsable(Get(client, PORTS)) && AddressUsable(Get(client, LOCAL_ADDR))
    ensures ChiselApply(client).Some? ==>
              var c := ChiselApply(client).value;
              && Exposes(c, client, Get(server, REVERSE_PORT))
              && (DialPort(Authority(c.url)) == PortNumber(control) <==> !IsIPv6(Strip(host + ":" + Show(control))))
  {
    ProxyNumeral(control);
    ServeChiselIs(server, client, host, control);
    DialChiselIs(server, client, host, control);
    UrlKept(host, Show(control));
    JoinedPortAt(host, Show(control));
    DialPortAt(host + ":" + Show(control), |host|);
    hide IsIPv6, Value, Strip, IsNumeral, DialPort, PortNumber, Show, Authority, ChiselApply, Exposes;
    hide ChiselPair, PortAt;
  }

  lemma ServeChiselIs(server: Spec, client: Spec, host: string, control: Json)
    requires ChiselPair(server, client, host, control)
    ensures ChiselApply(server) == Some(ChiselServer(Show(control)))
  {
    hide Show;
  }

  /** Restored, reset or re-applied: with a plain host the client dials the server's port exactly
      when the URL has brackets or host and port do not run together. */
  lemma ChiselAlwaysMeets(spec: Spec, ip: string, offset: nat, hash: nat, reapplied: bool, d: Derivation)
    requires d == if reapplied then ChiselReapplied(spec, ip, hash) else ChiselHalves(spec, ip, offset)
    requires d.Halves? && offset > 0 && (reapplied ==> offset == 10000 + hash % 1000)
    requires PlainHost(ip) && PortNumber(ChiselControl(spec, offset).value).Some?
    requires ChiselApply(d.client).Some?
    ensures ChiselApply(d.client).value.ChiselClient?
    ensures var control := ChiselControl(spec, offset).value;
            && ChiselApply(d.server) == Some(ChiselServer(Show(control)))
            && (DialPort(Authority(ChiselApply(d.client).value.url)) == PortNumber(control) <==>
                  (reapplied && IsIPv6(ip)) || !IsIPv6(ip + ":" + Show(control)))
  {
    var host, control := ChiselHost(ip, reapplied), ChiselControl(spec, offset).value;
    hide ChiselHalves, ChiselReapplied, ChiselApply, ChiselPair, ChiselControl;
    hide IsIPv6, Strip, IsNumeral, DialPort, Decimal, PlainHost, PortNumber, Show, Authority;
    if reapplied {
      ChiselReappliedPair(spec, ip, hash);
    } else {
      ChiselRestoredPair(spec, ip, offset);
    }
    ChiselMeets(d.server, d.client, host, control);
    ProxyNumeral(control);
    RunTogether(ip, Show(control));
    if reapplied && IsIPv6(ip) {
      BracketedNeverRunsTogether(host, Show(control));
    }
  }

  // ---------- where the traffic goes ----------

  /** Without a stated local address the traffic of a port goes to the same port of this host. */
  lemma DefaultReverse(port: Json, local: Json)
    requires PortNumber(port).Some? && !Truthy(local)
    ensures ReverseOf(port, local) == Reverse(PortText(port), "127.0.0.1", PortText(port))
  {
    ProxyNumeral(port);
    var n := PortNumber(port).value;
    DecimalValue(n);
    LoopbackEndpoint(Decimal(n));
    hide Truthy, PortText, PortNumber, Decimal, Value, IsNumeral, ParseAddressPort;
  }

  lemma LoopbackEndpoint(numeral: string)
    requires IsNumeral(numeral)
    ensures ParseAddressPort("127.0.0.1:" + numeral) == Endpoint("127.0.0.1", Some(Value(numeral)), false)
  {
    OneColonNotIPv6("127.0.0.1", numeral);
    NoColonNotIPv6("127.0.0.1");
    hide IsIPv6, Value, IsNumeral, ParseAddressPort;
    assert "127.0.0.1:" + numeral == "127.0.0.1" + ":" + numeral;
    PlainHostEndpoint("127.0.0.1", numeral);
  }

  /** What the client of every derivation exposes. */
  function ChiselEntries(spec: Spec): seq<Json>
    requires PortsUsable(Get(spec, PORTS))
  {
    if Truthy(Get(spec, PORTS)) then Items(Get(spec, PORTS)).value else [ChiselListen(spec)]
  }

  /** The local address a restored or reset client is given where none is stated. */
  function ChiselDefault(spec: Spec, ip: string): string {
    ip + ":" + Show(ChiselListen(spec))
  }

  lemma SolidHead(s: string)
    requires s != "" && !IsSpace(s[0])
    ensures Strip(s) != ""
  {
  }

  /** When the client of a derivation starts, and the reverses it is given. */
  lemma ReversesAre(spec: Spec, ip: string, offset: nat, hash: nat, reapplied: bool, d: Derivation)
    requires d == if reapplied then ChiselReapplied(spec, ip, hash) else ChiselHalves(spec, ip, offset)
    requires d.Halves?
    ensures ChiselApply(d.client).Some? <==> PortsUsable(Get(spec, PORTS)) && AddressUsable(Get(spec, LOCAL_ADDR))
    ensures ChiselApply(d.client).Some? ==>
              var stated := Get(spec, LOCAL_ADDR);
              var local := if reapplied || Truthy(stated) then stated else Str(ChiselDefault(spec, ip));
              var c, entries := ChiselApply(d.client).value, ChiselEntries(spec);
              && c.ChiselClient? && |c.reverses| == |entries|
              && forall i | 0 <= i < |entries| :: c.reverses[i] == ReverseOf(entries[i], local)
  {
    hide ReverseOf, Show, IsIPv6, PortNumber, Items, Strip;
    var url := Get(d.client, SERVER_URL);
    assert url.Str? && url.s[0] == 'h';
    SolidHead(url.s);
    assert SolidText(d.client, SERVER_URL).Some?;
    assert Get(d.client, PORTS) == Get(spec, PORTS) && Get(d.client, REVERSE_PORT) == ChiselListen(spec);
    assert Truthy(ChiselListen(spec)) && Get(d.client, MODE) == Str("client");
    NotEmptyText(ip, Show(ChiselListen(spec)));
    assert Get(d.client, LOCAL_ADDR) ==
           if reapplied || Truthy(Get(spec, LOCAL_ADDR)) then Get(spec, LOCAL_ADDR) else Str(ChiselDefault(spec, ip));
    hide ChiselHalves, ChiselReapplied, SolidText, ChiselListen, ChiselDefault;
  }

  lemma NotEmptyText(a: string, b: string)
    ensures Truthy(Str(a + ":" + b))
  {
  }

  /** A local address so read leads the port `n` to the port `n` of this host. */
  predicate StaysHere(end: Endpoint, n: nat) {
    !end.ipv6 && (end.port == None || end.port == Some(0) || (end.port == Some(n) && end.host == "127.0.0.1"))
  }

  lemma ReversesCompared(port: Json, local: Json, address: string)
    requires PortNumber(port).Some? && !Truthy(local) && address != ""
    ensures ReverseOf(port, local) == Reverse(PortText(port), "127.0.0.1", PortText(port))
    ensures ReverseOf(port, Str(address)) == ReverseOf(port, local) <==>
              StaysHere(ParseAddressPort(address), PortNumber(port).value)
  {
    hide ParseAddressPort, PortText, PortNumber, Decimal, IsNumeral, Value, Show;
    DefaultReverse(port, local);
    ProxyNumeral(port);
    var end, n := ParseAddressPort(address), PortNumber(port).value;
    if end.port.Some? && Decimal(end.port.value) == Decimal(n) {
      DecimalInjective(end.port.value, n);
    }
    assert ("[" + end.host + "]")[0] != "127.0.0.1"[0] && "[127.0.0.1]"[0] != "127.0.0.1"[0];
  }

  /** Restored (or reset) and re-applied clients compared, for every spec and every Iran address. With a
      stated local address they expose the same. Without one, a re-applied client leads each exposed
      port to the same port of its own host, a restored one leads all of them to what the Iran address
      and the listening port read as; entry by entry they agree exactly when that stays here. */
  lemma ChiselTargetsCompared(spec: Spec, ip: string, offset: nat, hash: nat)
    requires ChiselHalves(spec, ip, offset).Halves? && ChiselReapplied(spec, ip, hash).Halves?
    ensures var a, b := ChiselApply(ChiselHalves(spec, ip, offset).client),
                        ChiselApply(ChiselReapplied(spec, ip, hash).client);
            && (a.Some? <==> b.Some?)
            && (a.Some? <==> PortsUsable(Get(spec, PORTS)) && AddressUsable(Get(spec, LOCAL_ADDR)))
            && (a.Some? ==>
                  var restored, reapplied, entries := a.value, b.value, ChiselEntries(spec);
                  && restored.ChiselClient? && reapplied.ChiselClient?
                  && |restored.reverses| == |reapplied.reverses| == |entries|
                  && (Truthy(Get(spec, LOCAL_ADDR)) ==> restored.reverses == reapplied.reverses)
                  && (!Truthy(Get(spec, LOCAL_ADDR)) ==>
                        forall i | 0 <= i < |entries| && PortNumber(entries[i]).Some? ::
                          && reapplied.reverses[i] == Reverse(PortText(entries[i]), "127.0.0.1", PortText(entries[i]))
                          && (restored.reverses[i] == reapplied.reverses[i] <==>
                                StaysHere(ParseAddressPort(ChiselDefault(spec, ip)), PortNumber(entries[i]).value))))
  {
    ReversesAre(spec, ip, offset, hash, false, ChiselHalves(spec, ip, offset));
    ReversesAre(spec, ip, offset, hash, true, ChiselReapplied(spec, ip, hash));
    NotEmptyText(ip, Show(ChiselListen(spec)));
    assert ChiselDefault(spec, ip) != "";
    hide ChiselHalves, ChiselReapplied, ChiselApply, ReverseOf, StaysHere, ChiselDefault, ChiselEntries;
    hide PortText, PortNumber, Truthy, PortsUsable, AddressUsable, ParseAddressPort;
    forall port, local | PortNumber(port).Some? && !Truthy(local)
      ensures ReverseOf(port, local) == Reverse(PortText(port), "127.0.0.1", PortText(port))
      ensures ReverseOf(port, Str(ChiselDefault(spec, ip))) == ReverseOf(port, local) <==>
                StaysHere(ParseAddressPort(ChiselDefault(spec, ip)), PortNumber(port).value)
    {
      ReversesCompared(port, local, ChiselDefault(spec, ip));
    }
  }

  /** For a plain Iran address that does not run together with the listening port: a restored or reset
      client leads every exposed port to the one listening port at the Iran address. So it exposes the
      same as a re-applied one only if that address is the loopback and the listening port is the only
      port. */
  lemma ChiselPlainTargets(spec: Spec, ip: string, offset: nat, hash: nat, listen: nat)
    requires ChiselHalves(spec, ip, offset).Halves? && ChiselReapplied(spec, ip, hash).Halves?
    requires !Truthy(Get(spec, LOCAL_ADDR)) && PortsUsable(Get(spec, PORTS))
    requires PortNumber(ChiselListen(spec)) == Some(listen) && listen != 0
    requires PlainHost(ip) && ip[0] != '[' && !IsIPv6(ChiselDefault(spec, ip))
    ensures var a, b := ChiselApply(ChiselHalves(spec, ip, offset).client),
                        ChiselApply(ChiselReapplied(spec, ip, hash).client);
            && a.Some? && b.Some? && a.value.ChiselClient? && b.value.ChiselClient?
            && AllTo(a.value.reverses, ChiselEntries(spec), Bracketed(ip), Decimal(listen))
            && ((forall i | 0 <= i < |ChiselEntries(spec)| :: PortNumber(ChiselEntries(spec)[i]).Some?) ==>
                  (a.value.reverses == b.value.reverses <==>
                     ip == "127.0.0.1" && forall i | 0 <= i < |ChiselEntries(spec)| ::
                                            PortNumber(ChiselEntries(spec)[i]) == Some(listen)))
  {
    ChiselTargetsCompared(spec, ip, offset, hash);
    var a, b, entries := ChiselApply(ChiselHalves(spec, ip, offset).client).value,
                         ChiselApply(ChiselReapplied(spec, ip, hash).client).value, ChiselEntries(spec);
    assert entries != [];
    PlainRestored(spec, ip, offset, listen);
    assert |a.reverses| == |b.reverses| == |entries|;
    assert forall i | 0 <= i < |entries| && PortNumber(entries[i]).Some? ::
             a.reverses[i] == b.reverses[i] <==>
               StaysHere(ParseAddressPort(ChiselDefault(spec, ip)), PortNumber(entries[i]).value);
    hide ChiselHalves, ChiselReapplied, ChiselApply, ChiselDefault, ChiselEntries, Show, IsIPv6, Bracketed, AllTo;
    hide PortText, PortNumber, ParseAddressPort, PlainHost, Truthy, StaysHere, ChiselListen, PortsUsable, Get, Decimal;
    if forall i | 0 <= i < |entries| :: PortNumber(entries[i]).Some? {
      forall i | 0 <= i < |entries|
        ensures a.reverses[i] == b.reverses[i] <==> ip == "127.0.0.1" && PortNumber(entries[i]) == Some(listen)
      {
        PlainStays(spec, ip, listen, PortNumber(entries[i]).value);
      }
      SameElements(a.reverses, b.reverses);
      assert a.reverses == b.reverses ==> a.reverses[0] == b.reverses[0];
    }
  }

  /** Each of the entries is led to the same host and port. */
  predicate AllTo(reverses: seq<Reverse>, entries: seq<Json>, host: string, port: string) {
    |reverses| == |entries|
    && forall i | 0 <= i < |entries| :: reverses[i] == Reverse(PortText(entries[i]), host, port)
  }

  lemma PlainRestored(spec: Spec, ip: string, offset: nat, listen: nat)
    requires ChiselHalves(spec, ip, offset).Halves?
    requires !Truthy(Get(spec, LOCAL_ADDR)) && PortsUsable(Get(spec, PORTS))
    requires PortNumber(ChiselListen(spec)) == Some(listen) && listen != 0
    requires PlainHost(ip) && ip[0] != '[' && !IsIPv6(ChiselDefault(spec, ip))
    ensures var a := ChiselApply(ChiselHalves(spec, ip, offset).client);
            && a.Some? && a.value.ChiselClient?
            && AllTo(a.value.reverses, ChiselEntries(spec), Bracketed(ip), Decimal(listen))
  {
    ReversesAre(spec, ip, offset, 0, false, ChiselHalves(spec, ip, offset));
    var reverses, entries := ChiselApply(ChiselHalves(spec, ip, offset).client).value.reverses, ChiselEntries(spec);
    hide ChiselHalves, ChiselApply, ChiselEntries, ReverseOf, PortText, ChiselDefault, Bracketed, Decimal;
    forall i | 0 <= i < |entries| ensures reverses[i] == Reverse(PortText(entries[i]), Bracketed(ip), Decimal(listen)) {
      PlainReverse(spec, ip, listen, entries[i]);
    }
  }

  lemma SameElements<T>(a: seq<T>, b: seq<T>)
    requires |a| == |b|
    ensures a == b <==> forall i | 0 <= i < |a| :: a[i] == b[i]
  {
  }

  lemma PlainReverse(spec: Spec, ip: string, listen: nat, port: Json)
    requires PortNumber(ChiselListen(spec)) == Some(listen) && listen != 0
    requires PlainHost(ip) && ip[0] != '[' && !IsIPv6(ChiselDefault(spec, ip))
    ensures ReverseOf(port, Str(ChiselDefault(spec, ip))) == Reverse(PortText(port), Bracketed(ip), Decimal(listen))
  {
    DefaultEndpoint(spec, ip, listen);
    NotEmptyText(ip, Show(ChiselListen(spec)));
    assert Truthy(Str(ChiselDefault(spec, ip)));
    hide Show, IsIPv6, PortText, PortNumber, ParseAddressPort, PlainHost, Truthy, ChiselDefault, ChiselListen;
  }

  lemma PlainStays(spec: Spec, ip: string, listen: nat, n: nat)
    requires PortNumber(ChiselListen(spec)) == Some(listen) && listen != 0
    requires PlainHost(ip) && ip[0] != '[' && !IsIPv6(ChiselDefault(spec, ip))
    ensures StaysHere(ParseAddressPort(ChiselDefault(spec, ip)), n) <==> ip == "127.0.0.1" && n == listen
  {
    DefaultEndpoint(spec, ip, listen);
    LoopbackIsNoIPv6();
    hide IsIPv6, PortNumber, ParseAddressPort, PlainHost, ChiselDefault, ChiselListen;
  }

  lemma LoopbackIsNoIPv6()
    ensures !IsIPv6("127.0.0.1")
  {
    NoColonNotIPv6("127.0.0.1");
  }

  lemma DefaultEndpoint(spec: Spec, ip: string, listen: nat)
    requires PortNumber(ChiselListen(spec)) == Some(listen)
    requires PlainHost(ip) && ip[0] != '[' && !IsIPv6(ChiselDefault(spec, ip))
    ensures ParseAddressPort(ChiselDefault(spec, ip)) == Endpoint(ip, Some(listen), IsIPv6(ip))
  {
    ProxyNumeral(ChiselListen(spec));
    PlainHostEndpoint(ip, Show(ChiselListen(spec)));
    hide IsIPv6, Show, ParseAddressPort, PlainHost, ChiselListen, PortNumber;
  }
}
