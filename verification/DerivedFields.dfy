/** What the derivations put into the two halves, told from the fields of the spec alone: which port is
    bound and dialled, which scheme stands in front, where the defaults come from. */
module DerivedFields {
  import opened Wrappers
  import opened Text
  import opened Address
  import opened Specs
  import opened Dialling
  import opened RatholeAdapter

  // ---------- a chain of `or` ----------

  /** The first of the values that counts as true, or the last when none does. */
  ghost predicate IsFirst(j: Json, values: seq<Json>) {
    exists k :: 0 <= k < |values| && values[k] == j
                && (forall i | 0 <= i < k :: !Truthy(values[i])) && (k < |values| - 1 ==> Truthy(j))
  }

  lemma FirstOfTwo(j: Json, a: Json, b: Json)
    requires IsFirst(j, [a, b])
    ensures j == Or(a, b)
  {
    hide Truthy;
    var values := [a, b];
    var k :| 0 <= k < |values| && values[k] == j
             && (forall i | 0 <= i < k :: !Truthy(values[i])) && (k < |values| - 1 ==> Truthy(j));
    assert k == 1 ==> !Truthy(values[0]);
  }

  lemma FirstOfThree(j: Json, a: Json, b: Json, c: Json)
    requires IsFirst(j, [a, b, c])
    ensures j == Or(Or(a, b), c)
  {
    hide Truthy;
    var values := [a, b, c];
    var k :| 0 <= k < |values| && values[k] == j
             && (forall i | 0 <= i < k :: !Truthy(values[i])) && (k < |values| - 1 ==> Truthy(j));
    assert k >= 1 ==> !Truthy(values[0]);
    assert k == 2 ==> !Truthy(values[1]);
  }

  lemma FirstOfFour(j: Json, a: Json, b: Json, c: Json, d: Json)
    requires IsFirst(j, [a, b, c, d])
    ensures j == Or(Or(Or(a, b), c), d)
  {
    hide Truthy;
    var values := [a, b, c, d];
    var k :| 0 <= k < |values| && values[k] == j
             && (forall i | 0 <= i < k :: !Truthy(values[i])) && (k < |values| - 1 ==> Truthy(j));
    assert k >= 1 ==> !Truthy(values[0]);
    assert k >= 2 ==> !Truthy(values[1]);
    assert k == 3 ==> !Truthy(values[2]);
  }

  /** The transport a spec names: `transport`, failing that `type`, failing that tcp. */
  ghost predicate Names(spec: Spec, transport: string) {
    IsFirst(Str(transport), [Get(spec, TRANSPORT), Get(spec, TYPE), Str("tcp")])
  }

  lemma NamedTransport(spec: Spec, transport: string)
    requires Names(spec, transport)
    ensures Transport(spec) == Str(transport)
  {
    FirstOfThree(Str(transport), Get(spec, TRANSPORT), Get(spec, TYPE), Str("tcp"));
  }

  /** `lower()` moves the capitals, codes 65 to 90, up by 32 and keeps everything else. */
  lemma {:induction false} LowerIs(s: string)
    ensures |Lower(s)| == |s|
    ensures forall k | 0 <= k < |s| ::
              Lower(s)[k] as int == s[k] as int + if 65 <= s[k] as int <= 90 then 32 else 0
    decreases |s|
  {
    if s != "" {
      LowerIs(s[1..]);
      assert forall k | 0 < k < |s| :: s[k] == s[1..][k - 1];
      assert Lower(s) == [LowerChar(s[0])] + Lower(s[1..]);
    }
  }

  /** Outside of the keys the half is the spec. */
  ghost predicate Untouched(spec: Spec, half: Spec, keys: set<Key>) {
    forall key | key !in keys :: (key in half <==> key in spec) && (key in half ==> half[key] == spec[key])
  }

  /** Filling one of the fields. */
  lemma Fill(spec: Spec, half: Spec, keys: set<Key>, key: Key, value: Json) returns (filled: Spec)
    requires Untouched(spec, half, keys) && key in keys
    ensures filled == half[key := value] && Untouched(spec, filled, keys)
  {
    filled := half[key := value];
  }

  // ---------- rathole ----------

  /** The server's half binds the port on all addresses and the client's half dials it at `ip`. */
  predicate RatholeEnds(d: Derivation, scheme: string, ip: string, port: nat) {
    && d.Halves?
    && Get(d.server, MODE) == Str("server") && Get(d.client, MODE) == Str("client")
    && Get(d.server, BIND_ADDR) == Str("0.0.0.0:" + Decimal(port))
    && Get(d.client, REMOTE_ADDR) == Str(scheme + ip + ":" + Decimal(port))
  }

  /** The port a stored remote address leads to: its own, if it states one other than 0; 23333 if there
      is no address; and otherwise the derivation's own default. */
  ghost predicate RatholePortIs(spec: Spec, fallback: nat, port: nat) {
    && (forall host, p | Recoverable(host, Some(p)) && p != 0
                         && Get(spec, REMOTE_ADDR) == Str(FormatAddressPort(host, Some(p))) :: port == p)
    && (REMOTE_ADDR !in spec ==> port == 23333)
    && (forall host | Recoverable(host, None) && Get(spec, REMOTE_ADDR) == Str(host) :: port == fallback)
    && (forall host | Recoverable(host, Some(0))
                      && Get(spec, REMOTE_ADDR) == Str(FormatAddressPort(host, Some(0))) :: port == fallback)
    && (REMOTE_ADDR in spec && !Truthy(spec[REMOTE_ADDR]) ==> port == fallback)
  }

  /** Websocket transports get a scheme, `wss://` exactly when TLS is asked for; others get none. */
  predicate SchemeIs(websocket: bool, tls: bool, scheme: string) {
    && (!websocket ==> scheme == "")
    && (websocket && tls ==> scheme == "wss://")
    && (websocket && !tls ==> scheme == "ws://")
  }

  lemma StatedPrinted(host: string, port: Option<nat>)
    requires Recoverable(host, port)
    ensures StatedPort(Str(FormatAddressPort(host, port))) == if port.Some? then port.value else 0
  {
    RoundTrip(host, port);
    var s := FormatAddressPort(host, port);
    assert s == "" ==> port == None by {
      if host != "" && port.Some? {
        hide Decimal;
        assert |s| >= 1;
      }
    }
    hide Recoverable, FormatAddressPort, ParseAddressPort, IsIPv6;
  }

  lemma ValueSnoc(s: string, c: char)
    requires IsNumeral(s) && IsDigit(c)
    ensures IsNumeral(s + [c]) && Value(s + [c]) == Value(s) * 10 + DigitValue(c)
  {
    assert (s + [c])[..|s|] == s;
  }

  lemma Spelt23333()
    ensures IsNumeral("23333") && Value("23333") == 23333
  {
    assert Value("2") == 2;
    ValueSnoc("2", '3');
    ValueSnoc("23", '3');
    ValueSnoc("233", '3');
    ValueSnoc("2333", '3');
    assert "2" + ['3'] == "23" && "23" + ['3'] == "233" && "233" + ['3'] == "2333" && "2333" + ['3'] == "23333";
    hide Value;
  }

  lemma DefaultStated()
    ensures StatedPort(Str("0.0.0.0:23333")) == 23333
  {
    hide IsIPv6, Strip, ParseAddressPort;
    assert "0.0.0.0:23333" == "0.0.0.0" + ":" + "23333";
    StatedAfterHost("0.0.0.0", "23333");
    SolidEnds("0.0.0.0:23333");
    OneColonNotIPv6("0.0.0.0", "23333");
    Spelt23333();
    hide Value;
  }

  lemma ControlIs(spec: Spec, fallback: nat)
    requires !Truthy(RatholeAddress(spec)) || RatholeAddress(spec).Str?
    ensures RatholePortIs(spec, fallback, RatholeControl(spec, fallback))
  {
    var port := RatholeControl(spec, fallback);
    hide Recoverable, FormatAddressPort, ParseAddressPort, IsIPv6;
    DefaultStated();
    forall host, p | Recoverable(host, Some(p)) && p != 0
                     && Get(spec, REMOTE_ADDR) == Str(FormatAddressPort(host, Some(p)))
      ensures port == p
    {
      StatedPrinted(host, Some(p));
    }
    forall host | Recoverable(host, None) && Get(spec, REMOTE_ADDR) == Str(host) ensures port == fallback {
      StatedPrinted(host, None);
      PrintedAlone(host);
    }
    forall host | Recoverable(host, Some(0)) && Get(spec, REMOTE_ADDR) == Str(FormatAddressPort(host, Some(0)))
      ensures port == fallback
    {
      StatedPrinted(host, Some(0));
    }
    assert !Truthy(RatholeAddress(spec)) ==> port == fallback;
    hide StatedPort;
  }

  lemma PrintedAlone(host: string)
    ensures FormatAddressPort(host, None) == host
  {
  }

  lemma RestoredEnds(spec: Spec, ip: string, fallback: nat)
    requires Transport(spec).Str? && RatholeHalves(spec, ip, fallback).Halves?
    ensures var d := RatholeHalves(spec, ip, fallback);
            && RatholeEnds(d, Scheme(IsWebsocket(Transport(spec).s), WantsTls(spec)), ip,
                           RatholeControl(spec, fallback))
            && Get(d.server, PROXY_PORT) == RatholeProxy(spec)
            && Get(d.server, TOKEN) == Get(spec, TOKEN) && Get(d.client, TOKEN) == Get(spec, TOKEN)
  {
    var control := RatholeControl(spec, fallback);
    ServerHalf(spec, control);
    ClientHalf(spec, ip, control);
    hide RatholeServerHalf, RatholeClientHalf, Decimal, StatedPort, Scheme, IsWebsocket, WantsTls, RatholeControl;
    hide Transport, Or, Truthy, RatholeProxy, Get, GetOr, RatholeAddress;
  }

  lemma ReappliedEnds(spec: Spec, ip: string, hash: nat)
    requires Transport(spec).Str? && RatholeReapplied(spec, ip, hash).Halves?
    ensures var d := RatholeReapplied(spec, ip, hash);
            && RatholeEnds(d, Scheme(IsWebsocket(Transport(spec).s), WantsTls(spec)), ip,
                           RatholeControl(spec, 23333 + hash % 1000))
            && Get(d.server, PROXY_PORT) == RatholeProxy(spec)
            && Get(d.server, TOKEN) == Get(spec, TOKEN) && Get(d.client, TOKEN) == Get(spec, TOKEN)
  {
    hide Decimal, StatedPort, Scheme, IsWebsocket, WantsTls, RatholeControl, Transport, RatholeProxy, Truthy;
  }

  lemma WhenRathole(spec: Spec, ip: string, fallback: nat, hash: nat, reapplied: bool)
    requires Transport(spec).Str? && (Truthy(RatholeAddress(spec)) ==> RatholeAddress(spec).Str?)
    ensures var d := if reapplied then RatholeReapplied(spec, ip, hash) else RatholeHalves(spec, ip, fallback);
            if !Truthy(RatholeProxy(spec)) || !Truthy(Get(spec, TOKEN)) || ip == "" then d == Skip else d.Halves?
  {
    hide Decimal, StatedPort, Scheme, IsWebsocket, WantsTls, RatholeControl, Transport, RatholeProxy, Truthy;
    hide RatholeServerHalf, RatholeClientHalf;
  }

  lemma SchemeSpelt(transport: string, spec: Spec)
    ensures SchemeIs(Lower(transport) == "ws" || Lower(transport) == "websocket",
                     Truthy(Get(spec, WEBSOCKET_TLS)) || Truthy(Get(spec, TLS)),
                     Scheme(IsWebsocket(transport), WantsTls(spec)))
  {
    hide Lower, Truthy;
  }

  /** Restored (`fallback` 23333 plus the hash modulo 1000), reset (23333) or re-applied (as restored): the
      port, the scheme and the rest of the two halves, from the spec's own fields. */
  lemma RatholeFields(spec: Spec, ip: string, fallback: nat, hash: nat, reapplied: bool, transport: string, proxy: Json)
    requires Names(spec, transport) && IsFirst(proxy, [Get(spec, REMOTE_PORT), Get(spec, LISTEN_PORT)])
    requires reapplied ==> fallback == 23333 + hash % 1000
    requires REMOTE_ADDR in spec ==> !Truthy(spec[REMOTE_ADDR]) || spec[REMOTE_ADDR].Str?
    ensures var d := if reapplied then RatholeReapplied(spec, ip, hash) else RatholeHalves(spec, ip, fallback);
            var websocket := Lower(transport) == "ws" || Lower(transport) == "websocket";
            var tls := Truthy(Get(spec, WEBSOCKET_TLS)) || Truthy(Get(spec, TLS));
            if !Truthy(proxy) || !Truthy(Get(spec, TOKEN)) || ip == "" then d == Skip
            else exists port, scheme ::
                   && RatholePortIs(spec, fallback, port) && SchemeIs(websocket, tls, scheme)
                   && RatholeEnds(d, scheme, ip, port)
                   && Get(d.server, PROXY_PORT) == proxy && Get(d.server, TOKEN) == Get(spec, TOKEN)
                   && Get(d.client, TOKEN) == Get(spec, TOKEN)
  {
    NamedTransport(spec, transport);
    FirstOfTwo(proxy, Get(spec, REMOTE_PORT), Get(spec, LISTEN_PORT));
    assert proxy == RatholeProxy(spec);
    var d := if reapplied then RatholeReapplied(spec, ip, hash) else RatholeHalves(spec, ip, fallback);
    WhenRathole(spec, ip, fallback, hash, reapplied);
    if d.Halves? {
      ControlIs(spec, fallback);
      SchemeSpelt(transport, spec);
      if reapplied {
        ReappliedEnds(spec, ip, hash);
      } else {
        RestoredEnds(spec, ip, fallback);
      }
      hide RatholeHalves, RatholeReapplied, RatholePortIs, RatholeControl, IsWebsocket, Lower, Decimal, Truthy, Scheme;
      hide Transport, RatholeEnds, WantsTls, SchemeIs, Get, RatholeProxy, RatholeAddress;
    }
  }

  /** The TLS flag of a half: `websocket_tls` as the spec has it, or else made from its `tls`. */
  predicate TlsCopied(spec: Spec, half: Spec) {
    && (WEBSOCKET_TLS in spec ==> WEBSOCKET_TLS in half && half[WEBSOCKET_TLS] == spec[WEBSOCKET_TLS])
    && (WEBSOCKET_TLS !in spec && TLS in spec ==> WEBSOCKET_TLS in half && half[WEBSOCKET_TLS] == spec[TLS])
    && (WEBSOCKET_TLS !in spec && TLS !in spec ==> WEBSOCKET_TLS !in half)
  }

  lemma ServerFields(spec: Spec, control: nat)
    ensures var h := RatholeServerHalf(spec, control);
            && TlsCopied(spec, h) && (TLS in h <==> TLS in spec)
            && Get(h, TRANSPORT) == Get(h, TYPE) == Transport(spec)
  {
    hide Decimal, RatholeProxy, Transport;
  }

  lemma ClientFields(spec: Spec, ip: string, control: nat, server: Spec)
    requires Transport(spec).Str? && TlsCopied(spec, server) && (TLS in server <==> TLS in spec)
    ensures var h := RatholeClientHalf(spec, ip, control, server);
            TlsCopied(spec, h) && Get(h, TRANSPORT) == Get(h, TYPE) == Transport(spec)
  {
    hide Decimal, RatholeProxy, Transport, Scheme, IsWebsocket, WantsTls, Show, Truthy;
  }

  lemma ServerFrame(spec: Spec, control: nat)
    ensures Untouched(spec, RatholeServerHalf(spec, control),
                      {MODE, BIND_ADDR, PROXY_PORT, TRANSPORT, TYPE, WEBSOCKET_TLS})
  {
    var keys := {MODE, BIND_ADDR, PROXY_PORT, TRANSPORT, TYPE, WEBSOCKET_TLS};
    hide Decimal, RatholeProxy, Transport;
    var h := Fill(spec, spec, keys, MODE, Str("server"));
    hide Untouched;
    h := Fill(spec, h, keys, BIND_ADDR, Str("0.0.0.0:" + Decimal(control)));
    h := Fill(spec, h, keys, PROXY_PORT, RatholeProxy(spec));
    h := Fill(spec, h, keys, TRANSPORT, Transport(spec));
    h := Fill(spec, h, keys, TYPE, Transport(spec));
    TlsFrame(spec, h, h, keys);
  }

  lemma TlsFrame(spec: Spec, half: Spec, from: Spec, keys: set<Key>)
    requires Untouched(spec, half, keys) && WEBSOCKET_TLS in keys
    ensures Untouched(spec, WithTls(half, from), keys)
  {
    if WEBSOCKET_TLS in from {
      var h := Fill(spec, half, keys, WEBSOCKET_TLS, from[WEBSOCKET_TLS]);
    } else if TLS in from {
      var h := Fill(spec, half, keys, WEBSOCKET_TLS, from[TLS]);
    }
    hide Untouched;
  }

  lemma ClientFrame(spec: Spec, ip: string, control: nat, server: Spec)
    requires Transport(spec).Str?
    ensures Untouched(spec, RatholeClientHalf(spec, ip, control, server),
                      {MODE, REMOTE_ADDR, LOCAL_ADDR, TRANSPORT, TYPE, TOKEN, WEBSOCKET_TLS})
  {
    var keys := {MODE, REMOTE_ADDR, LOCAL_ADDR, TRANSPORT, TYPE, TOKEN, WEBSOCKET_TLS};
    hide Decimal, RatholeProxy, Transport, Scheme, IsWebsocket, WantsTls, Show, Truthy, Or, Get, WithTls;
    var h := Fill(spec, spec, keys, MODE, Str("client"));
    hide Untouched;
    var scheme := Scheme(IsWebsocket(Transport(spec).s), WantsTls(server));
    h := Fill(spec, h, keys, REMOTE_ADDR, Str(scheme + ip + ":" + Decimal(control)));
    h := Fill(spec, h, keys, TRANSPORT, Transport(spec));
    h := Fill(spec, h, keys, TYPE, Transport(spec));
    h := Fill(spec, h, keys, TOKEN, Get(spec, TOKEN));
    TlsFrame(spec, h, server, keys);
    h := WithTls(h, server);
    h := Fill(spec, h, keys, LOCAL_ADDR, Or(Get(h, LOCAL_ADDR), Str(ip + ":" + Show(RatholeProxy(spec)))));
  }

  /** Restored or reset, both halves carry transport and TLS flag in the form the adapter reads first, the
      client is led to the proxied port at `ip` where no local address is stated, and all else is the
      spec's. */
  lemma RatholeRest(spec: Spec, ip: string, fallback: nat, transport: string)
    requires Names(spec, transport) && RatholeHalves(spec, ip, fallback).Halves?
    ensures var d := RatholeHalves(spec, ip, fallback);
            && Get(d.server, TRANSPORT) == Get(d.server, TYPE) == Str(transport) && TlsCopied(spec, d.server)
            && Get(d.client, TRANSPORT) == Get(d.client, TYPE) == Str(transport) && TlsCopied(spec, d.client)
            && Untouched(spec, d.server, {MODE, BIND_ADDR, PROXY_PORT, TRANSPORT, TYPE, WEBSOCKET_TLS})
            && Untouched(spec, d.client, {MODE, REMOTE_ADDR, LOCAL_ADDR, TRANSPORT, TYPE, TOKEN, WEBSOCKET_TLS})
            && (Truthy(Get(spec, LOCAL_ADDR)) ==> Get(d.client, LOCAL_ADDR) == Get(spec, LOCAL_ADDR))
            && (!Truthy(Get(spec, LOCAL_ADDR)) ==>
                  Get(d.client, LOCAL_ADDR) == Str(ip + ":" + Show(RatholeProxy(spec))))
  {
    hide Untouched, TlsCopied, RatholeServerHalf, RatholeClientHalf, RatholeProxy, RatholeControl, Truthy, Show, Or;
    NamedTransport(spec, transport);
    hide Names, Transport;
    WhenRestored(spec, ip, fallback);
    hide RatholeHalves;
    var control := RatholeControl(spec, fallback);
    var server := RatholeServerHalf(spec, control);
    ServerFields(spec, control);
    ServerFrame(spec, control);
    ClientFields(spec, ip, control, server);
    ClientFrame(spec, ip, control, server);
    ClientHalf(spec, ip, control);
    OrChooses(Get(spec, LOCAL_ADDR), Str(ip + ":" + Show(RatholeProxy(spec))));
    hide Get, GetOr;
  }

  lemma WhenRestored(spec: Spec, ip: string, fallback: nat)
    requires RatholeHalves(spec, ip, fallback).Halves?
    ensures Truthy(Get(spec, TOKEN)) && Transport(spec).Str?
    ensures var control := RatholeControl(spec, fallback); var server := RatholeServerHalf(spec, control);
            RatholeHalves(spec, ip, fallback) == Halves(server, RatholeClientHalf(spec, ip, control, server))
  {
    hide RatholeServerHalf, RatholeClientHalf, RatholeProxy, RatholeControl, Transport, Truthy, RatholeAddress;
  }

  /** Re-applied, the transport is copied, and the type and the TLS flags are not. */
  lemma RatholeReappliedRest(spec: Spec, ip: string, hash: nat, transport: string)
    requires Names(spec, transport) && RatholeReapplied(spec, ip, hash).Halves?
    ensures var d := RatholeReapplied(spec, ip, hash);
            && Get(d.server, TRANSPORT) == Str(transport) && Get(d.client, TRANSPORT) == Str(transport)
            && Untouched(spec, d.server, {MODE, BIND_ADDR, PROXY_PORT, TRANSPORT, TOKEN})
            && Untouched(spec, d.client, {MODE, REMOTE_ADDR, TRANSPORT, TOKEN})
  {
    NamedTransport(spec, transport);
    ReappliedTransport(spec, ip, hash);
    ReappliedFrame(spec, ip, hash);
    hide RatholeReapplied, Transport, Names, Get, Untouched;
  }

  lemma ReappliedFrame(spec: Spec, ip: string, hash: nat)
    requires RatholeReapplied(spec, ip, hash).Halves?
    ensures var d := RatholeReapplied(spec, ip, hash);
            && Untouched(spec, d.server, {MODE, BIND_ADDR, PROXY_PORT, TRANSPORT, TOKEN})
            && Untouched(spec, d.client, {MODE, REMOTE_ADDR, TRANSPORT, TOKEN})
  {
    hide Decimal, RatholeProxy, RatholeControl, IsWebsocket, WantsTls, Scheme, Show, Transport, Truthy;
    hide RatholeAddress, Get;
    var control := Decimal(RatholeControl(spec, 23333 + hash % 1000));
    var scheme := Scheme(IsWebsocket(Transport(spec).s), WantsTls(spec));
    var keys, others := {MODE, BIND_ADDR, PROXY_PORT, TRANSPORT, TOKEN}, {MODE, REMOTE_ADDR, TRANSPORT, TOKEN};
    var h := Fill(spec, spec, keys, MODE, Str("server"));
    var g := Fill(spec, spec, others, MODE, Str("client"));
    hide Untouched;
    h := Fill(spec, h, keys, BIND_ADDR, Str("0.0.0.0:" + control));
    h := Fill(spec, h, keys, PROXY_PORT, RatholeProxy(spec));
    h := Fill(spec, h, keys, TRANSPORT, Transport(spec));
    h := Fill(spec, h, keys, TOKEN, Get(spec, TOKEN));
    g := Fill(spec, g, others, REMOTE_ADDR, Str(scheme + ip + ":" + control));
    g := Fill(spec, g, others, TRANSPORT, Transport(spec));
    g := Fill(spec, g, others, TOKEN, Get(spec, TOKEN));
    assert RatholeReapplied(spec, ip, hash) == Halves(h, g);
  }

  lemma ReappliedTransport(spec: Spec, ip: string, hash: nat)
    requires RatholeReapplied(spec, ip, hash).Halves?
    ensures var d := RatholeReapplied(spec, ip, hash);
            Get(d.server, TRANSPORT) == Transport(spec) && Get(d.client, TRANSPORT) == Transport(spec)
  {
    hide Decimal, RatholeProxy, RatholeControl, IsWebsocket, WantsTls, Scheme, Show, Transport, Truthy;
    hide RatholeAddress;
  }

  // ---------- chisel ----------

  /** The value is the port number `n`, or a numeral that reads as it. */
  predicate IsPortOf(j: Json, n: nat) {
    j == Num(n) || (j.Str? && IsNumeral(j.s) && Value(j.s) == n)
  }

  /** Restored (`offset` 10000 plus the hash modulo 1000), reset (10000) or re-applied (as restored): the
      control port is the stated one or else the listening port moved by the offset, which raises when
      that is no number; the client dials it over http and is led to the listening port at `ip`, except
      that a re-applied one brackets an IPv6 literal and is led nowhere. */
  lemma ChiselFields(spec: Spec, ip: string, offset: nat, hash: nat, reapplied: bool, listen: Json, control: Json)
    requires IsFirst(listen, [Get(spec, LISTEN_PORT), Get(spec, REMOTE_PORT)])
    requires reapplied ==> offset == 10000 + hash % 1000
    requires if Truthy(Get(spec, CONTROL_PORT)) then control == Get(spec, CONTROL_PORT)
             else Truthy(listen) ==> control.Num? && control.n >= offset && IsPortOf(listen, control.n - offset)
    ensures var d := if reapplied then ChiselReapplied(spec, ip, hash) else ChiselHalves(spec, ip, offset);
            if !Truthy(listen) || ip == "" then d == Skip
            else
              && d.Halves?
              && Get(d.server, MODE) == Str("server") && Get(d.client, MODE) == Str("client")
              && Get(d.server, SERVER_PORT) == control
              && Get(d.server, REVERSE_PORT) == listen && Get(d.client, REVERSE_PORT) == listen
              && Get(d.client, SERVER_URL) ==
                   Str("http://" + (if reapplied && IsIPv6(ip) then "[" + ip + "]" else ip) + ":" + Show(control))
              && (reapplied || Truthy(Get(spec, LOCAL_ADDR)) ==> Get(d.client, LOCAL_ADDR) == Get(spec, LOCAL_ADDR))
              && (!reapplied && !Truthy(Get(spec, LOCAL_ADDR)) ==>
                    Get(d.client, LOCAL_ADDR) == Str(ip + ":" + Show(listen)))
              && Untouched(spec, d.server, {MODE, SERVER_PORT, REVERSE_PORT})
              && Untouched(spec, d.client, {MODE, SERVER_URL, REVERSE_PORT, LOCAL_ADDR})
  {
    FirstOfTwo(listen, Get(spec, LISTEN_PORT), Get(spec, REMOTE_PORT));
    ChiselControlIs(spec, offset, listen, control);
    ChiselFrame(spec, ip, offset, hash, reapplied);
    hide IsIPv6, IsNumeral, Value, Show, Truthy, IsFirst, Untouched, ChiselControl, IsPortOf, PortNumber;
    assert listen == ChiselListen(spec);
    hide ChiselListen;
  }

  lemma ChiselControlIs(spec: Spec, offset: nat, listen: Json, control: Json)
    requires listen == ChiselListen(spec)
    requires if Truthy(Get(spec, CONTROL_PORT)) then control == Get(spec, CONTROL_PORT)
             else Truthy(listen) ==> control.Num? && control.n >= offset && IsPortOf(listen, control.n - offset)
    ensures Truthy(listen) ==> ChiselControl(spec, offset) == Some(control)
  {
    hide IsNumeral, Value, ChiselListen;
  }

  lemma ChiselFrame(spec: Spec, ip: string, offset: nat, hash: nat, reapplied: bool)
    ensures var d := if reapplied then ChiselReapplied(spec, ip, hash) else ChiselHalves(spec, ip, offset);
            d.Halves? ==> Untouched(spec, d.server, {MODE, SERVER_PORT, REVERSE_PORT})
                          && Untouched(spec, d.client, {MODE, SERVER_URL, REVERSE_PORT, LOCAL_ADDR})
  {
    hide IsIPv6, Show, Truthy, ChiselControl, ChiselListen, Or, Get;
  }

  lemma ChiselRaises(spec: Spec, ip: string, offset: nat, hash: nat, listen: Json)
    requires IsFirst(listen, [Get(spec, LISTEN_PORT), Get(spec, REMOTE_PORT)]) && Truthy(listen)
    requires !Truthy(Get(spec, CONTROL_PORT)) && forall n :: !IsPortOf(listen, n)
    ensures ChiselHalves(spec, ip, offset) == if ip == "" then Skip else Raise
    ensures ChiselReapplied(spec, ip, hash) == Raise
  {
    FirstOfTwo(listen, Get(spec, LISTEN_PORT), Get(spec, REMOTE_PORT));
    assert PortNumber(listen).Some? ==> IsPortOf(listen, PortNumber(listen).value);
    hide IsIPv6, IsNumeral, Value, Show, Truthy, PortNumber;
  }

  // ---------- frp ----------

  /** Restored: both ends name the bind port, 7000 when the spec has none; the client's type is udp only if
      the tunnel's is. */
  lemma FrpFields(spec: Spec, ip: string, kind: string)
    ensures var d := FrpHalves(spec, ip, kind);
            if ip == "" then d == Skip
            else
              && d.Halves?
              && Get(d.server, MODE) == Str("server") && Get(d.client, MODE) == Str("client")
              && Get(d.server, BIND_PORT) == (if BIND_PORT in spec then spec[BIND_PORT] else Num(7000))
              && Get(d.client, SERVER_PORT) == Get(d.server, BIND_PORT)
              && Get(d.client, SERVER_ADDR) == Str(ip)
              && (Lower(kind) == "udp" ==> Get(d.client, TYPE) == Str("udp"))
              && (Lower(kind) != "udp" ==> Get(d.client, TYPE) == Str("tcp"))
              && Untouched(spec, d.server, {MODE, BIND_PORT})
              && Untouched(spec, d.client, {MODE, SERVER_ADDR, SERVER_PORT, TYPE})
  {
    hide Lower;
  }

  /** Reset: as restored, but the local side is filled in, with `ip` and the bind port. */
  lemma FrpResetFields(spec: Spec, ip: string, kind: string, localIp: Json, localPort: Json)
    requires ip != "" && IsFirst(localIp, [Get(spec, OTHER("local_ip")), Str(ip)])
    requires IsFirst(localPort,
                     [Get(spec, OTHER("local_port")), if BIND_PORT in spec then spec[BIND_PORT] else Num(7000)])
    ensures FrpHalves(spec, ip, kind).Halves? && FrpReset(spec, ip, kind).Halves?
    ensures FrpReset(spec, ip, kind).server == FrpHalves(spec, ip, kind).server
    ensures FrpReset(spec, ip, kind).client ==
            FrpHalves(spec, ip, kind).client[OTHER("local_ip") := localIp][OTHER("local_port") := localPort]
  {
    FirstOfTwo(localIp, Get(spec, LOCAL_IP), Str(ip));
    FirstOfTwo(localPort, Get(spec, LOCAL_PORT), if BIND_PORT in spec then spec[BIND_PORT] else Num(7000));
    hide Lower, Truthy;
  }

  /** Re-applied: as restored when there is a port list or no port at all; otherwise the one or two ports
      become the numbers of a single entry, each standing in for the other where that is missing. */
  lemma FrpReappliedFields(spec: Spec, ip: string, kind: string, remote: Json)
    requires ip != "" && IsFirst(remote, [Get(spec, REMOTE_PORT), Get(spec, LISTEN_PORT)])
    ensures var d, h, local := FrpReapplied(spec, ip, kind), FrpHalves(spec, ip, kind), Get(spec, LOCAL_PORT);
            && (Truthy(Get(spec, PORTS)) || (!Truthy(remote) && !Truthy(local)) ==> d == h)
            && (!Truthy(Get(spec, PORTS)) ==>
                  && (forall l, r | Truthy(local) && Truthy(remote) && IsPortOf(local, l) && IsPortOf(remote, r) ::
                        OneEntry(d, h, l, r))
                  && (forall r | !Truthy(local) && Truthy(remote) && IsPortOf(remote, r) :: OneEntry(d, h, r, r))
                  && (forall l | Truthy(local) && !Truthy(remote) && IsPortOf(local, l) :: OneEntry(d, h, l, l))
                  && ((Truthy(remote) && forall n :: !IsPortOf(remote, n)) ==> d == Raise)
                  && ((Truthy(local) && forall n :: !IsPortOf(local, n)) ==> d == Raise))
  {
    FirstOfTwo(remote, Get(spec, REMOTE_PORT), Get(spec, LISTEN_PORT));
    var local := Get(spec, LOCAL_PORT);
    assert PortNumber(remote).Some? ==> IsPortOf(remote, PortNumber(remote).value);
    assert PortNumber(local).Some? ==> IsPortOf(local, PortNumber(local).value);
    hide Lower, IsNumeral, Value, Truthy;
  }

  predicate OneEntry(d: Derivation, h: Derivation, local: nat, remote: nat) {
    && d.Halves? && h.Halves? && d.server == h.server
    && d.client == h.client[PORTS := Arr([Obj(map[OTHER("local") := Num(local), OTHER("remote") := Num(remote)])])]
  }

  // ---------- backhaul ----------

  /** Whether TLS is asked for: a certificate in the spec or among its server options. */
  predicate HasCertificate(spec: Spec) {
    Truthy(Get(spec, TLS_CERT))
    || (SERVER_OPTIONS in spec && spec[SERVER_OPTIONS].Obj? && Truthy(Get(spec[SERVER_OPTIONS].fields, TLS_CERT)))
  }

  /** The server options are missing or an object, where they are looked into at all. */
  predicate OptionsReadable(spec: Spec, websocket: bool) {
    websocket && !Truthy(Get(spec, TLS_CERT)) && SERVER_OPTIONS in spec ==> spec[SERVER_OPTIONS].Obj?
  }

  predicate IsWebsocketName(transport: string) {
    Lower(transport) == "ws" || Lower(transport) == "wsmux"
  }

  lemma BackhaulSchemeSpelt(spec: Spec, transport: string)
    requires OptionsReadable(spec, IsWebsocketName(transport))
    ensures var websocket := IsBackhaulWebsocket(transport);
            && websocket == IsWebsocketName(transport)
            && (websocket ==> BackhaulTls(spec) == Some(HasCertificate(spec)))
            && SchemeIs(websocket, HasCertificate(spec), Scheme(websocket, websocket && BackhaulTls(spec).value))
  {
    assert !Truthy(Null);
    hide Lower, Truthy;
  }

  /** Restored (`fallback` 3080 plus the hash modulo 1000) or reset (3080). */
  lemma BackhaulFields(spec: Spec, ip: string, fallback: nat, transport: string, control: Json, public: Json,
                       bindIp: Json, target: Json)
    requires Names(spec, transport) && OptionsReadable(spec, IsWebsocketName(transport))
    requires IsFirst(control, [Get(spec, CONTROL_PORT), Get(spec, LISTEN_PORT), Num(fallback)])
    requires IsFirst(public, [Get(spec, PUBLIC_PORT), Get(spec, REMOTE_PORT), Get(spec, LISTEN_PORT)])
    requires IsFirst(bindIp, [Get(spec, BIND_IP), Get(spec, LISTEN_IP), Str("0.0.0.0")])
    requires IsFirst(target, [Get(spec, TARGET_PORT), public])
    ensures var d := BackhaulHalves(spec, ip, fallback);
            if !Truthy(public) || ip == "" then d == Skip
            else exists scheme ::
                   && SchemeIs(IsWebsocketName(transport), HasCertificate(spec), scheme)
                   && BackhaulEnds(d, Show(bindIp), scheme, ip, control, transport)
                   && Get(d.server, PORTS) ==
                        Arr([Str(Show(public) + "=" + (Show(HostOf(spec)) + ":" + Show(target)))])
                   && Get(d.server, TRANSPORT) == Get(d.server, TYPE) == Get(d.client, TYPE) == Str(transport)
                   && Untouched(spec, d.server, {MODE, BIND_ADDR, TRANSPORT, TYPE, PORTS})
                   && Untouched(spec, d.client, {MODE, REMOTE_ADDR, TRANSPORT, TYPE})
  {
    NamedTransport(spec, transport);
    FirstOfThree(control, Get(spec, CONTROL_PORT), Get(spec, LISTEN_PORT), Num(fallback));
    FirstOfThree(public, Get(spec, PUBLIC_PORT), Get(spec, REMOTE_PORT), Get(spec, LISTEN_PORT));
    FirstOfThree(bindIp, Get(spec, BIND_IP), Get(spec, LISTEN_IP), Str("0.0.0.0"));
    FirstOfTwo(target, Get(spec, TARGET_PORT), public);
    BackhaulSchemeSpelt(spec, transport);
    hide IsFirst, Names, Transport, OptionsReadable, BackhaulTls, SchemeIs, Scheme, IsWebsocketName, HasCertificate;
    hide IsBackhaulWebsocket, Truthy;
    BackhaulRestoredEnds(spec, ip, fallback, transport);
    BackhaulFrame(spec, ip, fallback);
    hide BackhaulHalves, Untouched, Or, Get;
  }

  lemma BackhaulRestoredEnds(spec: Spec, ip: string, fallback: nat, transport: string)
    requires Transport(spec) == Str(transport) && (IsBackhaulWebsocket(transport) ==> BackhaulTls(spec).Some?)
    ensures var d, control, public := BackhaulHalves(spec, ip, fallback), BackhaulControl(spec, fallback),
                                      BackhaulPublic(spec);
            var websocket := IsBackhaulWebsocket(transport);
            var bindIp := Or(Or(Get(spec, BIND_IP), Get(spec, LISTEN_IP)), Str("0.0.0.0"));
            if !Truthy(public) || ip == "" then d == Skip
            else
              && BackhaulEnds(d, Show(bindIp), Scheme(websocket, websocket && BackhaulTls(spec).value), ip, control,
                              transport)
              && Get(d.server, TRANSPORT) == Get(d.server, TYPE) == Get(d.client, TYPE) == Str(transport)
              && Get(d.server, PORTS) ==
                   Arr([Str(Show(public) + "=" + (Show(HostOf(spec)) + ":" +
                                                  Show(Or(Get(spec, TARGET_PORT), public))))])
  {
    hide Transport, Truthy, IsBackhaulWebsocket, BackhaulTls, Scheme, Show, BackhaulControl, BackhaulPublic;
  }

  /** All else is the spec's, in either derivation. */
  lemma BackhaulFrame(spec: Spec, ip: string, fallback: nat)
    ensures var d := BackhaulHalves(spec, ip, fallback);
            d.Halves? ==> Untouched(spec, d.server, {MODE, BIND_ADDR, TRANSPORT, TYPE, PORTS})
                          && Untouched(spec, d.client, {MODE, REMOTE_ADDR, TRANSPORT, TYPE})
  {
    var d := BackhaulHalves(spec, ip, fallback);
    hide Show, Scheme, IsBackhaulWebsocket, BackhaulTls, BackhaulControl, BackhaulPublic, Transport, Truthy, Or, Get;
    if d.Halves? {
      var keys, others := {MODE, BIND_ADDR, TRANSPORT, TYPE, PORTS}, {MODE, REMOTE_ADDR, TRANSPORT, TYPE};
      var h := Fill(spec, spec, keys, MODE, Str("server"));
      var g := Fill(spec, spec, others, MODE, Str("client"));
      hide Untouched;
      h := Fill(spec, h, keys, BIND_ADDR, d.server[BIND_ADDR]);
      h := Fill(spec, h, keys, TRANSPORT, Transport(spec));
      h := Fill(spec, h, keys, TYPE, Transport(spec));
      h := Fill(spec, h, keys, PORTS, d.server[PORTS]);
      g := Fill(spec, g, others, REMOTE_ADDR, d.client[REMOTE_ADDR]);
      g := Fill(spec, g, others, TRANSPORT, Transport(spec));
      g := Fill(spec, g, others, TYPE, Transport(spec));
    }
  }

  lemma BackhaulReappliedFrame(spec: Spec, ip: string)
    ensures var d := BackhaulReapplied(spec, ip);
            d.Halves? ==> Untouched(spec, d.server, {MODE, BIND_ADDR, CONTROL_PORT, PUBLIC_PORT, LISTEN_PORT})
                          && Untouched(spec, d.client, {MODE, REMOTE_ADDR, TRANSPORT})
  {
    var d := BackhaulReapplied(spec, ip);
    hide Show, Scheme, IsBackhaulWebsocket, BackhaulTls, BackhaulReappliedControl, Transport, Truthy, Or, Get;
    if d.Halves? {
      var keys, others := {MODE, BIND_ADDR, CONTROL_PORT, PUBLIC_PORT, LISTEN_PORT}, {MODE, REMOTE_ADDR, TRANSPORT};
      var h := Fill(spec, spec, keys, MODE, Str("server"));
      var g := Fill(spec, spec, others, MODE, Str("client"));
      hide Untouched;
      h := Fill(spec, h, keys, BIND_ADDR, d.server[BIND_ADDR]);
      h := Fill(spec, h, keys, CONTROL_PORT, d.server[CONTROL_PORT]);
      h := Fill(spec, h, keys, PUBLIC_PORT, d.server[PUBLIC_PORT]);
      h := Fill(spec, h, keys, LISTEN_PORT, d.server[LISTEN_PORT]);
      g := Fill(spec, g, others, REMOTE_ADDR, d.client[REMOTE_ADDR]);
      g := Fill(spec, g, others, TRANSPORT, Transport(spec));
    }
  }

  /** The target host of a spec, or this host. */
  function HostOf(spec: Spec): Json {
    if TARGET_HOST in spec then spec[TARGET_HOST] else Str("127.0.0.1")
  }

  predicate BackhaulEnds(d: Derivation, bindIp: string, scheme: string, ip: string, control: Json, transport: string) {
    && d.Halves?
    && Get(d.server, MODE) == Str("server") && Get(d.client, MODE) == Str("client")
    && Get(d.server, BIND_ADDR) == Str(bindIp + ":" + Show(control))
    && Get(d.client, REMOTE_ADDR) == Str(scheme + ip + ":" + Show(control))
    && Get(d.client, TRANSPORT) == Str(transport)
  }

  /** Re-applied: the public port may stand in for the control port, and the control port for the public
      one; the port list stays as it is. */
  lemma BackhaulReappliedFields(spec: Spec, ip: string, transport: string, control: Json, public: Json)
    requires Names(spec, transport) && OptionsReadable(spec, IsWebsocketName(transport))
    requires IsFirst(control, [Get(spec, CONTROL_PORT), Get(spec, PUBLIC_PORT), Get(spec, LISTEN_PORT), Num(3080)])
    requires IsFirst(public, [Get(spec, PUBLIC_PORT), Get(spec, LISTEN_PORT), control])
    ensures var d := BackhaulReapplied(spec, ip);
            if ip == "" then d == Skip
            else exists scheme ::
                   && SchemeIs(IsWebsocketName(transport), HasCertificate(spec), scheme)
                   && BackhaulEnds(d, "0.0.0.0", scheme, ip, control, transport)
                   && Get(d.server, CONTROL_PORT) == control && Get(d.server, PUBLIC_PORT) == public
                   && Get(d.server, LISTEN_PORT) == public
                   && Untouched(spec, d.server, {MODE, BIND_ADDR, CONTROL_PORT, PUBLIC_PORT, LISTEN_PORT})
                   && Untouched(spec, d.client, {MODE, REMOTE_ADDR, TRANSPORT})
  {
    NamedTransport(spec, transport);
    FirstOfFour(control, Get(spec, CONTROL_PORT), Get(spec, PUBLIC_PORT), Get(spec, LISTEN_PORT), Num(3080));
    FirstOfThree(public, Get(spec, PUBLIC_PORT), Get(spec, LISTEN_PORT), control);
    BackhaulSchemeSpelt(spec, transport);
    hide IsFirst, Names, Transport, OptionsReadable, BackhaulTls, SchemeIs, Scheme, IsWebsocketName, HasCertificate;
    hide IsBackhaulWebsocket;
    if ip != "" {
      BackhaulReappliedEnds(spec, ip, transport);
      BackhaulReappliedFrame(spec, ip);
      hide BackhaulReapplied, BackhaulEnds, Untouched, Or, Get;
    }
  }

  lemma BackhaulReappliedEnds(spec: Spec, ip: string, transport: string)
    requires ip != "" && Transport(spec) == Str(transport)
    requires IsBackhaulWebsocket(transport) ==> BackhaulTls(spec).Some?
    ensures var d, control := BackhaulReapplied(spec, ip), BackhaulReappliedControl(spec);
            var websocket := IsBackhaulWebsocket(transport);
            && BackhaulEnds(d, "0.0.0.0", Scheme(websocket, websocket && BackhaulTls(spec).value), ip, control,
                            transport)
            && Get(d.server, CONTROL_PORT) == control
            && Get(d.server, PUBLIC_PORT) == Get(d.server, LISTEN_PORT) ==
                 Or(Or(Get(spec, PUBLIC_PORT), Get(spec, LISTEN_PORT)), control)
  {
    var control := BackhaulReappliedControl(spec);
    hide Transport, Truthy, IsBackhaulWebsocket, BackhaulTls, Scheme, Show, BackhaulReappliedControl;
    assert "0.0.0.0" + ":" + Show(control) == "0.0.0.0:" + Show(control);
  }

  // ---------- values ----------

  /** What counts as true, and how values are printed. */
  lemma ValuesAreRead(n: nat, s: string, b: bool, items: seq<Json>, fields: map<Key, Json>)
    ensures !Truthy(Null) && (Truthy(Bool(b)) <==> b) && (Truthy(Num(n)) <==> n > 0) && (Truthy(Str(s)) <==> |s| > 0)
    ensures (Truthy(Arr(items)) <==> |items| > 0) && (Truthy(Obj(fields)) <==> |fields| > 0)
    ensures Show(Num(n)) == Decimal(n) && Show(Str(s)) == s && Show(Null) == "None"
    ensures Show(Bool(true)) == "True" && Show(Bool(false)) == "False"
  {
    assert |fields.Keys| == |fields|;
    hide Decimal;
  }

  /** Numerals are written and read with the highest digit first. */
  lemma NumeralsAreSpelt()
    ensures Decimal(0) == "0" && Decimal(7) == "7" && Decimal(9) == "9" && Decimal(10) == "10" && Decimal(443) == "443"
  {
    assert Decimal(1) == "1" && Decimal(4) == "4";
    assert Decimal(44) == "44";
  }

  lemma NumeralsAreRead()
    ensures Value("0") == 0 && Value("7") == 7 && Value("10") == 10 && Value("443") == 443 && Value("0443") == 443
  {
    DigitsAreRead();
    hide Value;
    ValueSnoc("1", '0');
    assert "1" + ['0'] == "10";
    ValueSnoc("44", '3');
    ValueSnoc("044", '3');
    assert "44" + ['3'] == "443" && "044" + ['3'] == "0443";
  }

  lemma DigitsAreRead()
    ensures Value("0") == 0 && Value("7") == 7 && Value("4") == 4 && Value("1") == 1
    ensures Value("04") == 4 && Value("44") == 44 && Value("044") == 44
  {
    ValueSnoc("0", '4');
    ValueSnoc("4", '4');
    ValueSnoc("04", '4');
    assert "0" + ['4'] == "04" && "4" + ['4'] == "44" && "04" + ['4'] == "044";
  }
}
