/** What the node's adapters share: reading addresses, ports and names out of a half, and what is
    dialled when an address is a host followed by a port. */
module Dialling {
  import opened Wrappers
  import opened Text
  import opened Address
  import opened Specs

  // ---------- addresses ----------

  /** The port a configured address names, read as the repository itself reads addresses. */
  function DialPort(address: string): Option<nat> {
    ParseAddressPort(address).port
  }

  /** The address without the websocket scheme the panel puts in front. */
  function StripScheme(s: string): string {
    if |s| >= 5 && s[..5] == "ws://" then s[5..]
    else if |s| >= 6 && s[..6] == "wss://" then s[6..]
    else s
  }

  predicate SaysTls(s: string) {
    |s| >= 6 && s[..6] == "wss://"
  }

  /** A host with no leading blank and no slash. */
  predicate PlainHost(ip: string) {
    ip != "" && !IsSpace(ip[0]) && '/' !in ip
  }

  /** `spec.get(key, '').strip()`, when it neither raises nor is refused as empty. */
  function SolidText(spec: Spec, key: Key): Option<string> {
    match GetOr(spec, key, Str(""))
    case Str(s) => if Strip(s) == "" then None else Some(Strip(s))
    case _ => None
  }

  // ---------- ports ----------

  /** What iterating over a `ports` value yields; none if Python cannot iterate over it. */
  function Items(ports: Json): Option<seq<Json>> {
    match ports
    case Arr(items) => Some(items)
    case Str(s) => Some(seq(|s|, k requires 0 <= k < |s| => Str([s[k]])))
    case _ => None
  }

  /** A port as it is printed into a configuration, numerals normalised. */
  function PortText(port: Json): string {
    match port
    case Str(s) => if IsNumeral(s) then Decimal(Value(s)) else s
    case _ => Show(port)
  }

  function ServiceName(id: string, count: nat, i: nat): string {
    if count > 1 then id + "_" + Decimal(i) else id
  }

  /** The token line, if there is one. */
  function TokenText(token: Json): string {
    if Truthy(token) then Show(token) else ""
  }

  /** Whether a `ports` value can be iterated over, if it is used at all. */
  predicate PortsUsable(ports: Json) {
    Truthy(ports) ==> Items(ports).Some?
  }

  predicate AddressUsable(address: Json) {
    Truthy(address) ==> address.Str?
  }

  lemma ProxyNumeral(port: Json)
    requires PortNumber(port).Some?
    ensures IsNumeral(Show(port)) && Value(Show(port)) == PortNumber(port).value
    ensures PortText(port) == Decimal(PortNumber(port).value)
  {
    if port.Num? {
      DecimalValue(port.n);
    }
  }

  /** No two entries of a tunnel's list share a name. */
  lemma ServiceNamesDistinct(id: string, count: nat, i: nat, j: nat)
    requires i < j < count
    ensures ServiceName(id, count, i) != ServiceName(id, count, j)
  {
    var a, b := ServiceName(id, count, i), ServiceName(id, count, j);
    if a == b {
      assert a[|id| + 1..] == Decimal(i) && b[|id| + 1..] == Decimal(j);
      DecimalInjective(i, j);
    }
  }

  // ---------- dialling a host followed by a port ----------

  /** `host:numeral` is dialled on the numeral's port unless the whole reads as an IPv6 address. */
  lemma DialPortAt(s: string, i: nat)
    requires PortAt(s, i)
    ensures DialPort(s) == Some(Value(s[i + 1..])) <==> !IsIPv6(Strip(s))
  {
    hide IsIPv6, Value, Strip;
    ParsePortAt(s, i);
  }

  /** Dropping the scheme leaves the port in place. */
  lemma StripSchemePort(s: string, i: nat)
    requires PortAt(s, i)
    ensures var r := StripScheme(s); var j := i + |r| - |s|;
            PortAt(r, j) && r[j + 1..] == s[i + 1..]
  {
    hide IsNumeral;
    var r := StripScheme(s);
    if |r| < |s| {
      SchemeBeforePort(s, i);
      assert r[i + |r| - |s| + 1..] == s[i + 1..];
    }
  }

  /** The colon of the scheme is not followed by a numeral. */
  lemma SchemeBeforePort(s: string, i: nat)
    requires PortAt(s, i) && |StripScheme(s)| < |s|
    ensures i >= |s| - |StripScheme(s)|
  {
    var n := |s| - |StripScheme(s)|;
    assert s[n - 1] == s[..n][n - 1];
    forall k | i < k < |s| ensures IsDigit(s[k]) {
      assert s[k] == s[i + 1..][k - i - 1];
    }
  }

  lemma LastDigit(numeral: string)
    requires IsNumeral(numeral)
    ensures numeral != "" && IsDigit(numeral[|numeral| - 1])
  {
  }

  lemma SolidEnds(s: string)
    requires s != "" && !IsSpace(s[0]) && !IsSpace(s[|s| - 1])
    ensures Strip(s) == s
  {
  }

  lemma NoScheme(ip: string, numeral: string)
    requires '/' !in ip && IsNumeral(numeral)
    ensures var s := ip + ":" + numeral; StripScheme(s) == s
  {
    var s := ip + ":" + numeral;
    forall k | 0 <= k < |s| ensures s[k] != '/' {
    }
    assert |s| >= 5 ==> s[..5][4] == s[4];
    assert |s| >= 6 ==> s[..6][5] == s[5];
  }

  /** With a plain host nothing but the scheme is dropped. */
  lemma PlainHostKept(scheme: string, ip: string, numeral: string)
    requires scheme == "" || scheme == "ws://" || scheme == "wss://"
    requires PlainHost(ip) && IsNumeral(numeral)
    ensures var s := scheme + ip + ":" + numeral;
            StripScheme(Strip(s)) == StripScheme(s) == ip + ":" + numeral
  {
    hide IsNumeral;
    var s, t := scheme + ip + ":" + numeral, ip + ":" + numeral;
    assert numeral != "" && IsDigit(numeral[|numeral| - 1]) by { LastDigit(numeral); }
    assert Strip(s) == s by {
      hide Strip;
      assert s[|s| - 1] == numeral[|numeral| - 1];
      assert s[0] == if scheme == "" then ip[0] else 'w';
      SolidEnds(s);
    }
    if scheme == "" {
      assert s == t;
      NoScheme(ip, numeral);
    } else {
      assert s[..|scheme|] == scheme && s[|scheme|..] == t;
      assert scheme == "wss://" ==> s[2] == 's';
      assert scheme == "wss://" ==> s[..5][2] == 's';
    }
  }

  /** Whether a plain host and a port run together into an IPv6 address: never when the host has no
      colon, and for an IPv6 literal exactly when a zone swallows the port or "::" has room for it. */
  lemma RunTogether(ip: string, numeral: string)
    requires PlainHost(ip) && IsNumeral(numeral)
    ensures Strip(ip + ":" + numeral) == ip + ":" + numeral
    ensures ':' !in ip ==> !IsIPv6(ip + ":" + numeral)
    ensures IsIPv6(ip) ==> (IsIPv6(ip + ":" + numeral) <==> HasZone(ip) || (HasRoomForGroup(ip) && |numeral| <= 4))
  {
    hide IsIPv6, HasRoomForGroup, HasZone;
    LastDigit(numeral);
    var s := ip + ":" + numeral;
    assert s[|s| - 1] == numeral[|numeral| - 1];
    SolidEnds(s);
    if ':' !in ip {
      OneColonNotIPv6(ip, numeral);
    }
    if IsIPv6(ip) {
      Absorption(ip, numeral);
    }
  }

  /** How a plain, unbracketed host followed by a port is read. */
  lemma PlainHostEndpoint(host: string, numeral: string)
    requires PlainHost(host) && host[0] != '[' && IsNumeral(numeral)
    ensures var s := host + ":" + numeral;
            ParseAddressPort(s) ==
            if IsIPv6(s) then Endpoint(s, None, true) else Endpoint(host, Some(Value(numeral)), IsIPv6(host))
  {
    hide IsIPv6, Value;
    var s := host + ":" + numeral;
    JoinedPortAt(host, numeral);
    LastDigit(numeral);
    assert s[|s| - 1] == numeral[|numeral| - 1];
    SolidEnds(s);
    ParsePortAt(s, |host|);
  }

  /** The port that `host:numeral` states: none when the whole reads as an IPv6 address. */
  lemma StatedAfterHost(host: string, numeral: string)
    requires IsNumeral(numeral)
    ensures StatedPort(Str(host + ":" + numeral)) ==
            if IsIPv6(Strip(host + ":" + numeral)) then 0 else Value(numeral)
  {
    hide IsIPv6, Value, Strip, IsNumeral, ParseAddressPort;
    JoinedPortAt(host, numeral);
    ParsePortAt(host + ":" + numeral, |host|);
  }

  lemma PortFollowed(s: string, i: nat)
    requires PortAt(s, i)
    ensures Strip(s) != ""
    ensures DialPort(StripScheme(Strip(s))) == Some(Value(s[i + 1..])) <==> !IsIPv6(Strip(StripScheme(Strip(s))))
    ensures DialPort(StripScheme(s)) == Some(Value(s[i + 1..])) <==> !IsIPv6(Strip(StripScheme(s)))
  {
    hide IsIPv6, Value, Strip, IsNumeral, DialPort, StripScheme;
    StripPortAt(s, i);
    var r := Strip(s);
    var j := i + |r| - |s|;
    StripSchemePort(r, j);
    DialPortAt(StripScheme(r), j + |StripScheme(r)| - |r|);
    StripSchemePort(s, i);
    DialPortAt(StripScheme(s), i + |StripScheme(s)| - |s|);
  }

  /** The address a client adapter is left with: it ends in the control port, and if the host is
      plain it is just the host and that port. */
  lemma DialledAddress(scheme: string, ip: string, numeral: string)
    requires scheme == "" || scheme == "ws://" || scheme == "wss://"
    requires IsNumeral(numeral)
    ensures var remote := scheme + ip + ":" + numeral;
            && Strip(remote) != ""
            && (DialPort(StripScheme(Strip(remote))) == Some(Value(numeral)) <==>
                  !IsIPv6(Strip(StripScheme(Strip(remote)))))
            && (DialPort(StripScheme(remote)) == Some(Value(numeral)) <==> !IsIPv6(Strip(StripScheme(remote))))
            && (PlainHost(ip) ==> StripScheme(Strip(remote)) == StripScheme(remote) == ip + ":" + numeral)
  {
    hide IsIPv6, Value, Strip, IsNumeral, DialPort, StripScheme;
    var remote := scheme + ip + ":" + numeral;
    JoinedPortAt(scheme + ip, numeral);
    PortFollowed(remote, |scheme + ip|);
    if PlainHost(ip) {
      PlainHostKept(scheme, ip, numeral);
    }
  }

  lemma SchemeCases(websocket: bool, tls: bool)
    ensures Scheme(websocket, tls) == "" || Scheme(websocket, tls) == "ws://" || Scheme(websocket, tls) == "wss://"
  {
  }

  /** A half to which the transport was copied, or in which nothing about it changed. */
  lemma TransportKept(spec: Spec, half: Spec)
    requires Get(half, TRANSPORT) == Transport(spec)
          || (Get(half, TRANSPORT) == Get(spec, TRANSPORT) && Get(half, TYPE) == Get(spec, TYPE))
    ensures Transport(half) == Transport(spec)
  {
  }
}
