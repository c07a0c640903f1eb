/** Parsing and printing of `host:port` strings, together with the textual form of IPv6
    addresses (section 2.2 of RFC 4291) that decides how an unbracketed colon is read. */
module Address {
  import opened Wrappers
  import opened Text

  // ---------- IPv6 literals ----------

  predicate IsHexDigit(c: char) {
    IsDigit(c) || 'a' <= c <= 'f' || 'A' <= c <= 'F'
  }

  /** One 16-bit group: one to four hex digits. */
  predicate IsGroup(s: string) {
    1 <= |s| <= 4 && forall k | 0 <= k < |s| :: IsHexDigit(s[k])
  }

  predicate IsOctet(s: string) {
    && IsNumeral(s) && |s| <= 3
    && (|s| > 1 ==> s[0] != '0')
    && Value(s) <= 255
  }

  predicate IsDottedQuad(s: string) {
    var octets := Split(s, '.');
    |octets| == 4 && forall k | 0 <= k < 4 :: IsOctet(octets[k])
  }

  /** The pieces between the colons when "::" leaves the piece at `k` empty. */
  predicate CompressedAt(parts: seq<string>, k: nat) {
    && 1 <= k < |parts| - 1 && parts[k] == ""
    && (forall j | 1 <= j < |parts| - 1 && parts[j] == "" :: j == k)
    && (parts[0] == "" ==> k == 1)
    && (parts[|parts| - 1] == "" ==> k == |parts| - 2)
    && GroupCount(parts) <= 7
    && (forall j | 0 <= j < |parts| && parts[j] != "" :: IsGroup(parts[j]))
  }

  /** How many of the eight groups are written out. */
  function GroupCount(parts: seq<string>): nat {
    if parts == [] then 0
    else GroupCount(parts[..|parts| - 1]) + (if parts[|parts| - 1] == "" then 0 else 1)
  }

  predicate IsCompressed(parts: seq<string>) {
    exists k | 0 <= k < |parts| :: CompressedAt(parts, k)
  }

  predicate IsFull(parts: seq<string>) {
    |parts| == 8 && forall j | 0 <= j < |parts| :: IsGroup(parts[j])
  }

  /** The pieces of an address whose last piece may be a dotted quad, which stands for two groups. */
  function Expand(parts: seq<string>): seq<string>
    requires |parts| >= 1
  {
    var n := |parts| - 1;
    if IsDottedQuad(parts[n]) then parts[..n] + ["0", "0"] else parts
  }

  /** An address without a zone. */
  predicate IsPlainIPv6(s: string) {
    var parts := Split(s, ':');
    |parts| >= 3 && (IsCompressed(Expand(parts)) || IsFull(Expand(parts)))
  }

  /** What `ipaddress.IPv6Address` accepts: an address, optionally followed by `%` and a zone. */
  predicate IsIPv6(s: string) {
    var pct := IndexOf(s, '%');
    && '/' !in s
    && if pct < 0 then IsPlainIPv6(s)
       else IsPlainIPv6(s[..pct]) && pct + 1 < |s| && '%' !in s[pct + 1..]
  }

  predicate HasZone(s: string) {
    '%' in s
  }

  // ---------- the parser and the printer ----------

  datatype Endpoint = Endpoint(host: string, port: Option<nat>, ipv6: bool)

  /** The match of `^\[([^\]]+)\](?::(\d+))?$` on a stripped string. */
  function BracketMatch(s: string): Option<(string, Option<nat>)> {
    var j := IndexOf(s, ']');
    if s == "" || s[0] != '[' || j < 2 then None
    else if j + 1 == |s| then Some((s[1..j], None))
    else if s[j + 1] == ':' && IsNumeral(s[j + 2..]) then Some((s[1..j], Some(Value(s[j + 2..]))))
    else None
  }

  /** The parser on a non-empty string, once it is stripped. */
  function ParseStripped(s: string): Endpoint {
    match BracketMatch(s)
    case Some((host, port)) => Endpoint(host, port, true)
    case None =>
      if IsIPv6(s) then Endpoint(s, None, true)
      else
        var i := LastIndexOf(s, ':');
        if i < 0 then Endpoint(s, None, false)
        else if IsNumeral(s[i + 1..]) then Endpoint(s[..i], Some(Value(s[i + 1..])), IsIPv6(s[..i]))
        else Endpoint(s, None, false)
  }

  function ParseAddressPort(address: string): Endpoint {
    if address == "" then Endpoint("", None, false) else ParseStripped(Strip(address))
  }

  function FormatAddressPort(host: string, port: Option<nat>): string {
    if host == "" then ""
    else match port
      case None => host
      case Some(p) => if IsIPv6(host) then "[" + host + "]:" + Decimal(p) else host + ":" + Decimal(p)
  }

  // ---------- facts about IPv6 literals ----------

  predicate IsPlainChar(c: char) {
    IsHexDigit(c) || c == ':' || c == '.'
  }

  lemma OctetChars(s: string, k: nat)
    requires IsOctet(s) && k < |s|
    ensures IsDigit(s[k])
  {
  }

  lemma DottedQuadChars(s: string, k: nat)
    requires IsDottedQuad(s) && k < |s|
    ensures IsDigit(s[k]) || s[k] == '.'
  {
    if s[k] != '.' {
      var j := SplitCovers(s, '.', k);
      var m :| 0 <= m < |Split(s, '.')[j]| && Split(s, '.')[j][m] == s[k];
      OctetChars(Split(s, '.')[j], m);
    }
  }

  /** Zone-free literals consist of hex digits, colons and dots. */
  lemma PlainChars(s: string, k: nat)
    requires IsPlainIPv6(s) && k < |s|
    ensures IsPlainChar(s[k])
  {
    if s[k] != ':' {
      var parts := Split(s, ':');
      var j := SplitCovers(s, ':', k);
      var m :| 0 <= m < |parts[j]| && parts[j][m] == s[k];
      if IsDottedQuad(parts[j]) {
        DottedQuadChars(parts[j], m);
      } else {
        assert j < |Expand(parts)| && Expand(parts)[j] == parts[j] && parts[j] != "";
        assert IsGroup(parts[j]);
      }
    }
  }

  lemma FirstPieceIsGroup(parts: seq<string>)
    requires |parts| >= 3 && (IsCompressed(Expand(parts)) || IsFull(Expand(parts)))
    requires parts[0] != ""
    ensures IsGroup(parts[0])
  {
    assert Expand(parts)[0] == parts[0];
  }

  /** A literal starts with a hex digit or a colon. */
  lemma IPv6Head(s: string)
    requires IsIPv6(s)
    ensures s != "" && (IsHexDigit(s[0]) || s[0] == ':')
  {
    var pct := IndexOf(s, '%');
    var plain := if pct < 0 then s else s[..pct];
    var parts := Split(plain, ':');
    PlainChars(plain, 0);
    if plain[0] == '.' {
      SplitHead(plain, ':');
      FirstPieceIsGroup(parts);
    }
  }

  lemma BracketedIsNotIPv6(s: string)
    requires s != "" && s[0] == '['
    ensures !IsIPv6(s)
  {
    if IsIPv6(s) {
      IPv6Head(s);
    }
  }

  // ---------- printing, then parsing ----------

  /** An address string that ends in a colon and a numeral. */
  predicate EndsWithPort(s: string) {
    var i := LastIndexOf(s, ':');
    i >= 0 && IsNumeral(s[i + 1..])
  }

  /** `[...]` around a non-empty text that holds no closing bracket. */
  predicate IsBracketed(s: string) {
    var n := |s| - 1;
    n >= 2 && s[0] == '[' && s[n] == ']' && ']' !in s[..n]
  }

  /** When the parser recovers exactly what was printed. */
  predicate Recoverable(host: string, port: Option<nat>) {
    if host == "" then port == None
    else match port
      case None =>
        && Strip(host) == host
        && (IsIPv6(host) || (BracketMatch(host) == None && !EndsWithPort(host)))
      case Some(p) =>
        if IsIPv6(host) then ']' !in host
        else !IsSpace(host[0]) && !IsBracketed(host) && !IsIPv6(host + ":" + Decimal(p))
  }

  /** The colon at `i` is followed by a numeral that runs to the end. */
  predicate PortAt(s: string, i: int) {
    0 <= i < |s| && s[i] == ':' && IsNumeral(s[i + 1..])
  }

  lemma PortAtIsLast(s: string, i: nat)
    requires PortAt(s, i)
    ensures LastIndexOf(s, ':') == i && !IsSpace(s[|s| - 1]) && IsDigit(s[|s| - 1])
  {
    forall k | i < k < |s| ensures IsDigit(s[k]) {
      assert s[k] == s[i + 1..][k - i - 1];
    }
    LastIndexIs(s, ':', i);
  }

  /** Only blanks at the left end can be lost from a string that ends in a port. */
  lemma StripPortAt(s: string, i: nat)
    requires PortAt(s, i)
    ensures var r := Strip(s); var j := i + |r| - |s|;
            PortAt(r, j) && r[j + 1..] == s[i + 1..]
  {
    PortAtIsLast(s, i);
    StripLeftOnly(s);
    var r := Strip(s);
    var d := |s| - |r|;
    assert d <= i && s[d..][i - d] == s[i];
    assert r[i - d + 1..] == s[i + 1..];
  }

  /** A bracketed match of a string that ends in a port reports that port. */
  lemma BracketPort(s: string, i: nat)
    requires PortAt(s, i) && BracketMatch(s).Some?
    ensures BracketMatch(s).value == (s[1..i - 1], Some(Value(s[i + 1..])))
  {
    PortAtIsLast(s, i);
    var j := IndexOf(s, ']');
    assert PortAt(s, j + 1);
    PortAtIsLast(s, j + 1);
  }

  lemma ParseStrippedPort(r: string, j: nat)
    requires PortAt(r, j)
    ensures if IsIPv6(r) then ParseStripped(r) == Endpoint(r, None, true)
            else && ParseStripped(r).port == Some(Value(r[j + 1..]))
                 && if BracketMatch(r).Some? then ParseStripped(r).ipv6
                    else ParseStripped(r) == Endpoint(r[..j], Some(Value(r[j + 1..])), IsIPv6(r[..j]))
  {
    PortAtIsLast(r, j);
    if IsIPv6(r) {
      IPv6Head(r);
      NoBracketMatch(r);
    } else if BracketMatch(r).Some? {
      BracketPort(r, j);
    }
    hide IsIPv6, Value, BracketMatch, IsHexDigit, IsDigit, IsSpace, LastIndexOf;
  }

  lemma NoBracketMatch(s: string)
    requires s == "" || s[0] != '['
    ensures BracketMatch(s) == None
  {
  }

  /** `host:numeral`, for any host whatever: unless the whole string is itself an IPv6 literal,
      the parser finds the numeral as the port. */
  lemma ParsePortAt(s: string, i: nat)
    requires PortAt(s, i)
    ensures var r := Strip(s); var j := i + |r| - |s|;
            if IsIPv6(r) then ParseAddressPort(s) == Endpoint(r, None, true)
            else && ParseAddressPort(s).port == Some(Value(s[i + 1..]))
                 && 0 <= j <= |r|
                 && if BracketMatch(r).Some? then ParseAddressPort(s).ipv6
                    else ParseAddressPort(s) == Endpoint(r[..j], Some(Value(s[i + 1..])), IsIPv6(r[..j]))
  {
    StripPortAt(s, i);
    ParseStrippedPort(Strip(s), i + |Strip(s)| - |s|);
    hide IsIPv6, Value, BracketMatch, Strip, ParseStripped, IsNumeral;
  }

  lemma JoinedPortAt(host: string, numeral: string)
    requires IsNumeral(numeral)
    ensures PortAt(host + ":" + numeral, |host|)
    ensures (host + ":" + numeral)[|host| + 1..] == numeral
    ensures (host + ":" + numeral)[..|host|] == host
  {
  }

  // ---------- printing, then parsing ----------

  /** `format_address_port` is undone by `parse_address_port` exactly on the recoverable inputs. */
  lemma RoundTrip(host: string, port: Option<nat>)
    ensures ParseAddressPort(FormatAddressPort(host, port)) == Endpoint(host, port, IsIPv6(host))
       <==> Recoverable(host, port)
  {
    if host == "" {
      assert !IsIPv6("") by {
        if IsIPv6("") { IPv6Head(""); }
      }
    } else if port == None {
      RoundTripNoPort(host);
    } else if IsIPv6(host) {
      RoundTripBracketed(host, port.value);
    } else {
      RoundTripJoined(host, port.value);
    }
  }

  lemma RoundTripNoPort(host: string)
    requires host != ""
    ensures ParseAddressPort(host) == Endpoint(host, None, IsIPv6(host)) <==> Recoverable(host, None)
  {
    hide IsIPv6, BracketMatch, Strip, EndsWithPort, ParseStripped, LastIndexOf, IsNumeral, Value;
    if Strip(host) == host {
      if IsIPv6(host) {
        IPv6Head(host);
        NoBracketMatch(host);
      }
      StrippedNoPort(host);
    } else {
      StrippedHost(Strip(host));
      StripShrinks(host);
    }
  }

  lemma StripShrinks(s: string)
    ensures Strip(s) != s ==> |Strip(s)| < |s|
  {
  }

  /** The host that is read is no longer than the text. */
  lemma StrippedHost(s: string)
    ensures |ParseStripped(s).host| <= |s|
  {
    hide IsIPv6, Value;
  }

  lemma StrippedNoPort(s: string)
    ensures ParseStripped(s) == Endpoint(s, None, IsIPv6(s)) <==>
              if BracketMatch(s).Some? then false else IsIPv6(s) || !EndsWithPort(s)
  {
    hide IsIPv6, Value, IsNumeral;
    if BracketMatch(s).Some? {
      MatchIsShorter(s);
    }
  }

  lemma MatchIsShorter(s: string)
    requires BracketMatch(s).Some?
    ensures |BracketMatch(s).value.0| < |s|
  {
    hide Value, IsNumeral;
  }

  lemma RoundTripBracketed(host: string, port: nat)
    requires IsIPv6(host)
    ensures ParseAddressPort("[" + host + "]:" + Decimal(port)) == Endpoint(host, Some(port), true)
       <==> ']' !in host
  {
    var s, i := "[" + host + "]:" + Decimal(port), |host| + 2;
    DecimalValue(port);
    IPv6Head(host);
    BracketedForm(host, Decimal(port));
    BracketedIsNotIPv6(s);
    ParsePortAt(s, i);
    BracketedMatch(host, Decimal(port));
    hide IsIPv6, Decimal, Value, BracketMatch, Strip, IsNumeral, IsHexDigit, PortAt;
  }

  lemma BracketedForm(host: string, numeral: string)
    requires IsNumeral(numeral)
    ensures var s := "[" + host + "]:" + numeral;
            && PortAt(s, |host| + 2) && s[|host| + 3..] == numeral && Strip(s) == s && s[0] == '['
  {
    var s := "[" + host + "]:" + numeral;
    assert s[|host| + 3..] == numeral;
    StripKeeps(s, |host| + 2);
  }

  /** The bracketed text is matched up to its first closing bracket. */
  lemma BracketedMatch(host: string, numeral: string)
    requires host != "" && IsNumeral(numeral)
    ensures var s := "[" + host + "]:" + numeral;
            if ']' !in host then BracketMatch(s) == Some((host, Some(Value(numeral))))
            else BracketMatch(s).Some? ==> BracketMatch(s).value.0 != host
  {
    hide Value, IsNumeral;
    var s, n := "[" + host + "]:" + numeral, |host|;
    assert s[n + 3..] == numeral && s[1..n + 1] == host && s[n + 1] == ']' && s[n + 2] == ':';
    if ']' !in host {
      assert s[..n + 1] == "[" + host;
      IndexIs(s, ']', n + 1);
    } else {
      var k :| 0 <= k < n && host[k] == ']';
      assert s[k + 1] == ']';
    }
  }

  lemma RoundTripJoined(host: string, port: nat)
    requires host != "" && !IsIPv6(host)
    ensures ParseAddressPort(host + ":" + Decimal(port)) == Endpoint(host, Some(port), false)
       <==> Recoverable(host, Some(port))
  {
    var d := Decimal(port);
    var s := host + ":" + d;
    JoinedPortAt(host, d);
    ParsePortAt(s, |host|);
    StripPortAt(s, |host|);
    PortAtIsLast(s, |host|);
    DecimalValue(port);
    if IsSpace(host[0]) {
      assert |Strip(s)| < |s|;
    } else {
      assert Strip(s) == s;
      BracketIgnoresPort(host, s);
    }
  }

  lemma BracketIgnoresPort(host: string, s: string)
    requires PortAt(s, |host|) && s[..|host|] == host
    ensures BracketMatch(s).Some? <==> IsBracketed(host)
  {
    PortAtIsLast(s, |host|);
    var j := IndexOf(s, ']');
    if BracketMatch(s).Some? {
      assert PortAt(s, j + 1);
      PortAtIsLast(s, j + 1);
      assert host[..j] == s[..j];
    }
    if IsBracketed(host) {
      assert s[..|host| - 1] == host[..|host| - 1];
      IndexIs(s, ']', |host| - 1);
    }
  }

  /** The inputs the utility documents: an IPv6 literal without a zone, or a name or IPv4
      address, with or without a port. */
  lemma DocumentedHostsRoundTrip(host: string, port: Option<nat>)
    requires IsPlainIPv6(host)
          || (host != "" && ':' !in host && '[' !in host && Strip(host) == host)
    ensures ParseAddressPort(FormatAddressPort(host, port)) == Endpoint(host, port, IsIPv6(host))
  {
    hide IsIPv6, IsPlainIPv6, ParseAddressPort, FormatAddressPort, Decimal, Strip, BracketMatch, Value, HasZone;
    RoundTrip(host, port);
    if IsPlainIPv6(host) {
      PlainIsIPv6(host);
    } else {
      NoColonNotIPv6(host);
      NameHasNoPort(host);
      NoBracketMatch(host);
      if port.Some? {
        OneColonNotIPv6(host, Decimal(port.value));
      }
    }
  }

  lemma NameHasNoPort(host: string)
    requires host != "" && ':' !in host && '[' !in host
    ensures !EndsWithPort(host) && !IsBracketed(host) && host[0] != '['
    ensures Strip(host) == host ==> !IsSpace(host[0])
  {
    hide IsNumeral;
  }

  lemma PlainIsIPv6(s: string)
    requires IsPlainIPv6(s)
    ensures s != "" && IsIPv6(s) && ']' !in s && !HasZone(s) && Strip(s) == s && BracketMatch(s) == None
  {
    assert Split("", ':') == [""];
    forall k | 0 <= k < |s| ensures IsPlainChar(s[k]) {
      PlainChars(s, k);
    }
  }

  lemma NoColonNotIPv6(s: string)
    requires ':' !in s
    ensures !IsIPv6(s)
  {
    var pct := IndexOf(s, '%');
    var plain := if pct < 0 then s else s[..pct];
    assert ':' !in plain;
    assert LastIndexOf(plain, ':') < 0;
  }

  lemma OneColonNotIPv6(a: string, b: string)
    requires ':' !in a && IsNumeral(b)
    ensures !IsIPv6(a + ":" + b)
  {
    var s := a + ":" + b;
    var pct := IndexOf(s, '%');
    var plain := if pct < 0 then s else s[..pct];
    var i := LastIndexOf(plain, ':');
    JoinedPortAt(a, b);
    PortAtIsLast(s, |a|);
    if i >= 0 {
      assert plain[..i] == a by {
        forall k | 0 <= k < |a| ensures s[k] != ':' {
          assert s[k] == a[k];
        }
      }
      assert Split(a, ':') == [a];
      assert |Split(plain, ':')| == 2;
    }
  }

  // ---------- an IPv6 literal followed by an unbracketed port ----------

  /** A hex literal whose "::" can give up a group: it does not end the literal, and at most six
      groups are written out. */
  predicate HasRoomForGroup(h: string) {
    var parts := Split(h, ':');
    IsCompressed(parts) && parts[|parts| - 1] != "" && GroupCount(parts) <= 6
  }

  /** How `literal:port` is read: the port survives unless a zone swallows it or "::" has room for it. */
  lemma UnbracketedIPv6(h: string, port: nat)
    requires IsIPv6(h)
    ensures ParseAddressPort(h + ":" + Decimal(port)) ==
            if HasZone(h) || (HasRoomForGroup(h) && port < 10000)
            then Endpoint(h + ":" + Decimal(port), None, true)
            else Endpoint(h, Some(port), true)
  {
    hide IsIPv6, Value, BracketMatch, Strip, ParseAddressPort, Decimal, LastIndexOf, IsNumeral;
    hide HasZone, HasRoomForGroup;
    var d := Decimal(port);
    var s := h + ":" + d;
    JoinedPortAt(h, d);
    ParsePortAt(s, |h|);
    IPv6Head(h);
    BracketNever(h, s);
    StripKeeps(s, |h|);
    Absorption(h, d);
    DecimalLength(port);
    DecimalValue(port);
  }

  /** A text that starts with no blank and ends in a port has nothing to strip. */
  lemma StripKeeps(s: string, i: nat)
    requires PortAt(s, i) && !IsSpace(s[0])
    ensures Strip(s) == s
  {
    PortAtIsLast(s, i);
  }

  lemma BracketNever(h: string, s: string)
    requires h != "" && |h| <= |s| && s[0] == h[0] && (IsHexDigit(h[0]) || h[0] == ':')
    ensures BracketMatch(s) == None && !IsSpace(s[0])
  {
  }

  /** Appending `:numeral` to an IPv6 literal gives an IPv6 literal again, exactly when... */
  lemma Absorption(h: string, numeral: string)
    requires IsIPv6(h) && IsNumeral(numeral)
    ensures IsIPv6(h + ":" + numeral) <==> HasZone(h) || (HasRoomForGroup(h) && |numeral| <= 4)
  {
    var s := h + ":" + numeral;
    assert '/' !in s;
    if HasZone(h) {
      ZoneAbsorbs(h, numeral);
    } else {
      hide IsPlainIPv6, HasRoomForGroup;
      assert IndexOf(h, '%') < 0 && IndexOf(s, '%') < 0;
      AbsorptionPlain(h, numeral);
    }
  }

  lemma ZoneAbsorbs(h: string, numeral: string)
    requires IsIPv6(h) && HasZone(h) && IsNumeral(numeral)
    ensures IsIPv6(h + ":" + numeral)
  {
    hide IsPlainIPv6;
    var s, pct := h + ":" + numeral, IndexOf(h, '%');
    assert s[..pct] == h[..pct];
    IndexIs(s, '%', pct);
    assert s[pct + 1..] == h[pct + 1..] + ":" + numeral;
  }

  lemma AbsorptionPlain(h: string, numeral: string)
    requires IsPlainIPv6(h) && IsNumeral(numeral)
    ensures IsPlainIPv6(h + ":" + numeral) <==> HasRoomForGroup(h) && |numeral| <= 4
  {
    hide IsCompressed, IsFull, IsDottedQuad, IsGroup, Split;
    var parts := Split(h, ':');
    SplitSnoc(h, ':', numeral);
    NumeralNotQuad(numeral);
    NumeralGroup(numeral);
    var more := parts + [numeral];
    assert Expand(more) == more;
    if IsDottedQuad(parts[|parts| - 1]) {
      QuadInside(parts, numeral);
    } else {
      AppendPiece(parts, numeral);
    }
  }

  lemma NumeralGroup(numeral: string)
    requires IsNumeral(numeral)
    ensures IsGroup(numeral) <==> |numeral| <= 4
    ensures numeral != "" && ':' !in numeral
  {
  }

  /** A dotted quad can only stand at the end. */
  lemma QuadInside(parts: seq<string>, piece: string)
    requires parts != [] && IsDottedQuad(parts[|parts| - 1])
    ensures !IsCompressed(parts + [piece]) && !IsFull(parts + [piece]) && !IsCompressed(parts)
  {
    QuadNotGroup(parts[|parts| - 1]);
    assert (parts + [piece])[|parts| - 1] == parts[|parts| - 1];
    hide IsDottedQuad;
  }

  /** One more non-empty piece after the pieces of a literal. */
  lemma AppendPiece(parts: seq<string>, piece: string)
    requires |parts| >= 3 && (IsCompressed(parts) || IsFull(parts)) && piece != ""
    ensures var more := parts + [piece];
            IsCompressed(more) || IsFull(more) <==>
            IsCompressed(parts) && parts[|parts| - 1] != "" && GroupCount(parts) <= 6 && IsGroup(piece)
  {
    var more := parts + [piece];
    var n := |parts| - 1;
    assert more[..n + 1] == parts && GroupCount(more) == GroupCount(parts) + 1;
    assert more[n + 1] == piece;
    assert forall j | 0 <= j <= n :: more[j] == parts[j];
    if IsFull(parts) {
      FullNotCompressed(parts);
      assert forall j | 1 <= j < |more| - 1 :: more[j] != "";
    } else {
      var k :| 0 <= k < |parts| && CompressedAt(parts, k);
      assert more[k] == "";
      if parts[n] == "" {
        assert more[n] == "";
      } else if GroupCount(parts) <= 6 && IsGroup(piece) {
        assert CompressedAt(more, k);
      }
    }
  }

  lemma FullNotCompressed(parts: seq<string>)
    requires IsFull(parts)
    ensures !IsCompressed(parts)
  {
  }

  lemma NumeralNotQuad(numeral: string)
    requires IsNumeral(numeral)
    ensures !IsDottedQuad(numeral)
  {
    assert LastIndexOf(numeral, '.') < 0;
  }

  lemma QuadNotGroup(s: string)
    requires IsDottedQuad(s)
    ensures !IsGroup(s) && s != ""
  {
    assert LastIndexOf(s, '.') >= 0;
  }
}
