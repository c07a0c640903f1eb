/** The textual forms of IPv6 addresses as section 2.2 of RFC 4291 writes them down: eight groups between
    colons, a "::" for one or more of them, and a dotted quad for the last two. What `Address` recognises
    by splitting and counting are exactly these. */
module IPv6Grammar {
  import opened Text
  import opened Address

  // ---------- numerals and dotted quads ----------

  lemma HexDigits(c: char)
    ensures IsHexDigit(c) <==> c in "0123456789abcdefABCDEF"
  {
  }

  lemma {:induction false} DecimalHead(n: nat)
    ensures Decimal(n)[0] == '0' <==> n == 0
    decreases n
  {
    if n >= 10 {
      DecimalHead(n / 10);
    }
  }

  /** A numeral without leading zeros is the one its value prints. */
  lemma {:induction false} CanonicalNumeral(s: string)
    requires IsNumeral(s) && (|s| > 1 ==> s[0] != '0')
    ensures Decimal(Value(s)) == s && (Value(s) == 0 <==> s == "0")
    decreases |s|
  {
    var n := |s| - 1;
    if n > 0 {
      var init := s[..n];
      assert init[0] == s[0];
      CanonicalNumeral(init);
      assert Value(init) != 0;
      assert Value(s) / 10 == Value(init) && Value(s) % 10 == DigitValue(s[n]);
      assert s == init + [s[n]];
    }
  }

  lemma SmallNumeral(n: nat)
    ensures |Decimal(n)| <= 3 <==> n <= 999
  {
    if n >= 10 && n / 10 >= 10 {
      assert |Decimal(n)| == |Decimal(n / 100)| + 2;
    }
  }

  lemma OctetIs(s: string)
    ensures IsOctet(s) <==> exists n :: 0 <= n <= 255 && s == Decimal(n)
  {
    if IsOctet(s) {
      CanonicalNumeral(s);
    }
    forall n | 0 <= n <= 255 && s == Decimal(n) ensures IsOctet(s) {
      DecimalHead(n);
      DecimalValue(n);
      SmallNumeral(n);
      ZeroAlone(n);
    }
    hide Value, Decimal;
  }

  lemma OctetOf(n: nat)
    requires n <= 255
    ensures IsOctet(Decimal(n)) && '.' !in Decimal(n)
  {
    OctetIs(Decimal(n));
    assert IsNumeral(Decimal(n));
    hide IsOctet, Decimal;
  }

  lemma ZeroAlone(n: nat)
    ensures n == 0 ==> |Decimal(n)| == 1
  {
  }

  /** The pieces with a separator between them. */
  function Joined(parts: seq<string>, c: char): string {
    if parts == [] then ""
    else if |parts| == 1 then parts[0]
    else var n := |parts| - 1; Joined(parts[..n], c) + [c] + parts[n]
  }

  lemma {:induction false} SplitJoined(parts: seq<string>, c: char)
    requires parts != [] && forall j | 0 <= j < |parts| :: c !in parts[j]
    ensures Split(Joined(parts, c), c) == parts
    decreases |parts|
  {
    var n := |parts| - 1;
    if n == 0 {
      assert LastIndexOf(parts[0], c) < 0;
    } else {
      assert forall j | 0 <= j < n :: parts[..n][j] == parts[j];
      JoinedSnoc(parts, c);
      SplitJoined(parts[..n], c);
      SplitSnoc(Joined(parts[..n], c), c, parts[n]);
      assert parts[..n] + [parts[n]] == parts;
      hide Joined, Split, LastIndexOf;
    }
  }

  lemma JoinedSnoc(parts: seq<string>, c: char)
    requires |parts| > 1
    ensures var n := |parts| - 1; Joined(parts, c) == Joined(parts[..n], c) + [c] + parts[n]
  {
  }

  lemma AfterLast(s: string, c: char)
    requires LastIndexOf(s, c) >= 0
    ensures c !in s[LastIndexOf(s, c) + 1..]
  {
    var i := LastIndexOf(s, c);
    var last := s[i + 1..];
    forall k | 0 <= k < |last| ensures last[k] != c {
      assert last[k] == s[i + 1 + k];
    }
  }

  lemma {:induction false} JoinedSplit(s: string, c: char)
    ensures Joined(Split(s, c), c) == s
    decreases |s|
  {
    var i := LastIndexOf(s, c);
    if i >= 0 {
      JoinedSplit(s[..i], c);
      var parts, n := Split(s, c), |Split(s, c)| - 1;
      assert parts[..n] == Split(s[..i], c) && parts[n] == s[i + 1..];
      assert s == s[..i] + [c] + s[i + 1..];
    }
  }

  lemma {:induction false} SplitApart(s: string, c: char)
    ensures forall j | 0 <= j < |Split(s, c)| :: c !in Split(s, c)[j]
    decreases |s|
  {
    var i := LastIndexOf(s, c);
    if i >= 0 {
      SplitApart(s[..i], c);
      AfterLast(s, c);
      assert Split(s, c) == Split(s[..i], c) + [s[i + 1..]];
      hide Split, LastIndexOf;
    }
  }

  /** A dotted quad is four decimal numbers up to 255, without leading zeros. */
  lemma QuadIs(s: string)
    ensures IsDottedQuad(s) <==>
              exists w, x, y, z | 0 <= w <= 255 && 0 <= x <= 255 && 0 <= y <= 255 && 0 <= z <= 255 ::
                s == Decimal(w) + "." + Decimal(x) + "." + Decimal(y) + "." + Decimal(z)
  {
    if IsDottedQuad(s) {
      var o := Split(s, '.');
      JoinedSplit(s, '.');
      OctetIs(o[0]);
      OctetIs(o[1]);
      OctetIs(o[2]);
      OctetIs(o[3]);
      FourJoined(o);
      var w :| 0 <= w <= 255 && o[0] == Decimal(w);
      var x :| 0 <= x <= 255 && o[1] == Decimal(x);
      var y :| 0 <= y <= 255 && o[2] == Decimal(y);
      var z :| 0 <= z <= 255 && o[3] == Decimal(z);
      hide Decimal, IsOctet, Split, Joined;
      assert s == Decimal(w) + "." + Decimal(x) + "." + Decimal(y) + "." + Decimal(z);
    }
    forall w, x, y, z | 0 <= w <= 255 && 0 <= x <= 255 && 0 <= y <= 255 && 0 <= z <= 255
                        && s == Decimal(w) + "." + Decimal(x) + "." + Decimal(y) + "." + Decimal(z)
      ensures IsDottedQuad(s)
    {
      QuadOf(w, x, y, z);
    }
  }

  lemma FourJoined(o: seq<string>)
    requires |o| == 4
    ensures Joined(o, '.') == o[0] + "." + o[1] + "." + o[2] + "." + o[3]
  {
    assert o[..3][..2] == o[..2] && o[..2][..1] == o[..1];
    assert Joined(o[..1], '.') == o[0];
    assert Joined(o[..2], '.') == o[0] + "." + o[1];
    assert Joined(o[..3], '.') == o[0] + "." + o[1] + "." + o[2];
  }

  lemma QuadOf(w: nat, x: nat, y: nat, z: nat)
    requires w <= 255 && x <= 255 && y <= 255 && z <= 255
    ensures IsDottedQuad(Decimal(w) + "." + Decimal(x) + "." + Decimal(y) + "." + Decimal(z))
  {
    OctetOf(w);
    OctetOf(x);
    OctetOf(y);
    OctetOf(z);
    hide Decimal, IsOctet;
    hide IsDottedQuad;
    OctetsJoined(Decimal(w), Decimal(x), Decimal(y), Decimal(z));
  }

  lemma OctetsJoined(a: string, b: string, c: string, d: string)
    requires IsOctet(a) && IsOctet(b) && IsOctet(c) && IsOctet(d)
    requires '.' !in a && '.' !in b && '.' !in c && '.' !in d
    ensures IsDottedQuad(a + "." + b + "." + c + "." + d)
  {
    hide Decimal, IsOctet, Split, Joined;
    var o := [a, b, c, d];
    SplitJoined(o, '.');
    FourJoined(o);
  }

  // ---------- addresses ----------

  /** Groups, of which the last may be a dotted quad. */
  predicate IsTail(b: seq<string>) {
    forall j | 0 <= j < |b| :: IsGroup(b[j]) || (j == |b| - 1 && IsDottedQuad(b[j]))
  }

  /** How many of the eight groups they stand for. */
  function Width(b: seq<string>): nat {
    |b| + if b != [] && IsDottedQuad(b[|b| - 1]) then 1 else 0
  }

  predicate AllGroups(a: seq<string>) {
    forall j | 0 <= j < |a| :: IsGroup(a[j])
  }

  ghost predicate IsFullForm(s: string) {
    exists b :: IsTail(b) && Width(b) == 8 && s == Joined(b, ':')
  }

  /** Some groups, "::", some groups, and at least one group left out. */
  ghost predicate IsShortForm(s: string) {
    exists a, b :: AllGroups(a) && IsTail(b) && |a| + Width(b) <= 7 && s == Joined(a, ':') + "::" + Joined(b, ':')
  }

  lemma GroupIsOnePiece(s: string)
    requires IsGroup(s) || IsDottedQuad(s)
    ensures ':' !in s && s != ""
    ensures IsGroup(s) ==> !IsDottedQuad(s)
  {
    if IsDottedQuad(s) {
      QuadNotGroup(s);
      if ':' in s {
        var k :| 0 <= k < |s| && s[k] == ':';
        DottedQuadChars(s, k);
      }
    }
    EmptyIsNoQuad();
    hide IsDottedQuad;
  }

  /** The pieces between the colons of a short form. */
  function Pieces(a: seq<string>, b: seq<string>): seq<string> {
    (if a == [] then [""] else a) + [""] + (if b == [] then [""] else b)
  }

  lemma {:induction false} JoinedTwo(a: seq<string>, b: seq<string>, c: char)
    requires a != [] && b != []
    ensures Joined(a + b, c) == Joined(a, c) + [c] + Joined(b, c)
    decreases |b|
  {
    var n := |b| - 1;
    assert (a + b)[..|a| + n] == a + b[..n];
    if n > 0 {
      JoinedTwo(a, b[..n], c);
      var left, right := Joined(a, c), Joined(b[..n], c);
      assert left + [c] + right + [c] + b[n] == left + [c] + (right + [c] + b[n]);
    } else {
      assert a + b[..0] == a;
    }
  }

  lemma PiecesJoined(a: seq<string>, b: seq<string>)
    ensures Joined(Pieces(a, b), ':') == Joined(a, ':') + "::" + Joined(b, ':')
  {
    hide Joined;
    var left, right := if a == [] then [""] else a, if b == [] then [""] else b;
    NothingJoined();
    JoinedTwo(left, [""] + right, ':');
    JoinedTwo([""], right, ':');
    TwoColons(Joined(left, ':'), Joined(right, ':'));
    assert Pieces(a, b) == left + ([""] + right);
    hide Pieces;
  }

  lemma NothingJoined()
    ensures Joined([""], ':') == "" == Joined([], ':')
  {
  }

  lemma TwoColons(x: string, y: string)
    ensures x + [':'] + ("" + [':'] + y) == x + "::" + y
  {
  }

  lemma {:induction false} CountConcat(a: seq<string>, b: seq<string>)
    ensures GroupCount(a + b) == GroupCount(a) + GroupCount(b)
    decreases |b|
  {
    if b == [] {
      assert a + b == a;
    } else {
      var n := |b| - 1;
      assert (a + b)[..|a + b| - 1] == a + b[..n];
      CountConcat(a, b[..n]);
    }
  }

  lemma {:induction false} CountAll(a: seq<string>)
    requires forall j | 0 <= j < |a| :: a[j] != ""
    ensures GroupCount(a) == |a|
    decreases |a|
  {
    if a != [] {
      CountAll(a[..|a| - 1]);
    }
  }

  /** The tail with its dotted quad as two groups. */
  function Spread(b: seq<string>): seq<string> {
    if b != [] && IsDottedQuad(b[|b| - 1]) then b[..|b| - 1] + ["0", "0"] else b
  }

  lemma SpreadGroups(b: seq<string>)
    requires IsTail(b)
    ensures AllGroups(Spread(b)) && |Spread(b)| == Width(b)
    ensures forall j | 0 <= j < |b| :: b[j] != "" && ':' !in b[j]
    ensures forall j | 0 <= j < |Spread(b)| :: Spread(b)[j] != ""
  {
    forall j | 0 <= j < |b| ensures b[j] != "" && ':' !in b[j] {
      GroupIsOnePiece(b[j]);
    }
    assert IsGroup("0");
    hide IsDottedQuad;
  }

  lemma EmptyIsNoQuad()
    ensures !IsDottedQuad("") && !IsGroup("")
  {
    assert Split("", '.') == [""];
  }

  /** Spreading the tail spreads the last piece. */
  lemma SpreadPieces(a: seq<string>, b: seq<string>)
    ensures Expand(Pieces(a, b)) == Pieces(a, Spread(b))
  {
    EmptyIsNoQuad();
    hide IsDottedQuad;
  }

  lemma PiecesCounted(a: seq<string>, t: seq<string>)
    requires (forall j | 0 <= j < |a| :: a[j] != "") && (forall j | 0 <= j < |t| :: t[j] != "")
    ensures GroupCount(Pieces(a, t)) == |a| + |t|
  {
    var left, right := if a == [] then [""] else a, if t == [] then [""] else t;
    CountConcat(left + [""], right);
    CountConcat(left, [""]);
    CountAll(a);
    CountAll(t);
    NoneCounted();
    hide GroupCount;
  }

  /** Groups around a "::" are compressed there exactly when they are at most seven. */
  lemma PiecesCompressed(a: seq<string>, t: seq<string>)
    requires AllGroups(a) && AllGroups(t) && |a| + |t| <= 7
    ensures CompressedAt(Pieces(a, t), if a == [] then 1 else |a|)
  {
    forall j | 0 <= j < |a| ensures a[j] != "" {
      assert IsGroup(a[j]);
    }
    forall j | 0 <= j < |t| ensures t[j] != "" {
      assert IsGroup(t[j]);
    }
    PiecesCounted(a, t);
    hide GroupCount, IsGroup;
  }

  lemma ShortFormRecognised(a: seq<string>, b: seq<string>)
    requires AllGroups(a) && IsTail(b) && |a| + Width(b) <= 7
    ensures IsPlainIPv6(Joined(a, ':') + "::" + Joined(b, ':'))
  {
    SpreadGroups(b);
    PiecesWhole(a, b);
    SplitJoined(Pieces(a, b), ':');
    PiecesJoined(a, b);
    SpreadPieces(a, b);
    PiecesCompressed(a, Spread(b));
    hide Joined, Split, IsDottedQuad, CompressedAt, Expand, Spread, Width, AllGroups, IsTail;
    assert |Pieces(a, b)| >= 3;
    var k := if a == [] then 1 else |a|;
    assert k < |Pieces(a, Spread(b))|;
    hide Pieces;
  }

  lemma PiecesWhole(a: seq<string>, b: seq<string>)
    requires AllGroups(a) && IsTail(b)
    ensures forall j | 0 <= j < |Pieces(a, b)| :: ':' !in Pieces(a, b)[j]
  {
    forall j | 0 <= j < |a| ensures ':' !in a[j] {
      GroupIsOnePiece(a[j]);
    }
    forall j | 0 <= j < |b| ensures ':' !in b[j] {
      GroupIsOnePiece(b[j]);
    }
    hide IsDottedQuad, IsGroup;
  }

  lemma NoneCounted()
    ensures GroupCount([""]) == 0 && GroupCount([]) == 0
  {
    assert [""][..0] == [];
  }

  lemma FullFormRecognised(b: seq<string>)
    requires IsTail(b) && Width(b) == 8
    ensures IsPlainIPv6(Joined(b, ':'))
  {
    SpreadGroups(b);
    SplitJoined(b, ':');
    hide Joined, Split, IsDottedQuad, IsGroup;
    assert Expand(b) == Spread(b);
  }

  lemma FullFormOnly(s: string)
    requires IsFull(Expand(Split(s, ':')))
    ensures IsFullForm(s)
  {
    var parts := Split(s, ':');
    JoinedSplit(s, ':');
    hide Joined, Split, IsDottedQuad, IsGroup;
    var n := |parts| - 1;
    forall j | 0 <= j < |parts| ensures IsGroup(parts[j]) || (j == n && IsDottedQuad(parts[j])) {
      if j < n || !IsDottedQuad(parts[n]) {
        assert Expand(parts)[j] == parts[j];
      }
    }
    assert IsTail(parts) && Width(parts) == 8;
  }

  /** What stands before and after the "::". */
  function Before(parts: seq<string>, k: nat): seq<string>
    requires k < |parts|
  {
    if parts[0] == "" then [] else parts[..k]
  }

  function Behind(parts: seq<string>, k: nat): seq<string>
    requires k < |parts|
  {
    if parts[|parts| - 1] == "" then [] else parts[k + 1..]
  }

  /** Compressed pieces are the pieces of a short form. */
  lemma CompressedPieces(e: seq<string>, k: nat)
    requires CompressedAt(e, k)
    ensures var a, t := Before(e, k), Behind(e, k);
            e == Pieces(a, t) && AllGroups(a) && AllGroups(t) && |a| + |t| <= 7
  {
    var a, t := Before(e, k), Behind(e, k);
    hide GroupCount, IsGroup;
    Around(e, k);
    forall j | 0 <= j < |a| ensures a[j] != "" && IsGroup(a[j]) {
      assert a[j] == e[j];
    }
    forall j | 0 <= j < |t| ensures t[j] != "" && IsGroup(t[j]) {
      assert t[j] == e[k + 1 + j];
    }
    PiecesCounted(a, t);
    hide Pieces;
  }

  lemma Around(e: seq<string>, k: nat)
    requires 1 <= k < |e| - 1 && e[k] == "" && (e[0] == "" ==> k == 1) && (e[|e| - 1] == "" ==> k == |e| - 2)
    ensures e == Pieces(Before(e, k), Behind(e, k))
  {
    assert e == e[..k] + [e[k]] + e[k + 1..];
    assert e[0] == "" ==> e[..k] == [""];
    assert e[|e| - 1] == "" ==> e[k + 1..] == [""];
  }

  lemma ShortFormOnly(s: string, k: nat)
    requires CompressedAt(Expand(Split(s, ':')), k)
    ensures IsShortForm(s)
  {
    var parts := Split(s, ':');
    JoinedSplit(s, ':');
    var e := Expand(parts);
    CompressedPieces(e, k);
    Unspread(parts, k);
    var a, b := Before(parts, k), Behind(parts, k);
    PiecesJoined(a, b);
    hide Joined, Split, CompressedAt, Expand, Before, Behind, Pieces, IsTail, Width, AllGroups;
  }

  /** The same before the dotted quad was spread. */
  lemma Unspread(parts: seq<string>, k: nat)
    requires parts != [] && CompressedAt(Expand(parts), k)
    ensures k < |parts|
    ensures var a, b := Before(parts, k), Behind(parts, k);
            parts == Pieces(a, b) && AllGroups(a) && IsTail(b) && |a| + Width(b) <= 7
  {
    CompressedPieces(Expand(parts), k);
    if IsDottedQuad(parts[|parts| - 1]) {
      UnspreadQuad(parts, k);
    } else {
      UnspreadPlain(parts, k);
    }
    hide CompressedAt, Expand, Before, Behind, Pieces, IsTail, Width, AllGroups, IsDottedQuad;
  }

  lemma UnspreadPlain(parts: seq<string>, k: nat)
    requires k < |parts| && !IsDottedQuad(parts[|parts| - 1])
    requires var a, t := Before(parts, k), Behind(parts, k);
             parts == Pieces(a, t) && AllGroups(a) && AllGroups(t) && |a| + |t| <= 7
    ensures IsTail(Behind(parts, k)) && Width(Behind(parts, k)) == |Behind(parts, k)|
  {
    hide IsDottedQuad, IsGroup, Pieces, Before;
  }

  lemma UnspreadQuad(parts: seq<string>, k: nat)
    requires parts != [] && IsDottedQuad(parts[|parts| - 1]) && CompressedAt(Expand(parts), k)
    requires var e := Expand(parts); AllGroups(Before(e, k)) && AllGroups(Behind(e, k))
    requires var e := Expand(parts); |Before(e, k)| + |Behind(e, k)| <= 7
    ensures k < |parts|
    ensures var a, b := Before(parts, k), Behind(parts, k);
            parts == Pieces(a, b) && AllGroups(a) && IsTail(b) && |a| + Width(b) <= 7
  {
    QuadTail(parts, k);
    hide IsDottedQuad, IsGroup, CompressedAt, Expand, IsTail, AllGroups, Width;
    Around(parts, k);
    hide Before, Behind, Pieces;
  }

  lemma QuadTail(parts: seq<string>, k: nat)
    requires parts != [] && IsDottedQuad(parts[|parts| - 1]) && CompressedAt(Expand(parts), k)
    ensures k < |parts| - 1 && parts[k] == "" && parts[|parts| - 1] != "" && (parts[0] == "" ==> k == 1)
    ensures Before(Expand(parts), k) == Before(parts, k)
    ensures var n := |parts| - 1;
            && Behind(parts, k) == parts[k + 1..] != []
            && Behind(Expand(parts), k) == parts[k + 1..n] + ["0", "0"]
    ensures AllGroups(Behind(Expand(parts), k)) ==> IsTail(Behind(parts, k))
    ensures Width(Behind(parts, k)) == |Behind(Expand(parts), k)|
  {
    var e, n := Expand(parts), |parts| - 1;
    EmptyIsNoQuad();
    hide IsDottedQuad, IsGroup, GroupCount;
    assert e[n] == "0" && e[n + 1] == "0" && e[k] == "";
    assert k < n && parts[n] != "" && parts[k] == e[k] && (parts[0] == "" ==> k == 1);
    assert e[k + 1..] == parts[k + 1..n] + ["0", "0"] && e[..k] == parts[..k] && e[0] == parts[0];
    assert Before(e, k) == Before(parts, k) && Behind(parts, k) == parts[k + 1..];
    assert Behind(e, k) == parts[k + 1..n] + ["0", "0"];
    hide CompressedAt, Expand;
    TailOfQuad(parts[k + 1..n], parts[n]);
    assert parts[k + 1..] == parts[k + 1..n] + [parts[n]];
    hide IsTail, AllGroups, Width, Before, Behind;
  }

  lemma TailOfQuad(b: seq<string>, quad: string)
    requires IsDottedQuad(quad)
    ensures AllGroups(b + ["0", "0"]) ==> IsTail(b + [quad])
    ensures Width(b + [quad]) == |b + ["0", "0"]|
  {
    assert forall j | 0 <= j < |b| :: (b + ["0", "0"])[j] == (b + [quad])[j];
    hide IsDottedQuad, IsGroup;
  }

  /** The recogniser accepts the full and the short forms, and nothing else. */
  lemma PlainFormsOnly(s: string)
    ensures IsPlainIPv6(s) <==> IsFullForm(s) || IsShortForm(s)
  {
    if IsPlainIPv6(s) {
      var parts := Split(s, ':');
      if IsFull(Expand(parts)) {
        FullFormOnly(s);
      } else {
        var k :| 0 <= k < |Expand(parts)| && CompressedAt(Expand(parts), k);
        ShortFormOnly(s, k);
      }
    }
    hide IsPlainIPv6, Joined, Width, IsTail;
    if b :| IsTail(b) && Width(b) == 8 && s == Joined(b, ':') {
      FullFormRecognised(b);
    }
    if a, b :| AllGroups(a) && IsTail(b) && |a| + Width(b) <= 7 && s == Joined(a, ':') + "::" + Joined(b, ':') {
      ShortFormRecognised(a, b);
    }
  }

  /** And an address may carry a zone, which has no `%` and no `/`. */
  lemma FormsOnly(s: string)
    ensures IsIPv6(s) <==>
              || IsFullForm(s) || IsShortForm(s)
              || exists p, zone | s == p + "%" + zone ::
                   (IsFullForm(p) || IsShortForm(p)) && zone != "" && '%' !in zone && '/' !in zone
  {
    hide IsFullForm, IsShortForm, IsPlainIPv6;
    var i := IndexOf(s, '%');
    NoMarks(s);
    PlainFormsOnly(s);
    if i >= 0 {
      var p, zone := s[..i], s[i + 1..];
      assert s == p + "%" + zone;
      PlainFormsOnly(p);
      NoMarks(p);
      if IsPlainIPv6(p) && zone != "" && '%' !in zone && '/' !in zone {
        NoSlash(p, zone);
      }
      assert '/' !in s ==> '/' !in zone by {
        assert forall k | 0 <= k < |zone| :: zone[k] == s[i + 1 + k] && zone[k] in s;
      }
    }
    forall p, zone | s == p + "%" + zone && (IsFullForm(p) || IsShortForm(p)) && zone != "" && '%' !in zone
                     && '/' !in zone
      ensures IsIPv6(s)
    {
      PlainFormsOnly(p);
      NoMarks(p);
      NoSlash(p, zone);
      assert s[|p|] == '%' && s[..|p|] == p && s[|p| + 1..] == zone;
      IndexIs(s, '%', |p|);
    }
  }

  lemma NoMarks(s: string)
    ensures IsPlainIPv6(s) ==> '%' !in s && '/' !in s
  {
    if IsPlainIPv6(s) {
      forall k | 0 <= k < |s| ensures s[k] != '%' && s[k] != '/' {
        PlainChars(s, k);
      }
    }
  }

  lemma NoSlash(p: string, zone: string)
    requires '/' !in p && '/' !in zone
    ensures '/' !in p + "%" + zone
  {
  }
}
