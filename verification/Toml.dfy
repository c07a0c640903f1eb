/** The configuration renderer shared by the node adapter and the panel manager, and a reader for
    the part of TOML v1.0.0 it writes: table headers, bare keys, booleans, decimal integers, floats,
    single-line basic strings with their escapes, and arrays of such strings. */
module Toml {
  import opened Wrappers
  import opened Text

  datatype TomlValue =
    | Bool(b: bool)
    | Int(n: int)
    | Float(repr: FloatText)     // a float, as Python prints it
    | Str(text: string)
    | Printed(text: string)      // any other scalar, as Python prints it
    | List(items: seq<Item>)
    | Null                       // Python's None: the renderer drops the entry

  /** An item of a list: a string, or any other value as Python prints it. */
  datatype Item = Text(text: string) | Other(text: string)

  datatype Entry = Entry(key: string, value: TomlValue)

  datatype Section = Section(name: string, entries: seq<Entry>)

  /** A dict of dicts, in insertion order. */
  type Document = seq<Section>

  // ---------- rendering ----------

  /** `s.replace("\\", "\\\\").replace('"', '\\"')` */
  function EscapeText(s: string): string {
    if s == "" then "" else EscapeChar(s[0]) + EscapeText(s[1..])
  }

  function EscapeChar(c: char): string {
    if c == '\\' then "\\\\" else if c == '"' then "\\\"" else [c]
  }

  function FormatInt(n: int): string {
    if n < 0 then "-" + Decimal(-n) else Decimal(n)
  }

  /** The quoted items, one per line, and the closing bracket. */
  function FormatItems(items: seq<string>): string
    requires items != []
    decreases items, 1
  {
    "\"" + (items[0] + ("\"" + AfterItems(items)))
  }

  /** What follows the first item. */
  function AfterItems(items: seq<string>): string
    requires items != []
    decreases items, 0
  {
    if |items| == 1 then "\n]" else ",\n  " + FormatItems(items[1..])
  }

  function FormatValue(v: TomlValue): string
    requires !v.Null?
  {
    match v
    case Bool(b) => if b then "true" else "false"
    case Int(n) => FormatInt(n)
    case Float(t) => t
    case Str(t) => "\"" + (EscapeText(t) + "\"")
    case Printed(t) => "\"" + (EscapeText(t) + "\"")
    case List(items) => if items == [] then "[]" else "[\n  " + FormatItems(Texts(items))
  }

  /** The items as they are printed between the quotes. */
  function Texts(items: seq<Item>): (r: seq<string>)
    ensures |r| == |items|
  {
    seq(|items|, k requires 0 <= k < |items| => items[k].text)
  }

  function AsItems(texts: seq<string>): (r: seq<Item>)
    ensures |r| == |texts|
  {
    seq(|texts|, k requires 0 <= k < |texts| => Text(texts[k]))
  }

  function EntryLine(entry: Entry): string
    requires !entry.value.Null?
  {
    entry.key + " = " + FormatValue(entry.value)
  }

  function EntryLines(entries: seq<Entry>): seq<string> {
    if entries == [] then []
    else
      var n := |entries| - 1;
      EntryLines(entries[..n]) + (if entries[n].value.Null? then [] else [EntryLine(entries[n])])
  }

  function SectionLines(doc: Document): seq<string> {
    if doc == [] then []
    else
      var n := |doc| - 1;
      SectionLines(doc[..n]) + ["[" + doc[n].name + "]"] + EntryLines(doc[n].entries) + [""]
  }

  /** `"\n".join(lines)` */
  function JoinLines(lines: seq<string>): string {
    if lines == [] then "" else if |lines| == 1 then lines[0] else lines[0] + "\n" + JoinLines(lines[1..])
  }

  function Render(doc: Document): string {
    Strip(JoinLines(SectionLines(doc))) + "\n"
  }

  method RenderToml(doc: Document) returns (text: string)
    ensures text == Render(doc)
  {
    var lines: seq<string> := [];
    for i := 0 to |doc|
      invariant lines == SectionLines(doc[..i])
    {
      var section := doc[i];
      lines := lines + ["[" + section.name + "]"];
      ghost var before := lines;
      for j := 0 to |section.entries|
        invariant lines == before + EntryLines(section.entries[..j])
      {
        var entry := section.entries[j];
        assert section.entries[..j + 1][..j] == section.entries[..j];
        if entry.value.Null? {
          continue;
        }
        lines := lines + [entry.key + " = " + FormatValue(entry.value)];
      }
      assert section.entries[..|section.entries|] == section.entries;
      assert doc[..i + 1][..i] == doc[..i];
      lines := lines + [""];
    }
    assert doc[..|doc|] == doc;
    text := Strip(JoinLines(lines)) + "\n";
  }

  // ---------- reading ----------

  predicate At(s: string, i: int, t: string) {
    0 <= i <= i + |t| <= |s| && s[i..i + |t|] == t
  }

  /** Control characters may not appear raw in a basic string; tab may. */
  predicate IsControl(c: char) {
    (c < ' ' && c != '\t') || c == '\U{7f}'
  }

  predicate IsWs(c: char) {
    c == ' ' || c == '\t' || c == '\n'
  }

  predicate IsBareChar(c: char) {
    'a' <= c <= 'z' || 'A' <= c <= 'Z' || IsDigit(c) || c == '_' || c == '-'
  }

  function SkipWs(s: string, i: nat): (j: nat)
    requires i <= |s|
    ensures i <= j <= |s| && (j < |s| ==> !IsWs(s[j]))
    ensures forall k | i <= k < j :: IsWs(s[k])
    decreases |s| - i
  {
    if i < |s| && IsWs(s[i]) then SkipWs(s, i + 1) else i
  }

  function SkipBlanks(s: string, i: nat): (j: nat)
    requires i <= |s|
    ensures i <= j <= |s|
    decreases |s| - i
  {
    if i < |s| && (s[i] == ' ' || s[i] == '\t') then SkipBlanks(s, i + 1) else i
  }

  function BareEnd(s: string, i: nat): (j: nat)
    requires i <= |s|
    ensures i <= j <= |s| && (j < |s| ==> !IsBareChar(s[j]))
    ensures forall k | i <= k < j :: IsBareChar(s[k])
    decreases |s| - i
  {
    if i < |s| && IsBareChar(s[i]) then BareEnd(s, i + 1) else i
  }

  function DigitsEnd(s: string, i: nat): (j: nat)
    requires i <= |s|
    ensures i <= j <= |s| && (j < |s| ==> !IsDigit(s[j]))
    ensures forall k | i <= k < j :: IsDigit(s[k])
    decreases |s| - i
  {
    if i < |s| && IsDigit(s[i]) then DigitsEnd(s, i + 1) else i
  }

  predicate IsHex(c: char) {
    IsDigit(c) || 'a' <= c <= 'f' || 'A' <= c <= 'F'
  }

  function HexDigit(c: char): nat
    requires IsHex(c)
  {
    if IsDigit(c) then DigitValue(c)
    else if c >= 'a' then 10 + (c as int - 'a' as int)
    else 10 + (c as int - 'A' as int)
  }

  function HexValue(s: string, i: nat, n: nat): nat
    requires i + n <= |s| && forall k | i <= k < i + n :: IsHex(s[k])
  {
    if n == 0 then 0 else HexValue(s, i, n - 1) * 16 + HexDigit(s[i + n - 1])
  }

  /** The character an escape denotes and where it ends; `i` is just after the backslash. */
  function ReadEscape(s: string, i: nat): (r: Option<(char, nat)>)
    requires i <= |s|
    ensures r.Some? ==> i < r.value.1 <= |s| && forall k | i < k < r.value.1 :: IsHex(s[k])
    ensures r.Some? ==> s[i] in "btnfr\"\\uU"
  {
    if i == |s| then None
    else match s[i]
      case 'b' => Some(('\U{8}', i + 1))
      case 't' => Some(('\t', i + 1))
      case 'n' => Some(('\n', i + 1))
      case 'f' => Some(('\U{c}', i + 1))
      case 'r' => Some(('\r', i + 1))
      case '"' => Some(('"', i + 1))
      case '\\' => Some(('\\', i + 1))
      case 'u' => ReadCode(s, i + 1, 4)
      case 'U' => ReadCode(s, i + 1, 8)
      case _ => None
  }

  function ReadCode(s: string, i: nat, n: nat): (r: Option<(char, nat)>)
    ensures r.Some? ==> r.value.1 == i + n <= |s| && forall k | i <= k < i + n :: IsHex(s[k])
  {
    if i + n <= |s| && forall k | i <= k < i + n :: IsHex(s[k]) then
      var v := HexValue(s, i, n);
      if v < 0xD800 || 0xE000 <= v < 0x11_0000 then Some((v as char, i + n)) else None
    else None
  }

  /** The rest of a basic string; `i` is just after the opening quote or inside. */
  function ReadChars(s: string, i: nat): (r: Option<(string, nat)>)
    requires i <= |s|
    ensures r.Some? ==> i < r.value.1 <= |s|
    decreases |s| - i
  {
    if i == |s| then None
    else if s[i] == '"' then Some(("", i + 1))
    else if s[i] == '\\' then
      match ReadEscape(s, i + 1)
      case None => None
      case Some((c, j)) => Prepend(c, ReadChars(s, j))
    else if IsControl(s[i]) then None
    else Prepend(s[i], ReadChars(s, i + 1))
  }

  function Prepend(c: char, r: Option<(string, nat)>): Option<(string, nat)> {
    match r
    case None => None
    case Some((v, j)) => Some(([c] + v, j))
  }

  /** A single-line basic string that starts at `i`; three quotes would open a multi-line one. */
  function ReadString(s: string, i: nat): (r: Option<(string, nat)>)
    ensures r.Some? ==> i < r.value.1 <= |s|
  {
    if i >= |s| || s[i] != '"' || (i + 2 < |s| && s[i + 1] == '"' && s[i + 2] == '"') then None
    else ReadChars(s, i + 1)
  }

  /** The items of an array of strings; `i` is just after the opening bracket or a comma. */
  function ReadItems(s: string, i: nat): (r: Option<(seq<string>, nat)>)
    requires i <= |s|
    ensures r.Some? ==> i < r.value.1 <= |s|
    decreases |s| - i
  {
    var j := SkipWs(s, i);
    if j < |s| && s[j] == ']' then Some(([], j + 1))
    else match ReadString(s, j)
      case None => None
      case Some((item, k)) =>
        var m := SkipWs(s, k);
        if m == |s| then None
        else if s[m] == ']' then Some(([item], m + 1))
        else if s[m] != ',' then None
        else PrependItem(item, ReadItems(s, m + 1))
  }

  function PrependItem(item: string, r: Option<(seq<string>, nat)>): Option<(seq<string>, nat)> {
    match r
    case None => None
    case Some((items, e)) => Some(([item] + items, e))
  }

  function ReadInt(s: string, i: nat): (r: Option<(int, nat)>)
    requires i < |s|
    ensures r.Some? ==> i < r.value.1 <= |s|
  {
    var d := if s[i] == '-' then i + 1 else i;
    var e := DigitsEnd(s, d);
    if e == d || (s[d] == '0' && e > d + 1) then None
    else
      assert IsNumeral(s[d..e]);
      var n: int := Value(s[d..e]);
      Some((if s[i] == '-' then -n else n, e))
  }

  // A float: an integer part, then a fraction, an exponent or both; or inf or nan; perhaps with a sign.

  function Unsigned(t: string): string {
    if t != "" && (t[0] == '-' || t[0] == '+') then t[1..] else t
  }

  predicate IsExponent(u: string, k: nat)
    requires k <= |u|
  {
    && k < |u| && (u[k] == 'e' || u[k] == 'E')
    && var j := if k + 1 < |u| && (u[k + 1] == '-' || u[k + 1] == '+') then k + 2 else k + 1;
       j < |u| && DigitsEnd(u, j) == |u|
  }

  predicate IsFiniteFloat(u: string) {
    var w := DigitsEnd(u, 0);
    && 0 < w < |u| && (u[0] == '0' ==> w == 1)
    && if u[w] == '.' then
         var f := DigitsEnd(u, w + 1);
         f > w + 1 && (f == |u| || IsExponent(u, f))
       else IsExponent(u, w)
  }

  predicate IsFloat(t: string) {
    var u := Unsigned(t);
    u == "inf" || u == "nan" || IsFiniteFloat(u)
  }

  type FloatText = t: string | IsFloat(t) witness "nan"

  predicate IsTokenChar(c: char) {
    IsBareChar(c) || c == '.' || c == '+'
  }

  function TokenEnd(s: string, i: nat): (j: nat)
    requires i <= |s|
    ensures i <= j <= |s| && (j < |s| ==> !IsTokenChar(s[j]))
    ensures forall k | i <= k < j :: IsTokenChar(s[k])
    decreases |s| - i
  {
    if i < |s| && IsTokenChar(s[i]) then TokenEnd(s, i + 1) else i
  }

  function ReadNumber(s: string, i: nat): (r: Option<(TomlValue, nat)>)
    requires i < |s|
    ensures r.Some? ==> i < r.value.1 <= |s|
  {
    var e := TokenEnd(s, i);
    if e > i && IsFloat(s[i..e]) then Some((Float(s[i..e]), e))
    else match ReadInt(s, i) case None => None case Some((n, j)) => Some((Int(n), j))
  }

  function ReadValue(s: string, i: nat): (r: Option<(TomlValue, nat)>)
    requires i <= |s|
    ensures r.Some? ==> i < r.value.1 <= |s|
  {
    if i == |s| then None
    else if s[i] == '"' then
      match ReadString(s, i) case None => None case Some((t, e)) => Some((Str(t), e))
    else if s[i] == '[' then
      match ReadItems(s, i + 1) case None => None case Some((items, e)) => Some((List(AsItems(items)), e))
    else if At(s, i, "true") then Some((Bool(true), i + 4))
    else if At(s, i, "false") then Some((Bool(false), i + 5))
    else ReadNumber(s, i)
  }

  /** `key = value`, up to the end of its line; `i` is where the key starts. */
  function ReadEntry(s: string, i: nat): (r: Option<(Entry, nat)>)
    requires i <= |s|
    ensures r.Some? ==> i < r.value.1 <= |s|
  {
    var k := BareEnd(s, i);
    var m := SkipBlanks(s, k);
    if k == i || m == |s| || s[m] != '=' then None
    else match ReadValue(s, SkipBlanks(s, m + 1))
      case None => None
      case Some((v, e)) => if e < |s| && s[e] != '\n' then None else Some((Entry(s[i..k], v), e))
  }

  predicate HasKey(entries: seq<Entry>, key: string) {
    exists j | 0 <= j < |entries| :: entries[j].key == key
  }

  predicate HasName(doc: Document, name: string) {
    exists j | 0 <= j < |doc| :: doc[j].name == name
  }

  /** The entries up to the next header or the end; a repeated key is an error. */
  function ReadEntries(s: string, i: nat): (r: Option<(seq<Entry>, nat)>)
    requires i <= |s|
    ensures r.Some? ==> i <= r.value.1 <= |s|
    decreases |s| - i
  {
    var j := SkipWs(s, i);
    if j == |s| || s[j] == '[' then Some(([], j))
    else match ReadEntry(s, j)
      case None => None
      case Some((entry, e)) =>
        match ReadEntries(s, e)
        case None => None
        case Some((rest, f)) => if HasKey(rest, entry.key) then None else Some(([entry] + rest, f))
  }

  /** `[name]`, up to the end of its line; `i` is at the bracket. */
  function ReadName(s: string, i: nat): (r: Option<(string, nat)>)
    requires i < |s|
    ensures r.Some? ==> i < r.value.1 <= |s|
  {
    var k := BareEnd(s, i + 1);
    if s[i] != '[' || k == i + 1 || k == |s| || s[k] != ']' || (k + 1 < |s| && s[k + 1] != '\n') then None
    else Some((s[i + 1..k], k + 1))
  }

  /** A whole document; a repeated table is an error. */
  function ReadSections(s: string, i: nat): Option<Document>
    requires i <= |s|
    decreases |s| - i
  {
    var j := SkipWs(s, i);
    if j == |s| then Some([])
    else match ReadName(s, j)
      case None => None
      case Some((name, k)) =>
        match ReadEntries(s, k)
        case None => None
        case Some((entries, f)) => AddSection(Section(name, entries), ReadSections(s, f))
  }

  function AddSection(section: Section, r: Option<Document>): Option<Document> {
    match r
    case None => None
    case Some(rest) => if HasName(rest, section.name) then None else Some([section] + rest)
  }

  function Read(s: string): Option<Document> {
    ReadSections(s, 0)
  }

  // ---------- strings survive ----------

  predicate IsPrintable(t: string) {
    forall k | 0 <= k < |t| :: !IsControl(t[k])
  }

  predicate IsRaw(t: string) {
    forall k | 0 <= k < |t| :: !IsControl(t[k]) && t[k] != '"' && t[k] != '\\'
  }

  lemma AtSplit(s: string, i: int, a: string, b: string)
    requires At(s, i, a + b)
    ensures At(s, i, a) && At(s, i + |a|, b)
  {
    assert s[i..i + |a|] == (a + b)[..|a|];
    assert s[i + |a|..i + |a| + |b|] == (a + b)[|a|..];
  }

  lemma ReadEscapedChar(s: string, i: nat, c: char)
    requires At(s, i, EscapeChar(c))
    ensures ReadChars(s, i) == if IsControl(c) then None else Prepend(c, ReadChars(s, i + |EscapeChar(c)|))
  {
    assert s[i] == EscapeChar(c)[0];
    if c == '"' || c == '\\' {
      assert s[i + 1] == EscapeChar(c)[1] == c;
    }
  }

  lemma ReadQuote(s: string, i: nat)
    requires At(s, i, "\"")
    ensures ReadChars(s, i) == Some(("", i + 1))
  {
    assert s[i] == s[i..i + 1][0];
  }

  /** An escaped string with its closing quote reads back as itself, unless it holds a control character. */
  lemma {:induction false} ReadEscaped(s: string, i: nat, t: string)
    requires At(s, i, EscapeText(t) + "\"")
    ensures ReadChars(s, i) == if IsPrintable(t) then Some((t, i + |EscapeText(t)| + 1)) else None
    decreases |t|
  {
    hide EscapeChar, ReadChars, IsControl;
    if t == "" {
      ReadQuote(s, i);
    } else {
      hide At;
      var c, rest := t[0], t[1..];
      assert EscapeText(t) + "\"" == EscapeChar(c) + (EscapeText(rest) + "\"");
      AtSplit(s, i, EscapeChar(c), EscapeText(rest) + "\"");
      ReadEscapedChar(s, i, c);
      ReadEscaped(s, i + |EscapeChar(c)|, rest);
      assert [c] + rest == t;
      assert IsPrintable(t) <==> !IsControl(c) && IsPrintable(rest);
    }
  }

  /** A string free of quotes, backslashes and control characters reads back as itself without escaping. */
  lemma {:induction false} ReadRaw(s: string, i: nat, t: string)
    requires IsRaw(t) && At(s, i, t + "\"")
    ensures ReadChars(s, i) == Some((t, i + |t| + 1))
    decreases |t|
  {
    if t == "" {
      assert s[i] == '"';
    } else {
      assert t + "\"" == [t[0]] + (t[1..] + "\"");
      AtSplit(s, i, [t[0]], t[1..] + "\"");
      assert s[i] == t[0];
      ReadRaw(s, i + 1, t[1..]);
      assert [t[0]] + t[1..] == t;
    }
  }

  /** Reading never yields more characters than it consumes. */
  lemma {:induction false} ReadConsumes(s: string, i: nat)
    requires i <= |s| && ReadChars(s, i).Some?
    ensures var (v, e) := ReadChars(s, i).value;
            i + |v| + 1 <= e <= |s| && s[e - 1] == '"' && forall k | i <= k < e :: s[k] != '\n'
    decreases |s| - i
  {
    hide ReadEscape;
    if s[i] == '"' {
    } else if s[i] == '\\' {
      var (c, j) := ReadEscape(s, i + 1).value;
      ReadConsumes(s, j);
      assert forall k | i + 1 < k < j :: IsHex(s[k]);
      assert s[i + 1] != '\n';
    } else {
      ReadConsumes(s, i + 1);
    }
  }

  /** When it yields as many, nothing was escaped. */
  lemma {:induction false} ReadVerbatim(s: string, i: nat)
    requires i <= |s| && ReadChars(s, i).Some?
    requires var (v, e) := ReadChars(s, i).value; i + |v| + 1 == e
    ensures var (v, e) := ReadChars(s, i).value; s[i..e - 1] == v && IsRaw(v)
    decreases |s| - i
  {
    hide ReadEscape;
    var (v, e) := ReadChars(s, i).value;
    if s[i] == '"' {
    } else if s[i] == '\\' {
      ReadConsumes(s, ReadEscape(s, i + 1).value.1);
    } else {
      ReadVerbatim(s, i + 1);
      assert s[i..e - 1] == [s[i]] + s[i + 1..e - 1];
    }
  }

  // ---------- values survive ----------

  /** The values the renderer writes without loss: list items are not escaped, and what is neither a
      string, a number nor a boolean turns into a string. */
  predicate Faithful(v: TomlValue) {
    match v
    case Str(t) => IsPrintable(t)
    case Printed(_) => false
    case List(items) => AllRaw(Texts(items)) && forall k | 0 <= k < |items| :: items[k].Text?
    case _ => true
  }

  predicate AllRaw(items: seq<string>) {
    items == [] || (IsRaw(items[0]) && AllRaw(items[1..]))
  }

  lemma ReadItemsSkip(s: string, i: nat, j: nat)
    requires i <= j <= |s| && SkipWs(s, i) == SkipWs(s, j)
    ensures ReadItems(s, i) == ReadItems(s, j)
  {
    hide ReadString, PrependItem, SkipWs;
  }

  /** Where a rendered list of items puts its characters: `i` is the first quote, `e` the end. */
  predicate Layout(s: string, i: nat, items: seq<string>, e: nat)
    decreases |items|
  {
    && items != []
    && var k := i + |items[0]| + 2;
       && k + 2 <= e <= |s|
       && s[i] == '"' && At(s, i + 1, items[0]) && s[k - 1] == '"'
       && if |items| == 1 then s[k] == '\n' && s[k + 1] == ']' && e == k + 2
          else At(s, k, ",\n  ") && Layout(s, k + 4, items[1..], e)
  }

  lemma {:induction false} ItemsLayout(s: string, i: nat, items: seq<string>)
    requires items != [] && At(s, i, FormatItems(items))
    ensures Layout(s, i, items, i + |FormatItems(items)|)
    decreases |items|
  {
    FirstItemLayout(s, i, items);
    LayoutIs(s, i, items, i + |FormatItems(items)|);
    hide FormatItems, At, Layout;
    if |items| > 1 {
      ItemsLayout(s, i + |items[0]| + 6, items[1..]);
    }
  }

  lemma LayoutIs(s: string, i: nat, items: seq<string>, e: nat)
    ensures Layout(s, i, items, e) ==
      (items != [] && var k := i + |items[0]| + 2;
       && k + 2 <= e <= |s|
       && s[i] == '"' && At(s, i + 1, items[0]) && s[k - 1] == '"'
       && if |items| == 1 then s[k] == '\n' && s[k + 1] == ']' && e == k + 2
          else At(s, k, ",\n  ") && Layout(s, k + 4, items[1..], e))
  {
    hide At;
  }

  lemma FormatItemsIs(items: seq<string>)
    requires items != []
    ensures FormatItems(items) == "\"" + (items[0] + ("\"" + AfterItems(items)))
    ensures AfterItems(items) == if |items| == 1 then "\n]" else ",\n  " + FormatItems(items[1..])
  {
  }

  lemma LastItemLayout(s: string, k: nat)
    requires At(s, k, "\n]")
    ensures k + 2 <= |s| && s[k] == '\n' && s[k + 1] == ']'
  {
    assert s[k] == s[k..k + 2][0] && s[k + 1] == s[k..k + 2][1];
  }

  lemma AtWithin(s: string, i: nat, t: string)
    requires At(s, i, t)
    ensures i + |t| <= |s|
  {
  }

  /** The first item's characters, and where the rest begins. */
  lemma FirstItemLayout(s: string, i: nat, items: seq<string>)
    requires items != [] && At(s, i, FormatItems(items))
    ensures var k, e := i + |items[0]| + 2, i + |FormatItems(items)|;
            && k + 2 <= e <= |s|
            && s[i] == '"' && At(s, i + 1, items[0]) && s[k - 1] == '"'
            && if |items| == 1 then s[k] == '\n' && s[k + 1] == ']' && e == k + 2
               else At(s, k, ",\n  ") && At(s, k + 4, FormatItems(items[1..])) && e == k + 4 + |FormatItems(items[1..])|
  {
    hide FormatItems, AfterItems, At;
    var t, tail := items[0], AfterItems(items);
    var k := i + |t| + 2;
    FormatItemsIs(items);
    AtWithin(s, i, FormatItems(items));
    QuotedLayout(s, i, t, tail);
    if |items| == 1 {
      LastItemLayout(s, k);
    } else {
      AtSplit(s, k, ",\n  ", FormatItems(items[1..]));
    }
  }

  lemma QuotedLayout(s: string, i: nat, t: string, tail: string)
    requires At(s, i, "\"" + (t + ("\"" + tail)))
    ensures var k := i + |t| + 2;
            s[i] == '"' && At(s, i + 1, t) && s[k - 1] == '"' && At(s, k, tail)
  {
    AtSplit(s, i, "\"", t + ("\"" + tail));
    AtSplit(s, i + 1, t, "\"" + tail);
    AtSplit(s, i + |t| + 1, "\"", tail);
    AtHead(s, i, "\"");
    AtHead(s, i + |t| + 1, "\"");
  }

  /** The characters from the closing quote of the first item to the next item. */
  lemma CommaLayout(s: string, i: nat, items: seq<string>, e: nat)
    requires Layout(s, i, items, e) && |items| > 1
    ensures var k := i + |items[0]| + 2;
            && k + 4 < |s| && s[k] == ',' && s[k + 1] == '\n' && s[k + 4] == '"'
            && SkipWs(s, k) == k && SkipWs(s, k + 1) == k + 4 == SkipWs(s, k + 4)
  {
    var k := i + |items[0]| + 2;
    var sep := s[k..k + 4];
    assert s[k] == sep[0] && s[k + 1] == sep[1] && s[k + 2] == sep[2] && s[k + 3] == sep[3];
    assert SkipWs(s, k + 3) == k + 4;
    assert SkipWs(s, k + 2) == k + 4;
  }

  lemma ReadFirstRaw(s: string, i: nat, items: seq<string>, e: nat)
    requires Layout(s, i, items, e) && IsRaw(items[0])
    ensures ReadString(s, i) == Some((items[0], i + |items[0]| + 2))
  {
    hide ReadChars;
    var t := items[0];
    var k := i + |t| + 2;
    if |items| > 1 {
      CommaLayout(s, i, items, e);
    }
    assert s[i + 1..k] == t + "\"";
    ReadRaw(s, i + 1, t);
    assert t != "" ==> s[i + 1] == t[0];
  }

  lemma ReadFirstSpoilt(s: string, i: nat, items: seq<string>, e: nat)
    requires Layout(s, i, items, e) && !IsRaw(items[0])
    ensures ReadString(s, i).None? || ReadString(s, i).value.0 != items[0]
  {
    hide ReadChars, IsRaw;
    if |items| > 1 {
      CommaLayout(s, i, items, e);
    }
    if ReadChars(s, i + 1).Some? {
      ReadConsumes(s, i + 1);
      var (v, end) := ReadChars(s, i + 1).value;
      if i + 1 + |v| + 1 == end {
        ReadVerbatim(s, i + 1);
      }
    }
  }

  lemma ReadLast(s: string, i: nat, items: seq<string>, e: nat)
    requires Layout(s, i, items, e) && IsRaw(items[0]) && |items| == 1
    ensures ReadItems(s, i) == Some((items, e))
  {
    ReadFirstRaw(s, i, items, e);
    var k := i + |items[0]| + 2;
    assert k + 2 == e <= |s| && s[i] == '"' && s[k] == '\n' && s[k + 1] == ']';
    assert items == [items[0]];
    hide ReadString, IsRaw, At, Layout;
    assert SkipWs(s, k) == k + 1;
  }

  lemma ReadNext(s: string, i: nat, items: seq<string>, e: nat)
    requires Layout(s, i, items, e) && IsRaw(items[0]) && |items| > 1
    ensures i + |items[0]| + 6 <= |s|
    ensures ReadItems(s, i) == PrependItem(items[0], ReadItems(s, i + |items[0]| + 6))
  {
    hide ReadString, ReadItems, IsRaw;
    var k := i + |items[0]| + 2;
    ReadFirstRaw(s, i, items, e);
    CommaLayout(s, i, items, e);
    ReadItemsSkip(s, k + 1, k + 4);
    ReadItemComma(s, i, items[0], k);
  }

  lemma ReadItemComma(s: string, i: nat, t: string, k: nat)
    requires i < |s| && s[i] == '"' && ReadString(s, i) == Some((t, k))
    requires k < |s| && s[k] == ','
    ensures ReadItems(s, i) == PrependItem(t, ReadItems(s, k + 1))
  {
    hide ReadString;
    assert SkipWs(s, i) == i && SkipWs(s, k) == k;
  }

  lemma {:induction false} ReadRawItems(s: string, i: nat, items: seq<string>, e: nat)
    requires Layout(s, i, items, e) && AllRaw(items)
    ensures ReadItems(s, i) == Some((items, e))
    decreases |items|
  {
    hide ReadItems, IsRaw, At;
    if |items| == 1 {
      ReadLast(s, i, items, e);
    } else {
      ReadNext(s, i, items, e);
      ReadRawItems(s, i + |items[0]| + 6, items[1..], e);
      assert items == [items[0]] + items[1..];
    }
  }

  /** An item that holds a quote, a backslash or a control character spoils the list. */
  lemma {:induction false} ReadSpoiltItems(s: string, i: nat, items: seq<string>, e: nat)
    requires Layout(s, i, items, e) && !AllRaw(items)
    ensures ReadItems(s, i).None? || ReadItems(s, i).value.0 != items
    decreases |items|
  {
    hide ReadString, IsRaw, At;
    if IsRaw(items[0]) {
      hide ReadItems;
      ReadNext(s, i, items, e);
      ReadSpoiltItems(s, i + |items[0]| + 6, items[1..], e);
      TailDiffers(items, ReadItems(s, i + |items[0]| + 6));
    } else {
      ReadFirstSpoilt(s, i, items, e);
    }
  }

  lemma TailDiffers(items: seq<string>, r: Option<(seq<string>, nat)>)
    requires items != [] && (r.None? || r.value.0 != items[1..])
    ensures var p := PrependItem(items[0], r); p.None? || p.value.0 != items
  {
    if r.Some? {
      assert ([items[0]] + r.value.0)[1..] == r.value.0;
    }
  }

  lemma AtHead(s: string, i: int, t: string)
    requires t != ""
    ensures At(s, i, t) ==> s[i] == t[0]
  {
  }

  /** A list is read as one of strings, with the texts that were printed if they are raw. */
  lemma ReadFormattedList(s: string, i: nat, items: seq<Item>)
    requires At(s, i, FormatValue(List(items)))
    ensures var r := ReadValue(s, i);
            if Faithful(List(items)) then r == Some((List(items), i + |FormatValue(List(items))|))
            else r.None? || r.value.0 != List(items)
  {
    hide At, ReadValue, FormatItems, FormatValue, AllRaw, Texts, AsItems;
    ListText(items);
    if items == [] {
      ReadEmptyList(s, i);
      NoItems();
    } else {
      ReadNonEmptyList(s, i, Texts(items));
      TextsAgain(items);
    }
  }

  lemma NoItems()
    ensures Faithful(List([]))
  {
  }

  lemma ListText(items: seq<Item>)
    ensures items == [] ==> FormatValue(List(items)) == "[]"
    ensures items != [] ==> FormatValue(List(items)) == "[\n  " + FormatItems(Texts(items))
    ensures |FormatValue(List(items))| == if items == [] then 2 else 4 + |FormatItems(Texts(items))|
  {
    hide FormatItems;
  }

  lemma TextsAgain(items: seq<Item>)
    ensures AsItems(Texts(items)) == items <==> forall k | 0 <= k < |items| :: items[k].Text?
    ensures forall texts | AsItems(texts) == items :: texts == Texts(items)
  {
    if AsItems(Texts(items)) == items {
      forall k | 0 <= k < |items| ensures items[k].Text? {
        assert AsItems(Texts(items))[k].Text?;
      }
    }
    forall texts | AsItems(texts) == items ensures texts == Texts(items) {
      forall k | 0 <= k < |items| ensures texts[k] == Texts(items)[k] {
        assert AsItems(texts)[k] == items[k];
      }
    }
  }

  lemma ReadNonEmptyList(s: string, i: nat, items: seq<string>)
    requires items != [] && At(s, i, "[\n  " + FormatItems(items))
    ensures var r := ReadValue(s, i);
            if AllRaw(items) then r == Some((List(AsItems(items)), i + 4 + |FormatItems(items)|))
            else r.None? || (r.value.0.List? && exists other :: r.value.0 == List(AsItems(other)) && other != items)
  {
    var e := SkipToFirstItem(s, i, items);
    if AllRaw(items) {
      ReadRawItems(s, i + 4, items, e);
    } else {
      ReadSpoiltItems(s, i + 4, items, e);
    }
    ReadListItems(s, i);
    hide ReadItems, ReadValue, FormatItems, AllRaw, At, Layout;
  }

  lemma ReadListItems(s: string, i: nat)
    requires i < |s| && s[i] == '['
    ensures ReadValue(s, i) == match ReadItems(s, i + 1)
                               case None => None
                               case Some((items, e)) => Some((List(AsItems(items)), e))
  {
    hide ReadItems;
  }

  lemma ReadEmptyList(s: string, i: nat)
    requires At(s, i, "[]")
    ensures ReadValue(s, i) == Some((List([]), i + 2))
  {
    var brackets := s[i..i + 2];
    assert s[i] == brackets[0] && s[i + 1] == brackets[1];
    assert SkipWs(s, i + 1) == i + 1;
  }

  lemma SkipToFirstItem(s: string, i: nat, items: seq<string>) returns (e: nat)
    requires items != [] && At(s, i, "[\n  " + FormatItems(items))
    ensures e == i + 4 + |FormatItems(items)| && Layout(s, i + 4, items, e)
    ensures s[i] == '[' && ReadItems(s, i + 1) == ReadItems(s, i + 4)
  {
    hide FormatItems, ReadItems;
    AtSplit(s, i, "[\n  ", FormatItems(items));
    ItemsLayout(s, i + 4, items);
    e := i + 4 + |FormatItems(items)|;
    assert i + 4 < |s| && s[i + 4] == '"';
    hide Layout;
    SkipBracket(s, i);
    ReadItemsSkip(s, i + 1, i + 4);
  }

  lemma SkipBracket(s: string, i: nat)
    requires At(s, i, "[\n  ") && i + 4 < |s| && s[i + 4] == '"'
    ensures s[i] == '[' && SkipWs(s, i + 1) == i + 4 == SkipWs(s, i + 4)
  {
    var bracket := s[i..i + 4];
    assert s[i] == bracket[0] && s[i + 1] == bracket[1] && s[i + 2] == bracket[2] && s[i + 3] == bracket[3];
    assert SkipWs(s, i + 3) == i + 4;
    assert SkipWs(s, i + 2) == i + 4;
  }

  lemma ReadFormattedString(s: string, i: nat, t: string)
    requires At(s, i, FormatValue(Str(t)))
    requires i + |FormatValue(Str(t))| < |s| ==> s[i + |FormatValue(Str(t))|] != '"'
    ensures ReadValue(s, i) == if IsPrintable(t) then Some((Str(t), i + |FormatValue(Str(t))|)) else None
  {
    hide ReadChars, ReadValue, ReadString, EscapeText, IsPrintable, FormatValue, At;
    StringLayout(s, i, t);
    ReadEscaped(s, i + 1, t);
    ReadQuoted(s, i);
  }

  lemma ReadQuoted(s: string, i: nat)
    requires i + 1 < |s| && s[i] == '"' && (s[i + 1] == '"' ==> i + 2 == |s| || s[i + 2] != '"')
    ensures ReadValue(s, i) == match ReadChars(s, i + 1) case None => None case Some((t, e)) => Some((Str(t), e))
  {
    hide ReadChars;
  }

  /** The quotes around an escaped text, and that a third one follows neither an empty nor another text. */
  lemma StringLayout(s: string, i: nat, t: string)
    requires At(s, i, FormatValue(Str(t)))
    ensures var text := EscapeText(t);
            && |FormatValue(Str(t))| == |text| + 2 && i + |text| + 2 <= |s|
            && s[i] == '"' && At(s, i + 1, text + "\"")
            && s[i + 1 + |text|] == '"' && (t != "" ==> s[i + 1] != '"') && (t == "" ==> text == "")
  {
    hide EscapeText;
    hide EscapeText, FormatValue, At;
    StringText(t);
    QuotesAt(s, i, EscapeText(t));
    EscapeTextHead(t);
  }

  lemma StringText(t: string)
    ensures FormatValue(Str(t)) == "\"" + (EscapeText(t) + "\"")
    ensures |FormatValue(Str(t))| == |EscapeText(t)| + 2
  {
    hide EscapeText;
  }

  lemma QuotesAt(s: string, i: nat, text: string)
    requires At(s, i, "\"" + (text + "\""))
    ensures i + |text| + 2 <= |s| && s[i] == '"' && s[i + 1 + |text|] == '"' && At(s, i + 1, text + "\"")
    ensures text != "" ==> s[i + 1] == text[0]
  {
    AtSplit(s, i, "\"", text + "\"");
    AtSplit(s, i + 1, text, "\"");
    AtHead(s, i, "\"");
    AtHead(s, i + 1 + |text|, "\"");
    if text != "" {
      AtHead(s, i + 1, text);
    }
    hide At;
  }

  lemma EscapeTextHead(t: string)
    ensures if t == "" then EscapeText(t) == "" else EscapeText(t) != "" && EscapeText(t)[0] != '"'
  {
  }

  lemma {:induction false} DecimalLeadingDigit(n: nat)
    ensures Decimal(n)[0] == '0' <==> n == 0
    ensures n == 0 ==> |Decimal(n)| == 1
  {
    if n >= 10 {
      DecimalLeadingDigit(n / 10);
    }
  }

  lemma ReadFormattedInt(s: string, i: nat, n: int)
    requires At(s, i, FormatInt(n))
    requires i + |FormatInt(n)| < |s| ==> !IsDigit(s[i + |FormatInt(n)|])
    ensures ReadInt(s, i) == Some((n, i + |FormatInt(n)|))
    ensures IsDigit(s[i]) || s[i] == '-'
  {
    hide At, Decimal, Value, DigitsEnd, ReadInt, FormatInt;
    IntText(n);
    if n < 0 {
      SignLayout(s, i, -n);
      NumeralLayout(s, i + 1, -n);
      ReadIntFrom(s, i, i + 1, -n);
    } else {
      NumeralLayout(s, i, n);
      assert s[i] != '-';
      ReadIntFrom(s, i, i, n);
    }
  }

  lemma IntText(n: int)
    ensures n < 0 ==> FormatInt(n) == "-" + Decimal(-n) && |FormatInt(n)| == 1 + |Decimal(-n)|
    ensures n >= 0 ==> FormatInt(n) == Decimal(n)
  {
    hide Decimal;
  }

  /** The digits from `d` on are those of `m`. */
  lemma ReadIntFrom(s: string, i: nat, d: nat, m: nat)
    requires i < |s| && d == (if s[i] == '-' then i + 1 else i)
    requires var e := d + |Decimal(m)|; e <= |s| && DigitsEnd(s, d) == e && s[d..e] == Decimal(m)
    requires d < |s| && s[d] == Decimal(m)[0]
    ensures ReadInt(s, i).Some? && ReadInt(s, i).value.1 == d + |Decimal(m)|
    ensures ReadInt(s, i).value.0 == if s[i] == '-' then -(m as int) else m as int
  {
    DecimalLeadingDigit(m);
    DecimalValue(m);
    hide Decimal, Value, DigitsEnd;
  }

  lemma SignLayout(s: string, i: nat, m: nat)
    requires At(s, i, "-" + Decimal(m))
    ensures s[i] == '-' && At(s, i + 1, Decimal(m))
  {
    AtSplit(s, i, "-", Decimal(m));
    AtHead(s, i, "-");
  }

  /** The digits of a number, up to something else. */
  lemma NumeralLayout(s: string, d: nat, m: nat)
    requires At(s, d, Decimal(m)) && (d + |Decimal(m)| < |s| ==> !IsDigit(s[d + |Decimal(m)|]))
    ensures var e := d + |Decimal(m)|;
            e <= |s| && DigitsEnd(s, d) == e && s[d..e] == Decimal(m) && IsDigit(s[d]) && s[d] == Decimal(m)[0]
  {
    hide Decimal;
    var e := d + |Decimal(m)|;
    forall k | d <= k < e ensures IsDigit(s[k]) {
      assert s[k] == s[d..e][k - d] == Decimal(m)[k - d];
    }
  }

  /** A rendered value, at the end of its line. */
  lemma ReadFormatted(s: string, i: nat, v: TomlValue)
    requires !v.Null? && At(s, i, FormatValue(v))
    requires var e := i + |FormatValue(v)|; e == |s| || s[e] == '\n'
    ensures var r := ReadValue(s, i); var e := i + |FormatValue(v)|;
            if Faithful(v) then r == Some((v, e)) else r.None? || r.value.0 != v
  {
    hide ReadString, ReadItems, ReadNumber, ReadValue, FormatInt, FormatItems, EscapeText, IsPrintable, IsDigit;
    hide Texts, IsFloat, AllRaw, At;
    match v {
      case List(items) => ReadFormattedList(s, i, items);
      case Float(t) => ReadFormattedFloat(s, i, t);
      case Printed(t) => ReadFormattedString(s, i, t);
      case Str(t) => ReadFormattedString(s, i, t);
      case Int(n) => ReadFormattedNumber(s, i, n);
      case Bool(b) => ReadFormattedBool(s, i, b);
    }
  }

  lemma ReadFormattedNumber(s: string, i: nat, n: int)
    requires At(s, i, FormatInt(n))
    requires i + |FormatInt(n)| < |s| ==> s[i + |FormatInt(n)|] == '\n'
    ensures ReadValue(s, i) == Some((Int(n), i + |FormatInt(n)|))
  {
    hide ReadString, ReadItems, ReadInt, FormatInt, IsFloat, TokenEnd, IsDigit;
    NewlineEndsToken();
    ReadFormattedInt(s, i, n);
    IntToken(n);
    TokenAt(s, i, FormatInt(n));
    NoOpening(s[i]);
    AtHead(s, i, "true");
    AtHead(s, i, "false");
  }

  lemma NoOpening(c: char)
    ensures IsDigit(c) ==> c != '"' && c != '[' && c != 't' && c != 'f'
  {
  }

  /** A token up to the end of its line. */
  lemma TokenAt(s: string, i: nat, t: string)
    requires At(s, i, t) && t != "" && forall k | 0 <= k < |t| :: IsTokenChar(t[k])
    requires i + |t| < |s| ==> s[i + |t|] == '\n'
    ensures i < |s| && TokenEnd(s, i) == i + |t| && s[i..i + |t|] == t && s[i] == t[0]
  {
    var e := i + |t|;
    hide IsBareChar;
    forall k | i <= k < e ensures IsTokenChar(s[k]) {
      assert s[k] == s[i..e][k - i];
    }
    assert !IsTokenChar('\n') by { NewlineEndsToken(); }
  }

  lemma NewlineEndsToken()
    ensures !IsTokenChar('\n') && !IsDigit('\n')
  {
  }

  /** An integer is a token and no float. */
  lemma IntToken(n: int)
    ensures FormatInt(n) != "" && !IsFloat(FormatInt(n))
    ensures forall k | 0 <= k < |FormatInt(n)| :: IsTokenChar(FormatInt(n)[k])
  {
    var digits := Decimal(if n < 0 then -n else n);
    hide Decimal;
    assert Unsigned(FormatInt(n)) == digits;
    assert digits[0] != "inf"[0] && digits[0] != "nan"[0];
    assert DigitsEnd(digits, 0) == |digits|;
  }

  predicate StartsFloat(c: char) {
    IsDigit(c) || c == '-' || c == '+' || c == 'i' || c == 'n'
  }

  /** A float is a token; how it starts and ends. */
  lemma FloatToken(t: string)
    requires IsFloat(t)
    ensures t != "" && forall k | 0 <= k < |t| :: IsTokenChar(t[k])
    ensures StartsFloat(t[0]) && !IsSpace(t[|t| - 1])
  {
    var u := Unsigned(t);
    hide IsTokenChar;
    UnsignedFloat(u);
    hide IsFloat, IsFiniteFloat;
    forall k | 0 <= k < |t| ensures IsTokenChar(t[k]) {
      if u != t {
        assert k > 0 ==> t[k] == u[k - 1];
      }
      SignIsToken(t[k]);
    }
  }

  lemma SignIsToken(c: char)
    ensures c == '-' || c == '+' ==> IsTokenChar(c)
  {
  }

  lemma UnsignedFloat(u: string)
    requires u == "inf" || u == "nan" || IsFiniteFloat(u)
    ensures u != "" && StartsFloat(u[0]) && !IsSpace(u[|u| - 1])
    ensures forall k | 0 <= k < |u| :: IsTokenChar(u[k])
  {
    if IsFiniteFloat(u) {
      FiniteFloat(u);
    }
  }

  lemma ExponentChars(u: string, k: nat)
    requires k <= |u| && IsExponent(u, k)
    ensures IsDigit(u[|u| - 1]) && forall j | k <= j < |u| :: IsTokenChar(u[j])
  {
  }

  lemma FiniteFloat(u: string)
    requires IsFiniteFloat(u)
    ensures u != "" && IsDigit(u[0]) && IsDigit(u[|u| - 1])
    ensures forall k | 0 <= k < |u| :: IsTokenChar(u[k])
  {
    var w := DigitsEnd(u, 0);
    var f := if u[w] == '.' then DigitsEnd(u, w + 1) else w;
    if f < |u| {
      ExponentChars(u, f);
    }
    hide IsExponent, DigitsEnd;
  }

  lemma ReadFormattedFloat(s: string, i: nat, t: string)
    requires IsFloat(t) && At(s, i, t)
    requires i + |t| < |s| ==> s[i + |t|] == '\n'
    ensures ReadValue(s, i) == Some((Float(t), i + |t|))
  {
    hide ReadString, ReadItems, ReadInt, IsFloat, TokenEnd, IsTokenChar, IsBareChar, IsSpace, StartsFloat;
    FloatToken(t);
    TokenAt(s, i, t);
    AtHead(s, i, "true");
    AtHead(s, i, "false");
    hide At;
    FloatStart(s[i]);
  }

  lemma FloatStart(c: char)
    requires StartsFloat(c)
    ensures !IsSpace(c) && !IsWs(c)
    ensures c != '"' && c != '[' && c != 't' && c != 'f'
  {
  }

  lemma ReadFormattedBool(s: string, i: nat, b: bool)
    requires At(s, i, FormatValue(Bool(b)))
    ensures ReadValue(s, i) == Some((Bool(b), i + |FormatValue(Bool(b))|))
  {
    hide ReadString, ReadItems, ReadInt;
    AtHead(s, i, FormatValue(Bool(b)));
    AtHead(s, i, "true");
  }

  // ---------- documents survive ----------

  predicate IsBareKey(key: string) {
    key != "" && forall k | 0 <= k < |key| :: IsBareChar(key[k])
  }

  /** The key, the equals sign and the start of the value. */
  lemma ReadKey(s: string, i: nat, key: string, v: string)
    requires IsBareKey(key) && v != "" && !IsWs(v[0]) && At(s, i, key + (" = " + v))
    ensures var k := i + |key|;
            && IsBareChar(s[i]) && BareEnd(s, i) == k && s[i..k] == key
            && SkipBlanks(s, k) == k + 1 < |s| && s[k + 1] == '=' && SkipBlanks(s, k + 2) == k + 3
            && At(s, k + 3, v)
  {
    var k := i + |key|;
    AtSplit(s, i, key, " = " + v);
    AtSplit(s, k, " = ", v);
    forall j | i <= j < k ensures IsBareChar(s[j]) {
      assert s[j] == s[i..k][j - i];
    }
    var eq := s[k..k + 3];
    assert s[k] == eq[0] && s[k + 1] == eq[1] && s[k + 2] == eq[2];
    AtHead(s, k + 3, v);
  }

  lemma ReadLine(s: string, i: nat, entry: Entry)
    requires IsBareKey(entry.key) && !entry.value.Null? && At(s, i, EntryLine(entry))
    requires var e := i + |EntryLine(entry)|; e == |s| || s[e] == '\n'
    ensures var r := ReadEntry(s, i); var e := i + |EntryLine(entry)|;
            if Faithful(entry.value) then r == Some((entry, e)) else r.None? || r.value.0 != entry
    ensures i < |s| && IsBareChar(s[i])
  {
    hide At, ReadValue, FormatValue, Faithful, BareEnd, SkipBlanks;
    var v := FormatValue(entry.value);
    assert EntryLine(entry) == entry.key + (" = " + v);
    ValueHead(entry.value);
    ReadKey(s, i, entry.key, v);
    ReadFormatted(s, i + |entry.key| + 3, entry.value);
  }

  lemma ValueHead(v: TomlValue)
    requires !v.Null?
    ensures FormatValue(v) != "" && !IsSpace(FormatValue(v)[0]) && !IsWs(FormatValue(v)[0])
  {
    hide IsFloat, EscapeText, Decimal, Texts, FormatItems;
    if v.Float? {
      FloatToken(v.repr);
      FloatStart(v.repr[0]);
    }
    hide StartsFloat;
  }

  lemma EntryLineEnds(entry: Entry)
    requires !entry.value.Null?
    ensures EntryLine(entry) != "" && !IsSpace(EntryLine(entry)[|EntryLine(entry)| - 1])
  {
    hide IsFloat, EscapeText, Texts, FormatItems, Decimal;
    var v := FormatValue(entry.value);
    match entry.value {
      case List(items) => if items != [] { FormatItemsEnd(Texts(items)); }
      case Float(t) => FloatToken(t);
      case Int(n) => assert v[|v| - 1] == Decimal(if n < 0 then -n else n)[|Decimal(if n < 0 then -n else n)| - 1];
      case _ =>
    }
    assert EntryLine(entry)[|EntryLine(entry)| - 1] == v[|v| - 1];
  }

  lemma {:induction false} FormatItemsEnd(items: seq<string>)
    requires items != []
    ensures FormatItems(items) != "" && FormatItems(items)[|FormatItems(items)| - 1] == ']'
    decreases |items|
  {
    if |items| > 1 {
      FormatItemsEnd(items[1..]);
    }
  }

  lemma {:induction false} EntryLinesCons(entries: seq<Entry>)
    requires entries != []
    ensures EntryLines(entries) ==
            (if entries[0].value.Null? then [] else [EntryLine(entries[0])]) + EntryLines(entries[1..])
    decreases |entries|
  {
    var n := |entries| - 1;
    if n > 0 {
      EntryLinesCons(entries[..n]);
      assert entries[..n][1..] == entries[1..][..n - 1];
    }
  }

  lemma {:induction false} SectionLinesCons(doc: Document)
    requires doc != []
    ensures SectionLines(doc) ==
            ["[" + doc[0].name + "]"] + EntryLines(doc[0].entries) + [""] + SectionLines(doc[1..])
    decreases |doc|
  {
    hide EntryLines;
    var n := |doc| - 1;
    if n > 0 {
      SectionLinesCons(doc[..n]);
      assert doc[..n][1..] == doc[1..][..n - 1];
    }
  }

  /** The lines stand in the text one after the other, each ended by a newline, from `i` to the end. */
  predicate LinesAt(s: string, i: nat, lines: seq<string>)
    decreases |lines|
  {
    if lines == [] then i == |s|
    else
      var e := i + |lines[0]|;
      At(s, i, lines[0]) && e < |s| && s[e] == '\n' && LinesAt(s, e + 1, lines[1..])
  }

  lemma {:induction false} JoinedLinesAt(s: string, i: nat, lines: seq<string>)
    requires lines != [] && At(s, i, JoinLines(lines) + "\n") && i + |JoinLines(lines)| + 1 == |s|
    ensures LinesAt(s, i, lines)
    decreases |lines|
  {
    var e := i + |lines[0]|;
    if |lines| == 1 {
      AtSplit(s, i, lines[0], "\n");
      AtHead(s, e, "\n");
    } else {
      var rest := JoinLines(lines[1..]) + "\n";
      assert JoinLines(lines) + "\n" == lines[0] + ("\n" + rest);
      hide JoinLines;
      LineBreakAt(s, i, lines[0], rest);
      hide At;
      JoinedLinesAt(s, e + 1, lines[1..]);
    }
  }

  lemma LineBreakAt(s: string, i: nat, line: string, rest: string)
    requires At(s, i, line + ("\n" + rest))
    ensures var e := i + |line|; At(s, i, line) && e < |s| && s[e] == '\n' && At(s, e + 1, rest)
  {
    AtSplit(s, i, line, "\n" + rest);
    AtSplit(s, i + |line|, "\n", rest);
    AtHead(s, i + |line|, "\n");
  }

  lemma {:induction false} JoinLinesEnds(lines: seq<string>)
    requires lines != [] && lines[0] != "" && lines[|lines| - 1] != ""
    ensures var j := JoinLines(lines); var last := lines[|lines| - 1];
            j != "" && j[0] == lines[0][0] && j[|j| - 1] == last[|last| - 1]
    decreases |lines|
  {
    if |lines| > 1 {
      var rest := lines[1..];
      JoinLinesLast(rest);
    }
  }

  lemma {:induction false} JoinLinesLast(lines: seq<string>)
    requires lines != [] && lines[|lines| - 1] != ""
    ensures var j := JoinLines(lines); var last := lines[|lines| - 1];
            j != "" && j[|j| - 1] == last[|last| - 1]
    decreases |lines|
  {
    if |lines| > 1 {
      JoinLinesLast(lines[1..]);
    }
  }

  lemma {:induction false} JoinLinesSnoc(lines: seq<string>)
    requires lines != []
    ensures JoinLines(lines + [""]) == JoinLines(lines) + "\n"
    decreases |lines|
  {
    assert (lines + [""])[1..] == lines[1..] + [""];
    if |lines| > 1 {
      JoinLinesSnoc(lines[1..]);
      assert lines[0] + "\n" + (JoinLines(lines[1..]) + "\n") == lines[0] + "\n" + JoinLines(lines[1..]) + "\n";
    } else {
      assert JoinLines([""]) == "";
      assert lines[0] + "\n" + "" == lines[0] + "\n";
    }
  }

  /** All lines of a document but the last, which is empty. */
  function BodyLines(doc: Document): seq<string>
    requires doc != []
  {
    var n := |doc| - 1;
    SectionLines(doc[..n]) + ["[" + doc[n].name + "]"] + EntryLines(doc[n].entries)
  }

  /** Stripping and adding a newline back turns the last empty line into the final newline. */
  lemma RenderLines(doc: Document)
    requires doc != []
    ensures Render(doc) == JoinLines(BodyLines(doc)) + "\n"
  {
    var lines := BodyLines(doc);
    assert SectionLines(doc) == lines + [""];
    JoinLinesSnoc(lines);
    BodyEnds(doc);
    JoinLinesEnds(lines);
    StripNewline(JoinLines(lines));
  }

  lemma StripNewline(x: string)
    requires x != "" && !IsSpace(x[0]) && !IsSpace(x[|x| - 1])
    ensures Strip(x + "\n") == x
  {
    var s := x + "\n";
    assert s[0] == x[0] && s[|x| - 1] == x[|x| - 1] && s[|x|] == '\n';
    assert FirstSolid(s, 0) == 0;
    assert SolidEnd(s, 0, |x|) == |x|;
    assert SolidEnd(s, 0, |s|) == |x|;
    assert s[0..|x|] == x;
  }

  lemma BodyEnds(doc: Document)
    requires doc != []
    ensures var lines := BodyLines(doc); var last := lines[|lines| - 1];
            && lines != [] && lines[0] != "" && lines[0][0] == '['
            && last != "" && !IsSpace(last[|last| - 1])
  {
    var n := |doc| - 1;
    SectionLinesCons(doc);
    var lines := BodyLines(doc);
    assert (lines + [""])[0] == lines[0];
    var entries := doc[n].entries;
    EntryLinesEnd(entries);
  }

  lemma {:induction false} EntryLinesEnd(entries: seq<Entry>)
    ensures var lines := EntryLines(entries);
            lines != [] ==> var last := lines[|lines| - 1]; last != "" && !IsSpace(last[|last| - 1])
    decreases |entries|
  {
    hide EntryLine;
    if entries != [] {
      var n := |entries| - 1;
      EntryLinesEnd(entries[..n]);
      if !entries[n].value.Null? {
        EntryLineEnds(entries[n]);
      } else {
        assert EntryLines(entries) == EntryLines(entries[..n]);
      }
    }
  }

  // ---------- reading a rendered document ----------

  /** A dict's keys are distinct; those the source writes are bare. */
  predicate WellFormedEntries(entries: seq<Entry>) {
    entries == [] ||
    (IsBareKey(entries[0].key) && !HasKey(entries[1..], entries[0].key) && WellFormedEntries(entries[1..]))
  }

  predicate WellFormed(doc: Document) {
    doc == [] ||
    (&& IsBareKey(doc[0].name) && !HasName(doc[1..], doc[0].name)
     && WellFormedEntries(doc[0].entries) && WellFormed(doc[1..]))
  }

  predicate FaithfulEntries(entries: seq<Entry>) {
    entries == [] || (Faithful(entries[0].value) && FaithfulEntries(entries[1..]))
  }

  predicate FaithfulDocument(doc: Document) {
    doc == [] || (FaithfulEntries(doc[0].entries) && FaithfulDocument(doc[1..]))
  }

  /** The entries that are rendered: all but those whose value is None. */
  function Present(entries: seq<Entry>): seq<Entry> {
    if entries == [] then []
    else if entries[0].value.Null? then Present(entries[1..])
    else [entries[0]] + Present(entries[1..])
  }

  function PresentDocument(doc: Document): Document {
    if doc == [] then [] else [Section(doc[0].name, Present(doc[0].entries))] + PresentDocument(doc[1..])
  }

  function EntriesEnd(i: nat, entries: seq<Entry>): nat
    decreases |entries|
  {
    if entries == [] then i
    else if entries[0].value.Null? then EntriesEnd(i, entries[1..])
    else EntriesEnd(i + |EntryLine(entries[0])| + 1, entries[1..])
  }

  predicate EntriesAt(s: string, i: nat, entries: seq<Entry>)
    decreases |entries|
  {
    if entries == [] then i <= |s|
    else if entries[0].value.Null? then EntriesAt(s, i, entries[1..])
    else
      var e := i + |EntryLine(entries[0])|;
      At(s, i, EntryLine(entries[0])) && e < |s| && s[e] == '\n' && EntriesAt(s, e + 1, entries[1..])
  }

  predicate DocumentAt(s: string, i: nat, doc: Document)
    decreases |doc|
  {
    doc != [] &&
    var h := i + |doc[0].name| + 2;
    && At(s, i, "[" + doc[0].name + "]") && h < |s| && s[h] == '\n'
    && EntriesAt(s, h + 1, doc[0].entries)
    && var m := EntriesEnd(h + 1, doc[0].entries);
       && m <= |s|
       && if |doc| == 1 then m == |s| else m < |s| && s[m] == '\n' && DocumentAt(s, m + 1, doc[1..])
  }

  lemma {:induction false} LinesToEntries(s: string, i: nat, entries: seq<Entry>, more: seq<string>)
    requires LinesAt(s, i, EntryLines(entries) + more)
    ensures EntriesAt(s, i, entries) && LinesAt(s, EntriesEnd(i, entries), more)
    ensures EntriesEnd(i, entries) <= |s|
    decreases |entries|
  {
    hide EntryLine, At;
    if entries == [] {
      assert [] + more == more;
      LinesWithin(s, i, more);
    } else {
      EntryLinesCons(entries);
      var rest := entries[1..];
      if entries[0].value.Null? {
        assert EntryLines(entries) + more == EntryLines(rest) + more;
        LinesToEntries(s, i, rest, more);
      } else {
        var line := EntryLine(entries[0]);
        assert EntryLines(entries) + more == [line] + (EntryLines(rest) + more);
        FirstLineAt(s, i, line, EntryLines(rest) + more);
        LinesToEntries(s, i + |line| + 1, rest, more);
      }
    }
  }

  lemma LinesWithin(s: string, i: nat, lines: seq<string>)
    requires LinesAt(s, i, lines)
    ensures i <= |s|
  {
  }

  lemma BodyLinesCons(doc: Document)
    requires doc != []
    ensures BodyLines(doc) == ["[" + doc[0].name + "]"] + (EntryLines(doc[0].entries) + LaterLines(doc))
  {
    hide EntryLines, BodyLines;
    var head := ["[" + doc[0].name + "]"];
    var entries := EntryLines(doc[0].entries);
    var later := SectionLines(doc[1..]);
    SectionLinesCons(doc);
    BodyLinesSnoc(doc);
    if |doc| > 1 {
      BodyLinesSnoc(doc[1..]);
    }
    assert |doc| == 1 ==> later == [];
    LastBlankMoves(head, entries, later, if |doc| == 1 then [] else BodyLines(doc[1..]));
    hide SectionLines;
    SameFront(BodyLines(doc), head + (entries + LaterLines(doc)));
  }

  /** The blank line after a section closes the document, or separates it from the sections after it. */
  lemma LastBlankMoves(head: seq<string>, entries: seq<string>, later: seq<string>, body: seq<string>)
    ensures later == [] ==> head + entries + [""] + later == (head + (entries + [])) + [""]
    ensures later == body + [""] ==> head + entries + [""] + later == (head + (entries + ([""] + body))) + [""]
  {
  }

  lemma SameFront(a: seq<string>, b: seq<string>)
    requires a + [""] == b + [""]
    ensures a == b
  {
    assert |a + [""]| == |a| + 1 && |b + [""]| == |b| + 1;
    assert (a + [""])[..|a|] == a && (b + [""])[..|b|] == b;
  }

  lemma BodyLinesSnoc(doc: Document)
    requires doc != []
    ensures SectionLines(doc) == BodyLines(doc) + [""]
  {
  }

  /** The blank line and the body of the sections after the first. */
  function LaterLines(doc: Document): seq<string>
    requires doc != []
  {
    if |doc| == 1 then [] else [""] + BodyLines(doc[1..])
  }

  lemma LaterCases(doc: Document)
    requires doc != []
    ensures LaterLines(doc) == if |doc| == 1 then [] else [""] + BodyLines(doc[1..])
  {
    hide BodyLines;
  }

  lemma {:induction false} LinesToDocument(s: string, i: nat, doc: Document)
    requires doc != [] && LinesAt(s, i, BodyLines(doc))
    ensures DocumentAt(s, i, doc)
    decreases |doc|
  {
    hide BodyLines, EntryLines, LinesAt, EntriesAt, EntriesEnd, LaterLines, At;
    var header := "[" + doc[0].name + "]";
    var entries := doc[0].entries;
    var h := i + |header|;
    LaterCases(doc);
    BodyLinesCons(doc);
    FirstLineAt(s, i, header, EntryLines(entries) + LaterLines(doc));
    LinesToEntries(s, h + 1, entries, LaterLines(doc));
    var m := EntriesEnd(h + 1, entries);
    if |doc| > 1 {
      FirstLineAt(s, m, "", BodyLines(doc[1..]));
      LinesToDocument(s, m + 1, doc[1..]);
    } else {
      NoLineAt(s, m);
    }
  }

  lemma FirstLineAt(s: string, i: nat, line: string, more: seq<string>)
    requires LinesAt(s, i, [line] + more)
    ensures var e := i + |line|; At(s, i, line) && e < |s| && s[e] == '\n' && LinesAt(s, e + 1, more)
  {
    assert ([line] + more)[1..] == more;
  }

  lemma NoLineAt(s: string, i: nat)
    requires LinesAt(s, i, [])
    ensures i == |s|
  {
  }

  lemma ReadEntriesSkip(s: string, i: nat, j: nat)
    requires i <= j <= |s| && SkipWs(s, i) == SkipWs(s, j)
    ensures ReadEntries(s, i) == ReadEntries(s, j)
  {
  }

  lemma {:induction false} PresentKeys(entries: seq<Entry>, key: string)
    ensures HasKey(Present(entries), key) ==> HasKey(entries, key)
    decreases |entries|
  {
    if entries != [] {
      var rest := entries[1..];
      PresentKeys(rest, key);
      if HasKey(Present(entries), key) && entries[0].key != key {
        var j :| 0 <= j < |Present(entries)| && Present(entries)[j].key == key;
        if !entries[0].value.Null? {
          assert Present(rest)[j - 1].key == key;
        }
        var k :| 0 <= k < |rest| && rest[k].key == key;
        assert entries[k + 1].key == key;
      }
    }
  }

  /** Reading one rendered entry leaves the reader before the next line. */
  lemma ReadFirstEntry(s: string, i: nat, entries: seq<Entry>)
    requires WellFormedEntries(entries) && EntriesAt(s, i, entries)
    requires entries != [] && !entries[0].value.Null?
    ensures var e := i + |EntryLine(entries[0])|;
            && SkipWs(s, i) == i && s[i] != '[' && e < |s|
            && (if Faithful(entries[0].value) then ReadEntry(s, i) == Some((entries[0], e))
                else ReadEntry(s, i).None? || ReadEntry(s, i).value.0 != entries[0])
            && ReadEntries(s, e) == ReadEntries(s, e + 1)
  {
    hide EntryLine, ReadEntry;
    var e := i + |EntryLine(entries[0])|;
    ReadLine(s, i, entries[0]);
    ReadEntriesSkip(s, e, e + 1);
    hide Faithful, ReadEntries;
  }

  predicate Stops(s: string, m: nat)
    requires m <= |s|
  {
    var j := SkipWs(s, m);
    j == |s| || s[j] == '['
  }

  lemma {:induction false} ReadFaithfulEntries(s: string, i: nat, entries: seq<Entry>)
    requires WellFormedEntries(entries) && EntriesAt(s, i, entries) && FaithfulEntries(entries)
    requires var m := EntriesEnd(i, entries); m <= |s| && Stops(s, m)
    ensures i <= |s| && ReadEntries(s, i) == Some((Present(entries), SkipWs(s, EntriesEnd(i, entries))))
    decreases |entries|
  {
    hide ReadEntry;
    hide At;
    hide EntryLine;
    if entries != [] {
      var rest := entries[1..];
      if entries[0].value.Null? {
        ReadFaithfulEntries(s, i, rest);
      } else {
        ReadFirstEntry(s, i, entries);
        PresentKeys(rest, entries[0].key);
        var e := i + |EntryLine(entries[0])|;
        assert EntriesAt(s, e + 1, rest) && EntriesEnd(i, entries) == EntriesEnd(e + 1, rest);
        ReadFaithfulEntries(s, e + 1, rest);
        assert ReadEntries(s, e) == Some((Present(rest), SkipWs(s, EntriesEnd(i, entries))));
      }
    }
  }

  lemma {:induction false} ReadSpoiltEntries(s: string, i: nat, entries: seq<Entry>)
    requires WellFormedEntries(entries) && EntriesAt(s, i, entries) && !FaithfulEntries(entries)
    ensures i <= |s| && (ReadEntries(s, i).None? || ReadEntries(s, i).value.0 != Present(entries))
    decreases |entries|
  {
    assert entries[0].value.Null? ==> Faithful(entries[0].value);
    hide ReadEntry, ReadEntries, At, EntryLine, Faithful;
    var rest := entries[1..];
    if entries[0].value.Null? {
      ReadSpoiltEntries(s, i, rest);
    } else {
      if Faithful(entries[0].value) {
        var e := i + |EntryLine(entries[0])|;
        ReadSpoiltEntries(s, e + 1, rest);
      }
      SpoiltEntry(s, i, entries);
    }
  }

  /** The first entry is spoilt, or the rest is. */
  lemma SpoiltEntry(s: string, i: nat, entries: seq<Entry>)
    requires WellFormedEntries(entries) && EntriesAt(s, i, entries) && entries != [] && !entries[0].value.Null?
    requires Faithful(entries[0].value) ==>
               var e := i + |EntryLine(entries[0])| + 1;
               e <= |s| && (ReadEntries(s, e).None? || ReadEntries(s, e).value.0 != Present(entries[1..]))
    ensures i <= |s| && (ReadEntries(s, i).None? || ReadEntries(s, i).value.0 != Present(entries))
  {
    hide At, EntryLine, Faithful, WellFormedEntries, SkipWs, ReadEntry, ReadEntries, Present;
    EntriesWithin(s, i, entries);
    PresentCons(entries);
    hide EntriesAt;
    ReadFirstEntry(s, i, entries);
    SpoiltCons(s, i, entries[0], Present(entries[1..]));
  }

  /** A wrong entry, or a wrong rest, spoils the entries. */
  lemma SpoiltCons(s: string, i: nat, first: Entry, later: seq<Entry>)
    requires i < |s| && SkipWs(s, i) == i && s[i] != '['
    requires ReadEntry(s, i).Some? && ReadEntry(s, i).value.0 == first ==>
               var e := ReadEntry(s, i).value.1; ReadEntries(s, e).None? || ReadEntries(s, e).value.0 != later
    ensures ReadEntries(s, i).None? || ReadEntries(s, i).value.0 != [first] + later
  {
    hide ReadEntry, ReadEntries, SkipWs;
    ReadEntriesCons(s, i);
    if ReadEntries(s, i).Some? {
      var (entry, e) := ReadEntry(s, i).value;
      ConsDiffers(entry, ReadEntries(s, e).value.0, first, later);
    }
  }

  lemma PresentCons(entries: seq<Entry>)
    requires entries != [] && !entries[0].value.Null?
    ensures Present(entries) == [entries[0]] + Present(entries[1..])
  {
  }

  lemma EntriesWithin(s: string, i: nat, entries: seq<Entry>)
    requires EntriesAt(s, i, entries) && entries != [] && !entries[0].value.Null?
    ensures i <= |s|
  {
    hide EntryLine;
  }

  /** Reading entries is reading the first and then the rest. */
  lemma ReadEntriesCons(s: string, i: nat)
    requires i < |s| && SkipWs(s, i) == i && s[i] != '['
    ensures ReadEntries(s, i).Some? ==>
              var r := ReadEntry(s, i);
              && r.Some? && ReadEntries(s, r.value.1).Some?
              && ReadEntries(s, i).value.0 == [r.value.0] + ReadEntries(s, r.value.1).value.0
  {
    hide ReadEntry, SkipWs, HasKey;
  }

  lemma ConsDiffers(a: Entry, xs: seq<Entry>, b: Entry, ys: seq<Entry>)
    ensures [a] + xs == [b] + ys ==> a == b && xs == ys
  {
    assert ([a] + xs)[0] == a && ([b] + ys)[0] == b;
    assert ([a] + xs)[1..] == xs && ([b] + ys)[1..] == ys;
  }

  /** The header of a rendered section, and the reader's position after it. */
  lemma ReadHeader(s: string, i: nat, name: string)
    requires IsBareKey(name) && At(s, i, "[" + name + "]")
    requires var h := i + |name| + 2; h < |s| && s[h] == '\n'
    ensures SkipWs(s, i) == i && ReadName(s, i) == Some((name, i + |name| + 2))
    ensures ReadEntries(s, i + |name| + 2) == ReadEntries(s, i + |name| + 3)
  {
    hide ReadEntries, IsBareKey, IsBareChar, BareEnd;
    HeaderLayout(s, i, name);
    hide At;
    assert name != "" by { BareNotEmpty(name); }
    assert SkipWs(s, i + |name| + 2) == SkipWs(s, i + |name| + 3);
    ReadEntriesSkip(s, i + |name| + 2, i + |name| + 3);
  }

  lemma BareNotEmpty(name: string)
    requires IsBareKey(name)
    ensures name != ""
  {
  }

  lemma HeaderLayout(s: string, i: nat, name: string)
    requires IsBareKey(name) && At(s, i, "[" + name + "]")
    ensures var k := i + |name| + 1; s[i] == '[' && s[k] == ']' && s[i + 1..k] == name && BareEnd(s, i + 1) == k
  {
    var k := i + |name| + 1;
    assert "[" + name + "]" == "[" + (name + "]");
    AtSplit(s, i, "[", name + "]");
    AtSplit(s, i + 1, name, "]");
    AtHead(s, i, "[");
    AtHead(s, k, "]");
    forall j | i + 1 <= j < k ensures IsBareChar(s[j]) {
      assert s[j] == s[i + 1..k][j - i - 1];
    }
  }

  /** A document's first section is followed by the end or by the next header. */
  lemma SectionStops(s: string, i: nat, doc: Document)
    requires DocumentAt(s, i, doc)
    ensures var m := EntriesEnd(i + |doc[0].name| + 3, doc[0].entries);
            m <= |s| && Stops(s, m) && SkipWs(s, m) == if |doc| == 1 then |s| else m + 1
  {
    if |doc| > 1 {
      var m := EntriesEnd(i + |doc[0].name| + 3, doc[0].entries);
      assert "[" + doc[1].name + "]" == "[" + (doc[1].name + "]");
      AtSplit(s, m + 1, "[", doc[1].name + "]");
      AtHead(s, m + 1, "[");
    }
  }

  lemma {:induction false} PresentNames(doc: Document, name: string)
    ensures HasName(PresentDocument(doc), name) <==> HasName(doc, name)
    ensures |PresentDocument(doc)| == |doc|
    decreases |doc|
  {
    if doc != [] {
      PresentNames(doc[1..], name);
      HasNameCons(doc, name);
      HasNameCons(PresentDocument(doc), name);
      assert PresentDocument(doc)[1..] == PresentDocument(doc[1..]);
    }
  }

  lemma HasNameCons(doc: Document, name: string)
    requires doc != []
    ensures HasName(doc, name) <==> doc[0].name == name || HasName(doc[1..], name)
  {
    if j :| 0 <= j < |doc| && doc[j].name == name && j > 0 {
      assert doc[1..][j - 1].name == name;
    }
    if j :| 0 <= j < |doc[1..]| && doc[1..][j].name == name {
      assert doc[j + 1].name == name;
    }
  }

  /** The sections once the entries of the first have been read. */
  function SectionsAfter(s: string, name: string, r: Option<(seq<Entry>, nat)>): Option<Document>
    requires r.Some? ==> r.value.1 <= |s|
  {
    if r == None then None else AddSection(Section(name, r.value.0), ReadSections(s, r.value.1))
  }

  /** A header, and the sections that start with it. */
  lemma ReadSectionsFrom(s: string, i: nat, name: string)
    requires IsBareKey(name) && At(s, i, "[" + name + "]")
    requires var h := i + |name| + 2; h < |s| && s[h] == '\n'
    ensures ReadSections(s, i) == SectionsAfter(s, name, ReadEntries(s, i + |name| + 3))
  {
    hide ReadSections, SectionsAfter, ReadEntries, ReadName, SkipWs, At, IsBareKey;
    ReadHeader(s, i, name);
    ReadSectionsIs(s, i, name, i + |name| + 2);
  }

  lemma ReadSectionsIs(s: string, i: nat, name: string, k: nat)
    requires i < |s| && k <= |s| && SkipWs(s, i) == i && ReadName(s, i) == Some((name, k))
    ensures ReadSections(s, i) == SectionsAfter(s, name, ReadEntries(s, k))
  {
    hide ReadEntries, ReadName, AddSection, SkipWs;
  }

  lemma ReadSection(s: string, i: nat, doc: Document)
    requires WellFormed(doc) && DocumentAt(s, i, doc)
    ensures i + |doc[0].name| + 3 <= |s|
    ensures ReadSections(s, i) == SectionsAfter(s, doc[0].name, ReadEntries(s, i + |doc[0].name| + 3))
  {
    hide ReadEntries, ReadSections, EntriesAt, EntriesEnd, AddSection, At, IsBareKey, SectionsAfter;
    ReadSectionsFrom(s, i, doc[0].name);
  }

  lemma {:induction false} ReadFaithfulDocument(s: string, i: nat, doc: Document)
    requires WellFormed(doc) && DocumentAt(s, i, doc) && FaithfulDocument(doc)
    ensures i <= |s| && ReadSections(s, i) == Some(PresentDocument(doc))
    decreases |doc|
  {
    hide ReadEntries, ReadName, At, EntriesAt, EntriesEnd;
    var h := i + |doc[0].name| + 2;
    ReadSection(s, i, doc);
    SectionStops(s, i, doc);
    ReadFaithfulEntries(s, h + 1, doc[0].entries);
    PresentNames(doc[1..], doc[0].name);
    if |doc| > 1 {
      ReadFaithfulDocument(s, EntriesEnd(h + 1, doc[0].entries) + 1, doc[1..]);
    } else {
      assert ReadSections(s, |s|) == Some([]);
    }
  }

  lemma {:induction false} ReadSpoiltDocument(s: string, i: nat, doc: Document)
    requires WellFormed(doc) && DocumentAt(s, i, doc) && !FaithfulDocument(doc)
    ensures i <= |s| && ReadSections(s, i) != Some(PresentDocument(doc))
    decreases |doc|
  {
    hide ReadEntries, ReadName, At, EntriesAt, EntriesEnd, ReadSections, AddSection, Present, SkipWs, FaithfulEntries;
    hide IsBareKey, Stops, PresentDocument, SectionsAfter;
    var h := i + |doc[0].name| + 2;
    ReadSection(s, i, doc);
    if FaithfulEntries(doc[0].entries) {
      SectionStops(s, i, doc);
      ReadFaithfulEntries(s, h + 1, doc[0].entries);
      ReadSpoiltDocument(s, EntriesEnd(h + 1, doc[0].entries) + 1, doc[1..]);
      SpoiltLater(s, doc, EntriesEnd(h + 1, doc[0].entries));
    } else {
      ReadSpoiltEntries(s, h + 1, doc[0].entries);
      SpoiltFirst(s, doc, ReadEntries(s, h + 1));
    }
  }

  lemma SpoiltLater(s: string, doc: Document, m: nat)
    requires |doc| > 1 && m < |s| && SkipWs(s, m) == m + 1
    requires ReadSections(s, m + 1) != Some(PresentDocument(doc[1..]))
    ensures SectionsAfter(s, doc[0].name, Some((Present(doc[0].entries), m + 1))) != Some(PresentDocument(doc))
  {
    hide AddSection, ReadSections, Present;
    AddSectionTail(Section(doc[0].name, Present(doc[0].entries)), ReadSections(s, m + 1), PresentDocument(doc[1..]));
  }

  lemma SpoiltFirst(s: string, doc: Document, r: Option<(seq<Entry>, nat)>)
    requires doc != [] && (r.Some? ==> r.value.1 <= |s| && r.value.0 != Present(doc[0].entries))
    ensures SectionsAfter(s, doc[0].name, r) != Some(PresentDocument(doc))
  {
    hide AddSection, ReadSections, Present;
    if r.Some? {
      AddSectionHead(Section(doc[0].name, r.value.0), ReadSections(s, r.value.1),
                     Section(doc[0].name, Present(doc[0].entries)), PresentDocument(doc[1..]));
    }
  }

  lemma AddSectionTail(section: Section, r: Option<Document>, rest: Document)
    requires r != Some(rest)
    ensures AddSection(section, r) != Some([section] + rest)
  {
    if r.Some? {
      assert ([section] + r.value)[1..] == r.value && ([section] + rest)[1..] == rest;
    }
  }

  lemma AddSectionHead(a: Section, r: Option<Document>, b: Section, rest: Document)
    requires a != b
    ensures AddSection(a, r) != Some([b] + rest)
  {
    if r.Some? {
      assert ([a] + r.value)[0] == a && ([b] + rest)[0] == b;
    }
  }

  /** Reading a rendered document gives back its sections, keys in order and values, without the
      None entries, exactly when every string is printable and every list item needs no escape. */
  lemma TomlRoundTrip(doc: Document)
    requires WellFormed(doc)
    ensures Read(Render(doc)) == Some(PresentDocument(doc)) <==> FaithfulDocument(doc)
  {
    if doc == [] {
      assert SkipWs("\n", 0) == 1;
      assert Render(doc) == "\n";
    } else {
      var s := Render(doc);
      RenderLines(doc);
      BodyEnds(doc);
      JoinedLinesAt(s, 0, BodyLines(doc));
      LinesToDocument(s, 0, doc);
      if FaithfulDocument(doc) {
        ReadFaithfulDocument(s, 0, doc);
      } else {
        ReadSpoiltDocument(s, 0, doc);
      }
    }
  }

  // ---------- the rendered text, character by character ----------

  function EntriesText(entries: seq<Entry>): string {
    if entries == [] then ""
    else
      (if entries[0].value.Null? then "" else entries[0].key + " = " + FormatValue(entries[0].value) + "\n")
      + EntriesText(entries[1..])
  }

  /** Each section under its header, an empty line between two of them. */
  function DocumentText(doc: Document): string {
    if doc == [] then "\n"
    else
      "[" + doc[0].name + "]\n" + EntriesText(doc[0].entries)
      + if |doc| == 1 then "" else "\n" + DocumentText(doc[1..])
  }

  /** The lines, each with a newline. */
  function Terminated(lines: seq<string>): string {
    if lines == [] then "" else lines[0] + "\n" + Terminated(lines[1..])
  }

  lemma {:induction false} TerminatedConcat(a: seq<string>, b: seq<string>)
    ensures Terminated(a + b) == Terminated(a) + Terminated(b)
    decreases |a|
  {
    if a == [] {
      assert a + b == b;
    } else {
      assert (a + b)[1..] == a[1..] + b;
      TerminatedConcat(a[1..], b);
      assert a[0] + "\n" + (Terminated(a[1..]) + Terminated(b)) == a[0] + "\n" + Terminated(a[1..]) + Terminated(b);
    }
  }

  lemma {:induction false} JoinedIsTerminated(lines: seq<string>)
    requires lines != []
    ensures JoinLines(lines) + "\n" == Terminated(lines)
    decreases |lines|
  {
    if |lines| > 1 {
      JoinedIsTerminated(lines[1..]);
      assert lines[0] + "\n" + JoinLines(lines[1..]) + "\n" == lines[0] + "\n" + (JoinLines(lines[1..]) + "\n");
    } else {
      assert lines[0] + "\n" + "" == lines[0] + "\n";
    }
  }

  lemma TerminatedOne(line: string)
    ensures Terminated([line]) == line + "\n"
  {
    assert line + "\n" + "" == line + "\n";
  }

  lemma {:induction false} EntriesTerminated(entries: seq<Entry>)
    ensures Terminated(EntryLines(entries)) == EntriesText(entries)
    decreases |entries|
  {
    hide EntryLine, FormatValue;
    if entries != [] {
      EntryLinesCons(entries);
      EntriesTerminated(entries[1..]);
      if entries[0].value.Null? {
        assert [] + EntryLines(entries[1..]) == EntryLines(entries[1..]);
        assert "" + EntriesText(entries[1..]) == EntriesText(entries[1..]);
      } else {
        TerminatedConcat([EntryLine(entries[0])], EntryLines(entries[1..]));
        TerminatedOne(EntryLine(entries[0]));
        SpeltLine(entries[0]);
      }
    }
  }

  lemma SpeltLine(entry: Entry)
    requires !entry.value.Null?
    ensures EntryLine(entry) == entry.key + " = " + FormatValue(entry.value)
  {
  }

  lemma {:induction false} BodyTerminated(doc: Document)
    requires doc != []
    ensures Terminated(BodyLines(doc)) == DocumentText(doc)
    decreases |doc|
  {
    hide BodyLines, EntryLines, LaterLines, EntriesText;
    var header, entries, later := "[" + doc[0].name + "]", EntryLines(doc[0].entries), LaterLines(doc);
    BodyLinesCons(doc);
    LaterCases(doc);
    TerminatedConcat([header], entries + later);
    TerminatedConcat(entries, later);
    TerminatedOne(header);
    EntriesTerminated(doc[0].entries);
    if |doc| > 1 {
      TerminatedConcat([""], BodyLines(doc[1..]));
      TerminatedOne("");
      BodyTerminated(doc[1..]);
      assert Terminated(later) == "\n" + DocumentText(doc[1..]);
    } else {
      assert Terminated(later) == "";
    }
    hide Terminated;
    assert header + "\n" == "[" + doc[0].name + "]\n";
  }

  /** What the renderer writes for any document, to the character: the joined lines, stripped and with one
      newline put back, are the sections with their headers, one `key = value` to a line, and an empty
      line between sections. */
  lemma RenderedText(doc: Document)
    ensures Render(doc) == DocumentText(doc)
  {
    if doc == [] {
      assert JoinLines([]) == "" && Strip("") == "";
    } else {
      RenderLines(doc);
      BodyLinesCons(doc);
      hide Render, BodyLines, DocumentText;
      JoinedIsTerminated(BodyLines(doc));
      BodyTerminated(doc);
    }
  }

  /** How each kind of value is written. */
  lemma ValueTexts(n: nat, t: string)
    ensures FormatValue(Bool(true)) == "true" && FormatValue(Bool(false)) == "false"
    ensures FormatValue(Int(n)) == Decimal(n) && (n > 0 ==> FormatValue(Int(-(n as int))) == "-" + Decimal(n))
    ensures FormatValue(Str(t)) == FormatValue(Printed(t)) == "\"" + EscapeText(t) + "\""
    ensures EscapeText("\\") == "\\\\" && EscapeText("\"") == "\\\""
  {
    hide Decimal;
    assert EscapeText("") == "";
  }

  /** A list is written one quoted item to a line: no item, one, and one more in front. */
  lemma ListTexts(a: Item, rest: seq<Item>)
    ensures FormatValue(List([])) == "[]"
    ensures FormatValue(List([a])) == "[\n  \"" + a.text + "\"\n]"
    ensures rest != [] ==>
              && FormatValue(List(rest))[..4] == "[\n  "
              && FormatValue(List([a] + rest)) == "[\n  \"" + a.text + "\",\n  " + FormatValue(List(rest))[4..]
  {
    OneItem(a.text);
    assert Texts([a]) == [a.text];
    if rest != [] {
      assert Texts([a] + rest) == [a.text] + Texts(rest);
      MoreItems(a.text, Texts(rest));
      hide FormatItems, Texts;
      assert FormatValue(List(rest)) == "[\n  " + FormatItems(Texts(rest));
    }
    hide FormatItems, Texts;
  }

  lemma OneItem(text: string)
    ensures "[\n  " + FormatItems([text]) == "[\n  \"" + text + "\"\n]"
  {
    assert FormatItems([text]) == "\"" + (text + ("\"" + "\n]"));
  }

  lemma MoreItems(text: string, rest: seq<string>)
    requires rest != []
    ensures "[\n  " + FormatItems([text] + rest) == "[\n  \"" + text + "\",\n  " + FormatItems(rest)
  {
    assert ([text] + rest)[1..] == rest;
    assert AfterItems([text] + rest) == ",\n  " + FormatItems(rest);
    assert FormatItems([text] + rest) == "\"" + (text + ("\"" + (",\n  " + FormatItems(rest))));
    hide FormatItems, AfterItems;
  }
}
