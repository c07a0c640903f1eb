/** The agent's shell quoting, read back by a tokeniser for the POSIX shell (IEEE Std 1003.1,
    Shell Command Language: sections 2.2.1 to 2.2.3 for quoting, 2.3 for token recognition, 2.6 for
    where expansions end). */
module Shell {
  import opened Wrappers

  // ---------- reading: POSIX token recognition and quote removal ----------

  /** A word, or one character of a control or redirection operator. A word's text is what it is before
      expansions, which can only change it when it `expands`; those that nest stand in it as written. */
  datatype Token = Literal(text: string, expands: bool) | Operator(c: char)

  datatype Mode =
    | Blank                                               // between tokens
    | Less                                                // between tokens, just after a <
    | Word(text: string, expands: bool)                   // inside a word, unquoted
    | Dollar(text: string, quoted: bool)                  // after a $ that may start a parameter
    | Escape(text: string, expands: bool, begun: bool)    // after an unquoted backslash
    | Single(text: string, expands: bool)                 // inside '...'
    | Double(text: string, expands: bool)                 // inside "..."
    | DoubleEscape(text: string, expands: bool)           // after a backslash inside "..."
    | Inside(text: string, quoted: bool, frames: seq<Frame>)  // inside ${...}, $(...) or `...`
    | Comment                                             // after an unquoted # that starts a word
    | Bad                                                 // beyond this reader, or a NUL

  /** What is open inside an expansion, innermost last. */
  datatype Frame =
    | Braces                                              // ${...}
    | Parens                                              // $(...) and the parentheses in it
    | Ticks                                               // `...`
    | Singles                                             // '...'
    | Doubles                                             // "..."
    | Dollars                                             // after a $
    | Escaped                                             // after a backslash
    | Remark                                              // a comment

  datatype Lexer = Lexer(tokens: seq<Token>, mode: Mode)

  const NUL := '\0'

  predicate IsBlank(c: char) {
    c == ' ' || c == '\t'
  }

  predicate IsOperator(c: char) {
    c == '|' || c == '&' || c == ';' || c == '<' || c == '>' || c == '(' || c == ')' || c == '\n'
  }

  /** A character that is simply part of a word, wherever in the word it stands unquoted. */
  predicate IsOrdinary(c: char) {
    && !IsBlank(c) && !IsOperator(c) && c != '$' && c != '`'
    && c != '\'' && c != '"' && c != '\\' && c != '#' && c != NUL
  }

  /** A character outside quotes, with `text` read of the current word, if one has begun. */
  function StepWord(tokens: seq<Token>, text: string, expands: bool, begun: bool, c: char): Lexer {
    var closed := if begun then tokens + [Literal(text, expands)] else tokens;
    if IsBlank(c) then Lexer(closed, Blank)
    else if IsOperator(c) then Lexer(closed + [Operator(c)], if c == '<' then Less else Blank)
    else if c == '#' && !begun then Lexer(tokens, Comment)
    else if c == '$' then Lexer(tokens, Dollar(text, false))
    else if c == '`' then Lexer(tokens, Inside(text + "`", false, [Ticks]))
    else if c == '\'' then Lexer(tokens, Single(text, expands))
    else if c == '"' then Lexer(tokens, Double(text, expands))
    else if c == '\\' then Lexer(tokens, Escape(text, expands, begun))
    else Lexer(tokens, Word(text + [c], expands))
  }

  /** A character inside double quotes. */
  function InDouble(text: string, expands: bool, c: char): Mode {
    if c == '"' then Word(text, expands)
    else if c == '\\' then DoubleEscape(text, expands)
    else if c == '$' then Dollar(text, true)
    else if c == '`' then Inside(text + "`", true, [Ticks])
    else Double(text + [c], expands)
  }

  function AfterDoubleEscape(text: string, c: char): string {
    if c == '\n' then text
    else if c == '$' || c == '`' || c == '"' || c == '\\' then text + [c]
    else text + ['\\', c]
  }

  // ---------- inside an expansion ----------

  /** A `#` here starts a comment, or else the character before it is escaped or ends an expansion. */
  predicate StartsWord(text: string) {
    text != "" && (IsBlank(text[|text| - 1]) || IsOperator(text[|text| - 1]))
  }

  /** The reserved word whose patterns close parentheses that nothing opened may stand here. */
  predicate EndsInCase(text: string) {
    |text| >= 4 && text[|text| - 4..] == "case"
  }

  /** What a character does to the innermost frame; none where this reader gives up: a here-document, a
      `case`, a continued line, a quote after a dollar, a single quote in braces in double quotes, or a
      `#` of which it does not know whether it starts a word. */
  function StepFrame(text: string, quoted: bool, frames: seq<Frame>, c: char): Option<seq<Frame>>
    requires frames != []
    decreases |frames|
  {
    var outer, top := frames[..|frames| - 1], frames[|frames| - 1];
    match top
    case Escaped => if c == '\n' then None else Some(outer)
    case Singles => Some(if c == '\'' then outer else frames)
    case Remark => Some(if c == '\n' then outer else frames)
    case Ticks => Some(if c == '`' then outer else if c == '\\' then frames + [Escaped] else frames)
    case Dollars =>
      if c == '(' then Some(outer + [Parens])
      else if c == '{' then Some(outer + [Braces])
      else if outer == [] || ((c == '\'' || c == '"') && !outer[|outer| - 1].Doubles?) then None
      else StepFrame(text, quoted, outer, c)
    case Doubles =>
      if c == '"' then Some(outer) else Some(Opens(frames, c))
    case Braces =>
      if c == '}' then Some(outer)
      else if c == '"' then Some(frames + [Doubles])
      else if c == '\'' then if quoted || Doubles in frames then None else Some(frames + [Singles])
      else Some(Opens(frames, c))
    case Parens =>
      if c == ')' then Some(outer)
      else if c == '(' then Some(frames + [Parens])
      else if c == '"' then Some(frames + [Doubles])
      else if c == '\'' then Some(frames + [Singles])
      else if c == '#' && StartsWord(text) then
        if text[|text| - 1] == ')' || (|text| >= 2 && text[|text| - 2] == '\\') then None else Some(frames + [Remark])
      else if c == '<' && text != "" && text[|text| - 1] == '<' then None
      else if (IsBlank(c) || c == '\n') && EndsInCase(text) then None
      else Some(Opens(frames, c))
  }

  /** The characters that open something both inside and outside double quotes. */
  function Opens(frames: seq<Frame>, c: char): seq<Frame> {
    if c == '\\' then frames + [Escaped]
    else if c == '$' then frames + [Dollars]
    else if c == '`' then frames + [Ticks]
    else frames
  }

  /** A character inside an expansion, which is over when no frame is left. */
  function StepInside(text: string, quoted: bool, frames: seq<Frame>, c: char): Mode {
    if frames == [] then Bad
    else match StepFrame(text, quoted, frames, c)
      case None => Bad
      case Some(open) =>
        if open != [] then Inside(text + [c], quoted, open)
        else if quoted then Double(text + [c], true)
        else Word(text + [c], true)
  }

  function Step(lx: Lexer, c: char): Lexer {
    if c == NUL then Lexer(lx.tokens, Bad)
    else match lx.mode
      case Blank => StepWord(lx.tokens, "", false, false, c)
      case Less => if c == '<' || c == '\\' then Lexer(lx.tokens, Bad) else StepWord(lx.tokens, "", false, false, c)
      case Word(t, e) => StepWord(lx.tokens, t, e, true, c)
      case Dollar(t, quoted) =>
        if c == '(' then Lexer(lx.tokens, Inside(t + "$(", quoted, [Parens]))
        else if c == '{' then Lexer(lx.tokens, Inside(t + "${", quoted, [Braces]))
        else if !quoted && (c == '\'' || c == '"') then Lexer(lx.tokens, Bad)
        else if quoted then Lexer(lx.tokens, InDouble(t + ['$'], true, c))
        else StepWord(lx.tokens, t + ['$'], true, true, c)
      case Escape(t, e, begun) =>
        Lexer(lx.tokens, if c != '\n' then Word(t + [c], e) else if begun then Word(t, e) else Blank)
      case Single(t, e) => Lexer(lx.tokens, if c == '\'' then Word(t, e) else Single(t + [c], e))
      case Double(t, e) => Lexer(lx.tokens, InDouble(t, e, c))
      case DoubleEscape(t, e) => Lexer(lx.tokens, Double(AfterDoubleEscape(t, c), e))
      case Inside(t, quoted, frames) => Lexer(lx.tokens, StepInside(t, quoted, frames, c))
      case Comment => if c == '\n' then Lexer(lx.tokens + [Operator(c)], Blank) else lx
      case Bad => lx
  }

  function Run(lx: Lexer, s: string): Lexer
    decreases |s|
  {
    if s == "" then lx else Run(Step(lx, s[0]), s[1..])
  }

  const START := Lexer([], Blank)

  /** The tokens of a finished text; none when it is unbalanced or more than this reader reads. */
  function Finish(lx: Lexer): Option<seq<Token>> {
    match lx.mode
    case Blank => Some(lx.tokens)
    case Less => Some(lx.tokens)
    case Comment => Some(lx.tokens)
    case Word(t, e) => Some(lx.tokens + [Literal(t, e)])
    case Dollar(t, quoted) => if quoted then None else Some(lx.tokens + [Literal(t + ['$'], true)])
    case _ => None
  }

  function Tokens(s: string): Option<seq<Token>> {
    Finish(Run(START, s))
  }

  lemma {:induction false} RunAppend(lx: Lexer, a: string, b: string)
    ensures Run(lx, a + b) == Run(Run(lx, a), b)
    decreases |a|
  {
    if a == "" {
      assert a + b == b;
    } else {
      assert (a + b)[1..] == a[1..] + b;
      RunAppend(Step(lx, a[0]), a[1..], b);
    }
  }

  lemma {:induction false} RunBad(lx: Lexer, s: string)
    requires lx.mode == Bad
    ensures Run(lx, s).mode == Bad
    decreases |s|
  {
    if s != "" {
      RunBad(Step(lx, s[0]), s[1..]);
    }
  }

  // ---------- what the reader makes of quotes and expansions ----------

  /** Text with no meaning inside double quotes or expansions. */
  predicate IsPlain(s: string) {
    forall k | 0 <= k < |s| :: s[k] !in "\0\n\"'`$\\#<>(){} \t"
  }

  /** Between double quotes plain text is part of the word it stands in. */
  lemma {:induction false} RunDouble(ts: seq<Token>, t: string, e: bool, v: string)
    requires IsPlain(v)
    ensures Run(Lexer(ts, Double(t, e)), v + "\"") == Lexer(ts, Word(t + v, e))
    decreases |v|
  {
    var s := v + "\"";
    if v == "" {
      assert s[1..] == "" && t + v == t;
    } else {
      assert s[1..] == v[1..] + "\"";
      assert forall k | 0 <= k < |v| - 1 :: v[1..][k] == v[k + 1];
      assert Step(Lexer(ts, Double(t, e)), s[0]) == Lexer(ts, Double(t + [v[0]], e));
      RunDouble(ts, t + [v[0]], e, v[1..]);
      assert t + [v[0]] + v[1..] == t + v;
    }
  }

  predicate Closes(frame: Frame, c: char) {
    (frame == Parens && c == ')') || (frame == Braces && c == '}') || (frame == Ticks && c == '`')
  }

  /** An expansion with plain text in it ends at its own closing character, and is as it is written part of the
      word it stands in, in or outside double quotes. */
  lemma {:induction false} RunNested(ts: seq<Token>, t: string, quoted: bool, frame: Frame, body: string, c: char)
    requires IsPlain(body) && Closes(frame, c)
    ensures Run(Lexer(ts, Inside(t, quoted, [frame])), body + [c]) ==
            Lexer(ts, if quoted then Double(t + body + [c], true) else Word(t + body + [c], true))
    decreases |body|
  {
    var s, lx := body + [c], Lexer(ts, Inside(t, quoted, [frame]));
    if body == "" {
      assert s[1..] == "" && t + body == t && [frame][..0] == [];
    } else {
      assert s[1..] == body[1..] + [c];
      assert forall k | 0 <= k < |body| - 1 :: body[1..][k] == body[k + 1];
      PlainStays(t, quoted, frame, body[0]);
      assert Step(lx, s[0]) == Lexer(ts, Inside(t + [body[0]], quoted, [frame]));
      RunNested(ts, t + [body[0]], quoted, frame, body[1..], c);
      assert t + [body[0]] + body[1..] == t + body;
    }
  }

  lemma PlainStays(t: string, quoted: bool, frame: Frame, c: char)
    requires IsPlain([c]) && frame in {Parens, Braces, Ticks}
    ensures c != NUL && StepInside(t, quoted, [frame], c) == Inside(t + [c], quoted, [frame])
  {
    assert [c][0] == c;
  }

  /** How quotes and expansions open, in a word or between words. */
  lemma Openings(ts: seq<Token>, t: string, e: bool)
    ensures Step(Lexer(ts, Word(t, e)), '"') == Lexer(ts, Double(t, e))
    ensures Step(Lexer(ts, Word(t, e)), '\'') == Lexer(ts, Single(t, e))
    ensures Step(Lexer(ts, Word(t, e)), '`') == Lexer(ts, Inside(t + "`", false, [Ticks]))
    ensures Step(Lexer(ts, Double(t, e)), '`') == Lexer(ts, Inside(t + "`", true, [Ticks]))
    ensures Step(Step(Lexer(ts, Word(t, e)), '$'), '(') == Lexer(ts, Inside(t + "$(", false, [Parens]))
    ensures Step(Step(Lexer(ts, Double(t, e)), '$'), '(') == Lexer(ts, Inside(t + "$(", true, [Parens]))
    ensures Step(Step(Lexer(ts, Word(t, e)), '$'), '{') == Lexer(ts, Inside(t + "${", false, [Braces]))
    ensures Step(Step(Lexer(ts, Double(t, e)), '$'), '{') == Lexer(ts, Inside(t + "${", true, [Braces]))
    ensures Step(Step(Lexer(ts, Blank), '<'), '<').mode == Bad
    ensures Step(Lexer(ts, Blank), '#').mode == Comment && Step(Lexer(ts, Word(t, e)), '#').mode == Word(t + "#", e)
  {
  }

  // ---------- writing: _shq ----------

  /** `value.replace("'", "'\\''")` */
  function EscapeQuotes(v: string): string {
    if v == "" then "" else (if v[0] == '\'' then "'\\''" else [v[0]]) + EscapeQuotes(v[1..])
  }

  function Quote(v: string): string {
    "'" + EscapeQuotes(v) + "'"
  }

  /** Inside single quotes the escaped text contributes exactly the original text; a NUL ruins it. */
  lemma {:induction false} RunEscaped(ts: seq<Token>, t: string, e: bool, v: string)
    ensures var r := Run(Lexer(ts, Single(t, e)), EscapeQuotes(v));
            if NUL in v then r.mode == Bad else r == Lexer(ts, Single(t + v, e))
    decreases |v|
  {
    var lx := Lexer(ts, Single(t, e));
    if v == "" {
      assert t + v == t;
    } else {
      var head := if v[0] == '\'' then "'\\''" else [v[0]];
      RunAppend(lx, head, EscapeQuotes(v[1..]));
      if v[0] == NUL {
        assert Run(lx, head) == Step(lx, NUL);
        RunBad(Step(lx, NUL), EscapeQuotes(v[1..]));
      } else {
        RunHead(lx, v[0]);
        RunEscaped(ts, t + [v[0]], e, v[1..]);
        assert (t + [v[0]]) + v[1..] == t + v;
      }
    }
  }

  lemma RunHead(lx: Lexer, c: char)
    requires lx.mode.Single? && c != NUL
    ensures Run(lx, if c == '\'' then "'\\''" else [c]) ==
            Lexer(lx.tokens, Single(lx.mode.text + [c], lx.mode.expands))
  {
    hide StepInside, InDouble;
    if c == '\'' {
      var quote := "'\\''";
      var l1 := Step(lx, '\'');
      var l2 := Step(l1, '\\');
      var l3 := Step(l2, '\'');
      assert l2.mode == Escape(lx.mode.text, lx.mode.expands, true);
      assert l3.mode == Word(lx.mode.text + ['\''], lx.mode.expands);
      assert quote[1..] == "\\''" && quote[1..][1..] == "''" && "''"[1..] == "'" && "'"[1..] == "";
      assert Run(lx, quote) == Run(l1, "\\''") == Run(l2, "''") == Run(l3, "'") == Step(l3, '\'');
    } else {
      assert [c][1..] == "";
    }
  }

  /** A quoted value extends the word it stands in by exactly that value, and expands to nothing else. */
  lemma RunQuoted(ts: seq<Token>, m: Mode, v: string)
    requires m == Blank || m.Word?
    ensures var r := Run(Lexer(ts, m), Quote(v));
            if NUL in v then r.mode == Bad
            else r == Lexer(ts, if m.Word? then Word(m.text + v, m.expands) else Word(v, false))
  {
    var t, e := if m.Word? then m.text else "", m.Word? && m.expands;
    var lx := Lexer(ts, m);
    RunAppend(lx, "'" + EscapeQuotes(v), "'");
    RunAppend(lx, "'", EscapeQuotes(v));
    assert "'"[1..] == "";
    assert Run(lx, "'") == Lexer(ts, Single(t, e));
    RunEscaped(ts, t, e, v);
    var r := Run(Lexer(ts, Single(t, e)), EscapeQuotes(v));
    assert Run(r, "'") == Step(r, '\'');
    assert "" + v == v;
  }

  /** `_shq` yields one word equal to the value, for every value a shell can receive. */
  lemma QuoteIsOneWord(v: string)
    ensures Tokens(Quote(v)) == Some([Literal(v, false)]) <==> NUL !in v
  {
    RunQuoted([], Blank, v);
    assert [] + [Literal(v, false)] == [Literal(v, false)];
  }

  // ---------- writing: _build_shell_command ----------

  predicate IsNumberText(s: string) {
    s != "" && forall k | 0 <= k < |s| ::
      '0' <= s[k] <= '9' || 'a' <= s[k] <= 'z' || s[k] == '+' || s[k] == '-' || s[k] == '.'
  }

  /** What `str` prints for an int or a float. */
  type NumberText = s: string | IsNumberText(s) witness "0"

  datatype Arg = Flag(on: bool) | Number(digits: NumberText) | Text(value: string)

  datatype NamedArg = NamedArg(key: string, arg: Arg)

  /** `k.replace("-", "").replace("_", "").isalnum()`; `alnum` is Python's Unicode table. */
  predicate IsKey(key: string, alnum: char -> bool) {
    && (exists k | 0 <= k < |key| :: key[k] != '-' && key[k] != '_')
    && (forall k | 0 <= k < |key| && key[k] != '-' && key[k] != '_' :: alnum(key[k]))
  }

  /** Letters and digits have no meaning to the shell. */
  ghost predicate Harmless(alnum: char -> bool) {
    forall c: char :: alnum(c) ==> IsOrdinary(c)
  }

  predicate Accepted(a: NamedArg, alnum: char -> bool) {
    IsKey(a.key, alnum) && (a.arg.Flag? ==> a.arg.on)
  }

  function Piece(a: NamedArg): string {
    match a.arg
    case Flag(_) => "--" + a.key
    case Number(n) => "--" + a.key + "=" + n
    case Text(v) => "--" + a.key + "=" + Quote(v)
  }

  /** The text built for the accepted arguments, each preceded by a space. */
  function Suffix(args: seq<NamedArg>, alnum: char -> bool): string {
    if args == [] then ""
    else
      var n := |args| - 1;
      Suffix(args[..n], alnum) + (if Accepted(args[n], alnum) then " " + Piece(args[n]) else "")
  }

  /** `" ".join(pieces)` */
  function JoinSpaced(pieces: seq<string>): string
    requires pieces != []
  {
    var n := |pieces| - 1;
    if n == 0 then pieces[0] else JoinSpaced(pieces[..n]) + " " + pieces[n]
  }

  method BuildShellCommand(command: string, args: seq<NamedArg>, alnum: char -> bool) returns (r: string)
    ensures r == command + Suffix(args, alnum)
  {
    if args == [] {
      return command + "";
    }
    var pieces := [command];
    for i := 0 to |args|
      invariant pieces != [] && JoinSpaced(pieces) == command + Suffix(args[..i], alnum)
    {
      hide IsKey, Quote, JoinSpaced, Suffix;
      var a := args[i];
      NextPiece(command, pieces, args, i, alnum);
      if IsKey(a.key, alnum) {
        match a.arg {
          case Flag(on) =>
            if on {
              pieces := pieces + ["--" + a.key];
            }
          case Number(n) => pieces := pieces + ["--" + a.key + "=" + n];
          case Text(v) => pieces := pieces + ["--" + a.key + "=" + Quote(v)];
        }
      }
    }
    assert args[..|args|] == args;
    r := JoinSpaced(pieces);
  }

  /** What one more argument adds to the joined pieces. */
  lemma NextPiece(command: string, pieces: seq<string>, args: seq<NamedArg>, i: nat, alnum: char -> bool)
    requires i < |args| && pieces != [] && JoinSpaced(pieces) == command + Suffix(args[..i], alnum)
    ensures JoinSpaced(if Accepted(args[i], alnum) then pieces + [Piece(args[i])] else pieces) ==
            command + Suffix(args[..i + 1], alnum)
  {
    hide Accepted, Piece;
    var a := args[i];
    assert args[..i + 1][..i] == args[..i];
    if Accepted(a, alnum) {
      assert (pieces + [Piece(a)])[..|pieces|] == pieces;
      var done := Suffix(args[..i], alnum);
      assert (command + done) + " " + Piece(a) == command + (done + (" " + Piece(a)));
    } else {
      assert Suffix(args[..i], alnum) + "" == Suffix(args[..i], alnum);
    }
  }

  /** The word an argument should arrive as. */
  function ArgWord(a: NamedArg): Token {
    match a.arg
    case Flag(_) => Literal("--" + a.key, false)
    case Number(n) => Literal("--" + a.key + "=" + n, false)
    case Text(v) => Literal("--" + a.key + "=" + v, false)
  }

  function ArgWords(args: seq<NamedArg>, alnum: char -> bool): seq<Token> {
    if args == [] then []
    else
      var n := |args| - 1;
      ArgWords(args[..n], alnum) + (if Accepted(args[n], alnum) then [ArgWord(args[n])] else [])
  }

  predicate HasNul(args: seq<NamedArg>, alnum: char -> bool) {
    exists k | 0 <= k < |args| :: Accepted(args[k], alnum) && args[k].arg.Text? && NUL in args[k].arg.value
  }

  /** Ordinary characters are appended to the word being read. */
  lemma {:induction false} RunOrdinary(ts: seq<Token>, t: string, s: string)
    requires forall k | 0 <= k < |s| :: IsOrdinary(s[k])
    ensures Run(Lexer(ts, Word(t, false)), s) == Lexer(ts, Word(t + s, false))
    decreases |s|
  {
    if s == "" {
      assert t + s == t;
    } else {
      assert forall k | 0 <= k < |s[1..]| :: s[1..][k] == s[k + 1];
      RunOrdinary(ts, t + [s[0]], s[1..]);
      assert (t + [s[0]]) + s[1..] == t + s;
    }
  }

  predicate AllOrdinary(s: string) {
    forall k | 0 <= k < |s| :: IsOrdinary(s[k])
  }

  lemma AllOrdinaryAppend(s: string, t: string)
    requires AllOrdinary(s) && AllOrdinary(t)
    ensures AllOrdinary(s + t)
  {
  }

  /** Between words, ordinary characters begin a word. */
  lemma RunWord(ts: seq<Token>, s: string)
    requires s != "" && AllOrdinary(s)
    ensures Run(Lexer(ts, Blank), s) == Lexer(ts, Word(s, false))
  {
    assert forall k | 0 <= k < |s[1..]| :: s[1..][k] == s[k + 1];
    RunOrdinary(ts, [s[0]], s[1..]);
    assert [s[0]] + s[1..] == s;
    assert "" + [s[0]] == [s[0]];
  }

  /** An argument up to its value. */
  function Prefix(a: NamedArg): string {
    "--" + a.key + (match a.arg case Flag(_) => "" case Number(n) => "=" + n case Text(_) => "=")
  }

  lemma PrefixOrdinary(a: NamedArg, alnum: char -> bool)
    requires Harmless(alnum) && Accepted(a, alnum)
    ensures AllOrdinary(Prefix(a))
  {
    forall k | 0 <= k < |a.key| ensures IsOrdinary(a.key[k]) {
      if a.key[k] != '-' && a.key[k] != '_' {
        assert alnum(a.key[k]);
      }
    }
    AllOrdinaryAppend("--", a.key);
    match a.arg {
      case Flag(_) => AllOrdinaryAppend("--" + a.key, "");
      case Number(n) => AllOrdinaryAppend("--" + a.key, "=" + n);
      case Text(_) => AllOrdinaryAppend("--" + a.key, "=");
    }
  }

  /** One accepted argument, read from between words. */
  lemma RunPiece(ts: seq<Token>, a: NamedArg, alnum: char -> bool)
    requires Harmless(alnum) && Accepted(a, alnum)
    ensures var r := Run(Lexer(ts, Blank), Piece(a));
            if a.arg.Text? && NUL in a.arg.value then r.mode == Bad
            else r == Lexer(ts, Word(ArgWord(a).text, false))
  {
    PrefixOrdinary(a, alnum);
    RunWord(ts, Prefix(a));
    match a.arg {
      case Flag(_) => assert Prefix(a) == Piece(a);
      case Number(n) => assert Prefix(a) == Piece(a);
      case Text(v) =>
        assert Piece(a) == Prefix(a) + Quote(v);
        RunAppend(Lexer(ts, Blank), Prefix(a), Quote(v));
        RunQuoted(ts, Word(Prefix(a), false), v);
        assert Prefix(a) + v == ArgWord(a).text;
    }
  }

  /** Reading on never takes a token back. */
  lemma {:induction false} RunExtends(lx: Lexer, s: string)
    ensures lx.tokens <= Run(lx, s).tokens
    decreases |s|
  {
    if s != "" {
      RunExtends(Step(lx, s[0]), s[1..]);
    }
  }

  /** A comment swallows text until a newline, and that is the next token. */
  lemma {:induction false} RunComment(lx: Lexer, s: string)
    requires lx.mode.Comment?
    ensures var r := Run(lx, s); r.mode == Bad || r == lx || lx.tokens + [Operator('\n')] <= r.tokens
    decreases |s|
  {
    if s != "" {
      var next := Step(lx, s[0]);
      if next.mode == Bad {
        RunBad(next, s[1..]);
      } else if s[0] == '\n' {
        RunExtends(next, s[1..]);
      } else {
        RunComment(lx, s[1..]);
      }
    }
  }

  /** Where a text may end outside quotes and comments. */
  predicate AtRest(m: Mode) {
    m.Blank? || m.Less? || m.Word? || (m.Dollar? && !m.quoted)
  }

  /** All arguments, after a command text that came to rest. */
  lemma {:induction false} RunSuffix(lx: Lexer, args: seq<NamedArg>, alnum: char -> bool)
    requires Harmless(alnum) && AtRest(lx.mode)
    ensures var r := Run(lx, Suffix(args, alnum));
            if HasNul(args, alnum) then r.mode == Bad
            else Finish(r) == Some(Finish(lx).value + ArgWords(args, alnum)) && AtRest(r.mode)
    decreases |args|
  {
    hide Accepted, HasNul, Run, Step, Piece, ArgWord;
    if args == [] {
      assert Run(lx, "") == lx by { EmptyRun(lx); }
      assert !HasNul(args, alnum) by { NoNul(alnum); }
      assert Finish(lx).value + [] == Finish(lx).value;
    } else {
      var n := |args| - 1;
      var init, a := args[..n], args[n];
      RunSuffix(lx, init, alnum);
      var r := Run(lx, Suffix(init, alnum));
      HasNulSnoc(args, alnum);
      if Accepted(a, alnum) {
        RunAppend(lx, Suffix(init, alnum), " " + Piece(a));
        assert Run(lx, Suffix(args, alnum)) == Run(r, " " + Piece(a));
        RunSpacedPiece(r, a, alnum);
        if r.mode != Bad {
          assert ArgWords(args, alnum) == ArgWords(init, alnum) + [ArgWord(a)];
          assert Finish(r).value + [ArgWord(a)] == Finish(lx).value + ArgWords(args, alnum);
        }
      } else {
        assert Suffix(args, alnum) == Suffix(init, alnum);
        assert ArgWords(args, alnum) == ArgWords(init, alnum);
      }
    }
  }

  /** A blank ends whatever token was being read. */
  lemma StepBlank(lx: Lexer)
    requires AtRest(lx.mode)
    ensures Step(lx, ' ') == Lexer(Finish(lx).value, Blank)
  {
  }

  lemma RunSpacedPiece(lx: Lexer, a: NamedArg, alnum: char -> bool)
    requires Harmless(alnum) && Accepted(a, alnum)
    requires AtRest(lx.mode) || lx.mode == Bad
    ensures var r := Run(lx, " " + Piece(a));
            if lx.mode == Bad || (a.arg.Text? && NUL in a.arg.value) then r.mode == Bad
            else r.mode.Word? && Finish(r) == Some(Finish(lx).value + [ArgWord(a)])
  {
    var l1 := Step(lx, ' ');
    assert (" " + Piece(a))[1..] == Piece(a);
    assert Run(lx, " " + Piece(a)) == Run(l1, Piece(a));
    if lx.mode == Bad {
      RunBad(l1, Piece(a));
    } else {
      StepBlank(lx);
      RunPiece(l1.tokens, a, alnum);
    }
  }

  lemma EmptyRun(lx: Lexer)
    ensures Run(lx, "") == lx
  {
  }

  lemma NoNul(alnum: char -> bool)
    ensures !HasNul([], alnum)
  {
  }

  lemma HasNulSnoc(args: seq<NamedArg>, alnum: char -> bool)
    requires args != []
    ensures var n := |args| - 1; var a := args[n];
            HasNul(args, alnum) <==>
              HasNul(args[..n], alnum) || (Accepted(a, alnum) && a.arg.Text? && NUL in a.arg.value)
  {
    var n := |args| - 1;
    if k :| 0 <= k < n && Accepted(args[k], alnum) && args[k].arg.Text? && NUL in args[k].arg.value {
      assert args[..n][k] == args[k];
    }
  }

  lemma {:induction false} NothingAccepted(args: seq<NamedArg>, alnum: char -> bool)
    ensures ArgWords(args, alnum) == [] ==> Suffix(args, alnum) == "" && !HasNul(args, alnum)
    decreases |args|
  {
    if args != [] {
      var n := |args| - 1;
      NothingAccepted(args[..n], alnum);
      HasNulSnoc(args, alnum);
    }
  }

  /** Arguments are words. */
  lemma {:induction false} ArgsAreWords(args: seq<NamedArg>, alnum: char -> bool)
    ensures forall k | 0 <= k < |ArgWords(args, alnum)| :: ArgWords(args, alnum)[k].Literal?
    decreases |args|
  {
    if args != [] {
      ArgsAreWords(args[..|args| - 1], alnum);
    }
  }

  /** The command's own tokens, then one word per accepted argument, in order. For a command text that
      comes to an end this holds exactly when no argument is lost in a trailing comment and no value
      holds a NUL. */
  lemma CommandWords(command: string, args: seq<NamedArg>, alnum: char -> bool)
    requires Harmless(alnum) && Tokens(command).Some?
    ensures Tokens(command + Suffix(args, alnum)) == Some(Tokens(command).value + ArgWords(args, alnum))
       <==> ArgWords(args, alnum) == [] || (!Run(START, command).mode.Comment? && !HasNul(args, alnum))
  {
    var lx := Run(START, command);
    RunAppend(START, command, Suffix(args, alnum));
    NothingAccepted(args, alnum);
    if ArgWords(args, alnum) == [] {
      assert command + "" == command;
      assert Tokens(command).value + [] == Tokens(command).value;
    } else if lx.mode.Comment? {
      RunComment(lx, Suffix(args, alnum));
      ArgsAreWords(args, alnum);
      LostInComment(lx, Run(lx, Suffix(args, alnum)), ArgWords(args, alnum));
    } else {
      RunSuffix(lx, args, alnum);
    }
  }

  lemma LostInComment(lx: Lexer, r: Lexer, words: seq<Token>)
    requires lx.mode.Comment? && words != [] && words[0].Literal?
    requires r.mode == Bad || r == lx || lx.tokens + [Operator('\n')] <= r.tokens
    ensures Finish(r) != Some(lx.tokens + words)
  {
    var n := |lx.tokens|;
    assert (lx.tokens + words)[n] == words[0];
    if r.mode != Bad && r != lx {
      assert r.tokens[n] == (lx.tokens + [Operator('\n')])[n] == Operator('\n');
    }
  }

  // ---------- argument by argument ----------

  /** The key has an alphanumeric character, and all its characters are alphanumeric, `-` or `_`. */
  ghost predicate GoodKey(key: string, alnum: char -> bool) {
    && (exists k | 0 <= k < |key| :: alnum(key[k]) && key[k] !in "-_")
    && (forall k | 0 <= k < |key| :: alnum(key[k]) || key[k] in "-_")
  }

  /** What each argument adds to the words of the line built from the ones before it: a flag that is on the
      word `--key`, one that is off nothing; a number or a text the word `--key=value`; and an argument
      whose key is no good nothing. */
  lemma ArgumentAdds(command: string, args: seq<NamedArg>, i: nat, alnum: char -> bool)
    requires Harmless(alnum) && Tokens(command).Some? && !Run(START, command).mode.Comment?
    requires i < |args| && forall k | 0 <= k <= i && args[k].arg.Text? :: NUL !in args[k].arg.value
    ensures var key, before, after := args[i].key, Tokens(command + Suffix(args[..i], alnum)),
                                      Tokens(command + Suffix(args[..i + 1], alnum));
            && before.Some? && after.Some?
            && (!GoodKey(key, alnum) ==> after == before)
            && (GoodKey(key, alnum) ==>
                  match args[i].arg
                  case Flag(on) =>
                    after.value == if on then before.value + [Literal("--" + key, false)] else before.value
                  case Number(digits) => after.value == before.value + [Literal("--" + key + "=" + digits, false)]
                  case Text(value) => after.value == before.value + [Literal("--" + key + "=" + value, false)])
  {
    var a := args[i];
    GoodKeys(a.key, alnum);
    NoNulUpTo(args, i, alnum);
    NoNulUpTo(args, i + 1, alnum);
    CommandWords(command, args[..i], alnum);
    CommandWords(command, args[..i + 1], alnum);
    assert args[..i + 1][..i] == args[..i];
    hide Tokens, Run, Suffix, HasNul, IsKey, Harmless, GoodKey;
    var tokens, words := Tokens(command).value, ArgWords(args[..i], alnum);
    assert ArgWords(args[..i + 1], alnum) == words + (if Accepted(a, alnum) then [ArgWord(a)] else []);
    hide ArgWords;
    assert tokens + (words + [ArgWord(a)]) == tokens + words + [ArgWord(a)];
    assert tokens + (words + []) == tokens + words;
  }

  lemma GoodKeys(key: string, alnum: char -> bool)
    ensures IsKey(key, alnum) <==> GoodKey(key, alnum)
  {
  }

  lemma NoNulUpTo(args: seq<NamedArg>, n: nat, alnum: char -> bool)
    requires n <= |args| && forall k | 0 <= k < n && args[k].arg.Text? :: NUL !in args[k].arg.value
    ensures !HasNul(args[..n], alnum)
  {
  }

  /** Before the first argument the line is the command. */
  lemma NoArguments(command: string, args: seq<NamedArg>, alnum: char -> bool)
    ensures command + Suffix(args[..0], alnum) == command && command + Suffix([], alnum) == command
  {
  }
}
