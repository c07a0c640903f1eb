/** The bounded log of an install job and the clients that read it by counting lines. */
module JobLog {
  // ---------- lines ----------

  /** The characters at which `str.splitlines` breaks; a carriage return takes a following newline with it. */
  predicate IsBreak(c: char) {
    || '\n' <= c <= '\r' || '\U{1c}' <= c <= '\U{1e}'
    || c == '\U{85}' || c == '\U{2028}' || c == '\U{2029}'
  }

  function LineEnd(s: string, i: nat): (j: nat)
    requires i <= |s|
    ensures i <= j <= |s| && (j < |s| ==> IsBreak(s[j]))
    ensures forall k | i <= k < j :: !IsBreak(s[k])
    decreases |s| - i
  {
    if i < |s| && !IsBreak(s[i]) then LineEnd(s, i + 1) else i
  }

  /** Where the line after the break at `j` starts. */
  function NextLine(s: string, j: nat): (i: nat)
    requires j < |s|
    ensures j < i <= |s|
  {
    if s[j] == '\r' && j + 1 < |s| && s[j + 1] == '\n' then j + 2 else j + 1
  }

  /** `s[i:].splitlines()` */
  function LinesFrom(s: string, i: nat): seq<string>
    requires i <= |s|
    decreases |s| - i
  {
    if i == |s| then []
    else
      var j := LineEnd(s, i);
      [s[i..j]] + if j == |s| then [] else LinesFrom(s, NextLine(s, j))
  }

  function Lines(s: string): seq<string> {
    LinesFrom(s, 0)
  }

  /** The ten characters that break lines. */
  lemma BreaksAre(c: char)
    ensures IsBreak(c) <==>
            c in ['\n', '\U{b}', '\U{c}', '\r', '\U{1c}', '\U{1d}', '\U{1e}', '\U{85}', '\U{2028}', '\U{2029}']
  {
  }

  lemma LineEndIs(s: string, i: nat, j: nat)
    requires i <= j <= |s| && (j < |s| ==> IsBreak(s[j])) && forall k | i <= k < j :: !IsBreak(s[k])
    ensures LineEnd(s, i) == j
  {
  }

  predicate EndsWithNewline(s: string) {
    s == "" || s[|s| - 1] == '\n'
  }

  lemma LineShift(a: string, b: string, k: nat)
    requires k < |b|
    ensures var s := a + b; var j := LineEnd(b, k);
            && LineEnd(s, |a| + k) == |a| + j && s[|a| + k..|a| + j] == b[k..j]
            && (j < |b| ==> NextLine(s, |a| + j) == |a| + NextLine(b, j))
  {
    hide LineEnd;
    var s := a + b;
    var j := LineEnd(b, k);
    assert forall m | |a| <= m < |s| :: s[m] == b[m - |a|];
    LineEndIs(s, |a| + k, |a| + j);
  }

  lemma FirstLine(s: string, i: nat)
    requires i < |s|
    ensures var j := LineEnd(s, i);
            LinesFrom(s, i) == if j == |s| then [s[i..j]] else [s[i..j]] + LinesFrom(s, NextLine(s, j))
  {
    hide LineEnd, NextLine;
  }

  lemma NoLines(s: string)
    ensures LinesFrom(s, |s|) == []
  {
  }

  /** The lines from a position in the second half of a text are those of the second half alone. */
  lemma {:induction false} LinesShift(a: string, b: string, k: nat)
    requires k <= |b|
    ensures LinesFrom(a + b, |a| + k) == LinesFrom(b, k)
    decreases |b| - k
  {
    hide LineEnd, NextLine, LinesFrom, IsBreak;
    if k < |b| {
      var s, j := a + b, LineEnd(b, k);
      assert |s| == |a| + |b|;
      LineShift(a, b, k);
      FirstLine(s, |a| + k);
      FirstLine(b, k);
      if j < |b| {
        LinesShift(a, b, NextLine(b, j));
        assert LinesFrom(s, NextLine(s, |a| + j)) == LinesFrom(b, NextLine(b, j));
      }
    } else {
      NoLines(a + b);
      NoLines(b);
    }
  }

  /** Text after a final newline adds its own lines and changes none. */
  lemma {:induction false} LinesAppend(a: string, b: string, i: nat)
    requires EndsWithNewline(a) && i <= |a|
    ensures LinesFrom(a + b, i) == LinesFrom(a, i) + LinesFrom(b, 0)
    decreases |a| - i
  {
    var s := a + b;
    if i == |a| {
      LinesShift(a, b, 0);
    } else {
      var j := LineEnd(a, i);
      assert j < |a| by {
        assert IsBreak(a[|a| - 1]);
      }
      assert forall m | i <= m <= j :: s[m] == a[m];
      LineEndIs(s, i, j);
      assert s[i..j] == a[i..j];
      assert NextLine(s, j) == NextLine(a, j) by {
        assert j + 1 < |a| ==> s[j + 1] == a[j + 1];
      }
      LinesAppend(a, b, NextLine(a, j));
      var rest := LinesFrom(a, NextLine(a, j));
      assert [a[i..j]] + (rest + LinesFrom(b, 0)) == ([a[i..j]] + rest) + LinesFrom(b, 0);
    }
  }

  /** The lines of a text, from its first break: each break ends a line, a carriage return with the
      newline after it as one, and what follows the last break is a line only if it is not empty. */
  lemma LinesAre(line: string, c: char, rest: string)
    requires forall k | 0 <= k < |line| :: !IsBreak(line[k])
    ensures Lines(line) == if line == "" then [] else [line]
    ensures IsBreak(c) && !(c == '\r' && rest != "" && rest[0] == '\n') ==>
              Lines(line + [c] + rest) == [line] + Lines(rest)
    ensures Lines(line + "\r\n" + rest) == [line] + Lines(rest)
  {
    LineEndIs(line, 0, |line|);
    assert line[0..|line|] == line;
    if IsBreak(c) && !(c == '\r' && rest != "" && rest[0] == '\n') {
      FirstOf(line, [c], rest);
    }
    FirstOf(line, "\r\n", rest);
  }

  lemma FirstOf(line: string, mark: string, rest: string)
    requires mark != "" && IsBreak(mark[0]) && forall k | 0 <= k < |line| :: !IsBreak(line[k])
    requires NextLine(line + mark + rest, |line|) == |line + mark|
    ensures Lines(line + mark + rest) == [line] + Lines(rest)
  {
    hide LinesFrom, NextLine, LineEnd, IsBreak;
    var s := line + mark + rest;
    assert s[|line|] == mark[0] && s[0..|line|] == line;
    assert forall k | 0 <= k < |line| :: s[k] == line[k];
    LineEndIs(s, 0, |line|);
    LinesShift(line + mark, rest, 0);
    FirstLine(s, 0);
  }

  // ---------- the log ----------

  const LIMIT: nat := 64 * 1024

  /** The last `LIMIT` characters. */
  function Tail(s: string): string {
    if |s| > LIMIT then s[|s| - LIMIT..] else s
  }

  /** `append_log` on a row whose log is `log`. */
  function Appended(log: string, line: string): string {
    var buf := log + line + "\n";
    if |buf| > LIMIT then buf[|buf| - LIMIT..] else buf
  }

  class InstallLog {
    var log: string

    constructor ()
      ensures log == ""
    {
      log := "";
    }

    method AppendLog(line: string)
      modifies this
      ensures log == Appended(old(log), line)
      ensures var all := old(log) + line + "\n";
              log == if |all| <= 65536 then all else all[|all| - 65536..]
    {
      var buf := log + line + "\n";
      if |buf| > LIMIT {
        buf := buf[|buf| - LIMIT..];
      }
      log := buf;
    }
  }

  /** The stored log after a sequence of appends. */
  function Stored(entries: seq<string>): string {
    if entries == [] then ""
    else Appended(Stored(entries[..|entries| - 1]), entries[|entries| - 1])
  }

  /** Everything that was ever appended. */
  function Transcript(entries: seq<string>): string {
    if entries == [] then ""
    else Transcript(entries[..|entries| - 1]) + entries[|entries| - 1] + "\n"
  }

  /** Over any sequence of appends, the stored log is the last `LIMIT` characters of everything. */
  lemma {:induction false} StoredIsTail(entries: seq<string>)
    ensures Stored(entries) == Tail(Transcript(entries))
    decreases |entries|
  {
    if entries != [] {
      var n := |entries| - 1;
      StoredIsTail(entries[..n]);
      TailAbsorbs(Transcript(entries[..n]), entries[n] + "\n");
      assert Stored(entries[..n]) + entries[n] + "\n" == Tail(Transcript(entries[..n])) + (entries[n] + "\n");
      assert Transcript(entries) == Transcript(entries[..n]) + (entries[n] + "\n");
    }
  }

  lemma TailAbsorbs(a: string, b: string)
    ensures Tail(Tail(a) + b) == Tail(a + b)
  {
  }

  // ---------- the client ----------

  /** `"\n".join(lines)` */
  function Join(lines: seq<string>): string {
    if lines == [] then "" else if |lines| == 1 then lines[0] else lines[0] + "\n" + Join(lines[1..])
  }

  /** The handler's answer to a client that has seen `seen` lines. */
  function InstallStatus(log: string, seen: nat): string {
    var lines := Lines(log);
    Join(if seen <= |lines| then lines[seen..] else [])
  }

  /** A client keeps the lines of each answer and asks for those after them. */
  function Polled(known: seq<string>, log: string): seq<string> {
    known + Lines(InstallStatus(log, |known|))
  }

  predicate Unbroken(line: string) {
    forall k | 0 <= k < |line| :: !IsBreak(line[k])
  }

  predicate AllUnbroken(lines: seq<string>) {
    forall k | 0 <= k < |lines| :: Unbroken(lines[k])
  }

  lemma {:induction false} LinesUnbroken(s: string, i: nat)
    requires i <= |s|
    ensures AllUnbroken(LinesFrom(s, i))
    decreases |s| - i
  {
    if i < |s| {
      var j := LineEnd(s, i);
      if j < |s| {
        LinesUnbroken(s, NextLine(s, j));
      }
    }
  }

  /** What splitting an answer recovers: all its lines, but for an empty last one. */
  function Recovered(lines: seq<string>): seq<string> {
    if lines != [] && lines[|lines| - 1] == "" then lines[..|lines| - 1] else lines
  }

  lemma UnbrokenLines(line: string)
    requires Unbroken(line)
    ensures Lines(line) == (if line == "" then [] else [line])
  {
    LineEndIs(line, 0, |line|);
    assert line[0..|line|] == line;
  }

  lemma {:induction false} SplitJoined(lines: seq<string>)
    requires AllUnbroken(lines)
    ensures Lines(Join(lines)) == Recovered(lines)
    decreases |lines|
  {
    hide LinesFrom, Unbroken;
    if lines == [] {
      UnbrokenLines("");
    } else if |lines| == 1 {
      UnbrokenLines(lines[0]);
    } else {
      var head, rest := lines[0] + "\n", lines[1..];
      SplitJoined(rest);
      assert Join(lines) == head + Join(rest);
      LinesAppend(head, Join(rest), 0);
      LineAlone(lines[0]);
      assert lines == [lines[0]] + rest;
      assert [lines[0]] + Recovered(rest) == Recovered(lines);
    }
  }

  lemma LineAlone(line: string)
    requires Unbroken(line)
    ensures Lines(line + "\n") == [line]
  {
    var s := line + "\n";
    LineEndIs(s, 0, |line|);
    assert s[0..|line|] == line;
    assert NextLine(s, |line|) == |s|;
    assert LinesFrom(s, |s|) == [];
    assert Lines(s) == [line] + [];
  }

  /** The client knows the first lines of the log, in order. */
  predicate Knows(known: seq<string>, log: string) {
    known <= Lines(log)
  }

  lemma {:induction false} TranscriptEnds(entries: seq<string>)
    ensures EndsWithNewline(Transcript(entries))
  {
  }

  /** While nothing has been dropped: appending keeps what the client knows a beginning of the log... */
  lemma AppendKeepsKnowledge(entries: seq<string>, entry: string, known: seq<string>)
    requires |Transcript(entries + [entry])| <= LIMIT && Knows(known, Stored(entries))
    ensures Knows(known, Stored(entries + [entry]))
  {
    var all := entries + [entry];
    assert all[..|all| - 1] == entries;
    StoredIsTail(entries);
    StoredIsTail(all);
    TranscriptEnds(entries);
    assert Transcript(all) == Transcript(entries) + (entry + "\n");
    LinesAppend(Transcript(entries), entry + "\n", 0);
  }

  /** ...and a poll completes it, each line once and in order; only an empty last line waits for the
      next poll. */
  lemma PollCatchesUp(log: string, known: seq<string>)
    requires Knows(known, log)
    ensures Polled(known, log) == known + Recovered(Lines(log)[|known|..])
    ensures Knows(Polled(known, log), log)
    ensures Polled(known, log) == Lines(log) ||
            (Lines(log) != [] && Lines(log)[|Lines(log)| - 1] == ""
             && Polled(known, log) == Lines(log)[..|Lines(log)| - 1])
  {
    var rest := Lines(log)[|known|..];
    LinesUnbroken(log, 0);
    assert forall k | 0 <= k < |rest| :: rest[k] == Lines(log)[|known| + k];
    SplitJoined(rest);
    assert Lines(log) == known + rest;
    if rest != [] && rest[|rest| - 1] == "" {
      assert Lines(log)[..|Lines(log)| - 1] == known + rest[..|rest| - 1];
    }
  }

  datatype Event = Append(entry: string) | Poll

  datatype Session = Session(entries: seq<string>, known: seq<string>)

  function After(events: seq<Event>): Session {
    if events == [] then Session([], [])
    else
      var x := After(events[..|events| - 1]);
      match events[|events| - 1]
      case Append(entry) => Session(x.entries + [entry], x.known)
      case Poll => Session(x.entries, Polled(x.known, Stored(x.entries)))
  }

  /** In every interleaving of appends and polls within the limit, what a client has put together is
      a beginning of the log's lines, and a poll brings it up to date. */
  lemma {:induction false} ClientReconstructs(events: seq<Event>)
    requires |Transcript(After(events).entries)| <= LIMIT
    ensures Knows(After(events).known, Stored(After(events).entries))
    ensures events != [] && events[|events| - 1].Poll? ==>
              var lines := Lines(Transcript(After(events).entries));
              After(events).known == lines ||
              (lines != [] && lines[|lines| - 1] == "" && After(events).known == lines[..|lines| - 1])
    decreases |events|
  {
    hide Lines, Polled, Stored, Appended;
    if events == [] {
      assert Knows([], Stored([]));
    } else {
      var x := After(events[..|events| - 1]);
      StoredIsTail(x.entries);
      match events[|events| - 1] {
        case Append(entry) =>
          assert (x.entries + [entry])[..|x.entries|] == x.entries;
          assert |Transcript(x.entries)| <= |Transcript(x.entries + [entry])|;
          ClientReconstructs(events[..|events| - 1]);
          AppendKeepsKnowledge(x.entries, entry, x.known);
        case Poll =>
          ClientReconstructs(events[..|events| - 1]);
          PollCatchesUp(Stored(x.entries), x.known);
      }
    }
  }

  // ---------- beyond the limit ----------

  /** Dropping the first `k` characters keeps the lines after the one that is cut. */
  lemma {:induction false} LinesOfSuffix(s: string, i: nat, k: nat)
    requires i <= k < |s|
    ensures LinesFrom(s, k) != [] && |LinesFrom(s, k)| <= |LinesFrom(s, i)|
    ensures LinesFrom(s, k)[1..] == LinesFrom(s, i)[|LinesFrom(s, i)| - |LinesFrom(s, k)| + 1..]
    decreases |s| - i
  {
    var j := LineEnd(s, i);
    if j < |s| && NextLine(s, j) <= k {
      LinesOfSuffix(s, NextLine(s, j), k);
    } else if k <= j {
      LineEndIs(s, k, j);
    } else {
      LineEndIs(s, k, k);
      assert NextLine(s, k) == NextLine(s, j);
    }
  }

  /** Once characters have been dropped, a client that has seen some lines is answered with the lines
      after a gap, as long as the number of lines dropped since the first. */
  lemma PollAfterDrop(entries: seq<string>, seen: nat)
    requires |Transcript(entries)| > LIMIT && seen >= 1
    ensures var all := Lines(Transcript(entries)); var kept := Lines(Stored(entries));
            var gap := |all| - |kept|;
            && 0 <= gap
            && InstallStatus(Stored(entries), seen) == Join(if seen + gap <= |all| then all[seen + gap..] else [])
  {
    hide LinesFrom, Transcript, Stored, Join;
    var t := Transcript(entries);
    var k := |t| - LIMIT;
    StoredIsTail(entries);
    assert t == t[..k] + t[k..];
    LinesShift(t[..k], t[k..], 0);
    LinesOfSuffix(t, 0, k);
    var all, kept := Lines(t), Lines(t[k..]);
    assert kept == LinesFrom(t, k);
    if seen <= |kept| {
      assert kept[seen..] == kept[1..][seen - 1..];
    }
  }
}
