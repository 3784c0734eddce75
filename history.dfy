/** Shell-history parsing and frequency analysis (internal/history/history.go).

    The history file is given as the sequence of lines the scanner yields;
    the environment (`HISTFILE`, `os.Stat`) is a value and a predicate, and
    the clock is the cutoff instant in whole Unix seconds. */
module History {
  import opened Wrappers
  import opened Text

  /** One distinct history command, most recent first. `Index` is its
      position in the result; a missing timestamp is Go's zero time. */
  datatype Entry = Entry(command: string, index: int, timestamp: Option<int>)

  datatype FrequentCommand = FrequentCommand(command: string, count: int)

  /** What `parseHistoryLine` returns: the command ("" when rejected) and
      the timestamp, which is reported even when the command is rejected. */
  datatype Parsed = Parsed(command: string, timestamp: Option<int>)

  /** Unix seconds of Go's zero `time.Time` (1 January of year 1, UTC):
      `time.Unix(ZeroTimeUnix, 0).IsZero()` holds. */
  const ZeroTimeUnix: int := -62135596800

  const SkipCommands: set<string> := {"ls", "cd", "pwd", "clear", "exit", "history"}

  /** Shortest command, in bytes, that frequency analysis keeps. */
  const MinFrequentLen: nat := 13

  // ---------------------------------------------------------------------
  // History file location

  /** The locations looked at, in order of preference. */
  function PathCandidates(histFile: string, home: string): (r: seq<string>)
    ensures |r| == if histFile != "" then 4 else 3
  {
    (if histFile != "" then [histFile] else [])
    + [home + "/.zsh_history", home + "/.bash_history", home + "/.history"]
  }

  /** `GetHistoryPathWithHome`: `HISTFILE` if set and present, then the zsh,
      bash and generic history files under `home`; `None` is
      `os.ErrNotExist`. The result is the first candidate that exists. */
  function HistoryPathWithHome(histFile: string, home: string, present: string -> bool): (r: Option<string>)
    ensures r.None? <==> forall k :: 0 <= k < |PathCandidates(histFile, home)| ==> !present(PathCandidates(histFile, home)[k])
    ensures r.Some? ==> exists k :: (0 <= k < |PathCandidates(histFile, home)|
      && PathCandidates(histFile, home)[k] == r.value && present(r.value)
      && forall j :: 0 <= j < k ==> !present(PathCandidates(histFile, home)[j]))
  {
    var zsh := home + "/.zsh_history";
    var bash := home + "/.bash_history";
    var dot := home + "/.history";
    var c := PathCandidates(histFile, home);
    var o := if histFile != "" then 1 else 0;
    assert c[o] == zsh && c[o + 1] == bash && c[o + 2] == dot;
    assert histFile != "" ==> c[0] == histFile;
    if histFile != "" && present(histFile) then Some(histFile)
    else if present(zsh) then Some(zsh)
    else if present(bash) then Some(bash)
    else if present(dot) then Some(dot)
    else None
  }

  // ---------------------------------------------------------------------
  // One history line

  /** `time.Unix(epoch, 0)` followed by `IsZero`: only the zero instant is
      "no timestamp". */
  function TimeOf(epoch: Option<int>): (r: Option<int>)
    ensures r.Some? <==> epoch.Some? && epoch.value != ZeroTimeUnix
    ensures r.Some? ==> r.value == epoch.value
  {
    match epoch
    case None => None
    case Some(e) => if e == ZeroTimeUnix then None else Some(e)
  }

  /** The zsh extended format `: <epoch>:<elapsed>;<command>`, recognised
      by the prefix ": " and some ';'. */
  predicate IsExtended(line: string)
  {
    HasPrefix(line, ": ") && ';' in line
  }

  /** The text between ": " and the first ';', cut at its first ':'. */
  function TimestampField(line: string): string
    requires IsExtended(line)
  {
    var idx := IndexOf(line, ';');
    assert line[0] == ':' && line[1] == ' ';
    var field := line[2..idx];
    var colon := IndexOf(field, ':');
    if colon >= 0 then field[..colon] else field
  }

  /** The command part of a line: after the first ';' in extended format,
      the whole line otherwise. */
  function CommandText(line: string): string
  {
    if IsExtended(line) then line[IndexOf(line, ';') + 1..] else line
  }

  /** `parseHistoryLine`. */
  function ParseHistoryLine(line: string): (r: Parsed)
    ensures r.command == "" || r.command == TrimSpace(CommandText(line))
  {
    var ts := if IsExtended(line) then TimeOf(ParseInt64(TimestampField(line))) else None;
    var text := TrimSpace(CommandText(line));
    if Utf8Len(text) < 2 || text in SkipCommands then Parsed("", ts) else Parsed(text, ts)
  }

  /** What a parsed line promises: a kept command is trimmed, at least two
      bytes long and not in the skip set; it is rejected exactly when its
      trimmed text is shorter or in the set; and it carries a timestamp
      exactly when the line is in extended format with a base-10 epoch. */
  lemma ParseHistoryLineMeaning(line: string)
    ensures var r := ParseHistoryLine(line);
      && (r.command != "" ==>
            (Utf8Len(r.command) >= 2 && r.command !in SkipCommands
             && !IsSpace(r.command[0]) && !IsSpace(r.command[|r.command| - 1])))
      && (r.command == "" <==> Utf8Len(TrimSpace(CommandText(line))) < 2 || TrimSpace(CommandText(line)) in SkipCommands)
      && (r.timestamp.Some? <==>
            (IsExtended(line) && ParseInt64(TimestampField(line)).Some?
             && ParseInt64(TimestampField(line)).value != ZeroTimeUnix))
      && (r.timestamp.Some? ==> r.timestamp == ParseInt64(TimestampField(line)))
      && (!IsExtended(line) ==> r.timestamp.None?)
  {
    TrimSpaceEnds(CommandText(line));
  }

  lemma IndexOfAfter(p: string, c: char, rest: string)
    requires c !in p
    ensures IndexOf(p + [c] + rest, c) == |p|
  {
    var s := p + [c] + rest;
    assert s[|p|] == c;
    assert forall k :: 0 <= k < |p| ==> s[k] == p[k];
  }

  /** The parts of an extended line `p;cmd` whose header `p` has no ';'. */
  lemma ExtendedParts(p: string, cmd: string)
    requires HasPrefix(p, ": ") && ';' !in p
    ensures IsExtended(p + [';'] + cmd)
    ensures CommandText(p + [';'] + cmd) == cmd
    ensures TimestampField(p + [';'] + cmd) == (var f := p[2..]; var k := IndexOf(f, ':'); if k >= 0 then f[..k] else f)
  {
    var line := p + [';'] + cmd;
    IndexOfAfter(p, ';', cmd);
    assert line[..|p|] == p;
    assert line[..2] == p[..2];
    assert line[|p|] == ';';
    assert line[2..|p|] == p[2..];
    assert line[|p| + 1..] == cmd;
  }

  /** The zsh header `: <epoch>:<elapsed>` of an extended line. */
  function ExtendedHeader(epoch: int, elapsed: int): (p: string)
    ensures HasPrefix(p, ": ") && ';' !in p
  {
    var p := ": " + Itoa(epoch) + ":" + Itoa(elapsed);
    assert p[..2] == ": ";
    p
  }

  lemma HeaderField(epoch: int, elapsed: int)
    ensures var f := ExtendedHeader(epoch, elapsed)[2..];
      (var k := IndexOf(f, ':'); if k >= 0 then f[..k] else f) == Itoa(epoch)
  {
    var e := Itoa(epoch);
    var n := Itoa(elapsed);
    assert ExtendedHeader(epoch, elapsed)[2..] == e + [':'] + n;
    IndexOfAfter(e, ':', n);
    assert (e + [':'] + n)[..|e|] == e;
  }

  /** Round trip with the writer: the line zsh writes for a command at
      `epoch` parses back to that command and that timestamp. */
  lemma ParseExtendedLine(epoch: int, elapsed: int, cmd: string)
    requires MinInt64 <= epoch <= MaxInt64 && epoch != ZeroTimeUnix
    requires cmd == [] || (!IsSpace(cmd[0]) && !IsSpace(cmd[|cmd| - 1]))
    requires Utf8Len(cmd) >= 2 && cmd !in SkipCommands
    ensures ParseHistoryLine(ExtendedHeader(epoch, elapsed) + ";" + cmd) == Parsed(cmd, Some(epoch))
  {
    var p := ExtendedHeader(epoch, elapsed);
    var line := p + ";" + cmd;
    assert line == p + [';'] + cmd;
    ExtendedParts(p, cmd);
    HeaderField(epoch, elapsed);
    assert TimestampField(line) == Itoa(epoch);
    ParseItoa(epoch);
    TrimSpaceIdempotent(cmd);
    assert TrimSpace(CommandText(line)) == cmd;
  }

  /** A line not in extended format is just trimmed and filtered. */
  lemma ParsePlainLine(line: string, text: string)
    requires !HasPrefix(line, ": ") && TrimSpace(line) == text
    ensures ParseHistoryLine(line)
      == Parsed(if Utf8Len(text) < 2 || text in SkipCommands then "" else text, None)
  {
  }

  /** A skipped command alone on its line is rejected (the package's test
      table has "ls"). */
  lemma {:induction false} ParseRejectsSkipped(line: string)
    requires line in SkipCommands
    ensures ParseHistoryLine(line) == Parsed("", None)
  {
    assert line[0] != ':';
    assert !IsSpace(line[0]) && !IsSpace(line[|line| - 1]);
    TrimSpaceIdempotent(line);
    ParsePlainLine(line, line);
  }

  /** A line of at most one ASCII character is rejected as too short (the
      test table has "a" and ""); a single character of two or more bytes
      is not. */
  lemma {:induction false} ParseRejectsShort(line: string)
    requires |line| <= 1 && forall k :: 0 <= k < |line| ==> line[k] < '\U{0080}'
    ensures ParseHistoryLine(line) == Parsed("", None)
  {
    var t := if line != [] && !IsSpace(line[0]) then line else [];
    assert TrimSpace(line) == t;
    assert Utf8Len(t) <= 1;
    ParsePlainLine(line, t);
  }

  // ---------------------------------------------------------------------
  // ReadHistoryFrom: newest first, de-duplicated, limited

  /** The scanner's lines with the empty ones dropped. */
  function NonEmpty(lines: seq<string>): (r: seq<string>)
    ensures forall k :: 0 <= k < |r| ==> r[k] != "" && r[k] in lines
  {
    if lines == [] then []
    else NonEmpty(lines[..|lines| - 1]) + (if lines[|lines| - 1] == "" then [] else [lines[|lines| - 1]])
  }

  /** Every line parsed. */
  function ParseAll(lines: seq<string>): (r: seq<Parsed>)
    ensures |r| == |lines|
    ensures forall k {:trigger ParseHistoryLine(lines[k])} :: 0 <= k < |lines| ==> r[k] == ParseHistoryLine(lines[k])
  {
    seq(|lines|, k requires 0 <= k < |lines| => ParseHistoryLine(lines[k]))
  }

  /** A parsed line that yields a command, as a zero- or one-element list. */
  function Keep(p: Parsed): (r: seq<Parsed>)
    ensures |r| <= 1 && forall k :: 0 <= k < |r| ==> r[k] == p && p.command != ""
  {
    if p.command != "" then [p] else []
  }

  /** Every accepted line, from the last line of the file to the first. */
  function NewestFirst(ps: seq<Parsed>): seq<Parsed>
  {
    if ps == [] then [] else NewestFirst(ps[1..]) + Keep(ps[0])
  }

  /** The commands occurring in `ps`. */
  function CommandsOf(ps: seq<Parsed>): set<string>
  {
    if ps == [] then {} else CommandsOf(ps[..|ps| - 1]) + {ps[|ps| - 1].command}
  }

  /** The first occurrence of every command, in order. */
  function Dedup(ps: seq<Parsed>): seq<Parsed>
  {
    if ps == [] then []
    else
      var init := ps[..|ps| - 1];
      var p := ps[|ps| - 1];
      Dedup(init) + (if p.command in CommandsOf(init) then [] else [p])
  }

  function Take<T>(xs: seq<T>, limit: int): (r: seq<T>)
    ensures r <= xs
    ensures limit > 0 ==> |r| <= limit
    ensures |r| == if limit > 0 && |xs| > limit then limit else |xs|
  {
    if limit > 0 && |xs| > limit then xs[..limit] else xs
  }

  function Numbered(ps: seq<Parsed>): (r: seq<Entry>)
    ensures |r| == |ps|
  {
    seq(|ps|, k requires 0 <= k < |ps| => Entry(ps[k].command, k, ps[k].timestamp))
  }

  /** What `ReadHistoryFrom` returns for a file with these lines. */
  function ReadHistorySpec(lines: seq<string>, limit: int): seq<Entry>
  {
    Numbered(Take(Dedup(NewestFirst(ParseAll(NonEmpty(lines)))), limit))
  }

  lemma {:induction false} NewestFirstSplit(lines: seq<Parsed>, i: nat)
    requires i <= |lines|
    ensures NewestFirst(lines) == NewestFirst(lines[i..]) + NewestFirst(lines[..i])
  {
    if i == 0 {
      assert lines[0..] == lines;
    } else {
      NewestFirstSplit(lines[1..], i - 1);
      assert lines[1..][i - 1..] == lines[i..];
      assert lines[..i][1..] == lines[1..][..i - 1];
    }
  }

  lemma {:induction false} DedupPrefix(xs: seq<Parsed>, ys: seq<Parsed>)
    ensures Dedup(xs) <= Dedup(xs + ys)
    decreases |ys|
  {
    if ys == [] {
      assert xs + ys == xs;
    } else {
      var zs := xs + ys;
      assert zs[..|zs| - 1] == xs + ys[..|ys| - 1];
      DedupPrefix(xs, ys[..|ys| - 1]);
    }
  }

  lemma {:induction false} DedupStep(ps: seq<Parsed>, p: Parsed)
    ensures Dedup(ps + [p]) == Dedup(ps) + (if p.command in CommandsOf(ps) then [] else [p])
    ensures CommandsOf(ps + [p]) == CommandsOf(ps) + {p.command}
  {
    assert (ps + [p])[..|ps|] == ps;
  }

  lemma {:induction false} NumberedStep(ps: seq<Parsed>, p: Parsed)
    ensures Numbered(ps + [p]) == Numbered(ps) + [Entry(p.command, |ps|, p.timestamp)]
  {
  }

  /** One step of the backward walk: line `i` joins the walked suffix. */
  lemma {:induction false} WalkStep(parsed: seq<Parsed>, i: nat)
    requires i < |parsed|
    ensures var before := NewestFirst(parsed[i + 1..]);
      var p := parsed[i];
      && Dedup(NewestFirst(parsed[i..]))
         == Dedup(before) + (if p.command != "" && p.command !in CommandsOf(before) then [p] else [])
      && CommandsOf(NewestFirst(parsed[i..]))
         == CommandsOf(before) + (if p.command != "" then {p.command} else {})
  {
    var before := NewestFirst(parsed[i + 1..]);
    var p := parsed[i];
    assert parsed[i..][1..] == parsed[i + 1..];
    assert NewestFirst(parsed[i..]) == before + Keep(p);
    if p.command == "" {
      assert before + Keep(p) == before;
    } else {
      DedupStep(before, p);
    }
  }

  /** The loop invariant of the backward walk survives one step. */
  lemma {:induction false} WalkInvariantStep(parsed: seq<Parsed>, i: nat, kept: seq<Parsed>,
                                             entries: seq<Entry>, seen: set<string>)
    requires i < |parsed|
    requires kept == Dedup(NewestFirst(parsed[i + 1..])) && entries == Numbered(kept)
    requires seen == CommandsOf(NewestFirst(parsed[i + 1..]))
    ensures var p := parsed[i];
      var add := p.command != "" && p.command !in seen;
      && Dedup(NewestFirst(parsed[i..])) == (if add then kept + [p] else kept)
      && Numbered(if add then kept + [p] else kept)
         == (if add then entries + [Entry(p.command, |entries|, p.timestamp)] else entries)
      && CommandsOf(NewestFirst(parsed[i..])) == (if add then seen + {p.command} else seen)
  {
    var p := parsed[i];
    WalkStep(parsed, i);
    if p.command != "" && p.command !in seen {
      NumberedStep(kept, p);
    } else if p.command != "" {
      assert seen + {p.command} == seen;
    }
  }

  /** Stopping early at the limit returns what the whole walk would have
      returned after truncation. */
  lemma {:induction false} StopAtLimit(parsed: seq<Parsed>, i: nat, limit: int)
    requires i <= |parsed| && limit > 0 && |Dedup(NewestFirst(parsed[i..]))| == limit
    ensures Take(Dedup(NewestFirst(parsed)), limit) == Dedup(NewestFirst(parsed[i..]))
  {
    var whole := NewestFirst(parsed);
    var recent := NewestFirst(parsed[i..]);
    NewestFirstSplit(parsed, i);
    assert whole == recent + NewestFirst(parsed[..i]);
    DedupPrefix(recent, NewestFirst(parsed[..i]));
    assert Dedup(recent) <= Dedup(whole);
  }

  /** `ReadHistoryFrom` after the file has been read: keeps the non-empty
      lines, walks them from the last, skips rejected and already-seen
      commands, numbers the rest and stops once `limit` (when positive)
      entries are collected. */
  method ReadHistoryEntries(lines: seq<string>, limit: int) returns (entries: seq<Entry>)
    ensures entries == ReadHistorySpec(lines, limit)
  {
    var allLines := ReadNonEmpty(lines);
    var parsed := ParseAll(allLines);
    entries := DedupNewestFirst(parsed, limit);
  }

  /** The scanning loop of `ReadHistoryFrom`: collects the non-empty lines. */
  method ReadNonEmpty(lines: seq<string>) returns (allLines: seq<string>)
    ensures allLines == NonEmpty(lines)
  {
    allLines := [];
    var n := 0;
    while n < |lines|
      invariant 0 <= n <= |lines|
      invariant allLines == NonEmpty(lines[..n])
    {
      assert lines[..n + 1][..n] == lines[..n];
      if lines[n] != "" {
        allLines := allLines + [lines[n]];
      }
      n := n + 1;
    }
    assert lines[..n] == lines;
  }

  /** The backward walk of `ReadHistoryFrom` over the parsed non-empty
      lines. */
  method DedupNewestFirst(parsed: seq<Parsed>, limit: int) returns (entries: seq<Entry>)
    ensures entries == Numbered(Take(Dedup(NewestFirst(parsed)), limit))
  {
    entries := [];
    var seen: set<string> := {};
    ghost var kept: seq<Parsed> := [];
    var i := |parsed| - 1;
    // The Go loop breaks right after an append that reaches the limit;
    // testing the limit in the loop condition exits at the same point.
    while i >= 0 && !(limit > 0 && |entries| >= limit)
      invariant -1 <= i < |parsed|
      invariant kept == Dedup(NewestFirst(parsed[i + 1..]))
      invariant entries == Numbered(kept)
      invariant seen == CommandsOf(NewestFirst(parsed[i + 1..]))
      invariant limit > 0 ==> |entries| <= limit
    {
      WalkInvariantStep(parsed, i, kept, entries, seen);
      var p := parsed[i];
      if p.command != "" && p.command !in seen {
        seen := seen + {p.command};
        entries := entries + [Entry(p.command, |entries|, p.timestamp)];
        kept := kept + [p];
      }
      i := i - 1;
    }
    if limit > 0 && |entries| >= limit {
      StopAtLimit(parsed, i + 1, limit);
    } else {
      assert parsed[0..] == parsed;
    }
  }

  // ---------------------------------------------------------------------
  // What ReadHistoryFrom promises

  /** Position of the first element of `ps` with command `c`, or -1. */
  function FirstPos(ps: seq<Parsed>, c: string): (r: int)
    ensures -1 <= r < |ps|
    ensures r >= 0 ==> ps[r].command == c && forall t :: 0 <= t < r ==> ps[t].command != c
    ensures r < 0 ==> forall t :: 0 <= t < |ps| ==> ps[t].command != c
  {
    if ps == [] then -1
    else if ps[0].command == c then 0
    else
      var k := FirstPos(ps[1..], c);
      if k < 0 then -1 else k + 1
  }

  /** Line number of the most recent line whose command is `c`, or -1. */
  function LatestLine(ps: seq<Parsed>, c: string): (r: int)
    ensures -1 <= r < |ps|
    ensures r >= 0 ==> c != "" && ps[r].command == c && forall j :: r < j < |ps| ==> ps[j].command != c
    ensures r < 0 ==> c == "" || forall j :: 0 <= j < |ps| ==> ps[j].command != c
  {
    if ps == [] then -1
    else
      var k := LatestLine(ps[1..], c);
      if k >= 0 then k + 1
      else if ps[0].command == c && c != "" then 0
      else -1
  }

  lemma FirstPosAppend(xs: seq<Parsed>, ys: seq<Parsed>, c: string)
    ensures FirstPos(xs + ys, c)
      == if FirstPos(xs, c) >= 0 then FirstPos(xs, c)
         else if FirstPos(ys, c) >= 0 then |xs| + FirstPos(ys, c)
         else -1
  {
    var zs := xs + ys;
    var r := FirstPos(zs, c);
    if FirstPos(xs, c) >= 0 {
      assert zs[FirstPos(xs, c)] == xs[FirstPos(xs, c)];
    } else if FirstPos(ys, c) >= 0 {
      assert zs[|xs| + FirstPos(ys, c)] == ys[FirstPos(ys, c)];
      assert forall t :: 0 <= t < |xs| ==> zs[t] == xs[t];
    } else {
      assert forall t :: 0 <= t < |zs| ==> zs[t] == if t < |xs| then xs[t] else ys[t - |xs|];
    }
  }

  /** The newest-first list meets each command first at its latest line. */
  lemma {:induction false} NewestFirstLatest(ps: seq<Parsed>, c: string)
    requires c != ""
    ensures (FirstPos(NewestFirst(ps), c) >= 0) == (LatestLine(ps, c) >= 0)
    ensures LatestLine(ps, c) >= 0 ==> NewestFirst(ps)[FirstPos(NewestFirst(ps), c)] == ps[LatestLine(ps, c)]
  {
    if ps != [] {
      var rest := NewestFirst(ps[1..]);
      NewestFirstLatest(ps[1..], c);
      FirstPosAppend(rest, Keep(ps[0]), c);
      if LatestLine(ps[1..], c) >= 0 {
        assert ps[LatestLine(ps, c)] == ps[1..][LatestLine(ps[1..], c)];
        assert NewestFirst(ps)[FirstPos(rest, c)] == rest[FirstPos(rest, c)];
      } else if ps[0].command == c {
        assert FirstPos(Keep(ps[0]), c) == 0;
      }
    }
  }

  /** Commands met earlier in the newest-first list have later latest lines. */
  lemma {:induction false} NewestFirstOrder(ps: seq<Parsed>, c1: string, c2: string)
    requires c1 != "" && c2 != "" && LatestLine(ps, c1) >= 0 && LatestLine(ps, c2) >= 0
    requires FirstPos(NewestFirst(ps), c1) < FirstPos(NewestFirst(ps), c2)
    ensures LatestLine(ps, c1) > LatestLine(ps, c2)
  {
    var rest := NewestFirst(ps[1..]);
    NewestFirstLatest(ps[1..], c1);
    NewestFirstLatest(ps[1..], c2);
    FirstPosAppend(rest, Keep(ps[0]), c1);
    FirstPosAppend(rest, Keep(ps[0]), c2);
    if LatestLine(ps[1..], c1) >= 0 && LatestLine(ps[1..], c2) >= 0 {
      NewestFirstOrder(ps[1..], c1, c2);
    }
  }

  lemma {:induction false} CommandsOfFirstPos(ps: seq<Parsed>, c: string)
    ensures (c in CommandsOf(ps)) == (FirstPos(ps, c) >= 0)
    decreases |ps|
  {
    if ps != [] {
      var init := ps[..|ps| - 1];
      assert ps == init + [ps[|ps| - 1]];
      CommandsOfFirstPos(init, c);
      FirstPosAppend(init, [ps[|ps| - 1]], c);
    }
  }

  /** Each kept element is the first occurrence of its command, and kept
      elements appear in the order of those first occurrences. */
  lemma {:induction false} DedupFirst(ps: seq<Parsed>)
    ensures forall k :: 0 <= k < |Dedup(ps)| ==>
      FirstPos(ps, Dedup(ps)[k].command) >= 0 && ps[FirstPos(ps, Dedup(ps)[k].command)] == Dedup(ps)[k]
    ensures forall k1, k2 :: 0 <= k1 < k2 < |Dedup(ps)| ==>
      FirstPos(ps, Dedup(ps)[k1].command) < FirstPos(ps, Dedup(ps)[k2].command)
    decreases |ps|
  {
    if ps != [] {
      var init := ps[..|ps| - 1];
      var p := ps[|ps| - 1];
      assert ps == init + [p];
      DedupFirst(init);
      var d := Dedup(init);
      forall c | true
        ensures FirstPos(ps, c) == if FirstPos(init, c) >= 0 then FirstPos(init, c)
          else if p.command == c then |init| else -1
      {
        FirstPosAppend(init, [p], c);
      }
      forall k | 0 <= k < |d|
        ensures FirstPos(ps, d[k].command) == FirstPos(init, d[k].command) >= 0
        ensures ps[FirstPos(ps, d[k].command)] == d[k]
      {
        assert ps[FirstPos(init, d[k].command)] == init[FirstPos(init, d[k].command)];
      }
      if p.command !in CommandsOf(init) {
        CommandsOfFirstPos(init, p.command);
        assert Dedup(ps) == d + [p];
        assert FirstPos(ps, p.command) == |init| && ps[|init|] == p;
      } else {
        assert Dedup(ps) == d;
      }
    }
  }

  lemma {:induction false} DedupCommands(ps: seq<Parsed>)
    ensures CommandsOf(Dedup(ps)) == CommandsOf(ps)
    decreases |ps|
  {
    if ps != [] {
      var init := ps[..|ps| - 1];
      var p := ps[|ps| - 1];
      assert ps == init + [p];
      DedupCommands(init);
      DedupStep(init, p);
      if p.command !in CommandsOf(init) {
        DedupStep(Dedup(init), p);
      } else {
        assert Dedup(ps) == Dedup(init);
      }
    }
  }

  lemma {:induction false} NewestFirstNonEmpty(ps: seq<Parsed>)
    ensures forall k :: 0 <= k < |NewestFirst(ps)| ==> NewestFirst(ps)[k].command != ""
  {
    if ps != [] {
      NewestFirstNonEmpty(ps[1..]);
    }
  }

  /** The walk's result over parsed lines `all`. */
  function Walk(all: seq<Parsed>, limit: int): seq<Entry>
  {
    Numbered(Take(Dedup(NewestFirst(all)), limit))
  }

  /** Each element kept from the newest-first list is the latest line with
      its command, and the kept elements run from the most recent line to
      the oldest. */
  lemma {:induction false} DedupLatest(all: seq<Parsed>)
    ensures forall k :: 0 <= k < |Dedup(NewestFirst(all))| ==>
      LatestLine(all, Dedup(NewestFirst(all))[k].command) >= 0
      && all[LatestLine(all, Dedup(NewestFirst(all))[k].command)] == Dedup(NewestFirst(all))[k]
    ensures forall k1, k2 :: 0 <= k1 < k2 < |Dedup(NewestFirst(all))| ==>
      LatestLine(all, Dedup(NewestFirst(all))[k1].command) > LatestLine(all, Dedup(NewestFirst(all))[k2].command)
  {
    var nf := NewestFirst(all);
    var d := Dedup(nf);
    DedupFirst(nf);
    NewestFirstNonEmpty(all);
    forall k | 0 <= k < |d|
      ensures d[k].command != ""
      ensures LatestLine(all, d[k].command) >= 0 && all[LatestLine(all, d[k].command)] == d[k]
    {
      var j := FirstPos(nf, d[k].command);
      assert nf[j] == d[k];
      assert nf[j].command != "";
      NewestFirstLatest(all, d[k].command);
    }
    forall k1, k2 | 0 <= k1 < k2 < |d|
      ensures LatestLine(all, d[k1].command) > LatestLine(all, d[k2].command)
    {
      NewestFirstOrder(all, d[k1].command, d[k2].command);
    }
  }

  /** Each entry is the latest line with its command, and entries run
      from the most recent line to the oldest. */
  lemma {:induction false} WalkLatest(all: seq<Parsed>, limit: int)
    ensures var r := Walk(all, limit);
      && (forall k :: 0 <= k < |r| ==>
            LatestLine(all, r[k].command) >= 0
            && all[LatestLine(all, r[k].command)] == Parsed(r[k].command, r[k].timestamp))
      && (forall k1, k2 :: 0 <= k1 < k2 < |r| ==>
            LatestLine(all, r[k1].command) > LatestLine(all, r[k2].command))
  {
    var d := Dedup(NewestFirst(all));
    var t := Take(d, limit);
    var r := Walk(all, limit);
    DedupLatest(all);
    forall k | 0 <= k < |r|
      ensures LatestLine(all, r[k].command) >= 0
      ensures all[LatestLine(all, r[k].command)] == Parsed(r[k].command, r[k].timestamp)
    {
      assert t[k] == d[k];
      assert r[k].command == d[k].command && Parsed(r[k].command, r[k].timestamp) == d[k];
    }
    forall k1, k2 | 0 <= k1 < k2 < |r|
      ensures LatestLine(all, r[k1].command) > LatestLine(all, r[k2].command)
    {
      assert t[k1] == d[k1] && t[k2] == d[k2];
    }
  }

  /** With no limit, every accepted command has an entry. */
  lemma {:induction false} WalkComplete(all: seq<Parsed>, limit: int)
    requires limit <= 0
    ensures forall j :: 0 <= j < |all| && all[j].command != "" ==>
      exists k :: 0 <= k < |Walk(all, limit)| && Walk(all, limit)[k].command == all[j].command
  {
    var nf := NewestFirst(all);
    var d := Dedup(nf);
    var r := Walk(all, limit);
    assert Take(d, limit) == d;
    forall j | 0 <= j < |all| && all[j].command != ""
      ensures exists k :: 0 <= k < |r| && r[k].command == all[j].command
    {
      var c := all[j].command;
      NewestFirstLatest(all, c);
      CommandsOfFirstPos(nf, c);
      DedupCommands(nf);
      CommandsOfFirstPos(d, c);
      var k := FirstPos(d, c);
      assert r[k].command == c;
    }
  }

  /** `ReadHistoryFrom`'s result: numbered from 0, no more than `limit`
      entries when `limit` is positive, pairwise-distinct commands, each
      carrying the timestamp of the latest line with that command, ordered
      from the most recent line to the oldest, and, with no limit, every
      accepted command is present. */
  lemma ReadHistoryMeaning(lines: seq<string>, limit: int)
    ensures var r := ReadHistorySpec(lines, limit); var all := ParseAll(NonEmpty(lines));
      && (forall k :: 0 <= k < |r| ==> r[k].index == k)
      && (limit > 0 ==> |r| <= limit)
      && (forall k1, k2 :: 0 <= k1 < k2 < |r| ==> r[k1].command != r[k2].command)
      && (forall k :: 0 <= k < |r| ==>
            LatestLine(all, r[k].command) >= 0
            && all[LatestLine(all, r[k].command)] == Parsed(r[k].command, r[k].timestamp))
      && (forall k1, k2 :: 0 <= k1 < k2 < |r| ==>
            LatestLine(all, r[k1].command) > LatestLine(all, r[k2].command))
      && (limit <= 0 ==> forall j :: 0 <= j < |all| && all[j].command != "" ==>
            exists k :: 0 <= k < |r| && r[k].command == all[j].command)
  {
    var all := ParseAll(NonEmpty(lines));
    assert ReadHistorySpec(lines, limit) == Walk(all, limit);
    WalkLatest(all, limit);
    if limit <= 0 {
      WalkComplete(all, limit);
    }
  }

  // ---------------------------------------------------------------------
  // countArgs

  /** State of the quote-aware argument scanner: finished arguments, the
      quote character of an open quoted region, and whether the current
      argument has started. */
  datatype ArgScan = ArgScan(count: nat, quote: Option<char>, hasContent: bool)

  const ScanStart: ArgScan := ArgScan(0, None, false)

  predicate IsQuote(c: char) { c == '"' || c == '\'' }

  predicate IsSeparator(c: char) { c == ' ' || c == '\t' }

  /** One character: inside quotes only the matching quote matters; a quote
      opens a region and starts an argument; a separator ends a started
      argument; anything else starts one. */
  function ScanStep(st: ArgScan, c: char): ArgScan
  {
    if st.quote.Some? then
      (if c == st.quote.value then st.(quote := None) else st)
    else if IsQuote(c) then st.(quote := Some(c), hasContent := true)
    else if IsSeparator(c) then
      (if st.hasContent then st.(count := st.count + 1, hasContent := false) else st)
    else st.(hasContent := true)
  }

  function ScanFrom(st: ArgScan, s: string): ArgScan
  {
    if s == [] then st else ScanStep(ScanFrom(st, s[..|s| - 1]), s[|s| - 1])
  }

  /** The value `countArgs` returns. */
  function ArgCount(s: string): nat
  {
    var st := ScanFrom(ScanStart, s);
    st.count + (if st.hasContent then 1 else 0)
  }

  /** `countArgs`. */
  method CountArgs(cmd: string) returns (count: nat)
    ensures count == ArgCount(cmd)
  {
    count := 0;
    var inQuote: Option<char> := None;
    var hasContent := false;
    var i := 0;
    while i < |cmd|
      invariant 0 <= i <= |cmd|
      invariant ScanFrom(ScanStart, cmd[..i]) == ArgScan(count, inQuote, hasContent)
    {
      var r := cmd[i];
      assert cmd[..i + 1][..i] == cmd[..i];
      if inQuote.Some? {
        if r == inQuote.value {
          inQuote := None;
        }
      } else if r == '"' || r == '\'' {
        inQuote := Some(r);
        hasContent := true;
      } else if r == ' ' || r == '\t' {
        if hasContent {
          count := count + 1;
          hasContent := false;
        }
      } else {
        hasContent := true;
      }
      i := i + 1;
    }
    assert cmd[..i] == cmd;
    if hasContent {
      count := count + 1;
    }
  }

  lemma {:induction false} ScanFromAppend(st: ArgScan, a: string, b: string)
    ensures ScanFrom(st, a + b) == ScanFrom(ScanFrom(st, a), b)
    decreases |b|
  {
    if b == [] {
      assert a + b == a;
    } else {
      assert (a + b)[..|a + b| - 1] == a + b[..|b| - 1];
      ScanFromAppend(st, a, b[..|b| - 1]);
    }
  }

  /** Finished arguments never influence the scan: they only add up. */
  lemma {:induction false} ScanFromOffset(n: nat, s: string)
    ensures ScanFrom(ScanStart.(count := n), s)
      == ScanFrom(ScanStart, s).(count := ScanFrom(ScanStart, s).count + n)
    decreases |s|
  {
    if s != [] {
      ScanFromOffset(n, s[..|s| - 1]);
    }
  }

  /** Two fragments joined by a separator outside quotes have as many
      arguments as the two together. */
  lemma ArgCountJoin(a: string, sep: char, b: string)
    requires IsSeparator(sep) && ScanFrom(ScanStart, a).quote.None?
    ensures ArgCount(a + [sep] + b) == ArgCount(a) + ArgCount(b)
  {
    ScanFromAppend(ScanStart, a + [sep], b);
    ScanFromAppend(ScanStart, a, [sep]);
    assert ScanFrom(ScanStart, a + [sep]) == ScanStart.(count := ArgCount(a));
    ScanFromOffset(ArgCount(a), b);
  }

  /** A run of separators holds no argument. */
  lemma {:induction false} ArgCountBlank(s: string)
    requires forall k :: 0 <= k < |s| ==> IsSeparator(s[k])
    ensures ScanFrom(ScanStart, s) == ScanStart && ArgCount(s) == 0
    decreases |s|
  {
    if s != [] {
      ArgCountBlank(s[..|s| - 1]);
    }
  }

  /** A word with no separator and no quote is one argument. */
  lemma {:induction false} ArgCountWord(w: string)
    requires w != [] && forall k :: 0 <= k < |w| ==> !IsSeparator(w[k]) && !IsQuote(w[k])
    ensures ScanFrom(ScanStart, w) == ArgScan(0, None, true) && ArgCount(w) == 1
    decreases |w|
  {
    if |w| > 1 {
      ArgCountWord(w[..|w| - 1]);
    }
  }

  lemma {:induction false} ScanInsideQuote(st: ArgScan, body: string)
    requires st.quote.Some? && st.quote.value !in body
    ensures ScanFrom(st, body) == st
    decreases |body|
  {
    if body != [] {
      ScanInsideQuote(st, body[..|body| - 1]);
    }
  }

  /** A quoted region is one argument, whatever spaces it holds. */
  lemma ArgCountQuoted(q: char, body: string)
    requires IsQuote(q) && q !in body
    ensures ScanFrom(ScanStart, [q] + body + [q]) == ArgScan(0, None, true)
    ensures ArgCount([q] + body + [q]) == 1
  {
    var open := ArgScan(0, Some(q), true);
    assert ScanFrom(ScanStart, [q]) == open;
    ScanFromAppend(ScanStart, [q], body);
    ScanInsideQuote(open, body);
    ScanFromAppend(ScanStart, [q] + body, [q]);
  }

  // ---------------------------------------------------------------------
  // isMultilineFragment

  /** A first byte that can start a shell command: a letter, a path or a
      variable. */
  predicate ValidCommandStart(c: char)
  {
    ('a' <= c <= 'z') || ('A' <= c <= 'Z') || c == '.' || c == '/' || c == '~' || c == '$'
  }

  /** `isMultilineFragment`: over 300 bytes, a trailing backslash, empty, or
      a first byte that cannot start a command. */
  function IsMultilineFragment(cmd: string): (r: bool)
    ensures r <==> (Utf8Len(cmd) > 300 || (cmd != [] && cmd[|cmd| - 1] == '\\') || cmd == []
                    || !ValidCommandStart(cmd[0]))
  {
    if Utf8Len(cmd) > 300 then true
    else if |cmd| > 0 && cmd[|cmd| - 1] == '\\' then true
    else if |cmd| == 0 then true
    else !ValidCommandStart(cmd[0])
  }

  // ---------------------------------------------------------------------
  // GetFrequentCommandsFrom

  /** Whether some line up to and including the last of `ps` had a command
      and a timestamp: Go's `hasTimestamps` flag after that line. */
  function SawTimestamp(ps: seq<Parsed>): bool
  {
    if ps == [] then false
    else SawTimestamp(ps[..|ps| - 1]) || (ps[|ps| - 1].command != "" && ps[|ps| - 1].timestamp.Some?)
  }

  /** The filters a parsed line must pass to be counted, given the flag. */
  predicate Qualifies(p: Parsed, hasTimestamps: bool, cutoff: int, minArgs: int)
  {
    && p.command != ""
    && (hasTimestamps ==> p.timestamp.Some? && p.timestamp.value >= cutoff)
    && ArgCount(p.command) >= minArgs
    && Utf8Len(p.command) >= MinFrequentLen
    && !HasPrefix(p.command, "bkmk")
    && !IsMultilineFragment(p.command)
  }

  /** The commands that get counted, one per counted line, in file order. */
  function CountedCommands(ps: seq<Parsed>, cutoff: int, minArgs: int): seq<string>
  {
    if ps == [] then []
    else
      CountedCommands(ps[..|ps| - 1], cutoff, minArgs)
      + (if Qualifies(ps[|ps| - 1], SawTimestamp(ps), cutoff, minArgs) then [ps[|ps| - 1].command] else [])
  }

  /** The `counts` map built from a list of counted commands. */
  function Tally(cs: seq<string>): map<string, int>
  {
    if cs == [] then map[]
    else
      var m := Tally(cs[..|cs| - 1]);
      var c := cs[|cs| - 1];
      m[c := (if c in m then m[c] else 0) + 1]
  }

  lemma TallyAppend(cs: seq<string>, c: string)
    ensures Tally(cs + [c]) == Tally(cs)[c := (if c in Tally(cs) then Tally(cs)[c] else 0) + 1]
  {
    assert (cs + [c])[..|cs|] == cs;
  }

  /** Go's `counts` after the scanning loop. */
  function FrequencyCounts(lines: seq<string>, cutoff: int, minArgs: int): map<string, int>
  {
    Tally(CountedCommands(ParseAll(lines), cutoff, minArgs))
  }

  /** The sort order: higher count first, then Go's `<` on the text. */
  predicate Before(a: FrequentCommand, b: FrequentCommand)
  {
    a.count > b.count || (a.count == b.count && Less(a.command, b.command))
  }

  predicate StrictlySorted(s: seq<FrequentCommand>)
  {
    forall i, j :: 0 <= i < j < |s| ==> Before(s[i], s[j])
  }

  lemma BeforeTotal(a: FrequentCommand, b: FrequentCommand)
    requires a.command != b.command
    ensures Before(a, b) || Before(b, a)
  {
    LessTotal(a.command, b.command);
  }

  lemma BeforeTransitive(a: FrequentCommand, b: FrequentCommand, c: FrequentCommand)
    requires Before(a, b) && Before(b, c)
    ensures Before(a, c)
  {
    if a.count == b.count == c.count {
      LessTransitive(a.command, b.command, c.command);
    }
  }

  lemma BeforeIrreflexive(a: FrequentCommand)
    ensures !Before(a, a)
  {
    LessIrreflexive(a.command);
  }

  /** Insertion of a new command into a sorted list. */
  function InsertSorted(s: seq<FrequentCommand>, x: FrequentCommand): (r: seq<FrequentCommand>)
    requires StrictlySorted(s)
    requires forall k :: 0 <= k < |s| ==> s[k].command != x.command
    ensures StrictlySorted(r)
    ensures |r| == |s| + 1
    ensures forall y :: y in r <==> y in s || y == x
  {
    if s == [] then [x]
    else if Before(x, s[0]) then
      assert forall k :: 0 < k < |s| ==> Before(s[0], s[k]);
      forall k | 0 < k < |s| ensures Before(x, s[k]) { BeforeTransitive(x, s[0], s[k]); }
      [x] + s
    else
      BeforeTotal(x, s[0]);
      var rest := InsertSorted(s[1..], x);
      forall k | 0 <= k < |rest| ensures Before(s[0], rest[k]) {
        assert rest[k] in rest;
        if rest[k] != x {
          var j :| 0 <= j < |s[1..]| && s[1..][j] == rest[k];
          assert s[j + 1] == rest[k];
        }
      }
      [s[0]] + rest
  }

  /** The ranking `GetFrequentCommandsFrom` returns for `counts`: sorted by
      (count desc, text asc), each entry a key with its count, as many as the
      map has keys up to `limit` (when positive), and no dropped command ranks
      before a kept one. */
  predicate IsRanking(result: seq<FrequentCommand>, counts: map<string, int>, limit: int)
  {
    && StrictlySorted(result)
    && (forall k :: 0 <= k < |result| ==>
          result[k].command in counts && result[k].count == counts[result[k].command])
    && |result| == (if limit > 0 && |counts.Keys| > limit then limit else |counts.Keys|)
    && (forall k, c ::
          (0 <= k < |result| && c in counts && FrequentCommand(c, counts[c]) !in result)
          ==> Before(result[k], FrequentCommand(c, counts[c])))
  }

  /** The conversion, sort and truncation of `GetFrequentCommandsFrom`. The
      keys are taken in an arbitrary order, as Go's map iteration does. */
  method RankCounts(counts: map<string, int>, limit: int) returns (result: seq<FrequentCommand>)
    ensures IsRanking(result, counts, limit)
  {
    var keys := counts.Keys;
    var sorted: seq<FrequentCommand> := [];
    while keys != {}
      invariant keys <= counts.Keys
      invariant StrictlySorted(sorted)
      invariant forall y :: y in sorted <==> y.command in counts && y.command !in keys && y.count == counts[y.command]
      invariant |sorted| + |keys| == |counts.Keys|
      decreases |keys|
    {
      var c :| c in keys;
      var x := FrequentCommand(c, counts[c]);
      assert forall k :: 0 <= k < |sorted| ==> sorted[k] in sorted;
      sorted := InsertSorted(sorted, x);
      keys := keys - {c};
    }
    result := if limit > 0 && |sorted| > limit then sorted[..limit] else sorted;
    forall k, c | 0 <= k < |result| && c in counts && FrequentCommand(c, counts[c]) !in result
      ensures Before(result[k], FrequentCommand(c, counts[c]))
    {
      var y := FrequentCommand(c, counts[c]);
      assert y in sorted;
      var j :| 0 <= j < |sorted| && sorted[j] == y;
      assert result[k] == sorted[k];
      if j < |result| {
        assert false;
      }
    }
  }

  /** The chain of `continue` filters of `GetFrequentCommandsFrom` for one
      non-empty command, once `hasTimestamps` has been updated for it. */
  method PassesFilters(p: Parsed, hasTimestamps: bool, cutoff: int, minArgs: int) returns (ok: bool)
    requires p.command != ""
    ensures ok == Qualifies(p, hasTimestamps, cutoff, minArgs)
  {
    if hasTimestamps {
      if p.timestamp.None? {
        return false;
      }
      if p.timestamp.value < cutoff {
        return false;
      }
    }
    var args := CountArgs(p.command);
    if args < minArgs || Utf8Len(p.command) < MinFrequentLen {
      return false;
    }
    if HasPrefix(p.command, "bkmk") {
      return false;
    }
    if IsMultilineFragment(p.command) {
      return false;
    }
    return true;
  }

  lemma CountedStep(ps: seq<Parsed>, i: nat, cutoff: int, minArgs: int)
    requires i < |ps|
    ensures SawTimestamp(ps[..i + 1])
      == (SawTimestamp(ps[..i]) || (ps[i].command != "" && ps[i].timestamp.Some?))
    ensures Qualifies(ps[i], SawTimestamp(ps[..i + 1]), cutoff, minArgs) ==>
      Tally(CountedCommands(ps[..i + 1], cutoff, minArgs))
      == Tally(CountedCommands(ps[..i], cutoff, minArgs) + [ps[i].command])
    ensures !Qualifies(ps[i], SawTimestamp(ps[..i + 1]), cutoff, minArgs) ==>
      CountedCommands(ps[..i + 1], cutoff, minArgs) == CountedCommands(ps[..i], cutoff, minArgs)
  {
    assert ps[..i + 1][..i] == ps[..i];
    var cs := CountedCommands(ps[..i], cutoff, minArgs);
    assert cs + [] == cs;
  }

  /** The scanning loop of `GetFrequentCommandsFrom` over the parsed lines;
      an empty line parses to an empty command, so the two `continue`s for
      empty lines and empty commands coincide. */
  method TallyLines(parsed: seq<Parsed>, cutoff: int, minArgs: int) returns (counts: map<string, int>)
    ensures counts == Tally(CountedCommands(parsed, cutoff, minArgs))
  {
    counts := map[];
    var hasTimestamps := false;
    var i := 0;
    while i < |parsed|
      invariant 0 <= i <= |parsed|
      invariant hasTimestamps == SawTimestamp(parsed[..i])
      invariant counts == Tally(CountedCommands(parsed[..i], cutoff, minArgs))
    {
      var p := parsed[i];
      CountedStep(parsed, i, cutoff, minArgs);
      if p.command != "" {
        if p.timestamp.Some? {
          hasTimestamps := true;
        }
        var ok := PassesFilters(p, hasTimestamps, cutoff, minArgs);
        if ok {
          TallyAppend(CountedCommands(parsed[..i], cutoff, minArgs), p.command);
          counts := counts[p.command := (if p.command in counts then counts[p.command] else 0) + 1];
        }
      }
      i := i + 1;
    }
    assert parsed[..i] == parsed;
  }

  /** `GetFrequentCommandsFrom` once the file is read. */
  method FrequentCommands(lines: seq<string>, cutoff: int, minArgs: int, limit: int)
    returns (result: seq<FrequentCommand>)
    ensures IsRanking(result, FrequencyCounts(lines, cutoff, minArgs), limit)
  {
    var parsed := ParseAll(lines);
    var counts := TallyLines(parsed, cutoff, minArgs);
    result := RankCounts(counts, limit);
  }

  // Properties of the frequency analysis

  /** `counts[c]` is the number of times `c` was counted, and only counted
      commands are keys. */
  lemma {:induction false} TallyMultiplicity(cs: seq<string>)
    ensures forall c :: c in Tally(cs) <==> c in cs
    ensures forall c :: c in Tally(cs) ==> Tally(cs)[c] == multiset(cs)[c] >= 1
  {
    if cs != [] {
      var init := cs[..|cs| - 1];
      TallyMultiplicity(init);
      assert cs == init + [cs[|cs| - 1]];
      assert multiset(cs) == multiset(init) + multiset{cs[|cs| - 1]};
    }
  }

  /** Each counted command passed every filter of the scan. */
  lemma {:induction false} CountedPassFilters(ps: seq<Parsed>, cutoff: int, minArgs: int)
    ensures forall c :: c in CountedCommands(ps, cutoff, minArgs) ==>
      && c != ""
      && ArgCount(c) >= minArgs
      && Utf8Len(c) >= MinFrequentLen
      && !HasPrefix(c, "bkmk")
      && !IsMultilineFragment(c)
  {
    if ps != [] {
      var init := CountedCommands(ps[..|ps| - 1], cutoff, minArgs);
      CountedPassFilters(ps[..|ps| - 1], cutoff, minArgs);
      assert forall c :: c in CountedCommands(ps, cutoff, minArgs) ==> c in init || c == ps[|ps| - 1].command;
    }
  }

  /** Without any timestamped line the cutoff plays no part. */
  lemma {:induction false} CutoffIrrelevantWithoutTimestamps(ps: seq<Parsed>, cutoff1: int, cutoff2: int, minArgs: int)
    requires !SawTimestamp(ps)
    ensures CountedCommands(ps, cutoff1, minArgs) == CountedCommands(ps, cutoff2, minArgs)
  {
    if ps != [] {
      CutoffIrrelevantWithoutTimestamps(ps[..|ps| - 1], cutoff1, cutoff2, minArgs);
    }
  }

  /** What `GetFrequentCommandsFrom` returns, in terms of the history lines:
      each entry is a command that passed every filter, with the number of
      lines it was counted on, and the list is a ranking of all of them. */
  lemma FrequentCommandsMeaning(lines: seq<string>, cutoff: int, minArgs: int, limit: int,
                                result: seq<FrequentCommand>)
    requires IsRanking(result, FrequencyCounts(lines, cutoff, minArgs), limit)
    ensures forall k :: 0 <= k < |result| ==>
      && result[k].command in CountedCommands(ParseAll(lines), cutoff, minArgs)
      && result[k].count == multiset(CountedCommands(ParseAll(lines), cutoff, minArgs))[result[k].command] >= 1
      && ArgCount(result[k].command) >= minArgs
      && Utf8Len(result[k].command) >= MinFrequentLen
      && !HasPrefix(result[k].command, "bkmk")
      && !IsMultilineFragment(result[k].command)
    ensures forall i, j :: 0 <= i < j < |result| ==>
      result[i].count > result[j].count
      || (result[i].count == result[j].count && Less(result[i].command, result[j].command))
  {
    var cs := CountedCommands(ParseAll(lines), cutoff, minArgs);
    TallyMultiplicity(cs);
    CountedPassFilters(ParseAll(lines), cutoff, minArgs);
  }
}
