/** The tailer of the sensor's event file: a cursor over a growing file, read line by line into two bounded
    rings. */
module EventTail {
  import opened Text
  import opened Recent

  datatype Event = Event(kind: string, body: string)

  // ---- Lines --------------------------------------------------------------------------------------------

  /** What one `readline` returns: up to and with the next line end, or all that is left. */
  function FirstLine(t: string): (r: string)
    requires t != ""
    ensures r != "" && r <= t
  {
    if t[0] == '\n' || |t| == 1 then t[..1] else [t[0]] + FirstLine(t[1..])
  }

  function Pieces(t: string): seq<string> {
    if t == "" then [] else [FirstLine(t)] + Pieces(t[|FirstLine(t)|..])
  }

  predicate Ended(line: string) {
    line != "" && line[|line| - 1] == '\n'
  }

  /** A text with no line end but perhaps its last character. */
  predicate Line(line: string) {
    line != "" && forall i :: 0 <= i < |line| - 1 ==> line[i] != '\n'
  }

  predicate Lines(p: seq<string>) {
    forall i :: 0 <= i < |p| ==> Line(p[i])
  }

  predicate AllEnded(p: seq<string>) {
    forall i :: 0 <= i < |p| ==> Ended(p[i])
  }

  /** Every line but the last has its line end. */
  predicate Canonical(p: seq<string>) {
    p == [] || AllEnded(p[..|p| - 1])
  }

  lemma {:induction false} FirstLineIs(t: string)
    requires t != ""
    ensures Line(FirstLine(t)) && (Ended(FirstLine(t)) || FirstLine(t) == t)
  {
    if !(t[0] == '\n' || |t| == 1) {
      FirstLineIs(t[1..]);
      assert t == [t[0]] + t[1..];
    }
  }

  lemma {:induction false} FirstLineUnique(line: string, rest: string)
    requires Line(line) && (Ended(line) || rest == "")
    ensures FirstLine(line + rest) == line
  {
    if |line| == 1 {
      assert (line + rest)[0] == line[0];
    } else {
      assert (line + rest)[1..] == line[1..] + rest;
      forall i | 0 <= i < |line[1..]| - 1 ensures line[1..][i] != '\n' {
        assert line[i + 1] != '\n';
      }
      assert line[0] != '\n';
      FirstLineUnique(line[1..], rest);
    }
  }

  lemma {:induction false} PiecesAre(t: string)
    ensures Lines(Pieces(t)) && Canonical(Pieces(t)) && Concat(Pieces(t)) == t
    ensures Pieces(t) == [] <==> t == ""
    decreases |t|
  {
    hide FirstLine, Line, Ended;
    if t != "" {
      var line := FirstLine(t);
      var rest := t[|line|..];
      FirstLineIs(t);
      PiecesAre(rest);
      assert t == line + rest;
      FrontLine(line, Pieces(rest));
    }
  }

  lemma FrontLine(line: string, p: seq<string>)
    requires Line(line) && Lines(p) && Canonical(p) && (p != [] ==> Ended(line))
    ensures Lines([line] + p) && Canonical([line] + p) && Concat([line] + p) == line + Concat(p)
  {
    hide Line, Ended;
    assert ([line] + p)[1..] == p;
    if p != [] {
      assert ([line] + p)[..|p|] == [line] + p[..|p| - 1];
    }
  }

  /** A text falls into lines in one way only. */
  lemma {:induction false} PiecesUnique(p: seq<string>)
    requires Lines(p) && Canonical(p)
    ensures Pieces(Concat(p)) == p
  {
    if p != [] {
      var rest := Concat(p[1..]);
      assert Lines(p[1..]);
      assert Line(p[0]);
      if |p| > 1 {
        assert Ended(p[..|p| - 1][0]);
        assert p[1..][..|p| - 2] == p[..|p| - 1][1..];
      } else {
        assert p[1..] == [];
      }
      assert Canonical(p[1..]);
      PiecesUnique(p[1..]);
      FirstLineUnique(p[0], rest);
      assert Concat(p) == p[0] + rest;
      assert (p[0] + rest)[|p[0]|..] == rest;
    }
  }

  // ---- Line ends --------------------------------------------------------------------------------------------

  /** What reading in text mode makes of a file: every return, with a newline right behind it or without,
      becomes one newline. */
  function Universal(t: string): (r: string)
    ensures |r| <= |t|
  {
    if t == "" then ""
    else if t[0] != '\r' then [t[0]] + Universal(t[1..])
    else if |t| > 1 && t[1] == '\n' then "\n" + Universal(t[2..])
    else "\n" + Universal(t[1..])
  }

  predicate HasReturnNewline(t: string) {
    exists i :: 0 < i < |t| && t[i - 1] == '\r' && t[i] == '\n'
  }

  lemma ReturnNewlineFirst(t: string)
    requires t != ""
    ensures HasReturnNewline(t) <==> (|t| > 1 && t[0] == '\r' && t[1] == '\n') || HasReturnNewline(t[1..])
  {
    if i :| 0 < i < |t[1..]| && t[1..][i - 1] == '\r' && t[1..][i] == '\n' {
      assert t[i + 1 - 1] == '\r' && t[i + 1] == '\n';
    }
    if i :| 0 < i < |t| && t[i - 1] == '\r' && t[i] == '\n' {
      if i > 1 {
        assert t[1..][i - 1 - 1] == '\r' && t[1..][i - 1] == '\n';
      }
    }
  }

  lemma {:induction false} UniversalKeepsLengthIff(t: string)
    ensures |Universal(t)| == |t| <==> !HasReturnNewline(t)
  {
    hide HasReturnNewline;
    if t == "" {
      assert !HasReturnNewline("") by { NoReturnNewline(); }
    } else {
      ReturnNewlineFirst(t);
      UniversalKeepsLengthIff(t[1..]);
    }
  }

  lemma NoReturnNewline()
    ensures !HasReturnNewline("")
  {
  }

  lemma {:induction false} UniversalPlain(t: string)
    requires '\r' !in t
    ensures Universal(t) == t
  {
    if t != "" {
      UniversalPlain(t[1..]);
    }
  }

  /** No return is left. */
  lemma {:induction false} UniversalClean(t: string)
    ensures '\r' !in Universal(t)
    decreases |t|
  {
    if t != "" {
      UniversalClean(t[1..]);
      if |t| > 1 {
        UniversalClean(t[2..]);
      }
    }
  }

  /** Wherever a text is cut but between a return and its newline, its parts can be read one by one. */
  lemma {:induction false} UniversalAppend(a: string, b: string)
    requires a != "" && b != "" ==> !(a[|a| - 1] == '\r' && b[0] == '\n')
    ensures Universal(a + b) == Universal(a) + Universal(b)
    decreases |a|
  {
    if a == "" {
      assert a + b == b;
    } else {
      var k := if |a| > 1 && a[0] == '\r' && a[1] == '\n' then 2 else 1;
      UniversalStep(a, k);
      UniversalStep(a + b, k);
      hide Universal;
      assert (a + b)[k..] == a[k..] + b;
      UniversalAppend(a[k..], b);
      Assoc(UniversalHead(a[0]), Universal(a[k..]), Universal(b));
    }
  }

  function UniversalHead(c: char): string {
    if c == '\r' then "\n" else [c]
  }

  lemma UniversalStep(t: string, k: nat)
    requires t != "" && k == if |t| > 1 && t[0] == '\r' && t[1] == '\n' then 2 else 1
    ensures Universal(t) == UniversalHead(t[0]) + Universal(t[k..])
  {
  }

  /** A return, a newline, and a return with its newline each come out as one newline, and nothing else changes. */
  lemma UniversalIs(c: char)
    ensures Universal([c]) == if c == '\r' then "\n" else [c]
    ensures Universal("\r\n") == "\n"
  {
    assert [c][1..] == "" && "\r\n"[2..] == "";
  }

  // ---- The tail over a growing file ------------------------------------------------------------------------

  datatype Step = Append(text: string) | Poll

  /** The file, the cursor, and the lines read so far. */
  datatype Tail = Tail(file: string, pos: nat, read: seq<string>)

  function TailStep(t: Tail, s: Step): Tail {
    match s
    case Append(text) => t.(file := t.file + text)
    case Poll =>
      var from := if |t.file| < t.pos then 0 else t.pos;
      var text := Universal(t.file[from..]);
      Tail(t.file, from + |text|, t.read + Pieces(text))
  }

  /** The cursor counts the characters read, so a poll takes it to the end of the file exactly when no
      return stands before a newline in what it read. */
  lemma CursorExactIff(t: Tail)
    requires t.pos <= |t.file|
    ensures TailStep(t, Poll).pos == |t.file| <==> !HasReturnNewline(t.file[t.pos..])
  {
    hide Pieces, HasReturnNewline;
    UniversalKeepsLengthIff(t.file[t.pos..]);
  }

  /** A file shorter than the cursor is a new one: a poll reads it from its start, whatever was read before. */
  lemma PollShrunk(file: string, pos: nat, read: seq<string>)
    requires |file| < pos && '\r' !in file
    ensures TailStep(Tail(file, pos, read), Poll) == Tail(file, |file|, read + Pieces(file))
  {
    hide Universal, Pieces;
    UniversalPlain(file);
    assert file[0..] == file;
  }

  /** For instance, a file of three characters replaced by one of two. */
  lemma PollReplaced()
    ensures TailStep(Tail("b\n", 3, ["aa\n"]), Poll) == Tail("b\n", 2, ["aa\n", "b\n"])
  {
    hide TailStep, Pieces;
    PollShrunk("b\n", 3, ["aa\n"]);
    Single("b\n");
    assert ["aa\n"] + ["b\n"] == ["aa\n", "b\n"];
  }

  /** Three lines that end so are read, and then the last of them once more. */
  lemma ReturnsReadTwice()
    ensures var t := TailStep(Tail("a\r\na\r\na\r\n", 0, []), Poll);
            && t.read == ["a\n", "a\n", "a\n"]
            && TailStep(t, Poll).read == ["a\n", "a\n", "a\n", "a\n"]
  {
    hide Universal, Pieces, TailStep;
    var file := "a\r\na\r\na\r\n";
    ThreeReturns();
    ThreeLines();
    assert file[0..] == file && file[6..] == "a\r\n";
    PollTakes(file, 0, [], "a\na\na\n");
    PollTakes(file, 6, ["a\n", "a\n", "a\n"], "a\n");
    assert ["a\n", "a\n", "a\n"] + ["a\n"] == ["a\n", "a\n", "a\n", "a\n"];
    assert [] + ["a\n", "a\n", "a\n"] == ["a\n", "a\n", "a\n"];
  }

  lemma PollTakes(file: string, pos: nat, read: seq<string>, text: string)
    requires pos <= |file| && Universal(file[pos..]) == text
    ensures TailStep(Tail(file, pos, read), Poll) == Tail(file, pos + |text|, read + Pieces(text))
  {
    hide Universal, Pieces;
  }

  lemma ThreeReturns()
    ensures Universal("a\r\n") == "a\n" && Universal("a\r\na\r\na\r\n") == "a\na\na\n"
  {
    UniversalReturn("");
    UniversalReturn("a\r\n");
    UniversalReturn("a\r\na\r\n");
    assert "a\r\n" + "" == "a\r\n" && "a\r\n" + "a\r\n" == "a\r\na\r\n";
    assert "a\r\n" + "a\r\na\r\n" == "a\r\na\r\na\r\n";
  }

  lemma UniversalReturn(rest: string)
    ensures Universal("a\r\n" + rest) == "a\n" + Universal(rest)
  {
    var t := "a\r\n" + rest;
    assert t[1..] == "\r\n" + rest && t[1..][2..] == rest;
    assert Universal(t[1..]) == "\n" + Universal(rest);
  }

  lemma ThreeLines()
    ensures Pieces("a\n") == ["a\n"] && Pieces("a\na\na\n") == ["a\n", "a\n", "a\n"]
  {
    var p := ["a\n", "a\n", "a\n"];
    Single("a\n");
    assert p[1..] == ["a\n", "a\n"] && p[1..][1..] == ["a\n"] && p[1..][1..][1..] == [];
    assert Concat(p) == "a\na\na\n";
    PiecesUnique(p);
  }

  function Run(steps: seq<Step>): Tail {
    if steps == [] then Tail("", 0, []) else TailStep(Run(steps[..|steps| - 1]), steps[|steps| - 1])
  }

  /** No poll begins in the middle of a line. */
  predicate Clean(steps: seq<Step>) {
    steps == [] ||
    var n := |steps| - 1;
    var t := Run(steps[..n]);
    && Clean(steps[..n])
    && (steps[n].Poll? && 0 < t.pos < |t.file| ==> t.file[t.pos - 1] == '\n')
  }

  ghost predicate TailHolds(t: Tail) {
    '\r' !in t.file && t.pos <= |t.file| && Concat(t.read) == t.file[..t.pos] && Lines(t.read)
  }

  lemma {:induction false} LastChar(p: seq<string>)
    requires Lines(p) && p != []
    ensures Concat(p) != "" && (Ended(Concat(p)) <==> Ended(p[|p| - 1]))
  {
    var n := |p| - 1;
    assert p == p[..n] + [p[n]];
    ConcatSnoc(p[..n], p[n]);
    assert Line(p[n]);
    assert Concat(p)[|Concat(p)| - 1] == p[n][|p[n]| - 1];
  }

  lemma CanonicalAppend(p: seq<string>, q: seq<string>)
    requires q != [] && Canonical(q)
    ensures Canonical(p + q) <==> AllEnded(p)
  {
    var n := |p + q| - 1;
    assert (p + q)[..n] == p + q[..|q| - 1];
    if AllEnded(p + q[..|q| - 1]) {
      forall i | 0 <= i < |p| ensures Ended(p[i]) {
        assert (p + q[..|q| - 1])[i] == p[i];
      }
    }
  }

  lemma AllEndedIff(p: seq<string>)
    requires Lines(p)
    ensures AllEnded(p) <==> Canonical(p) && (p == [] || Ended(Concat(p)))
  {
    if p != [] {
      LastChar(p);
      hide Line, Ended, Lines, Concat;
      assert p == p[..|p| - 1] + [p[|p| - 1]];
    }
  }

  /** The texts written hold no return. */
  predicate NoReturns(steps: seq<Step>) {
    forall i :: 0 <= i < |steps| && steps[i].Append? ==> '\r' !in steps[i].text
  }

  lemma {:induction false} RunHolds(steps: seq<Step>)
    requires NoReturns(steps)
    ensures TailHolds(Run(steps))
    ensures Canonical(Run(steps).read) <==> Clean(steps)
  {
    hide Lines, Canonical, AllEnded, Pieces, Concat, Universal;
    if steps == [] {
      assert Lines([]) && Canonical([]) && Concat([]) == "" by { NoLines(); }
    } else {
      var n := |steps| - 1;
      var t := Run(steps[..n]);
      RunHolds(steps[..n]);
      match steps[n] {
        case Append(text) => assert (t.file + text)[..t.pos] == t.file[..t.pos];
        case Poll => PollHolds(t);
      }
    }
  }

  lemma NoLines()
    ensures Lines([]) && Canonical([]) && Concat([]) == ""
  {
  }

  lemma PollHolds(t: Tail)
    requires TailHolds(t)
    ensures TailHolds(TailStep(t, Poll))
    ensures Canonical(TailStep(t, Poll).read) <==>
              Canonical(t.read) && (0 < t.pos < |t.file| ==> t.file[t.pos - 1] == '\n')
  {
    hide Lines, Canonical, AllEnded, Pieces, Concat, Universal;
    var unread := t.file[t.pos..];
    UniversalPlain(unread);
    PiecesAre(unread);
    ConcatAppend(t.read, Pieces(unread));
    assert t.file[..t.pos] + unread == t.file && t.file[..|t.file|] == t.file;
    LinesAppend(t.read, Pieces(unread));
    if unread == "" {
      assert t.read + [] == t.read;
    } else {
      CanonicalAppend(t.read, Pieces(unread));
      AllEndedIff(t.read);
      if t.pos == 0 {
        NothingRead(t.read);
      } else {
        assert t.file[..t.pos][t.pos - 1] == t.file[t.pos - 1];
        NoLines();
      }
    }
  }

  lemma LinesAppend(p: seq<string>, q: seq<string>)
    requires Lines(p) && Lines(q)
    ensures Lines(p + q)
  {
  }

  lemma NothingRead(p: seq<string>)
    requires Lines(p) && Concat(p) == ""
    ensures p == []
  {
    if p != [] {
      LastChar(p);
    }
  }

  /** In every run of appends without returns and polls the cursor is the length consumed, and what was
      read, end to end, is the consumed text. The lines read are the lines of that text exactly when no
      poll began in the middle of one. */
  lemma {:induction false} LinesReadIff(steps: seq<Step>)
    requires NoReturns(steps)
    ensures var t := Run(steps);
            && t.pos <= |t.file| && Concat(t.read) == t.file[..t.pos]
            && (t.read == Pieces(t.file[..t.pos]) <==> Clean(steps))
  {
    hide Pieces, Canonical, Lines, Concat, Clean;
    RunHolds(steps);
    var t := Run(steps);
    PiecesAre(t.file[..t.pos]);
    if Clean(steps) {
      PiecesUnique(t.read);
    }
  }

  predicate WholeLines(steps: seq<Step>) {
    forall i :: 0 <= i < |steps| && steps[i].Append? && steps[i].text != "" ==> Ended(steps[i].text)
  }

  ghost predicate AtLineEnd(t: Tail) {
    t.pos <= |t.file| && (t.pos > 0 ==> t.file[t.pos - 1] == '\n') && (t.file != "" ==> Ended(t.file))
    && '\r' !in t.file
  }

  lemma {:induction false} WholeLinesClean(steps: seq<Step>)
    requires WholeLines(steps) && NoReturns(steps)
    ensures Clean(steps) && AtLineEnd(Run(steps))
  {
    hide TailStep, Ended;
    if steps != [] {
      var n := |steps| - 1;
      WholeLinesClean(steps[..n]);
      StepAtLineEnd(Run(steps[..n]), steps[n]);
    }
  }

  lemma StepAtLineEnd(t: Tail, s: Step)
    requires AtLineEnd(t) && (s.Append? && s.text != "" ==> Ended(s.text)) && (s.Append? ==> '\r' !in s.text)
    ensures AtLineEnd(TailStep(t, s))
  {
    hide Pieces, Universal;
    UniversalPlain(t.file[t.pos..]);
  }

  // ---- Events ------------------------------------------------------------------------------------------------

  /** The events in a list of lines: blank lines and lines the reader rejects count for nothing. */
  function Events(parse: string -> Option<Event>, lines: seq<string>): seq<Event> {
    if lines == [] then []
    else
      var past, line := Events(parse, lines[..|lines| - 1]), Strip(lines[|lines| - 1]);
      if line != "" && parse(line).Some? then past + [parse(line).value] else past
  }

  function OfKind(events: seq<Event>, kind: string): seq<Event> {
    if events == [] then []
    else
      var past, e := OfKind(events[..|events| - 1], kind), events[|events| - 1];
      if e.kind == kind then past + [e] else past
  }

  /** When the sensor writes whole lines, each event of the consumed text has been taken in exactly once,
      in file order. */
  lemma EventsExactlyOnce(parse: string -> Option<Event>, steps: seq<Step>)
    requires WholeLines(steps) && NoReturns(steps)
    ensures var t := Run(steps);
            t.pos <= |t.file| && Events(parse, t.read) == Events(parse, Pieces(t.file[..t.pos]))
  {
    hide Events, Pieces, Clean, Run;
    WholeLinesClean(steps);
    LinesReadIff(steps);
  }

  /** A line seen half written is lost: neither half can be read. */
  lemma HalfLineLost(parse: string -> Option<Event>, a: char, b: char)
    requires !IsSpace(a) && !IsSpace(b) && parse([a]).None? && parse([b]).None? && parse([a, b]).Some?
    ensures var t := Run([Append([a]), Poll, Append([b, '\n']), Poll]);
            && t.file == [a, b, '\n'] && Events(parse, t.read) == []
            && Events(parse, Pieces(t.file)) == [parse([a, b]).value]
  {
    hide Strip, Pieces, Events;
    HalvesRead(a, b);
    Single([a, b, '\n']);
    StripsEnd(a, b);
    OneEvent(parse, [], [a]);
    OneEvent(parse, [[a]], [b, '\n']);
    OneEvent(parse, [], [a, b, '\n']);
    assert [[a]] + [[b, '\n']] == [[a], [b, '\n']] && [] + [[a]] == [[a]] && [] + [[a, b, '\n']] == [[a, b, '\n']];
    NoEvents(parse);
  }

  lemma NoEvents(parse: string -> Option<Event>)
    ensures Events(parse, []) == []
  {
  }

  lemma OneEvent(parse: string -> Option<Event>, past: seq<string>, line: string)
    ensures Events(parse, past + [line])
         == if Strip(line) != "" && parse(Strip(line)).Some? then Events(parse, past) + [parse(Strip(line)).value]
            else Events(parse, past)
  {
    hide Strip;
    assert (past + [line])[..|past|] == past;
  }

  lemma HalvesRead(a: char, b: char)
    requires !IsSpace(a) && !IsSpace(b)
    ensures var t := Run([Append([a]), Poll, Append([b, '\n']), Poll]);
            t.file == [a, b, '\n'] && t.read == [[a], [b, '\n']]
  {
    hide Pieces, TailStep, Run;
    var x, y := Append([a]), Append([b, '\n']);
    var s1, s2, s3 := [x], [x, Poll], [x, Poll, y];
    assert Run(s1) == Tail([a], 0, []) by {
      NothingRun();
      RunOne([], x);
      AppendWrites("", 0, [], [a]);
      assert [] + [x] == s1 && "" + [a] == [a];
    }
    assert Run(s2) == Tail([a], 1, [[a]]) by {
      RunOne(s1, Poll);
      PollReads([a], 0, []);
      Single([a]);
      assert s1 + [Poll] == s2 && [a][0..] == [a] && [] + [[a]] == [[a]];
    }
    assert Run(s3) == Tail([a, b, '\n'], 1, [[a]]) by {
      RunOne(s2, y);
      AppendWrites([a], 1, [[a]], [b, '\n']);
      assert s2 + [y] == s3 && [a] + [b, '\n'] == [a, b, '\n'];
    }
    RunOne(s3, Poll);
    PollReads([a, b, '\n'], 1, [[a]]);
    Single([b, '\n']);
    assert s3 + [Poll] == [x, Poll, y, Poll] && [a, b, '\n'][1..] == [b, '\n'];
    assert [[a]] + [[b, '\n']] == [[a], [b, '\n']];
  }

  lemma NothingRun()
    ensures Run([]) == Tail("", 0, [])
  {
  }

  lemma RunOne(steps: seq<Step>, s: Step)
    ensures Run(steps + [s]) == TailStep(Run(steps), s)
  {
    hide TailStep;
    assert (steps + [s])[..|steps|] == steps;
  }

  lemma PollReads(file: string, pos: nat, read: seq<string>)
    requires pos <= |file| && '\r' !in file
    ensures TailStep(Tail(file, pos, read), Poll) == Tail(file, |file|, read + Pieces(file[pos..]))
  {
    hide Pieces, Universal;
    UniversalPlain(file[pos..]);
  }

  lemma AppendWrites(file: string, pos: nat, read: seq<string>, text: string)
    ensures TailStep(Tail(file, pos, read), Append(text)) == Tail(file + text, pos, read)
  {
    hide Pieces;
  }

  lemma Single(line: string)
    requires Line(line)
    ensures Pieces(line) == [line]
  {
    assert Concat([line]) == line;
    PiecesUnique([line]);
  }

  lemma StripsEnd(a: char, b: char)
    requires !IsSpace(a) && !IsSpace(b)
    ensures Strip([a]) == [a] && Strip([b, '\n']) == [b] && Strip([a, b, '\n']) == [a, b]
  {
    StripEnds([a]);
    StripEnds([b]);
    StripEnds([a, b]);
    StripTrailing([b], '\n');
    StripTrailing([a, b], '\n');
    assert [b] + ['\n'] == [b, '\n'] && [a, b] + ['\n'] == [a, b, '\n'];
  }

  // ---- The tailer ------------------------------------------------------------------------------------------

  const RING := 2000

  lemma OneOfKind(events: seq<Event>, e: Event, kind: string)
    ensures OfKind(events + [e], kind) == if e.kind == kind then OfKind(events, kind) + [e] else OfKind(events, kind)
  {
    assert (events + [e])[..|events|] == events;
  }

  lemma PiecesStep(t: string)
    requires t != ""
    ensures Pieces(t) == [FirstLine(t)] + Pieces(t[|FirstLine(t)|..])
  {
  }

  class Tailer {
    const parse: string -> Option<Event>
    var pos: nat
    var alerts: seq<Event>
    var flows: seq<Event>
    ghost var read: seq<string>
    ghost var broadcast: seq<Event>

    constructor (parse: string -> Option<Event>)
      ensures Valid() && this.parse == parse && pos == 0 && read == []
    {
      this.parse, pos, alerts, flows, read, broadcast := parse, 0, [], [], [], [];
    }

    /** The rings hold the last alert and flow events of the lines read; every alert was broadcast. */
    ghost predicate Valid()
      reads this
    {
      && alerts == LastN(OfKind(Events(parse, read), "alert"), 2000)
      && flows == LastN(OfKind(Events(parse, read), "flow"), 2000)
      && broadcast == OfKind(Events(parse, read), "alert")
    }

    /** Takes one line in. */
    method Ingest(line: string)
      requires Valid()
      modifies this`alerts, this`flows, this`read, this`broadcast
      ensures Valid() && read == old(read) + [line]
    {
      hide Strip, Events, OfKind, LastN, Appended;
      OneEvent(parse, read, line);
      ghost var past := Events(parse, read);
      read := read + [line];
      var text := Strip(line);
      if text == "" {
        return;
      }
      var event := parse(text);
      if event == None {
        return;
      }
      var e := event.value;
      OneOfKind(past, e, "alert");
      OneOfKind(past, e, "flow");
      AppendedIsLast(OfKind(past, "alert"), e, RING);
      AppendedIsLast(OfKind(past, "flow"), e, RING);
      if e.kind == "alert" {
        alerts := Appended(alerts, e, RING);
        broadcast := broadcast + [e];
      } else if e.kind == "flow" {
        flows := Appended(flows, e, RING);
      }
    }

    /** One poll: from the cursor, or from the start of a file that shrank, line by line to the end. */
    method PollFile(file: string)
      requires Valid()
      modifies this
      ensures Valid()
      ensures Tail(file, pos, read) == TailStep(Tail(file, old(pos), old(read)), Poll)
    {
      hide Pieces, FirstLine, Universal, Events, OfKind;
      if |file| < pos {
        pos := 0;
      }
      ghost var from, before := pos, read;
      var rest := Universal(file[pos..]);
      ghost var text := rest;
      while rest != ""
        invariant Valid() && pos + |rest| == from + |text|
        invariant read + Pieces(rest) == before + Pieces(text)
        decreases |rest|
      {
        var line := FirstLine(rest);
        FirstLineIs(rest);
        PiecesStep(rest);
        Regroup(read, line, Pieces(rest[|line|..]));
        Ingest(line);
        pos := pos + |line|;
        rest := rest[|line|..];
      }
      NoPieces();
      assert read + [] == read;
    }
  }

  lemma Regroup(read: seq<string>, line: string, more: seq<string>)
    ensures read + ([line] + more) == read + [line] + more
  {
  }

  lemma NoPieces()
    ensures Pieces("") == []
  {
  }
}
