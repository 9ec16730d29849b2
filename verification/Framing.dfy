/** NETCONF message framing (RFC 6242, sections 4.2 and 4.3) as the server reads and writes it:
    a receiver that keeps a text buffer across reads, a chunk decoder, and the theorems that
    connect them to the sender however the transport cuts the stream. */
module Framing {
  import opened Text

  const END_OF_MESSAGE := "]]>]]>"
  const END_OF_CHUNKS := "\n##\n"

  // ---- Writing --------------------------------------------------------------

  function SizeLine(size: nat): string {
    "#" + Decimal(size) + "\n"
  }

  function ChunkHeader(size: nat): string {
    "\n" + SizeLine(size)
  }

  /** The chunks of one message, without the end-of-chunks mark. */
  function Chunks(parts: seq<string>): string {
    if parts == [] then "" else ChunkHeader(|parts[0]|) + parts[0] + Chunks(parts[1..])
  }

  /** What the server writes for one response. */
  function Frame(chunked: bool, response: string): string {
    if chunked then ChunkHeader(|response|) + response + END_OF_CHUNKS
    else response + "\n" + END_OF_MESSAGE
  }

  // ---- The chunk decoder ----------------------------------------------------

  /** A readable size field: where its chunk starts, and the size. */
  datatype Field = Field(start: nat, size: int)

  function SizeField(msg: string, pos: nat): (field: Option<Field>)
    requires pos < |msg| && msg[pos] == '#'
    ensures field.Some? ==> pos < field.value.start
  {
    var newline := Find(msg, "\n", pos);
    if newline == -1 then None
    else match ParseInt(msg[pos + 1..newline])
      case None => None
      case Some(size) => Some(Field(newline + 1, size))
  }

  /** One turn of the decoding loop: leave it, or move to `pos` having copied `chunk`. */
  datatype Turn = Leave | Move(pos: int, chunk: string)

  /** The place a position stands for: a negative one counts from the end. */
  function Place(msg: string, pos: int): nat
    requires -|msg| <= pos < |msg|
  {
    if pos < 0 then |msg| + pos else pos
  }

  function NextTurn(msg: string, pos: int): (turn: Turn)
    requires -|msg| <= pos < |msg|
    ensures turn.Move? ==> turn.pos >= -|msg|
  {
    if At(msg, pos) != '#' then Move(pos + 1, "")
    else match SizeField(msg, Place(msg, pos))
      case None => Leave
      case Some(Field(start, size)) =>
        var end := start + size;
        if end < -|msg| then Leave
        else Move(if end < |msg| && At(msg, end) == '\n' then end + 1 else end,
                  Slice(msg, start, end))
  }

  /** What the loop has copied once it has ended, if it ends within so many turns. */
  function Scan(msg: string, pos: int, turns: nat): Option<string>
    requires pos >= -|msg|
    decreases turns
  {
    if pos >= |msg| then Some("")
    else if turns == 0 then None
    else match NextTurn(msg, pos)
      case Leave => Some("")
      case Move(next, chunk) =>
        match Scan(msg, next, turns - 1)
        case None => None
        case Some(rest) => Some(chunk + rest)
  }

  /** The decoded text, or nothing because the loop never ends. */
  datatype Decoded = Plain(text: string) | Endless

  /** The loop has twice as many positions as the text has characters: in so many turns it has ended, or
      it never will. */
  function Decode(msg: string, pos: int): Decoded
    requires pos >= -|msg|
  {
    match Scan(msg, pos, 2 * |msg|)
    case Some(text) => Plain(text)
    case None => Endless
  }

  function DropNewlines(s: string): string {
    if s != "" && s[0] == '\n' then DropNewlines(s[1..]) else s
  }

  /** Everything before the end-of-chunks mark, decoded and stripped. */
  function ChunkedPayload(body: string): Decoded {
    match Decode(DropNewlines(body), 0)
    case Plain(text) => Plain(Strip(text))
    case Endless => Endless
  }

  /** The decoding loop, with its position and its list of pieces. Where the source would go round for
      ever, it stops at the turn that shows it. */
  method DecodeChunks(msg: string) returns (r: Decoded)
    ensures r == Decode(msg, 0)
  {
    hide NextTurn;
    var decoded: seq<string> := [];
    var pos, left := 0, 2 * |msg|;
    PrefixedByNothing(Scan(msg, 0, left));
    while pos < |msg| && left > 0
      invariant pos >= -|msg| && left >= 0
      invariant Scan(msg, 0, 2 * |msg|) == Prefixed(Concat(decoded), Scan(msg, pos, left))
      decreases left
    {
      match NextTurn(msg, pos) {
        case Leave =>
          return Plain(Concat(decoded));
        case Move(next, chunk) =>
          PrefixedTwice(Concat(decoded), chunk, Scan(msg, next, left - 1));
          ConcatSnoc(decoded, chunk);
          decoded := decoded + [chunk];
          pos, left := next, left - 1;
      }
    }
    if pos < |msg| {
      return Endless;
    }
    r := Plain(Concat(decoded));
  }

  function Prefixed(text: string, scan: Option<string>): Option<string> {
    match scan
    case None => None
    case Some(rest) => Some(text + rest)
  }

  lemma PrefixedByNothing(scan: Option<string>)
    ensures Prefixed("", scan) == scan
  {
    if scan.Some? {
      assert "" + scan.value == scan.value;
    }
  }

  lemma {:induction false} PrefixedTwice(a: string, b: string, scan: Option<string>)
    ensures Prefixed(a, Prefixed(b, scan)) == Prefixed(a + b, scan)
  {
    if scan.Some? {
      Assoc(a, b, scan.value);
    }
  }

  function Prepend(text: string, d: Decoded): Decoded {
    match d
    case Plain(rest) => Plain(text + rest)
    case Endless => Endless
  }

  // ---- When the scan ends -----------------------------------------------------

  /** Where the loop is after so many turns; `|msg|` or more once it has ended. */
  function After(msg: string, pos: int, turns: nat): int
    decreases turns
  {
    if turns == 0 || !(-|msg| <= pos < |msg|) then pos
    else match NextTurn(msg, pos)
      case Leave => |msg|
      case Move(next, _) => After(msg, next, turns - 1)
  }

  lemma {:induction false} AfterAfter(msg: string, pos: int, a: nat, b: nat)
    requires pos >= -|msg|
    ensures After(msg, pos, a + b) == After(msg, After(msg, pos, a), b)
    decreases a
  {
    hide NextTurn;
    if a > 0 && pos < |msg| && NextTurn(msg, pos).Move? {
      AfterAfter(msg, NextTurn(msg, pos).pos, a - 1, b);
    }
  }

  lemma {:induction false} ScanIffAfter(msg: string, pos: int, turns: nat)
    requires pos >= -|msg|
    ensures Scan(msg, pos, turns).Some? <==> After(msg, pos, turns) >= |msg|
    decreases turns
  {
    hide NextTurn;
    if turns > 0 && pos < |msg| && NextTurn(msg, pos).Move? {
      ScanIffAfter(msg, NextTurn(msg, pos).pos, turns - 1);
    }
  }

  /** More turns add nothing to a scan that has ended. */
  lemma {:induction false} ScanMore(msg: string, pos: int, turns: nat, more: nat)
    requires pos >= -|msg| && turns <= more && Scan(msg, pos, turns).Some?
    ensures Scan(msg, pos, more) == Scan(msg, pos, turns)
    decreases turns
  {
    hide NextTurn;
    if pos < |msg| && NextTurn(msg, pos).Move? {
      ScanMore(msg, NextTurn(msg, pos).pos, turns - 1, more - 1);
    }
  }

  /** More numbers than the range they come from has places: two of them are equal. */
  lemma {:induction false} Pigeonhole(s: seq<int>, lo: int, hi: int) returns (i: nat, j: nat)
    requires lo <= hi && |s| > hi - lo && forall k :: 0 <= k < |s| ==> lo <= s[k] < hi
    ensures i < j < |s| && s[i] == s[j]
    decreases hi - lo
  {
    var n := |s| - 1;
    if x :| 0 <= x < n && s[x] == s[n] {
      i, j := x, n;
    } else {
      var rest := seq(n, k requires 0 <= k < n => if s[k] == hi - 1 then s[n] else s[k]);
      i, j := Pigeonhole(rest, lo, hi - 1);
    }
  }

  /** A loop that is at one position twice comes to nothing it did not come to before: what it reaches in
      `turns` it reached without the round between. */
  lemma {:induction false} RoundsLeadNowhere(msg: string, pos: int, i: nat, j: nat, turns: nat)
    requires pos >= -|msg| && i < j <= turns && After(msg, pos, i) == After(msg, pos, j)
    ensures After(msg, pos, turns) == After(msg, pos, turns - (j - i))
  {
    AfterAfter(msg, pos, j, turns - j);
    AfterAfter(msg, pos, i, turns - j);
  }

  lemma {:induction false} EndedStays(msg: string, pos: int, turns: nat, more: nat)
    requires pos >= -|msg| && turns <= more && After(msg, pos, turns) >= |msg|
    ensures After(msg, pos, more) >= |msg|
  {
    AfterAfter(msg, pos, turns, more - turns);
  }

  /** So a scan that ends at all has ended when every position may have been visited once. */
  lemma {:induction false} EndsInTime(msg: string, pos: int, turns: nat)
    requires pos >= -|msg| && After(msg, pos, turns) >= |msg|
    ensures After(msg, pos, 2 * |msg|) >= |msg|
    decreases turns
  {
    hide After;
    var n := 2 * |msg|;
    if turns <= n {
      EndedStays(msg, pos, turns, n);
    } else if After(msg, pos, n) < |msg| {
      forall k | 0 <= k <= n ensures -|msg| <= After(msg, pos, k) < |msg| {
        AfterInRange(msg, pos, k);
        if After(msg, pos, k) >= |msg| {
          EndedStays(msg, pos, k, n);
        }
      }
      var trail := seq(n + 1, k requires 0 <= k <= n => After(msg, pos, k));
      var i, j := Pigeonhole(trail, -|msg|, |msg|);
      RoundsLeadNowhere(msg, pos, i, j, turns);
      EndsInTime(msg, pos, turns - (j - i));
    }
  }

  lemma {:induction false} AfterInRange(msg: string, pos: int, turns: nat)
    requires pos >= -|msg|
    ensures After(msg, pos, turns) >= -|msg|
    decreases turns
  {
    hide SizeField;
    if turns > 0 && pos < |msg| && NextTurn(msg, pos).Move? {
      AfterInRange(msg, NextTurn(msg, pos).pos, turns - 1);
    }
  }

  /** The scan ends, whichever way its turns lead, if and only if it has ended after twice as many turns as
      the text has characters; and what it then has copied is what it ends with. */
  lemma {:induction false} ScanEndsIff(msg: string, pos: int)
    requires pos >= -|msg|
    ensures (exists turns: nat :: Scan(msg, pos, turns).Some?) <==> Decode(msg, pos).Plain?
    ensures forall turns: nat :: Scan(msg, pos, turns).Some? ==> Decode(msg, pos) == Plain(Scan(msg, pos, turns).value)
  {
    hide After;
    forall turns: nat | Scan(msg, pos, turns).Some?
      ensures Decode(msg, pos) == Plain(Scan(msg, pos, turns).value)
    {
      ScanIffAfter(msg, pos, turns);
      EndsInTime(msg, pos, turns);
      ScanIffAfter(msg, pos, 2 * |msg|);
      if turns <= 2 * |msg| {
        ScanMore(msg, pos, turns, 2 * |msg|);
      } else {
        ScanMore(msg, pos, 2 * |msg|, turns);
      }
    }
    if Decode(msg, pos).Plain? {
      assert Scan(msg, pos, 2 * |msg|).Some?;
    }
  }

  /** And if and only if it is at no position twice before it ends. */
  lemma {:induction false} EndsIffNoReturn(msg: string, pos: int)
    requires pos >= -|msg|
    ensures Decode(msg, pos).Plain? <==>
              forall i: nat, j: nat :: i < j && After(msg, pos, i) == After(msg, pos, j) ==> After(msg, pos, i) >= |msg|
  {
    hide After;
    var n := 2 * |msg|;
    ScanIffAfter(msg, pos, n);
    if After(msg, pos, n) < |msg| {
      forall k | 0 <= k <= n ensures -|msg| <= After(msg, pos, k) < |msg| {
        AfterInRange(msg, pos, k);
        if After(msg, pos, k) >= |msg| {
          EndedStays(msg, pos, k, n);
        }
      }
      var trail := seq(n + 1, k requires 0 <= k <= n => After(msg, pos, k));
      var i, j := Pigeonhole(trail, -|msg|, |msg|);
      assert i < j <= n && After(msg, pos, i) == trail[i] == trail[j] == After(msg, pos, j);
      assert After(msg, pos, i) < |msg|;
      assert !Decode(msg, pos).Plain?;
    } else {
      forall i: nat, j: nat | i < j && After(msg, pos, i) == After(msg, pos, j) ensures After(msg, pos, i) >= |msg| {
        NeverBack(msg, pos, i, j, n);
      }
    }
  }

  lemma {:induction false} NeverBack(msg: string, pos: int, i: nat, j: nat, turns: nat)
    requires pos >= -|msg| && i < j && After(msg, pos, i) == After(msg, pos, j) && After(msg, pos, turns) >= |msg|
    ensures After(msg, pos, i) >= |msg|
    decreases turns
  {
    hide After;
    if turns <= i {
      EndedStays(msg, pos, turns, i);
    } else if turns < j {
      EndedStays(msg, pos, turns, j);
    } else {
      RoundsLeadNowhere(msg, pos, i, j, turns);
      NeverBack(msg, pos, i, j, turns - (j - i));
    }
  }

  /** One turn of a scan, forwards or backwards. */
  lemma {:induction false} DecodeTurn(msg: string, pos: int)
    requires -|msg| <= pos < |msg| && NextTurn(msg, pos).Move?
    ensures Decode(msg, pos) == Prepend(NextTurn(msg, pos).chunk, Decode(msg, NextTurn(msg, pos).pos))
  {
    hide NextTurn;
    var n, next, chunk := 2 * |msg|, NextTurn(msg, pos).pos, NextTurn(msg, pos).chunk;
    ScanEndsIff(msg, pos);
    if Scan(msg, next, n).Some? {
      assert Scan(msg, pos, n + 1) == Some(chunk + Scan(msg, next, n).value);
    } else {
      OnceEnded(msg, next, n - 1);
    }
  }

  lemma OnceEnded(msg: string, pos: int, turns: nat)
    requires pos >= -|msg|
    ensures Scan(msg, pos, turns).Some? ==> Scan(msg, pos, turns + 1).Some?
  {
    if Scan(msg, pos, turns).Some? {
      ScanMore(msg, pos, turns, turns + 1);
    }
  }

  /** A turn that reads a size field moves forward exactly when the size is larger than minus
      the length of the header it stands in; every unsigned size is. */
  lemma {:induction false} ForwardIff(msg: string, pos: nat)
    requires pos < |msg| && msg[pos] == '#' && NextTurn(msg, pos).Move?
    ensures var field := SizeField(msg, pos).value;
            NextTurn(msg, pos).pos > pos <==> field.size > -(field.start - pos)
  {
    var field := SizeField(msg, pos).value;
    if field.start + field.size == pos {
      assert At(msg, pos) == '#';
    }
  }

  /** Along the scan from `pos`, every header it visits carries a size larger than minus the header's own
      length. What stands inside a chunk is never looked at. */
  predicate HeadersMoveOn(msg: string, pos: nat)
    decreases |msg| - pos
  {
    pos >= |msg| ||
    match NextTurn(msg, pos)
    case Leave => true
    case Move(next, _) =>
      && (msg[pos] == '#' ==> SizeField(msg, pos).value.size > -(SizeField(msg, pos).value.start - pos))
      && (next > pos ==> HeadersMoveOn(msg, next))
  }

  /** The turn after `k` turns, if there is one, goes forward. */
  predicate Rises(msg: string, pos: nat, k: nat) {
    After(msg, pos, k) < |msg| ==> After(msg, pos, k) < After(msg, pos, k + 1)
  }

  /** They all do exactly when the scan never turns back. */
  lemma {:induction false} MovesOnIff(msg: string, pos: nat)
    ensures HeadersMoveOn(msg, pos) <==> forall k: nat :: Rises(msg, pos, k)
    decreases |msg| - pos
  {
    hide SizeField, HeadersMoveOn, After;
    if pos >= |msg| {
      NothingToVisit(msg, pos);
      forall k: nat ensures After(msg, pos, k) >= |msg| {
        EndedStays(msg, pos, 0, k);
      }
    } else {
      FirstVisit(msg, pos);
      var turn := NextTurn(msg, pos);
      if turn.Leave? {
        forall k: nat | k > 0 ensures After(msg, pos, k) >= |msg| {
          AfterLeave(msg, pos, k);
        }
      } else {
        forall k: nat ensures After(msg, pos, k + 1) == After(msg, turn.pos, k) {
          AfterMove(msg, pos, k);
        }
        if turn.pos > pos {
          MovesOnIff(msg, turn.pos);
          MovesOnTail(msg, pos, turn.pos);
        } else {
          AfterMove(msg, pos, 0);
          assert !Rises(msg, pos, 0);
        }
      }
    }
  }

  lemma NothingToVisit(msg: string, pos: nat)
    requires pos >= |msg|
    ensures HeadersMoveOn(msg, pos) && After(msg, pos, 0) == pos
  {
  }

  lemma FirstVisit(msg: string, pos: nat)
    requires pos < |msg|
    ensures HeadersMoveOn(msg, pos) <==>
              var turn := NextTurn(msg, pos); turn.Move? ==> turn.pos > pos && HeadersMoveOn(msg, turn.pos)
    ensures After(msg, pos, 0) == pos
    ensures NextTurn(msg, pos).Move? ==> After(msg, NextTurn(msg, pos).pos, 0) == NextTurn(msg, pos).pos
  {
    hide SizeField;
    if NextTurn(msg, pos).Move? && msg[pos] == '#' {
      ForwardIff(msg, pos);
    }
  }

  lemma AfterLeave(msg: string, pos: int, k: nat)
    requires -|msg| <= pos < |msg| && NextTurn(msg, pos).Leave? && k > 0
    ensures After(msg, pos, k) == |msg|
  {
  }

  lemma AfterMove(msg: string, pos: int, k: nat)
    requires -|msg| <= pos < |msg| && NextTurn(msg, pos).Move?
    ensures After(msg, pos, k + 1) == After(msg, NextTurn(msg, pos).pos, k)
  {
  }

  lemma MovesOnTail(msg: string, pos: nat, next: nat)
    requires pos < |msg| && pos < next && After(msg, pos, 0) == pos && After(msg, next, 0) == next
    requires forall k: nat :: After(msg, pos, k + 1) == After(msg, next, k)
    ensures (forall k: nat :: Rises(msg, pos, k)) <==> forall k: nat :: Rises(msg, next, k)
  {
    hide After;
    if forall k: nat :: Rises(msg, pos, k) {
      forall k: nat ensures Rises(msg, next, k) {
        assert Rises(msg, pos, k + 1);
        assert After(msg, pos, k + 1) == After(msg, next, k) && After(msg, pos, k + 1 + 1) == After(msg, next, k + 1);
      }
    }
    if forall k: nat :: Rises(msg, next, k) {
      forall k: nat ensures Rises(msg, pos, k) {
        assert After(msg, pos, k + 1) == After(msg, next, k);
        if k > 0 {
          assert Rises(msg, next, k - 1);
          assert After(msg, pos, k - 1 + 1) == After(msg, next, k - 1);
        }
      }
    }
  }

  /** Then it ends. It may end otherwise too. */
  lemma {:induction false} MovingOnEnds(msg: string, pos: nat)
    requires HeadersMoveOn(msg, pos)
    ensures Decode(msg, pos).Plain?
    decreases |msg| - pos
  {
    hide SizeField, Scan;
    if pos >= |msg| {
      ScanPastEnd(msg, pos);
    } else if NextTurn(msg, pos).Leave? {
      ScanLeaves(msg, pos);
    } else {
      if msg[pos] == '#' {
        ForwardIff(msg, pos);
      }
      DecodeTurn(msg, pos);
      MovingOnEnds(msg, NextTurn(msg, pos).pos);
    }
  }

  lemma ScanPastEnd(msg: string, pos: int)
    requires pos >= |msg|
    ensures Decode(msg, pos) == Plain("")
  {
  }

  lemma ScanLeaves(msg: string, pos: int)
    requires -|msg| <= pos < |msg| && NextTurn(msg, pos).Leave?
    ensures Decode(msg, pos) == Plain("")
  {
  }

  /** Along the scan from `pos`, every size is unsigned, as the grammar of section 4.2 demands. */
  predicate UnsignedSizes(msg: string, pos: nat)
    decreases |msg| - pos
  {
    pos >= |msg| ||
    match NextTurn(msg, pos)
    case Leave => true
    case Move(next, _) =>
      && (msg[pos] == '#' ==> SizeField(msg, pos).value.size >= 0)
      && (next > pos ==> UnsignedSizes(msg, next))
  }

  /** With unsigned sizes the scan always reaches its end. */
  lemma {:induction false} UnsignedSizesDecode(msg: string, pos: nat)
    requires UnsignedSizes(msg, pos)
    ensures HeadersMoveOn(msg, pos) && Decode(msg, pos).Plain?
    decreases |msg| - pos
  {
    hide SizeField, Decode;
    if pos < |msg| && NextTurn(msg, pos).Move? {
      if msg[pos] == '#' {
        ForwardIff(msg, pos);
      }
      UnsignedSizesDecode(msg, NextTurn(msg, pos).pos);
    }
    MovingOnEnds(msg, pos);
  }

  lemma {:induction false} NewlineAt(msg: string, pos: nat, newline: nat)
    requires pos <= newline < |msg| && msg[newline] == '\n'
    requires forall i :: pos <= i < newline ==> msg[i] != '\n'
    ensures Find(msg, "\n", pos) == newline
  {
    forall i | pos <= i < newline ensures !MatchAt(msg, "\n", i) {
      assert msg[i..i + 1] == [msg[i]];
    }
    assert msg[newline..newline + 1] == "\n";
    assert MatchAt(msg, "\n", newline);
  }

  lemma {:induction false} StaysPut(msg: string, pos: int, turns: nat)
    requires -|msg| <= pos < |msg| && NextTurn(msg, pos) == Move(pos, "")
    ensures Scan(msg, pos, turns) == None
    decreases turns
  {
    if turns > 0 {
      StaysPut(msg, pos, turns - 1);
    }
  }

  /** A signed size can keep the loop where it is, for ever: the turn at 0 leads back to 0. */
  lemma {:induction false} SignedSizeSpins()
    ensures NextTurn("#-4\n", 0) == Move(0, "")
    ensures ChunkedPayload("\n#-4\n") == Endless
  {
    var msg := "#-4\n";
    assert msg[0] == '#' && msg[1] == '-' && msg[2] == '4' && msg[3] == '\n';
    NewlineAt(msg, 0, 3);
    assert msg[1..3] == "-4";
    assert Strip("-4") == "-4" by { StripEnds("-4"); }
    assert "-4"[1..] == "4";
    assert ParseInt("-4") == Some(-4);
    StaysPut(msg, 0, 2 * |msg|);
    assert DropNewlines("\n#-4\n") == "\n#-4\n"[1..] == msg;
  }

  /** It can also lead back and still end: the second header sends the scan into the first chunk, where it
      finds a size it cannot read. */
  lemma {:induction false} TurnsBackAndEnds()
    ensures BACKWARD == "#4\n#zz\n#-8\n" && !HeadersMoveOn(BACKWARD, 0)
    ensures ChunkedPayload("\n" + BACKWARD) == Plain("#zz")
  {
    hide Decode, NextTurn, SizeField, HeadersMoveOn;
    BackwardTurns();
    BackwardHeaders();
    DecodeTurn(BACKWARD, 0);
    DecodeTurn(BACKWARD, 7);
    ScanLeaves(BACKWARD, 3);
    assert "#zz\n" + ("" + "") == "#zz\n";
    assert Decode(BACKWARD, 0) == Plain("#zz\n");
    BackwardFields();
    DropOneNewline(BACKWARD);
    StripEnds("#zz");
    StripTrailing("#zz", '\n');
    assert "#zz" + ['\n'] == "#zz\n";
  }

  lemma DropOneNewline(msg: string)
    requires msg != "" && msg[0] != '\n'
    ensures DropNewlines("\n" + msg) == msg
  {
    assert ("\n" + msg)[1..] == msg;
    assert DropNewlines(msg) == msg;
  }

  lemma BackwardHeaders()
    ensures !HeadersMoveOn(BACKWARD, 0)
  {
    hide NextTurn, SizeField;
    BackwardTurns();
    BackwardFields();
    assert !HeadersMoveOn(BACKWARD, 7);
  }

  lemma SizesRead()
    ensures ParseInt("4") == Some(4) && ParseInt("-8") == Some(-8) && ParseInt("zz") == None
  {
    StripEnds("4");
    StripEnds("-8");
    StripEnds("zz");
    assert "-8"[1..] == "8";
  }

  const BACKWARD := "#4\n#zz\n#-8\n"

  lemma BackwardTexts()
    ensures |BACKWARD| == 11 && BACKWARD[0] == '#' && BACKWARD[3] == '#' && BACKWARD[7] == '#'
    ensures BACKWARD[2] == '\n' && BACKWARD[6] == '\n' && BACKWARD[10] == '\n'
    ensures forall i :: 0 <= i < 11 && i != 2 && i != 6 && i != 10 ==> BACKWARD[i] != '\n'
    ensures BACKWARD[1..2] == "4" && BACKWARD[4..6] == "zz" && BACKWARD[8..10] == "-8" && BACKWARD[3..7] == "#zz\n"
  {
    assert BACKWARD[1] == '4' && BACKWARD[4] == 'z' && BACKWARD[5] == 'z' && BACKWARD[8] == '-' && BACKWARD[9] == '8';
    assert BACKWARD[4..6] == [BACKWARD[4], BACKWARD[5]] && BACKWARD[8..10] == [BACKWARD[8], BACKWARD[9]];
    assert BACKWARD[1..2] == [BACKWARD[1]];
    assert BACKWARD[3..7] == [BACKWARD[3], BACKWARD[4], BACKWARD[5], BACKWARD[6]];
  }

  lemma BackwardFields()
    ensures |BACKWARD| == 11 && BACKWARD[0] == '#' && BACKWARD[3] == '#' && BACKWARD[7] == '#' && BACKWARD[10] == '\n'
    ensures SizeField(BACKWARD, 0) == Some(Field(3, 4)) && SizeField(BACKWARD, 7) == Some(Field(11, -8))
    ensures SizeField(BACKWARD, 3) == None
  {
    hide ParseInt, Find, BACKWARD;
    BackwardTexts();
    NewlineAt(BACKWARD, 0, 2);
    NewlineAt(BACKWARD, 7, 10);
    NewlineAt(BACKWARD, 3, 6);
    SizesRead();
  }

  lemma BackwardTurns()
    ensures |BACKWARD| == 11
    ensures NextTurn(BACKWARD, 0) == Move(7, "#zz\n") && NextTurn(BACKWARD, 7) == Move(3, "")
    ensures NextTurn(BACKWARD, 3) == Leave
  {
    hide SizeField, BACKWARD;
    BackwardTexts();
    BackwardFields();
  }

  // ---- The decoder inverts every chunking -------------------------------------

  /** A size line printed by the sender is read back with its size. */
  lemma {:induction false} SizeFieldReadsLine(msg: string, left: string, size: nat, right: string)
    requires msg == left + SizeLine(size) + right
    ensures msg[|left|] == '#'
    ensures SizeField(msg, |left|) == Some(Field(|left| + |SizeLine(size)|, size))
  {
    var digits := Decimal(size);
    var newline := |left| + 1 + |digits|;
    forall j | |left| <= j <= newline ensures msg[j] == SizeLine(size)[j - |left|] {
    }
    assert MatchAt(msg, "\n", newline);
    forall j | |left| <= j < newline ensures !MatchAt(msg, "\n", j) {
      assert msg[j] != '\n';
    }
    assert Find(msg, "\n", |left|) == newline;
    assert msg[|left| + 1..newline] == digits;
    ParseIntDecimal(size);
  }

  lemma {:induction false} FirstTurn(msg: string, left: string, part: string, rest: string)
    requires msg == left + SizeLine(|part|) + (part + rest)
    requires rest == "" || rest[0] == '\n'
    ensures var end := |left| + |SizeLine(|part|)| + |part|;
            && |left| < end <= |msg| && (rest == "" ==> end == |msg|)
            && NextTurn(msg, |left|) == Move(if rest == "" then end else end + 1, part)
  {
    hide SizeField;
    SizeFieldReadsLine(msg, left, |part|, part + rest);
    var start := |left| + |SizeLine(|part|)|;
    assert msg[start..] == part + rest;
    assert msg[start..start + |part|] == part;
    assert rest != "" ==> msg[start + |part|] == rest[0];
  }

  /** Past one chunk, the scan goes on at the next header, or at the end. */
  lemma {:induction false} DecodeOneChunk(msg: string, left: string, part: string, rest: string)
    requires msg == left + SizeLine(|part|) + (part + rest)
    requires rest == "" || rest[0] == '\n'
    ensures var end := |left| + |SizeLine(|part|)| + |part|;
            && end <= |msg|
            && Decode(msg, |left|) == Prepend(part, if rest == "" then Plain("") else Decode(msg, end + 1))
  {
    hide NextTurn, SizeLine;
    FirstTurn(msg, left, part, rest);
    DecodeTurn(msg, |left|);
  }

  /** The text of the chunks after the first newline: a size line, a chunk, and what follows. */
  lemma {:induction false} SplitHeader(parts: seq<string>)
    requires parts != []
    ensures Chunks(parts)[1..] == SizeLine(|parts[0]|) + (parts[0] + Chunks(parts[1..]))
    ensures parts[1..] != [] ==> Chunks(parts[1..])[0] == '\n'
  {
    hide SizeLine;
    var line, part, rest := SizeLine(|parts[0]|), parts[0], Chunks(parts[1..]);
    assert Chunks(parts) == "\n" + line + part + rest;
    Assoc("\n" + line, part, rest);
    assert ("\n" + line + (part + rest))[1..] == line + (part + rest);
  }

  lemma {:induction false} DecodeChunksFrom(msg: string, left: string, parts: seq<string>)
    requires parts != [] && msg == left + Chunks(parts)[1..]
    ensures Decode(msg, |left|) == Plain(Concat(parts))
    decreases |parts|
  {
    hide NextTurn, SizeLine;
    var line, part, rest := SizeLine(|parts[0]|), parts[0], Chunks(parts[1..]);
    SplitHeader(parts);
    Assoc(left, line, part + rest);
    DecodeOneChunk(msg, left, part, rest);
    if parts[1..] != [] {
      NextHeader(msg, left + line, part, rest);
      DecodeChunksFrom(msg, left + line + part + "\n", parts[1..]);
    }
  }

  lemma {:induction false} NextHeader(msg: string, before: string, part: string, rest: string)
    requires msg == before + (part + rest) && rest != "" && rest[0] == '\n'
    ensures msg == before + part + "\n" + rest[1..]
  {
    assert rest == "\n" + rest[1..];
    Assoc(before, part, rest);
    Assoc(before + part, "\n", rest[1..]);
  }

  /** Whatever the chunks hold, decoding them gives back their concatenation, less white space at both
      ends. */
  lemma {:induction false} DecoderInvertsChunking(parts: seq<string>)
    ensures ChunkedPayload(Chunks(parts)) == Plain(Strip(Concat(parts)))
    ensures Trimmed(Concat(parts), ChunkedPayload(Chunks(parts)).text)
  {
    StripIs(Concat(parts));
    hide Trimmed;
    if parts != [] {
      var body := Chunks(parts);
      assert body[0] == '\n' && body[1] == '#';
      assert DropNewlines(body) == DropNewlines(body[1..]) == body[1..];
      assert "" + body[1..] == body[1..];
      DecodeChunksFrom(body[1..], "", parts);
    }
  }

  // ---- Receiving ------------------------------------------------------------

  /** What one read leads to once its text is in the buffer. */
  datatype Delivery = Wait | Deliver(msg: string, rest: string) | Spin

  function SplitBefore(buffer: string, mark: string): string
    requires Find(buffer, mark, 0) != -1
  {
    buffer[..Find(buffer, mark, 0)]
  }

  function SplitAfter(buffer: string, mark: string): string
    requires Find(buffer, mark, 0) != -1
  {
    buffer[Find(buffer, mark, 0) + |mark|..]
  }

  /** The checks made after every read: the end-of-chunks mark when chunked framing is in force,
      and in either mode the end-of-message mark. */
  function Check(chunked: bool, buffer: string): Delivery {
    if chunked && Find(buffer, END_OF_CHUNKS, 0) != -1 then
      match ChunkedPayload(SplitBefore(buffer, END_OF_CHUNKS))
      case Plain(text) => Deliver(text, SplitAfter(buffer, END_OF_CHUNKS))
      case Endless => Spin
    else if Find(buffer, END_OF_MESSAGE, 0) != -1 then
      Deliver(Strip(SplitBefore(buffer, END_OF_MESSAGE)), SplitAfter(buffer, END_OF_MESSAGE))
    else Wait
  }

  /** All messages returned, and the buffer left, when the segments are read one by one. */
  datatype Progress = Progress(msgs: seq<string>, buffer: string)

  function Feed(chunked: bool, buffer: string, segments: seq<string>): Progress
    decreases |segments|
  {
    if segments == [] then Progress([], buffer)
    else
      match Check(chunked, buffer + segments[0])
      case Wait => Feed(chunked, buffer + segments[0], segments[1..])
      case Spin => Progress([], buffer + segments[0])
      case Deliver(msg, rest) =>
        var p := Feed(chunked, rest, segments[1..]);
        Progress([msg] + p.msgs, p.buffer)
  }

  // ---- What is delivered -------------------------------------------------------

  /** The buffer up to the first place where `mark` stands, and what follows it. */
  predicate FirstMark(buffer: string, mark: string, body: string, rest: string) {
    buffer == body + mark + rest && forall i :: 0 <= i < |body| ==> !MatchAt(buffer, mark, i)
  }

  /** The text before a mark holds what the chunks in it decode to. */
  ghost predicate DecodesTo(body: string, msg: string) {
    Decode(DropNewlines(body), 0).Plain? && Trimmed(Decode(DropNewlines(body), 0).text, msg)
  }

  lemma FoundIsFirst(buffer: string, mark: string)
    requires Find(buffer, mark, 0) != -1
    ensures FirstMark(buffer, mark, SplitBefore(buffer, mark), SplitAfter(buffer, mark))
  {
    var i := Find(buffer, mark, 0);
    assert buffer == buffer[..i] + buffer[i..i + |mark|] + buffer[i + |mark|..];
  }

  lemma PayloadIs(body: string)
    ensures ChunkedPayload(body).Plain? ==> DecodesTo(body, ChunkedPayload(body).text)
    ensures ChunkedPayload(body).Plain? <==> Decode(DropNewlines(body), 0).Plain?
  {
    hide Decode, DropNewlines, Strip;
    var d := Decode(DropNewlines(body), 0);
    if d.Plain? {
      StripIs(d.text);
    }
  }

  /** What a look at the buffer comes to. In chunked framing the first end-of-chunks mark gives what the
      chunks before it decode to, less white space at both ends; without one, and in the other framing, the
      first end-of-message mark gives the text before it, less white space at both ends; what stands behind
      the mark is kept. With no mark nothing is delivered. */
  lemma CheckIs(chunked: bool, buffer: string)
    ensures match Check(chunked, buffer)
            case Wait => (chunked ==> !Contains(buffer, "\n##\n")) && !Contains(buffer, "]]>]]>")
            case Deliver(msg, rest) =>
              || (chunked && exists body :: FirstMark(buffer, "\n##\n", body, rest) && DecodesTo(body, msg))
              || ((chunked ==> !Contains(buffer, "\n##\n"))
                  && exists body :: FirstMark(buffer, "]]>]]>", body, rest) && Trimmed(body, msg))
            case Spin =>
              chunked && exists body, rest :: FirstMark(buffer, "\n##\n", body, rest)
                                              && Decode(DropNewlines(body), 0) == Endless
  {
    hide Find, Trimmed, Strip, ChunkedPayload, Decode, DropNewlines, DecodesTo, FirstMark, SplitBefore, SplitAfter;
    FindIffContains(buffer, END_OF_CHUNKS);
    FindIffContains(buffer, END_OF_MESSAGE);
    if chunked && Find(buffer, END_OF_CHUNKS, 0) != -1 {
      FoundIsFirst(buffer, END_OF_CHUNKS);
      PayloadIs(SplitBefore(buffer, END_OF_CHUNKS));
      assert Check(chunked, buffer).Deliver? ==> Check(chunked, buffer).rest == SplitAfter(buffer, END_OF_CHUNKS);
    } else if Find(buffer, END_OF_MESSAGE, 0) != -1 {
      FoundIsFirst(buffer, END_OF_MESSAGE);
      StripIs(SplitBefore(buffer, END_OF_MESSAGE));
    }
  }

  /** A message behind a newline, as when the one before it was ended with a newline too. */
  lemma NewlineInFront()
    ensures Check(false, "\n<a/>]]>]]>") == Deliver("<a/>", "")
  {
    var buffer, mark := "\n<a/>]]>]]>", END_OF_MESSAGE;
    assert buffer == "\n<a/>" + mark;
    forall i | 0 <= i < 5 ensures !MatchAt(buffer, mark, i) {
      MatchChars(buffer, mark, i);
      assert buffer[i] != ']';
    }
    assert buffer[5..11] == mark;
    FindIs(buffer, mark, 5);
    assert buffer[..5] == "\n<a/>" && buffer[11..] == "";
    StripEnds("<a/>");
    assert "\n<a/>"[1..] == "<a/>";
  }

  /** Newlines before the first chunk are passed over, and nothing else is. */
  lemma {:induction false} DropNewlinesIs(s: string) returns (newlines: string)
    ensures s == newlines + DropNewlines(s) && forall i :: 0 <= i < |newlines| ==> newlines[i] == '\n'
    ensures DropNewlines(s) != "" ==> DropNewlines(s)[0] != '\n'
  {
    if s != "" && s[0] == '\n' {
      var more := DropNewlinesIs(s[1..]);
      newlines := "\n" + more;
      assert s == [s[0]] + s[1..];
    } else {
      newlines := "";
      assert "" + s == s;
    }
  }

  /** One turn at a place in the text. Whatever does not start a header is passed over. A header ends at the
      next newline; one without an end or without a readable size ends the scan. An unsigned size gives as
      many characters as there are, and a newline right behind them is passed over too. */
  lemma TurnIs(msg: string, pos: nat)
    requires pos < |msg|
    ensures msg[pos] != '#' ==> NextTurn(msg, pos) == Move(pos + 1, "")
    ensures msg[pos] == '#' && (forall i :: pos <= i < |msg| ==> msg[i] != '\n') ==> NextTurn(msg, pos) == Leave
  {
    if msg[pos] == '#' && forall i :: pos <= i < |msg| ==> msg[i] != '\n' {
      forall i | pos <= i ensures !MatchAt(msg, "\n", i) {
        if i < |msg| {
          assert msg[i..i + 1] == [msg[i]];
        }
      }
    }
  }

  lemma HeaderIs(msg: string, pos: nat, newline: nat)
    requires pos < newline < |msg| && msg[pos] == '#' && msg[newline] == '\n'
    requires forall i :: pos <= i < newline ==> msg[i] != '\n'
    ensures ParseInt(msg[pos + 1..newline]) == None ==> NextTurn(msg, pos) == Leave
    ensures var size := ParseInt(msg[pos + 1..newline]);
            var start := newline + 1;
            && (size.Some? && size.value >= 0 && start + size.value > |msg| ==>
                  NextTurn(msg, pos) == Move(start + size.value, msg[start..]))
            && (size.Some? && size.value >= 0 && start + size.value == |msg| ==>
                  NextTurn(msg, pos) == Move(|msg|, msg[start..]))
            && (size.Some? && size.value >= 0 && start + size.value < |msg| ==>
                  NextTurn(msg, pos) == Move(
                    if msg[start + size.value] == '\n' then start + size.value + 1 else start + size.value,
                    msg[start..start + size.value]))
  {
    hide ParseInt;
    NewlineAt(msg, pos, newline);
  }

  /** A negative position stands for a place counted from the end, and differs only where it goes on. */
  lemma TurnFromEnd(msg: string, pos: int)
    requires -|msg| <= pos < 0
    ensures msg[|msg| + pos] != '#' ==> NextTurn(msg, pos) == Move(pos + 1, "")
    ensures msg[|msg| + pos] == '#' ==> NextTurn(msg, pos) == NextTurn(msg, |msg| + pos)
  {
    hide SizeField;
  }

  /** A signed size turns the scan to the place so many characters before the chunk, a newline there passed
      over; beyond the start of the text places are counted from the end, and further back it ends. */
  lemma SignedHeaderIs(msg: string, pos: nat, newline: nat)
    requires pos < newline < |msg| && msg[pos] == '#' && msg[newline] == '\n'
    requires forall i :: pos <= i < newline ==> msg[i] != '\n'
    requires ParseInt(msg[pos + 1..newline]).Some? && ParseInt(msg[pos + 1..newline]).value < 0
    ensures var end := newline + 1 + ParseInt(msg[pos + 1..newline]).value;
            && (end < -|msg| ==> NextTurn(msg, pos) == Leave)
            && (0 <= end ==> NextTurn(msg, pos) == Move(if msg[end] == '\n' then end + 1 else end, ""))
            && (-|msg| <= end < 0 ==>
                  NextTurn(msg, pos) == Move(if msg[|msg| + end] == '\n' then end + 1 else end,
                                             if newline + 1 < |msg| + end then msg[newline + 1..|msg| + end] else ""))
  {
    hide ParseInt;
    NewlineAt(msg, pos, newline);
  }

  /** The frames of a short response, letter by letter. */
  lemma FrameIs()
    ensures Frame(true, "<a/>") == "\n#4\n<a/>\n##\n" && Frame(false, "<a/>") == "<a/>\n]]>]]>"
    ensures Frame(true, "") == "\n#0\n\n##\n"
  {
    assert Decimal(4) == "4" && Decimal(0) == "0";
  }

  // ---- Wires: messages as they travel -----------------------------------------

  /** A message on the wire: the text up to its closing mark, and what the receiver makes of it. */
  datatype Wire = Wire(body: string, text: string)

  function Mark(chunked: bool): string {
    if chunked then END_OF_CHUNKS else END_OF_MESSAGE
  }

  function Whole(chunked: bool, w: Wire): string {
    w.body + Mark(chunked)
  }

  function Stream(chunked: bool, ws: seq<Wire>): string {
    if ws == [] then "" else Whole(chunked, ws[0]) + Stream(chunked, ws[1..])
  }

  function Texts(ws: seq<Wire>): (texts: seq<string>)
    ensures |texts| == |ws|
  {
    if ws == [] then [] else [ws[0].text] + Texts(ws[1..])
  }

  /** The closing mark shows up only at the end, and nothing the receiver would take for an
      end-of-message mark shows up before it. */
  predicate SelfDelimiting(chunked: bool, w: Wire) {
    var whole := Whole(chunked, w);
    && Find(whole, Mark(chunked), 0) == |w.body|
    && (chunked ==> !Contains(whole, END_OF_MESSAGE))
    && (if chunked then ChunkedPayload(w.body) == Plain(w.text) else Strip(w.body) == w.text)
  }

  lemma {:induction false} CheckShort(chunked: bool, w: Wire, buffer: string, future: string)
    requires SelfDelimiting(chunked, w)
    requires buffer + future == Whole(chunked, w)
    requires future != ""
    ensures Check(chunked, buffer) == Wait
  {
    var whole := Whole(chunked, w);
    var mark := Mark(chunked);
    forall i ensures !MatchAt(buffer, mark, i) {
      if MatchAt(buffer, mark, i) {
        MatchInPrefix(buffer, future, mark, i);
      }
    }
    if chunked {
      forall i ensures !MatchAt(buffer, END_OF_MESSAGE, i) {
        if MatchAt(buffer, END_OF_MESSAGE, i) {
          MatchInPrefix(buffer, future, END_OF_MESSAGE, i);
        }
      }
    }
  }

  lemma {:induction false} CheckComplete(chunked: bool, w: Wire, rest: string)
    requires SelfDelimiting(chunked, w)
    ensures Check(chunked, Whole(chunked, w) + rest) == Deliver(w.text, rest)
  {
    var whole := Whole(chunked, w);
    var mark := Mark(chunked);
    var buffer := whole + rest;
    MatchInPrefix(whole, rest, mark, |w.body|);
    forall j | 0 <= j < |w.body| ensures !MatchAt(buffer, mark, j) {
      MatchInPrefix(whole, rest, mark, j);
    }
    FindIs(buffer, mark, |w.body|);
    assert buffer[..|w.body|] == w.body;
    assert buffer[|whole|..] == rest;
  }

  predicate AllSelfDelimiting(chunked: bool, ws: seq<Wire>) {
    forall i :: 0 <= i < |ws| ==> SelfDelimiting(chunked, ws[i])
  }

  // ---- Any cutting of the stream ------------------------------------------------

  /** How many whole messages the first `n` characters of the stream hold. */
  function Complete(chunked: bool, ws: seq<Wire>, n: int): nat {
    if ws == [] || n < |Whole(chunked, ws[0])| then 0
    else 1 + Complete(chunked, ws[1..], n - |Whole(chunked, ws[0])|)
  }

  /** How many messages have been returned after each segment was read: at most one per segment,
      and one whenever a whole message is waiting. `seen` is the text already buffered. */
  function Returned(chunked: bool, ws: seq<Wire>, seen: nat, segments: seq<string>): nat
    decreases |segments|
  {
    if segments == [] then 0
    else
      var now := seen + |segments[0]|;
      if Complete(chunked, ws, now) == 0 then Returned(chunked, ws, now, segments[1..])
      else 1 + Returned(chunked, ws[1..], now - |Whole(chunked, ws[0])|, segments[1..])
  }

  lemma {:induction false} StreamPrefix(a: string, b: string, c: string, d: string)
    requires a + b == c + d && |a| <= |c|
    ensures a == c[..|a|] && b == c[|a|..] + d
  {
    assert a == (a + b)[..|a|] == (c + d)[..|a|] == c[..|a|];
    assert b == (a + b)[|a|..] == (c + d)[|a|..] == c[|a|..] + d;
  }

  /** What the receiver must have done with `segments`, given that `future` is still to come. */
  predicate Follows(chunked: bool, ws: seq<Wire>, buffer: string, segments: seq<string>, future: string) {
    var n := Returned(chunked, ws, |buffer|, segments);
    var p := Feed(chunked, buffer, segments);
    && n <= |ws|
    && p.msgs == Texts(ws)[..n]
    && p.buffer + future == Stream(chunked, ws[n..])
  }

  lemma {:induction false} FollowWait(chunked: bool, ws: seq<Wire>, buffer: string,
                                      segments: seq<string>, future: string)
    requires segments != []
    requires Check(chunked, buffer + segments[0]) == Wait
    requires Complete(chunked, ws, |buffer| + |segments[0]|) == 0
    requires Follows(chunked, ws, buffer + segments[0], segments[1..], future)
    ensures Follows(chunked, ws, buffer, segments, future)
  {
  }

  lemma {:induction false} FollowDeliver(chunked: bool, ws: seq<Wire>, buffer: string,
                                         segments: seq<string>, future: string, rest: string)
    requires segments != [] && ws != []
    requires buffer + segments[0] == Whole(chunked, ws[0]) + rest
    requires Check(chunked, buffer + segments[0]) == Deliver(ws[0].text, rest)
    requires Follows(chunked, ws[1..], rest, segments[1..], future)
    ensures Follows(chunked, ws, buffer, segments, future)
  {
    hide Whole, Check;
    assert |buffer| + |segments[0]| == |Whole(chunked, ws[0])| + |rest|;
    var n := Returned(chunked, ws[1..], |rest|, segments[1..]);
    assert Texts(ws)[..n + 1] == [ws[0].text] + Texts(ws[1..])[..n];
    assert ws[1..][n..] == ws[n + 1..];
  }

  lemma {:induction false} Regroup(buffer: string, segments: seq<string>, future: string)
    requires segments != []
    ensures buffer + segments[0] + (Concat(segments[1..]) + future) == buffer + Concat(segments) + future
    ensures buffer + segments[0] + Concat(segments[1..]) + future == buffer + Concat(segments) + future
  {
  }

  /** The receiver, fed any segments of a stream of self-delimiting messages, returns a prefix of
      them in order and keeps exactly the undelivered rest of the text it has received. */
  lemma {:induction false} ReceiverFollowsStream(chunked: bool, ws: seq<Wire>, buffer: string,
                                                 segments: seq<string>, future: string)
    requires AllSelfDelimiting(chunked, ws)
    requires buffer + Concat(segments) + future == Stream(chunked, ws)
    ensures Follows(chunked, ws, buffer, segments, future)
    decreases |segments|, 1
  {
    hide Check, SelfDelimiting, Whole;
    if segments == [] {
      assert buffer + Concat(segments) + future == buffer + future;
      assert ws[0..] == ws;
    } else {
      Regroup(buffer, segments, future);
      if ws == [] || |buffer + segments[0]| < |Whole(chunked, ws[0])| {
        FollowsPartial(chunked, ws, buffer, segments, future);
      } else {
        FollowsComplete(chunked, ws, buffer, segments, future);
      }
    }
  }

  lemma {:induction false} FollowsPartial(chunked: bool, ws: seq<Wire>, buffer: string,
                                          segments: seq<string>, future: string)
    requires AllSelfDelimiting(chunked, ws) && segments != []
    requires buffer + segments[0] + (Concat(segments[1..]) + future) == Stream(chunked, ws)
    requires ws == [] || |buffer + segments[0]| < |Whole(chunked, ws[0])|
    ensures Follows(chunked, ws, buffer, segments, future)
    decreases |segments|, 0
  {
    hide Check, Follows, SelfDelimiting, Whole;
    var now, later := buffer + segments[0], Concat(segments[1..]) + future;
    PartialWaits(chunked, ws, now, later);
    Assoc(now, Concat(segments[1..]), future);
    ReceiverFollowsStream(chunked, ws, now, segments[1..], future);
    FollowWait(chunked, ws, buffer, segments, future);
  }

  lemma {:induction false} FollowsComplete(chunked: bool, ws: seq<Wire>, buffer: string,
                                           segments: seq<string>, future: string)
    requires AllSelfDelimiting(chunked, ws) && segments != []
    requires buffer + segments[0] + (Concat(segments[1..]) + future) == Stream(chunked, ws)
    requires ws != [] && |buffer + segments[0]| >= |Whole(chunked, ws[0])|
    ensures Follows(chunked, ws, buffer, segments, future)
    decreases |segments|, 0
  {
    hide Check, Follows, SelfDelimiting, Whole;
    var now, later := buffer + segments[0], Concat(segments[1..]) + future;
    var rest := FirstIsComplete(chunked, ws, now, later);
    Assoc(rest, Concat(segments[1..]), future);
    ReceiverFollowsStream(chunked, ws[1..], rest, segments[1..], future);
    FollowDeliver(chunked, ws, buffer, segments, future, rest);
  }

  lemma {:induction false} FirstIsComplete(chunked: bool, ws: seq<Wire>, now: string, later: string)
    returns (rest: string)
    requires AllSelfDelimiting(chunked, ws)
    requires now + later == Stream(chunked, ws)
    requires ws != [] && |now| >= |Whole(chunked, ws[0])|
    ensures now == Whole(chunked, ws[0]) + rest
    ensures Check(chunked, now) == Deliver(ws[0].text, rest)
    ensures rest + later == Stream(chunked, ws[1..])
  {
    hide Check, SelfDelimiting, Whole;
    var whole, others := Whole(chunked, ws[0]), Stream(chunked, ws[1..]);
    StreamPrefix(whole, others, now, later);
    rest := now[|whole|..];
    assert now == whole + rest;
    assert ws[0] in ws;
    CheckComplete(chunked, ws[0], rest);
  }

  lemma {:induction false} PartialWaits(chunked: bool, ws: seq<Wire>, now: string, later: string)
    requires AllSelfDelimiting(chunked, ws)
    requires now + later == Stream(chunked, ws)
    requires ws == [] || |now| < |Whole(chunked, ws[0])|
    ensures Check(chunked, now) == Wait
  {
    if ws == [] {
      assert |now + later| == 0;
    } else {
      var whole := Whole(chunked, ws[0]);
      StreamPrefix(now, later, whole, Stream(chunked, ws[1..]));
      CheckShort(chunked, ws[0], now, whole[|now|..]);
    }
  }

  // ---- How far the receiver can lag ---------------------------------------------

  /** Characters in the first `j` segments. */
  function Read(segments: seq<string>, j: nat): nat
    requires j <= |segments|
  {
    |Concat(segments[..j])|
  }

  /** Messages that are complete once `j` segments have been read. */
  function Arrived(chunked: bool, ws: seq<Wire>, seen: nat, segments: seq<string>, j: nat): nat
    requires j <= |segments|
  {
    Complete(chunked, ws, seen + Read(segments, j))
  }

  /** No tail of the segments completes more messages than it has segments; and, as nothing looks
      at the buffer before the first read, all of them together are no more than the segments. */
  predicate KeepsUp(chunked: bool, ws: seq<Wire>, seen: nat, segments: seq<string>) {
    var n := |segments|;
    var all := Arrived(chunked, ws, seen, segments, n);
    all <= n && forall j :: 1 <= j <= n ==> all - Arrived(chunked, ws, seen, segments, j) <= n - j
  }

  lemma {:induction false} ReadTail(segments: seq<string>, j: nat)
    requires segments != [] && 1 <= j <= |segments|
    ensures Read(segments, j) == |segments[0]| + Read(segments[1..], j - 1)
  {
    assert segments[..j][1..] == segments[1..][..j - 1];
  }

  lemma {:induction false} ArrivedTail(chunked: bool, ws: seq<Wire>, seen: nat, segments: seq<string>, j: nat)
    requires segments != [] && 1 <= j <= |segments|
    ensures var now := seen + |segments[0]|;
            Arrived(chunked, ws, seen, segments, j)
            == if Complete(chunked, ws, now) == 0 then Arrived(chunked, ws, now, segments[1..], j - 1)
               else 1 + Arrived(chunked, ws[1..], now - |Whole(chunked, ws[0])|, segments[1..], j - 1)
  {
    ReadTail(segments, j);
  }

  /** Every message that has fully arrived is returned exactly when no burst outruns the reads:
      the buffer is looked at once per read, so a message completed together with another one
      stays in it until something else is read. */
  lemma {:induction false} NothingLeftBehindIff(chunked: bool, ws: seq<Wire>, seen: nat, segments: seq<string>)
    ensures Returned(chunked, ws, seen, segments)
            == Arrived(chunked, ws, seen, segments, |segments|)
            <==> KeepsUp(chunked, ws, seen, segments)
    decreases |segments|
  {
    if segments == [] {
      assert Returned(chunked, ws, seen, segments) == 0;
    } else {
      var now, n, rest := seen + |segments[0]|, |segments|, segments[1..];
      var idle := Complete(chunked, ws, now) == 0;
      var ws', seen' := if idle then ws else ws[1..], if idle then now else now - |Whole(chunked, ws[0])|;
      assert Read(rest, 0) == 0;
      forall j | 1 <= j <= n
        ensures Arrived(chunked, ws, seen, segments, j)
                == (if idle then 0 else 1) + Arrived(chunked, ws', seen', rest, j - 1)
      {
        ArrivedTail(chunked, ws, seen, segments, j);
      }
      NothingLeftBehindIff(chunked, ws', seen', rest);
      KeepsUpShift(chunked, ws, seen, segments, ws', seen', if idle then 0 else 1);
    }
  }

  lemma {:induction false} KeepsUpShift(chunked: bool, ws: seq<Wire>, seen: nat, segments: seq<string>,
                                        ws': seq<Wire>, seen': nat, served: nat)
    requires segments != [] && served <= 1
    requires forall j :: 1 <= j <= |segments| ==>
               Arrived(chunked, ws, seen, segments, j) == served + Arrived(chunked, ws', seen', segments[1..], j - 1)
    requires served == 0 ==> Arrived(chunked, ws', seen', segments[1..], 0) == 0
    ensures KeepsUp(chunked, ws, seen, segments) <==> KeepsUp(chunked, ws', seen', segments[1..])
  {
    var n, rest := |segments|, segments[1..];
    if KeepsUp(chunked, ws, seen, segments) {
      assert served == 0 ==> Arrived(chunked, ws, seen, segments, 1) == 0;
      forall j | 1 <= j <= n - 1
        ensures Arrived(chunked, ws', seen', rest, n - 1) - Arrived(chunked, ws', seen', rest, j) <= n - 1 - j
      {
        assert Arrived(chunked, ws, seen, segments, j + 1) == served + Arrived(chunked, ws', seen', rest, j);
      }
    }
  }
}
