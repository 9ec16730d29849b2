/** Which messages survive the server's framing: exactly those that are stripped and hold no text
    that the receiver would take for a mark. */
module Transparency {
  import opened Text
  import opened Framing

  /** Checkable before sending: nothing to strip, no end-of-message mark, and in chunked mode no
      end-of-chunks mark, not even one that borrows the newline before the message or the start
      of the mark after it. */
  predicate Transparent(chunked: bool, m: string) {
    && Stripped(m)
    && !Contains(m, END_OF_MESSAGE)
    && (chunked ==> !Contains("\n" + m + "\n##", END_OF_CHUNKS))
  }

  /** The server's frame for `m`, seen as a wire. */
  function FrameWire(chunked: bool, m: string): Wire {
    if chunked then Wire(ChunkHeader(|m|) + m, Strip(m)) else Wire(m + "\n", Strip(m))
  }

  /** However the frame is cut, the receiver returns `m` and nothing else, with an empty buffer. */
  ghost predicate SurvivesCutting(chunked: bool, m: string) {
    forall segments :: Concat(segments) == Frame(chunked, m) ==>
      Feed(chunked, "", segments) == Progress([m], "")
  }

  lemma {:induction false} FrameIsWire(chunked: bool, m: string)
    ensures Whole(chunked, FrameWire(chunked, m)) == Frame(chunked, m)
  {
    if !chunked {
      assert m + "\n" + END_OF_MESSAGE == m + ("\n" + END_OF_MESSAGE);
    }
  }

  lemma {:induction false} PayloadOfFrame(chunked: bool, m: string)
    ensures var w := FrameWire(chunked, m);
            if chunked then ChunkedPayload(w.body) == Plain(w.text) else Strip(w.body) == w.text
  {
    if chunked {
      DecoderInvertsChunking([m]);
      assert Chunks([m]) == ChunkHeader(|m|) + m + Chunks([m][1..]) == ChunkHeader(|m|) + m;
      assert Concat([m]) == m;
    } else {
      StripTrailing(m, '\n');
    }
  }

  // ---- Where marks can start in a frame -----------------------------------------

  lemma {:induction false} HeaderChars(n: nat, i: nat)
    requires i < |ChunkHeader(n)|
    ensures var c := ChunkHeader(n)[i];
            && (i == 0 || i == |ChunkHeader(n)| - 1 ==> c == '\n')
            && (0 < i < |ChunkHeader(n)| - 1 ==> c == '#' || IsDigit(c))
            && (i == 2 ==> IsDigit(c))
  {
  }

  /** A chunked frame, character by character. */
  lemma {:induction false} FrameChars(m: string, i: int)
    requires 0 <= i < |Frame(true, m)|
    ensures var h := ChunkHeader(|m|);
            Frame(true, m)[i] ==
            if i < |h| then h[i] else if i < |h| + |m| then m[i - |h|] else END_OF_CHUNKS[i - |h| - |m|]
  {
  }

  /** No end-of-message mark touches the header of a frame. */
  lemma {:induction false} NoEomInHeader(m: string, i: int)
    requires 0 <= i < |ChunkHeader(|m|)|
    ensures !MatchAt(Frame(true, m), END_OF_MESSAGE, i)
  {
    MatchChars(Frame(true, m), END_OF_MESSAGE, i);
    HeaderChars(|m|, i);
    FrameChars(m, i);
  }

  /** Nor does one reach into the closing mark. */
  lemma {:induction false} NoEomAtEnd(m: string, i: int)
    requires |ChunkHeader(|m|)| + |m| - 6 < i
    ensures !MatchAt(Frame(true, m), END_OF_MESSAGE, i)
  {
    MatchChars(Frame(true, m), END_OF_MESSAGE, i);
    if 0 <= i && i + 6 <= |Frame(true, m)| {
      FrameChars(m, i + 5);
      assert i + 5 >= |ChunkHeader(|m|)| + |m|;
      assert END_OF_CHUNKS[i + 5 - |ChunkHeader(|m|)| - |m|] != '>';
    }
  }

  /** An end-of-message mark inside a chunked frame stands inside the message. */
  lemma {:induction false} EomInFrame(m: string, i: int)
    ensures MatchAt(Frame(true, m), END_OF_MESSAGE, i) <==>
            MatchAt(m, END_OF_MESSAGE, i - |ChunkHeader(|m|)|)
  {
    var h, whole := ChunkHeader(|m|), Frame(true, m);
    if 0 <= i < |h| {
      NoEomInHeader(m, i);
    } else if i + 6 > |h| + |m| {
      NoEomAtEnd(m, i);
    } else if |h| <= i {
      assert whole[i..i + 6] == m[i - |h|..i - |h| + 6];
    }
  }

  /** An end-of-chunks mark cannot start inside the size field. */
  lemma {:induction false} NoMarkInHeader(m: string, i: int)
    requires 0 <= i < |ChunkHeader(|m|)| - 1
    ensures !MatchAt(Frame(true, m), END_OF_CHUNKS, i)
  {
    MatchChars(Frame(true, m), END_OF_CHUNKS, i);
    HeaderChars(|m|, i);
    HeaderChars(|m|, 2);
    FrameChars(m, i);
    FrameChars(m, i + 2);
  }

  lemma MatchInSlice(whole: string, from: nat, inner: string, d: string, k: nat)
    requires from + |inner| <= |whole| && whole[from..][..|inner|] == inner && k + |d| <= |inner|
    ensures MatchAt(whole, d, from + k) <==> MatchAt(inner, d, k)
  {
    forall j | 0 <= j < |inner| ensures inner[j] == whole[from + j] {
      assert inner[j] == whole[from..][..|inner|][j];
    }
    assert whole[from + k..from + k + |d|] == inner[k..k + |d|];
  }

  /** An end-of-chunks mark that starts before the closing one. */
  lemma {:induction false} EarlyChunkMark(m: string, i: int)
    requires i < |ChunkHeader(|m|)| + |m|
    ensures MatchAt(Frame(true, m), END_OF_CHUNKS, i) <==>
            MatchAt("\n" + m + "\n##", END_OF_CHUNKS, i + 1 - |ChunkHeader(|m|)|)
  {
    hide Frame, ChunkHeader, MatchAt;
    var k := i + 1 - |ChunkHeader(|m|)|;
    HeaderLength(|m|);
    if i < 0 || k < 0 {
      NoNegativeMatch("\n" + m + "\n##", END_OF_CHUNKS, k);
      if i < 0 {
        NoNegativeMatch(Frame(true, m), END_OF_CHUNKS, i);
      } else {
        NoMarkInHeader(m, i);
      }
    } else {
      FrameTail(m);
      MatchInSlice(Frame(true, m), |ChunkHeader(|m|)| - 1, "\n" + m + "\n##", END_OF_CHUNKS, k);
    }
  }

  lemma HeaderLength(n: nat)
    ensures |ChunkHeader(n)| >= 4
  {
  }

  lemma NoNegativeMatch(s: string, d: string, i: int)
    requires i < 0
    ensures !MatchAt(s, d, i)
  {
  }

  /** From its header's last newline to just before its last newline, a frame reads as the
      message between a newline and the start of the mark. */
  lemma {:induction false} FrameTail(m: string)
    ensures var h := |ChunkHeader(|m|)|; var inner := "\n" + m + "\n##";
            h - 1 + |inner| < |Frame(true, m)| && Frame(true, m)[h - 1..][..|inner|] == inner
  {
    var h, whole, inner := |ChunkHeader(|m|)|, Frame(true, m), "\n" + m + "\n##";
    HeaderChars(|m|, h - 1);
    forall j | 0 <= j < |inner| ensures whole[h - 1..][..|inner|][j] == inner[j] {
      FrameChars(m, h - 1 + j);
    }
  }

  lemma {:induction false} EarlyEom(m: string, i: int)
    requires i <= |m|
    ensures MatchAt(Frame(false, m), END_OF_MESSAGE, i) <==> MatchAt(m, END_OF_MESSAGE, i)
  {
    var whole := Frame(false, m);
    MatchChars(whole, END_OF_MESSAGE, i);
    MatchChars(m, END_OF_MESSAGE, i);
    assert whole == m + "\n" + END_OF_MESSAGE;
    assert whole[|m|] == '\n';
    assert forall j :: 0 <= j < |m| ==> m[j] == whole[j];
  }

  lemma {:induction false} ClosingMark(chunked: bool, m: string)
    ensures MatchAt(Frame(chunked, m), Mark(chunked), |FrameWire(chunked, m).body|)
  {
    var w := FrameWire(chunked, m);
    FrameIsWire(chunked, m);
    assert (w.body + Mark(chunked))[|w.body|..|w.body| + |Mark(chunked)|] == Mark(chunked);
  }

  // ---- Transparent messages survive ---------------------------------------------

  lemma {:induction false} TransparentIsSelfDelimiting(chunked: bool, m: string)
    requires Transparent(chunked, m)
    ensures SelfDelimiting(chunked, FrameWire(chunked, m))
    ensures FrameWire(chunked, m).text == m
  {
    var w, whole := FrameWire(chunked, m), Frame(chunked, m);
    StripEnds(m);
    FrameIsWire(chunked, m);
    PayloadOfFrame(chunked, m);
    ClosingMark(chunked, m);
    forall i | 0 <= i < |w.body| ensures !MatchAt(whole, Mark(chunked), i) {
      if chunked { EarlyChunkMark(m, i); } else { EarlyEom(m, i); }
    }
    FindIs(whole, Mark(chunked), |w.body|);
    if chunked {
      forall i | 0 <= i <= |whole| ensures !MatchAt(whole, END_OF_MESSAGE, i) {
        EomInFrame(m, i);
      }
    }
  }

  function FrameWires(chunked: bool, ms: seq<string>): seq<Wire> {
    if ms == [] then [] else [FrameWire(chunked, ms[0])] + FrameWires(chunked, ms[1..])
  }

  function Frames(chunked: bool, ms: seq<string>): string {
    if ms == [] then "" else Frame(chunked, ms[0]) + Frames(chunked, ms[1..])
  }

  lemma {:induction false} FrameWiresDelimit(chunked: bool, ms: seq<string>)
    requires forall m :: m in ms ==> Transparent(chunked, m)
    ensures AllSelfDelimiting(chunked, FrameWires(chunked, ms))
  {
    if ms != [] {
      TransparentIsSelfDelimiting(chunked, ms[0]);
      FrameWiresDelimit(chunked, ms[1..]);
    }
  }

  lemma {:induction false} TextsOfFrames(chunked: bool, ms: seq<string>)
    requires forall m :: m in ms ==> Stripped(m)
    ensures Texts(FrameWires(chunked, ms)) == ms
  {
    if ms != [] {
      StripEnds(ms[0]);
      TextsOfFrames(chunked, ms[1..]);
    }
  }

  lemma {:induction false} FrameWiresDrop(chunked: bool, ms: seq<string>, n: nat)
    requires n <= |FrameWires(chunked, ms)|
    ensures n <= |ms| && FrameWires(chunked, ms)[n..] == FrameWires(chunked, ms[n..])
  {
    if n == 0 {
      assert ms[0..] == ms;
    } else {
      FrameWiresDrop(chunked, ms[1..], n - 1);
      assert ms[n..] == ms[1..][n - 1..];
      assert FrameWires(chunked, ms)[n..] == FrameWires(chunked, ms[1..])[n - 1..];
    }
  }

  lemma {:induction false} StreamOfFrames(chunked: bool, ms: seq<string>)
    ensures Stream(chunked, FrameWires(chunked, ms)) == Frames(chunked, ms)
  {
    if ms != [] {
      FrameIsWire(chunked, ms[0]);
      StreamOfFrames(chunked, ms[1..]);
      assert FrameWires(chunked, ms)[1..] == FrameWires(chunked, ms[1..]);
    }
  }

  /** Any number of transparent messages, framed by the server's own writer and cut anywhere:
      what the receiver has returned is a prefix of them, in order, and its buffer is exactly the
      frames not yet returned, as far as they have been read. */
  lemma {:induction false} FramesSurviveCutting(chunked: bool, ms: seq<string>, segments: seq<string>, future: string)
    returns (n: nat)
    requires forall m :: m in ms ==> Transparent(chunked, m)
    requires Concat(segments) + future == Frames(chunked, ms)
    ensures n <= |ms|
    ensures Feed(chunked, "", segments).msgs == ms[..n]
    ensures Feed(chunked, "", segments).buffer + future == Frames(chunked, ms[n..])
  {
    FramesFollow(chunked, ms, segments, future);
    n := Returned(chunked, FrameWires(chunked, ms), 0, segments);
    TextsOfFrames(chunked, ms);
    FrameWiresDrop(chunked, ms, n);
    StreamOfFrames(chunked, ms[n..]);
  }

  /** Two frames that arrive in one read: the first message is returned, the second frame stays whole in
      the buffer until something else is read. */
  lemma SecondFrameWaits(chunked: bool, a: string, b: string)
    requires Transparent(chunked, a) && Transparent(chunked, b)
    ensures Feed(chunked, "", [Frame(chunked, a) + Frame(chunked, b)]) == Progress([a], Frame(chunked, b))
  {
    hide Check, Transparent, Frame;
    var w, both := FrameWire(chunked, a), Frame(chunked, a) + Frame(chunked, b);
    TransparentIsSelfDelimiting(chunked, a);
    FrameIsWire(chunked, a);
    CheckComplete(chunked, w, Frame(chunked, b));
    assert Strip(a) == a by { StrippedFrame(chunked, a); }
    assert "" + both == both && [both][1..] == [];
  }

  lemma StrippedFrame(chunked: bool, m: string)
    requires Transparent(chunked, m)
    ensures Strip(m) == m
  {
    StripEnds(m);
  }

  lemma {:induction false} FramesFollow(chunked: bool, ms: seq<string>, segments: seq<string>, future: string)
    requires forall m :: m in ms ==> Transparent(chunked, m)
    requires Concat(segments) + future == Frames(chunked, ms)
    ensures Follows(chunked, FrameWires(chunked, ms), "", segments, future)
  {
    hide SelfDelimiting, Transparent, Follows, Frame;
    FrameWiresDelimit(chunked, ms);
    StreamOfFrames(chunked, ms);
    assert "" + Concat(segments) + future == Concat(segments) + future;
    ReceiverFollowsStream(chunked, FrameWires(chunked, ms), "", segments, future);
  }

  // ---- Only transparent messages do ---------------------------------------------

  /** Every message the receiver returns is stripped. */
  lemma {:induction false} DeliveredIsStripped(chunked: bool, buffer: string)
    requires Check(chunked, buffer).Deliver?
    ensures Stripped(Check(chunked, buffer).msg)
  {
    if chunked && Find(buffer, END_OF_CHUNKS, 0) != -1 {
      StripEnds(Decode(DropNewlines(SplitBefore(buffer, END_OF_CHUNKS)), 0).text);
    } else {
      StripEnds(SplitBefore(buffer, END_OF_MESSAGE));
    }
  }

  /** Reading the whole frame at once. */
  lemma {:induction false} OneSegment(chunked: bool, m: string)
    ensures var whole := Frame(chunked, m);
            && Concat([whole]) == whole
            && Feed(chunked, "", [whole]) ==
               match Check(chunked, whole)
               case Deliver(msg, rest) => Progress([msg], rest)
               case _ => Progress([], whole)
  {
    var whole := Frame(chunked, m);
    assert "" + whole == whole;
    assert [whole][1..] == [];
  }

  lemma {:induction false} EarlyMarkLeavesRest(chunked: bool, m: string, i: int)
    requires 0 <= i < |FrameWire(chunked, m).body|
    requires MatchAt(Frame(chunked, m), Mark(chunked), i)
    ensures !SurvivesCutting(chunked, m)
  {
    hide Check, Frame, FrameWire;
    FrameIsWire(chunked, m);
    OneSegment(chunked, m);
    EarlyMark(chunked, Frame(chunked, m), i);
  }

  lemma EarlyMark(chunked: bool, whole: string, i: int)
    requires MatchAt(whole, Mark(chunked), i) && i + |Mark(chunked)| < |whole|
    ensures Check(chunked, whole).Deliver? ==> Check(chunked, whole).rest != ""
  {
    hide ChunkedPayload;
    var found := Find(whole, Mark(chunked), 0);
    assert found <= i && found != -1;
  }

  /** With an end-of-message mark inside, reading all but the last newline gives it away. */
  lemma {:induction false} EomBreaksChunked(m: string, k: int)
    requires MatchAt(m, END_OF_MESSAGE, k)
    requires forall i :: 0 <= i < |FrameWire(true, m).body| ==> !MatchAt(Frame(true, m), END_OF_CHUNKS, i)
    ensures !SurvivesCutting(true, m)
  {
    var whole := Frame(true, m);
    var cut := |whole| - 1;
    var head, last := whole[..cut], whole[cut..];
    assert whole == head + last;
    CheckSeesEom(m, head, last, k);
    assert Concat([head, last]) == whole by {
      ConcatSnoc([head], last);
      assert [head] + [last] == [head, last];
      ConcatSnoc([], head);
      assert [] + [head] == [head];
    }
    TwoReads(true, head, last);
  }

  lemma {:induction false} CheckSeesEom(m: string, head: string, last: string, k: int)
    requires MatchAt(m, END_OF_MESSAGE, k)
    requires head + last == Frame(true, m) && |last| == 1
    requires forall i :: 0 <= i < |FrameWire(true, m).body| ==> !MatchAt(Frame(true, m), END_OF_CHUNKS, i)
    ensures Check(true, head).Deliver?
  {
    FrameIsWire(true, m);
    forall i ensures !MatchAt(head, END_OF_CHUNKS, i) {
      if i + 4 <= |head| {
        MatchInPrefix(head, last, END_OF_CHUNKS, i);
      }
    }
    assert Find(head, END_OF_CHUNKS, 0) == -1;
    var at := k + |ChunkHeader(|m|)|;
    EomInFrame(m, at);
    MatchInPrefix(head, last, END_OF_MESSAGE, at);
    assert MatchAt(head, END_OF_MESSAGE, at);
  }

  /** After an early delivery, the text read later is either kept or makes a second message. */
  lemma {:induction false} TwoReads(chunked: bool, head: string, last: string)
    requires Check(chunked, head).Deliver? && last != ""
    ensures var p := Feed(chunked, "", [head, last]);
            p.buffer != "" || |p.msgs| == 2
  {
    var rest := Check(chunked, head).rest;
    assert "" + head == head && [head, last][1..] == [last] && [last][1..] == [];
    var q := Feed(chunked, rest, [last]);
    assert Feed(chunked, "", [head, last]) == Progress([Check(chunked, head).msg] + q.msgs, q.buffer);
    match Check(chunked, rest + last) {
      case Deliver(msg, later) =>
        assert q.msgs == [msg] + Feed(chunked, later, []).msgs == [msg];
      case Wait =>
        assert q == Feed(chunked, rest + last, []) == Progress([], rest + last);
      case Spin =>
        assert q == Progress([], rest + last);
    }
  }

  /** A message survives every cutting of its frame if and only if it is transparent. */
  lemma {:induction false} SurvivesIffTransparent(chunked: bool, m: string)
    ensures SurvivesCutting(chunked, m) <==> Transparent(chunked, m)
  {
    if Transparent(chunked, m) {
      TransparentSurvives(chunked, m);
    } else {
      OpaqueBreaks(chunked, m);
    }
  }

  lemma {:induction false} OpaqueBreaks(chunked: bool, m: string)
    requires !Transparent(chunked, m)
    ensures !SurvivesCutting(chunked, m)
  {
    var inner := "\n" + m + "\n##";
    var h := |ChunkHeader(|m|)|;
    if chunked && exists i :: 0 <= i < |FrameWire(true, m).body| && MatchAt(Frame(true, m), END_OF_CHUNKS, i) {
      var i :| 0 <= i < |FrameWire(true, m).body| && MatchAt(Frame(true, m), END_OF_CHUNKS, i);
      EarlyMarkLeavesRest(true, m, i);
    } else if chunked && Contains(inner, END_OF_CHUNKS) {
      var k :| 0 <= k <= |inner| && MatchAt(inner, END_OF_CHUNKS, k);
      EarlyChunkMark(m, k - 1 + h);
      assert false;
    } else if Contains(m, END_OF_MESSAGE) {
      var k :| 0 <= k <= |m| && MatchAt(m, END_OF_MESSAGE, k);
      if chunked {
        EomBreaksChunked(m, k);
      } else {
        EarlyEom(m, k);
        EarlyMarkLeavesRest(false, m, k);
      }
    } else {
      OneSegment(chunked, m);
      if Check(chunked, Frame(chunked, m)).Deliver? {
        DeliveredIsStripped(chunked, Frame(chunked, m));
      }
    }
  }

  lemma {:induction false} TransparentSurvives(chunked: bool, m: string)
    requires Transparent(chunked, m)
    ensures SurvivesCutting(chunked, m)
  {
    hide Check, SelfDelimiting, Transparent, Frame;
    var w := FrameWire(chunked, m);
    TransparentIsSelfDelimiting(chunked, m);
    FrameIsWire(chunked, m);
    forall segments | Concat(segments) == Frame(chunked, m)
      ensures Feed(chunked, "", segments) == Progress([m], "")
    {
      var ws := [w];
      assert ws[1..] == [];
      assert Stream(chunked, ws) == Whole(chunked, w) + "" == Concat(segments);
      assert "" + Concat(segments) + "" == Concat(segments);
      ReceiverFollowsStream(chunked, ws, "", segments, "");
      LastReadReturns(chunked, w, 0, segments);
      assert Texts(ws)[..1] == [m];
      assert Stream(chunked, ws[1..]) == "";
    }
  }

  lemma {:induction false} LastReadReturns(chunked: bool, w: Wire, seen: nat, segments: seq<string>)
    requires seen + |Concat(segments)| == |Whole(chunked, w)| && seen < |Whole(chunked, w)|
    ensures Returned(chunked, [w], seen, segments) == 1
    decreases |segments|
  {
    var now := seen + |segments[0]|;
    assert [w][1..] == [];
    if now < |Whole(chunked, w)| {
      LastReadReturns(chunked, w, now, segments[1..]);
    } else {
      NoneLeft(chunked, now - |Whole(chunked, w)|, segments[1..]);
    }
  }

  lemma {:induction false} NoneLeft(chunked: bool, seen: nat, segments: seq<string>)
    ensures Returned(chunked, [], seen, segments) == 0
    decreases |segments|
  {
    if segments != [] {
      NoneLeft(chunked, seen + |segments[0]|, segments[1..]);
    }
  }

  /** XML messages that hold neither mark are transparent in both modes. */
  lemma {:induction false} XmlIsTransparent(chunked: bool, m: string)
    requires m != "" && m[0] == '<' && m[|m| - 1] == '>'
    requires !Contains(m, END_OF_MESSAGE) && !Contains(m, END_OF_CHUNKS)
    ensures Transparent(chunked, m)
  {
    var inner := "\n" + m + "\n##";
    forall k | 0 <= k <= |inner| ensures !MatchAt(inner, END_OF_CHUNKS, k) {
      MatchChars(inner, END_OF_CHUNKS, k);
      assert inner[1] == '<' && inner[|m|] == '>';
      if k == 0 {
        assert inner[k + 1] == '<';
      } else if k + 3 <= |m| {
        MatchChars(m, END_OF_CHUNKS, k - 1);
        assert forall j :: k - 1 <= j < k + 3 ==> m[j] == inner[j + 1];
      } else if k <= |m| {
        assert k <= |m| < k + 4;
      }
    }
  }
}
