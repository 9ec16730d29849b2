/** Fan-out of events to streaming clients: the bridge's queues, which drop a client that falls behind, and
    the hub's channels, which drop the event. */
module Fanout {

  /** What one client ever got: the event count when it registered, what it read and what is queued. */
  datatype Stream<E> = Stream(from: nat, read: seq<E>, queue: seq<E>)

  /** The registered clients in order, every stream that was ever opened, and every event sent. */
  datatype Hub<E> = Hub(registered: seq<nat>, streams: map<nat, Stream<E>>, sent: seq<E>)

  datatype Step<E> = Subscribe(id: nat) | Send(event: E) | Read(id: nat) | Leave(id: nat)

  function Without(ids: seq<nat>, id: nat): seq<nat> {
    if ids == [] then [] else if ids[0] == id then ids[1..] else [ids[0]] + Without(ids[1..], id)
  }

  predicate Unique(ids: seq<nat>) {
    forall i, j :: 0 <= i < j < |ids| ==> ids[i] != ids[j]
  }

  lemma {:induction false} WithoutMembers(ids: seq<nat>, id: nat)
    requires Unique(ids)
    ensures Unique(Without(ids, id)) && |Without(ids, id)| <= |ids|
    ensures forall x :: x in Without(ids, id) <==> x in ids && x != id
  {
    if ids != [] {
      if ids[0] == id {
        forall i, j | 0 <= i < j < |ids| - 1 ensures ids[1..][i] != ids[1..][j] {
          assert ids[i + 1] != ids[j + 1];
        }
      } else {
        assert Unique(ids[1..]) by {
          forall i, j | 0 <= i < j < |ids| - 1 ensures ids[1..][i] != ids[1..][j] {
            assert ids[i + 1] != ids[j + 1];
          }
        }
        WithoutMembers(ids[1..], id);
        assert ids[0] !in ids[1..];
      }
    }
  }

  predicate HasRoom<E>(h: Hub<E>, size: nat, id: nat) {
    id in h.streams && |h.streams[id].queue| < size
  }

  function Queued<E>(s: Stream<E>, e: E): Stream<E> {
    s.(queue := s.queue + [e])
  }

  // ---- The bridge: a full queue costs the client its place ------------------------------------------

  function Kept<E>(h: Hub<E>, size: nat, ids: seq<nat>): seq<nat> {
    if ids == [] then []
    else
      var n := |ids| - 1;
      if HasRoom(h, size, ids[n]) then Kept(h, size, ids[..n]) + [ids[n]] else Kept(h, size, ids[..n])
  }

  function Delivered<E>(h: Hub<E>, size: nat, e: E): map<nat, Stream<E>> {
    map id | id in h.streams ::
      if id in h.registered && HasRoom(h, size, id) then Queued(h.streams[id], e) else h.streams[id]
  }

  function Nobody<E>(): Hub<E> {
    Hub([], map[], [])
  }

  /** One step of the bridge, which takes at most `most` clients with queues of `size`. */
  function BridgeStep<E>(most: nat, size: nat, h: Hub<E>, s: Step<E>): Hub<E> {
    match s
    case Subscribe(id) =>
      if |h.registered| >= most || id in h.streams then h
      else h.(registered := h.registered + [id], streams := h.streams[id := Stream(|h.sent|, [], [])])
    case Send(e) => Hub(Kept(h, size, h.registered), Delivered(h, size, e), h.sent + [e])
    case Read(id) =>
      if id !in h.streams || h.streams[id].queue == [] then h
      else h.(streams := h.streams[id := TakeOne(h.streams[id])])
    case Leave(id) => h.(registered := Without(h.registered, id))
  }

  function TakeOne<E>(s: Stream<E>): Stream<E>
    requires s.queue != []
  {
    s.(read := s.read + [s.queue[0]], queue := s.queue[1..])
  }

  /** What a client read and has queued is a gap-free run of the events from its registration, and reaches
      the newest one while it is registered. */
  ghost predicate GapFree<E>(s: Stream<E>, registered: bool, sent: seq<E>) {
    var got := s.read + s.queue;
    && s.from + |got| <= |sent| && got == sent[s.from..s.from + |got|]
    && (registered ==> s.from + |got| == |sent|)
  }

  ghost predicate BridgeHolds<E>(most: nat, size: nat, h: Hub<E>) {
    && |h.registered| <= most && Unique(h.registered)
    && (forall id :: id in h.registered ==> id in h.streams)
    && (forall id :: id in h.streams ==> |h.streams[id].queue| <= size)
    && (forall id :: id in h.streams ==> GapFree(h.streams[id], id in h.registered, h.sent))
  }

  lemma {:induction false} KeptMembers<E>(h: Hub<E>, size: nat, ids: seq<nat>)
    requires Unique(ids)
    ensures Unique(Kept(h, size, ids)) && |Kept(h, size, ids)| <= |ids|
    ensures forall x :: x in Kept(h, size, ids) <==> x in ids && HasRoom(h, size, x)
  {
    hide HasRoom;
    if ids != [] {
      KeptMembers(h, size, ids[..|ids| - 1]);
    }
  }

  lemma GapFreeLater<E>(s: Stream<E>, sent: seq<E>, e: E)
    requires GapFree(s, false, sent)
    ensures GapFree(s, false, sent + [e])
  {
    var n := s.from + |s.read + s.queue|;
    assert (sent + [e])[s.from..n] == sent[s.from..n];
  }

  lemma GapFreeQueued<E>(s: Stream<E>, sent: seq<E>, e: E)
    requires GapFree(s, true, sent)
    ensures GapFree(Queued(s, e), true, sent + [e])
  {
    assert s.read + (s.queue + [e]) == s.read + s.queue + [e];
    assert (sent + [e])[s.from..|sent| + 1] == sent[s.from..|sent|] + [e];
  }

  lemma GapFreeRead<E>(s: Stream<E>, registered: bool, sent: seq<E>)
    requires s.queue != [] && GapFree(s, registered, sent)
    ensures GapFree(TakeOne(s), registered, sent)
  {
    assert s.read + [s.queue[0]] + s.queue[1..] == s.read + s.queue;
  }

  lemma SendHolds<E>(most: nat, size: nat, h: Hub<E>, e: E)
    requires BridgeHolds(most, size, h)
    ensures BridgeHolds(most, size, BridgeStep(most, size, h, Send(e)))
  {
    hide GapFree, Kept;
    KeptMembers(h, size, h.registered);
    var g := BridgeStep(most, size, h, Send(e));
    forall id | id in g.streams ensures GapFree(g.streams[id], id in g.registered, g.sent) {
      assert GapFree(h.streams[id], id in h.registered, h.sent);
      if id in g.registered {
        GapFreeQueued(h.streams[id], h.sent, e);
      } else {
        Unregistered(h.streams[id], id in h.registered, h.sent);
        GapFreeLater(h.streams[id], h.sent, e);
      }
    }
  }

  lemma Unregistered<E>(s: Stream<E>, registered: bool, sent: seq<E>)
    requires GapFree(s, registered, sent)
    ensures GapFree(s, false, sent)
  {
  }

  lemma OtherHolds<E>(most: nat, size: nat, h: Hub<E>, s: Step<E>)
    requires BridgeHolds(most, size, h) && !s.Send?
    ensures BridgeHolds(most, size, BridgeStep(most, size, h, s))
  {
    hide GapFree, TakeOne, Without;
    match s {
      case Subscribe(id) => Fresh(|h.sent|, h.sent);
      case Read(id) =>
        if id in h.streams && h.streams[id].queue != [] {
          GapFreeRead(h.streams[id], id in h.registered, h.sent);
          Shorter(h.streams[id]);
        }
      case Leave(id) =>
        WithoutMembers(h.registered, id);
        if id in h.streams {
          Unregistered(h.streams[id], id in h.registered, h.sent);
        }
    }
  }

  lemma Fresh<E>(n: nat, sent: seq<E>)
    requires n == |sent|
    ensures GapFree(Stream(n, [], []), true, sent)
  {
  }

  lemma Shorter<E>(s: Stream<E>)
    requires s.queue != []
    ensures |TakeOne(s).queue| < |s.queue|
  {
  }

  function BridgeRun<E>(most: nat, size: nat, steps: seq<Step<E>>): Hub<E> {
    if steps == [] then Nobody()
    else BridgeStep(most, size, BridgeRun(most, size, steps[..|steps| - 1]), steps[|steps| - 1])
  }

  /** In every interleaving of subscriptions, events, reads and disconnects: at most `most` clients are
      registered, no queue exceeds its bound, and every client's events are a gap-free run. */
  lemma {:induction false} BridgeAlwaysHolds<E>(most: nat, size: nat, steps: seq<Step<E>>)
    ensures BridgeHolds(most, size, BridgeRun(most, size, steps))
  {
    hide BridgeHolds, BridgeStep;
    if steps == [] {
      assert BridgeHolds(most, size, Nobody<E>()) by { NobodyHolds<E>(most, size); }
    } else {
      var h, s := BridgeRun(most, size, steps[..|steps| - 1]), steps[|steps| - 1];
      BridgeAlwaysHolds(most, size, steps[..|steps| - 1]);
      if s.Send? {
        SendHolds(most, size, h, s.event);
      } else {
        OtherHolds(most, size, h, s);
      }
    }
  }

  lemma NobodyHolds<E>(most: nat, size: nat)
    ensures BridgeHolds<E>(most, size, Nobody<E>())
  {
  }

  // ---- Reading and leaving --------------------------------------------------------------------------

  /** What a read does: the client's first queued event moves from its queue to what it has read, and nothing
      else changes; with nothing queued nothing happens. */
  ghost predicate OneTaken<E>(h: Hub<E>, g: Hub<E>, id: nat) {
    && g.registered == h.registered && g.sent == h.sent && g.streams.Keys == h.streams.Keys
    && (forall x :: x in h.streams && x != id ==> g.streams[x] == h.streams[x])
    && (id in h.streams ==>
          var s, t := h.streams[id], g.streams[id];
          && t.from == s.from
          && (s.queue != [] ==> t.read == s.read + [s.queue[0]] && [s.queue[0]] + t.queue == s.queue)
          && (s.queue == [] ==> t == s))
  }

  lemma ReadIs<E>(most: nat, size: nat, h: Hub<E>, id: nat)
    ensures OneTaken(h, BridgeStep(most, size, h, Read(id)), id)
    ensures OneTaken(h, HubStep(size, h, Read(id)), id)
  {
  }

  /** How many reads of a client found an event. */
  function Found<E>(most: nat, size: nat, steps: seq<Step<E>>, id: nat): nat {
    if steps == [] then 0
    else
      var n := |steps| - 1;
      var h := BridgeRun(most, size, steps[..n]);
      Found(most, size, steps[..n], id) +
      if steps[n] == Read(id) && id in h.streams && h.streams[id].queue != [] then 1 else 0
  }

  lemma StepReads<E>(most: nat, size: nat, h: Hub<E>, s: Step<E>, id: nat)
    requires id in BridgeStep(most, size, h, s).streams
    ensures var t := BridgeStep(most, size, h, s).streams[id];
            if id !in h.streams then t.read == []
            else |t.read| == |h.streams[id].read| + if s == Read(id) && h.streams[id].queue != [] then 1 else 0
  {
    hide Kept, Without;
  }

  lemma {:induction false} NothingFound<E>(most: nat, size: nat, steps: seq<Step<E>>, id: nat)
    requires id !in BridgeRun(most, size, steps).streams
    ensures Found(most, size, steps, id) == 0
  {
    hide BridgeStep;
    if steps != [] {
      var n := |steps| - 1;
      StreamsStay(most, size, BridgeRun(most, size, steps[..n]), steps[n], id);
      NothingFound(most, size, steps[..n], id);
    }
  }

  lemma StreamsStay<E>(most: nat, size: nat, h: Hub<E>, s: Step<E>, id: nat)
    ensures id in h.streams ==> id in BridgeStep(most, size, h, s).streams
  {
    hide Kept, Without;
  }

  /** After any run a client has read exactly as many events as its reads found, and they are the first so many
      that were sent since it registered, each once and in order. */
  lemma {:induction false} ReadsInOrder<E>(most: nat, size: nat, steps: seq<Step<E>>, id: nat)
    requires id in BridgeRun(most, size, steps).streams
    ensures var h := BridgeRun(most, size, steps);
            var s, n := h.streams[id], Found(most, size, steps, id);
            |s.read| == n && s.from + n <= |h.sent| && s.read == h.sent[s.from..s.from + n]
  {
    ReadsCounted(most, size, steps, id);
    BridgeAlwaysHolds(most, size, steps);
    hide BridgeRun, Found;
    var h := BridgeRun(most, size, steps);
    var s := h.streams[id];
    assert GapFree(s, id in h.registered, h.sent);
    var got := s.read + s.queue;
    assert s.read == got[..|s.read|] == h.sent[s.from..s.from + |got|][..|s.read|];
  }

  lemma {:induction false} ReadsCounted<E>(most: nat, size: nat, steps: seq<Step<E>>, id: nat)
    requires id in BridgeRun(most, size, steps).streams
    ensures |BridgeRun(most, size, steps).streams[id].read| == Found(most, size, steps, id)
  {
    hide BridgeStep;
    if steps == [] {
      assert false;
    }
    var n := |steps| - 1;
    var h := BridgeRun(most, size, steps[..n]);
    StepReads(most, size, h, steps[n], id);
    if id in h.streams {
      ReadsCounted(most, size, steps[..n], id);
    } else {
      NothingFound(most, size, steps[..n], id);
    }
  }

  function Reads<E>(id: nat, n: nat): seq<Step<E>> {
    if n == 0 then [] else [Read(id)] + Reads(id, n - 1)
  }

  /** So many reads in a row take the first so many of the events queued. */
  lemma {:induction false} ReadsTakeFirst<E>(most: nat, size: nat, h: Hub<E>, id: nat, n: nat)
    requires id in h.streams && n <= |h.streams[id].queue|
    ensures var g := BridgeFrom(most, size, h, Reads(id, n));
            && id in g.streams && g.streams[id].read == h.streams[id].read + h.streams[id].queue[..n]
            && g.streams[id].queue == h.streams[id].queue[n..]
    decreases n
  {
    hide BridgeStep;
    var s := h.streams[id];
    if n == 0 {
      assert s.read + s.queue[..0] == s.read && s.queue[0..] == s.queue;
    } else {
      ReadIs(most, size, h, id);
      var g := BridgeStep(most, size, h, Read(id));
      assert Reads<E>(id, n)[0] == Read(id) && Reads<E>(id, n)[1..] == Reads(id, n - 1);
      assert g.streams[id].queue == s.queue[1..];
      hide OneTaken;
      ReadsTakeFirst(most, size, g, id, n - 1);
      FirstMoved(s.read, s.queue, n);
    }
  }

  lemma FirstMoved<E>(read: seq<E>, queue: seq<E>, n: nat)
    requires 0 < n <= |queue|
    ensures read + [queue[0]] + queue[1..][..n - 1] == read + queue[..n] && queue[1..][n - 1..] == queue[n..]
  {
  }

  lemma {:induction false} KeptOrder<E>(h: Hub<E>, size: nat, ids: seq<nat>)
    ensures Subsequence(Kept(h, size, ids), ids)
  {
    hide HasRoom;
    if ids != [] {
      KeptOrder(h, size, ids[..|ids| - 1]);
      var past := Kept(h, size, ids[..|ids| - 1]);
      assert (past + [ids[|ids| - 1]])[..|past|] == past;
    }
  }

  /** Who is registered and has room in its queue gets an event put at the end of it, and nobody else gets anything.
      In the bridge those registered stay so, in order, exactly if they had room; in the hub all do. */
  lemma SendIs<E>(most: nat, size: nat, h: Hub<E>, e: E, id: nat)
    requires Unique(h.registered) && id in h.streams
    ensures var g, f, s := BridgeStep(most, size, h, Send(e)), HubStep(size, h, Send(e)), h.streams[id];
            var room := id in h.registered && |s.queue| < size;
            && g.sent == h.sent + [e] && f.sent == h.sent + [e]
            && id in g.streams && id in f.streams && g.streams[id] == f.streams[id]
            && g.streams[id] == (if room then Stream(s.from, s.read, s.queue + [e]) else s)
            && (id in g.registered <==> room) && Subsequence(g.registered, h.registered)
            && f.registered == h.registered
  {
    KeptMembers(h, size, h.registered);
    KeptOrder(h, size, h.registered);
  }

  /** Who leaves is not registered any more; everybody else is, in the same order, and all that was read and
      queued stays as it was. */
  lemma LeaveIs<E>(most: nat, size: nat, h: Hub<E>, id: nat)
    requires Unique(h.registered)
    ensures var g := BridgeStep(most, size, h, Leave(id));
            && g.streams == h.streams && g.sent == h.sent
            && (forall x :: x in g.registered <==> x in h.registered && x != id)
            && Subsequence(g.registered, h.registered)
  {
    WithoutMembers(h.registered, id);
    WithoutOrder(h.registered, id);
  }

  lemma {:induction false} WithoutOrder(ids: seq<nat>, id: nat)
    ensures Subsequence(Without(ids, id), ids)
  {
    if ids != [] {
      if ids[0] == id {
        TailIsSubsequence(ids);
      } else {
        WithoutOrder(ids[1..], id);
        SameHead(ids[0], Without(ids[1..], id), ids[1..]);
        assert ids == [ids[0]] + ids[1..];
      }
    }
  }

  lemma {:induction false} SameHead<E>(x: E, a: seq<E>, b: seq<E>)
    requires Subsequence(a, b)
    ensures Subsequence([x] + a, [x] + b)
    decreases |b|
  {
    if a == [] {
      OnlyHead(x, b);
      assert [x] + a == [x];
    } else {
      var m, n := |a| - 1, |b| - 1;
      assert ([x] + b)[..n + 1] == [x] + b[..n] && ([x] + a)[..m + 1] == [x] + a[..m];
      if a[m] == b[n] && Subsequence(a[..m], b[..n]) {
        SameHead(x, a[..m], b[..n]);
      } else {
        SameHead(x, a, b[..n]);
      }
    }
  }

  lemma {:induction false} OnlyHead<E>(x: E, b: seq<E>)
    ensures Subsequence([x], [x] + b)
  {
    if b == [] {
      assert [x] + b == [x] && [x][..0] == [];
    } else {
      assert ([x] + b)[..|b|] == [x] + b[..|b| - 1];
      OnlyHead(x, b[..|b| - 1]);
    }
  }

  lemma {:induction false} TailIsSubsequence<E>(s: seq<E>)
    requires s != []
    ensures Subsequence(s[1..], s)
  {
    if |s| > 1 {
      var n := |s| - 1;
      assert s[1..][..n - 1] == s[..n][1..];
      TailIsSubsequence(s[..n]);
    }
  }

  /** An event costs a client its place exactly when the client is a whole queue behind. */
  lemma DroppedIffFull<E>(most: nat, size: nat, h: Hub<E>, e: E, id: nat)
    requires BridgeHolds(most, size, h) && id in h.registered
    ensures id !in BridgeStep(most, size, h, Send(e)).registered <==> |h.streams[id].queue| == size
  {
    hide GapFree;
    KeptMembers(h, size, h.registered);
  }

  function Sends<E>(e: E, n: nat): seq<Step<E>> {
    if n == 0 then [] else Sends(e, n - 1) + [Send(e)]
  }

  lemma BridgeRunMore<E>(most: nat, size: nat, steps: seq<Step<E>>, s: Step<E>)
    ensures BridgeRun(most, size, steps + [s]) == BridgeStep(most, size, BridgeRun(most, size, steps), s)
  {
    hide BridgeStep;
    assert (steps + [s])[..|steps|] == steps;
  }

  lemma NothingRun<E>(most: nat, size: nat)
    ensures BridgeRun<E>(most, size, []) == Nobody()
  {
  }

  lemma FullerByOne<E>(h: Hub<E>, most: nat, size: nat, e: E)
    requires h.registered == [0] && 0 in h.streams
    ensures var g := BridgeStep(most, size, h, Send(e));
            if |h.streams[0].queue| < size then
              g.registered == [0] && 0 in g.streams && |g.streams[0].queue| == |h.streams[0].queue| + 1
            else g.registered == []
  {
    OneKept(h, size, 0);
  }

  lemma {:induction false} QueueFills<E>(most: nat, size: nat, e: E, n: nat)
    requires most > 0 && n <= size
    ensures var h := BridgeRun(most, size, [Subscribe(0)] + Sends(e, n));
            h.registered == [0] && 0 in h.streams && |h.streams[0].queue| == n
  {
    hide BridgeRun;
    if n == 0 {
      NothingRun<E>(most, size);
      BridgeRunMore<E>(most, size, [], Subscribe(0));
      assert [] + [Step<E>.Subscribe(0)] == [Subscribe(0)] + Sends(e, 0);
    } else {
      hide BridgeStep;
      var before := [Subscribe(0)] + Sends(e, n - 1);
      QueueFills(most, size, e, n - 1);
      BridgeRunMore(most, size, before, Send(e));
      FullerByOne(BridgeRun(most, size, before), most, size, e);
      assert [Subscribe(0)] + Sends(e, n) == before + [Send(e)];
    }
  }

  lemma OneKept<E>(h: Hub<E>, size: nat, id: nat)
    ensures Kept(h, size, [id]) == if HasRoom(h, size, id) then [id] else []
  {
    assert [id][..0] == [];
    assert [] + [id] == [id];
  }

  /** For instance: a client that reads nothing is dropped by the event after the one that filled its queue. */
  lemma SlowClientDropped<E>(most: nat, size: nat, e: E)
    requires most > 0
    ensures BridgeRun(most, size, [Subscribe(0)] + Sends(e, size)).registered == [0]
    ensures BridgeRun(most, size, [Subscribe(0)] + Sends(e, size + 1)).registered == []
  {
    hide BridgeRun, BridgeStep;
    var before := [Subscribe(0)] + Sends(e, size);
    QueueFills(most, size, e, size);
    BridgeRunMore(most, size, before, Send(e));
    FullerByOne(BridgeRun(most, size, before), most, size, e);
    assert [Subscribe(0)] + Sends(e, size + 1) == before + [Send(e)];
  }

  /** A client dropped for its full queue is never told: it reads on to the end of the queue and no event
      reaches it again. */
  lemma {:induction false} DroppedForGood<E>(most: nat, size: nat, h: Hub<E>, id: nat, steps: seq<Step<E>>)
    requires id in h.streams && id !in h.registered
    ensures var g := BridgeFrom(most, size, h, steps);
            && id in g.streams && id !in g.registered
            && g.streams[id].read + g.streams[id].queue == h.streams[id].read + h.streams[id].queue
    decreases |steps|
  {
    hide Without, HasRoom, Kept;
    if steps != [] {
      var g := BridgeStep(most, size, h, steps[0]);
      NotKept(h, size, h.registered, id);
      if steps[0].Leave? {
        NotWithout(h.registered, steps[0].id, id);
      }
      assert id in g.streams && id !in g.registered;
      assert g.streams[id].read + g.streams[id].queue == h.streams[id].read + h.streams[id].queue;
      DroppedForGood(most, size, g, id, steps[1..]);
    }
  }

  function BridgeFrom<E>(most: nat, size: nat, h: Hub<E>, steps: seq<Step<E>>): Hub<E>
    decreases |steps|
  {
    if steps == [] then h else BridgeFrom(most, size, BridgeStep(most, size, h, steps[0]), steps[1..])
  }

  lemma {:induction false} NotKept<E>(h: Hub<E>, size: nat, ids: seq<nat>, id: nat)
    requires id !in ids
    ensures id !in Kept(h, size, ids)
  {
    if ids != [] {
      NotKept(h, size, ids[..|ids| - 1], id);
    }
  }

  lemma {:induction false} NotWithout(ids: seq<nat>, x: nat, id: nat)
    requires id !in ids
    ensures id !in Without(ids, x)
  {
    if ids != [] {
      NotWithout(ids[1..], x, id);
    }
  }

  const MAX_CLIENTS := 8
  const QUEUE_SIZE := 256

  class Bridge<E> {
    var registered: seq<nat>
    var queues: map<nat, seq<E>>
    ghost var hub: Hub<E>

    constructor ()
      ensures Valid() && hub == Nobody()
    {
      registered, queues, hub := [], map[], Nobody();
    }

    ghost predicate Valid()
      reads this
    {
      && registered == hub.registered && queues.Keys == hub.streams.Keys
      && (forall id :: id in queues ==> queues[id] == hub.streams[id].queue)
      && BridgeHolds(MAX_CLIENTS, QUEUE_SIZE, hub)
    }

    /** A new client; with no place left it is refused. */
    method Subscribe(id: nat) returns (ok: bool)
      requires Valid() && id !in queues
      modifies this
      ensures Valid() && hub == BridgeStep(MAX_CLIENTS, QUEUE_SIZE, old(hub), Step.Subscribe(id))
      ensures ok <==> |old(registered)| < 8
      ensures registered == old(registered) + if ok then [id] else []
      ensures queues == if ok then old(queues)[id := []] else old(queues)
    {
      hide BridgeHolds;
      OtherHolds(MAX_CLIENTS, QUEUE_SIZE, hub, Step<E>.Subscribe(id));
      hub := BridgeStep(MAX_CLIENTS, QUEUE_SIZE, hub, Step.Subscribe(id));
      ok := |registered| < MAX_CLIENTS;
      if ok {
        registered, queues := registered + [id], queues[id := []];
      }
    }

    /** Puts the event into every registered queue, then removes the clients whose queue was full. */
    method Broadcast(e: E)
      requires Valid()
      modifies this
      ensures Valid() && hub == BridgeStep(MAX_CLIENTS, QUEUE_SIZE, old(hub), Send(e))
      ensures forall id :: id in old(queues) && id in queues ==>
                var room := id in old(registered) && |old(queues)[id]| < 256;
                (id in registered <==> room) && queues[id] == old(queues)[id] + if room then [e] else []
    {
      hide BridgeHolds, Unique, Kept, Full, Minus, Offered, Delivered, HasRoom, Without;
      SendHolds(MAX_CLIENTS, QUEUE_SIZE, hub, e);
      ghost var h := hub;
      var all := registered;
      BridgeIds(MAX_CLIENTS, QUEUE_SIZE, h);
      OfferNone(h, QUEUE_SIZE, e, queues);
      var offered, dead := Offer(all, queues, e, h);
      var left := RemoveAll(all, dead);
      KeptIsMinus(h, QUEUE_SIZE, all);
      OfferAll(h, QUEUE_SIZE, all, e, offered);
      registered, queues := left, offered;
      hub := BridgeStep(MAX_CLIENTS, QUEUE_SIZE, h, Send(e));
      forall id | id in h.streams {
        SendIs(MAX_CLIENTS, QUEUE_SIZE, h, e, id);
      }
    }

    /** The next queued event, if there is one; a client takes from its queue even after it lost its
        place. */
    method Take(id: nat) returns (e: seq<E>)
      requires Valid() && id in queues
      modifies this
      ensures Valid() && hub == BridgeStep(MAX_CLIENTS, QUEUE_SIZE, old(hub), Read(id))
      ensures e == if old(queues)[id] == [] then [] else [old(queues)[id][0]]
      ensures queues == old(queues)[id := queues[id]] && e + queues[id] == old(queues)[id]
      ensures hub.streams[id].read == old(hub).streams[id].read + e
    {
      hide BridgeHolds;
      OtherHolds(MAX_CLIENTS, QUEUE_SIZE, hub, Read(id));
      hub := BridgeStep(MAX_CLIENTS, QUEUE_SIZE, hub, Read(id));
      if queues[id] == [] {
        return [];
      }
      e := [queues[id][0]];
      queues := queues[id := queues[id][1..]];
    }

    method Leave(id: nat)
      requires Valid()
      modifies this
      ensures Valid() && hub == BridgeStep(MAX_CLIENTS, QUEUE_SIZE, old(hub), Step.Leave(id))
      ensures queues == old(queues) && forall x :: x in registered <==> x in old(registered) && x != id
    {
      BridgeIds(MAX_CLIENTS, QUEUE_SIZE, hub);
      WithoutMembers(registered, id);
      hide BridgeHolds;
      OtherHolds(MAX_CLIENTS, QUEUE_SIZE, hub, Step<E>.Leave(id));
      registered := Without(registered, id);
      hub := BridgeStep(MAX_CLIENTS, QUEUE_SIZE, hub, Step.Leave(id));
    }
  }

  method Offer<E>(ids: seq<nat>, before: map<nat, seq<E>>, e: E, ghost h: Hub<E>)
    returns (queues: map<nat, seq<E>>, dead: seq<nat>)
    requires Unique(ids) && (forall id :: id in ids ==> id in h.streams) && Offered(h, QUEUE_SIZE, {}, e, before)
    ensures Offered(h, QUEUE_SIZE, Members(ids), e, queues) && dead == Full(h, QUEUE_SIZE, ids)
  {
    hide Unique, Full, Offered;
    queues, dead := before, [];
    FullNone(h, QUEUE_SIZE);
    assert Members(ids[..0]) == {};
    for i := 0 to |ids|
      invariant Offered(h, QUEUE_SIZE, Members(ids[..i]), e, queues)
      invariant dead == Full(h, QUEUE_SIZE, ids[..i])
    {
      var c := ids[i];
      UniqueAt(ids, i);
      assert ids[..i + 1] == ids[..i] + [c];
      assert Members(ids[..i + 1]) == Members(ids[..i]) + {c};
      FullGrows(h, QUEUE_SIZE, ids[..i], c);
      OfferNext(h, QUEUE_SIZE, Members(ids[..i]), e, queues, c);
      if |queues[c]| < QUEUE_SIZE {
        queues := queues[c := queues[c] + [e]];
      } else {
        dead := dead + [c];
      }
    }
    assert ids[..|ids|] == ids;
  }

  lemma BridgeIds<E>(most: nat, size: nat, h: Hub<E>)
    requires BridgeHolds(most, size, h)
    ensures Unique(h.registered) && forall id :: id in h.registered ==> id in h.streams
  {
  }

  method RemoveAll(ids: seq<nat>, dead: seq<nat>) returns (left: seq<nat>)
    ensures left == Minus(ids, dead)
  {
    hide Minus, Without;
    left := ids;
    MinusNone(ids);
    for i := 0 to |dead|
      invariant left == Minus(ids, dead[..i])
    {
      MinusGrows(ids, dead[..i], dead[i]);
      assert dead[..i + 1] == dead[..i] + [dead[i]];
      left := Without(left, dead[i]);
    }
    assert dead[..|dead|] == dead;
  }

  function Members(ids: seq<nat>): set<nat> {
    set id | id in ids
  }

  /** The queues once the event has been offered to `done`. */
  ghost predicate Offered<E>(h: Hub<E>, size: nat, done: set<nat>, e: E, queues: map<nat, seq<E>>) {
    && queues.Keys == h.streams.Keys
    && forall id :: id in queues ==>
         queues[id] == if id in done && HasRoom(h, size, id) then h.streams[id].queue + [e] else h.streams[id].queue
  }

  lemma OfferNone<E>(h: Hub<E>, size: nat, e: E, queues: map<nat, seq<E>>)
    requires queues.Keys == h.streams.Keys && forall id :: id in queues ==> queues[id] == h.streams[id].queue
    ensures Offered(h, size, {}, e, queues)
  {
  }

  lemma OfferNext<E>(h: Hub<E>, size: nat, done: set<nat>, e: E, queues: map<nat, seq<E>>, c: nat)
    requires Offered(h, size, done, e, queues) && c in h.streams && c !in done
    ensures c in queues && (|queues[c]| < size <==> HasRoom(h, size, c))
    ensures Offered(h, size, done + {c}, e, if |queues[c]| < size then queues[c := queues[c] + [e]] else queues)
  {
  }

  lemma OfferAll<E>(h: Hub<E>, size: nat, ids: seq<nat>, e: E, queues: map<nat, seq<E>>)
    requires ids == h.registered && Offered(h, size, Members(ids), e, queues)
    ensures queues.Keys == Delivered(h, size, e).Keys
    ensures forall id :: id in queues ==> queues[id] == Delivered(h, size, e)[id].queue
  {
  }

  /** The clients with a full queue, in order. */
  function Full<E>(h: Hub<E>, size: nat, ids: seq<nat>): seq<nat> {
    if ids == [] then []
    else
      var n := |ids| - 1;
      if HasRoom(h, size, ids[n]) then Full(h, size, ids[..n]) else Full(h, size, ids[..n]) + [ids[n]]
  }

  function Minus(ids: seq<nat>, gone: seq<nat>): seq<nat> {
    if gone == [] then ids else Without(Minus(ids, gone[..|gone| - 1]), gone[|gone| - 1])
  }

  lemma UniqueAt(ids: seq<nat>, i: nat)
    requires Unique(ids) && i < |ids|
    ensures ids[i] !in ids[..i]
  {
  }

  lemma FullNone<E>(h: Hub<E>, size: nat)
    ensures Full(h, size, []) == []
  {
  }

  lemma FullGrows<E>(h: Hub<E>, size: nat, ids: seq<nat>, c: nat)
    ensures Full(h, size, ids + [c]) == if HasRoom(h, size, c) then Full(h, size, ids) else Full(h, size, ids) + [c]
  {
    assert (ids + [c])[..|ids|] == ids;
  }

  lemma MinusNone(ids: seq<nat>)
    ensures Minus(ids, []) == ids
  {
  }

  lemma MinusGrows(ids: seq<nat>, gone: seq<nat>, c: nat)
    ensures Minus(ids, gone + [c]) == Without(Minus(ids, gone), c)
  {
    assert (gone + [c])[..|gone|] == gone;
  }

  lemma {:induction false} WithoutTail(ids: seq<nat>, c: nat, x: nat)
    requires c !in ids
    ensures Without(ids + [c], x) == if x == c then ids else Without(ids, x) + [c]
  {
    if ids == [] {
      assert ids + [c] == [c];
    } else {
      assert (ids + [c])[1..] == ids[1..] + [c];
      WithoutTail(ids[1..], c, x);
    }
  }

  lemma {:induction false} MinusTail(ids: seq<nat>, c: nat, gone: seq<nat>)
    requires c !in ids && c !in gone
    ensures Minus(ids + [c], gone) == Minus(ids, gone) + [c] && c !in Minus(ids, gone)
  {
    if gone != [] {
      var n := |gone| - 1;
      MinusTail(ids, c, gone[..n]);
      WithoutTail(Minus(ids, gone[..n]), c, gone[n]);
      NotWithout(Minus(ids, gone[..n]), gone[n], c);
    }
  }

  lemma {:induction false} FullWithin<E>(h: Hub<E>, size: nat, ids: seq<nat>, c: nat)
    requires c !in ids
    ensures c !in Full(h, size, ids)
  {
    if ids != [] {
      FullWithin(h, size, ids[..|ids| - 1], c);
    }
  }

  /** Removing the full ones one by one leaves exactly those with room. */
  lemma {:induction false} KeptIsMinus<E>(h: Hub<E>, size: nat, ids: seq<nat>)
    requires Unique(ids)
    ensures Minus(ids, Full(h, size, ids)) == Kept(h, size, ids)
  {
    hide HasRoom, Minus, Without;
    if ids == [] {
      MinusNone(ids);
    } else {
      var n := |ids| - 1;
      var past, c := ids[..n], ids[n];
      UniqueAt(ids, n);
      KeptIsMinus(h, size, past);
      FullWithin(h, size, past, c);
      MinusTail(past, c, Full(h, size, past));
      assert ids == past + [c];
      if !HasRoom(h, size, c) {
        MinusGrows(ids, Full(h, size, past), c);
        WithoutTail(Minus(past, Full(h, size, past)), c, c);
      }
    }
  }

  // ---- The hub: a full channel costs the client the event ----------------------------------------------

  const CHANNEL_SIZE := 64

  function HubStep<E>(size: nat, h: Hub<E>, s: Step<E>): Hub<E> {
    match s
    case Send(e) => Hub(h.registered, Delivered(h, size, e), h.sent + [e])
    case Subscribe(id) =>
      if id in h.streams then h
      else h.(registered := h.registered + [id], streams := h.streams[id := Stream(|h.sent|, [], [])])
    case _ => BridgeStep(0, size, h, s)
  }

  ghost predicate Subsequence<E>(a: seq<E>, b: seq<E>) {
    if a == [] then true
    else
      b != [] && ((a[|a| - 1] == b[|b| - 1] && Subsequence(a[..|a| - 1], b[..|b| - 1]))
                  || Subsequence(a, b[..|b| - 1]))
  }

  lemma {:induction false} SubsequenceShorter<E>(a: seq<E>, b: seq<E>)
    requires Subsequence(a, b)
    ensures |a| <= |b| && (|a| == |b| ==> a == b)
    decreases |b|
  {
    if a != [] {
      var m, n := |a| - 1, |b| - 1;
      if a[m] == b[n] && Subsequence(a[..m], b[..n]) {
        SubsequenceShorter(a[..m], b[..n]);
        assert a == a[..m] + [a[m]] && b == b[..n] + [b[n]];
      } else {
        SubsequenceShorter(a, b[..n]);
      }
    }
  }

  ghost predicate InOrder<E>(s: Stream<E>, sent: seq<E>) {
    s.from <= |sent| && Subsequence(s.read + s.queue, sent[s.from..])
  }

  ghost predicate HubHolds<E>(size: nat, h: Hub<E>) {
    && (forall id :: id in h.streams ==> |h.streams[id].queue| <= size)
    && (forall id :: id in h.streams ==> InOrder(h.streams[id], h.sent))
  }

  lemma InOrderLater<E>(s: Stream<E>, sent: seq<E>, e: E)
    requires InOrder(s, sent)
    ensures InOrder(s, sent + [e]) && InOrder(Queued(s, e), sent + [e])
  {
    var a, b := s.read + s.queue, sent[s.from..];
    assert (sent + [e])[s.from..] == b + [e];
    assert (b + [e])[..|b|] == b;
    assert s.read + (s.queue + [e]) == a + [e];
    assert (a + [e])[..|a|] == a;
  }

  lemma InOrderRead<E>(s: Stream<E>, sent: seq<E>)
    requires s.queue != [] && InOrder(s, sent)
    ensures InOrder(TakeOne(s), sent) && |TakeOne(s).queue| <= |s.queue|
  {
    assert s.read + [s.queue[0]] + s.queue[1..] == s.read + s.queue;
  }

  lemma HubStepHolds<E>(size: nat, h: Hub<E>, s: Step<E>)
    requires HubHolds(size, h)
    ensures HubHolds(size, HubStep(size, h, s))
  {
    hide InOrder, TakeOne, Queued;
    match s {
      case Subscribe(_) => FreshInOrder(|h.sent|, h.sent);
      case Send(e) =>
        forall id | id in h.streams
          ensures InOrder(h.streams[id], h.sent + [e]) && InOrder(Queued(h.streams[id], e), h.sent + [e])
        {
          InOrderLater(h.streams[id], h.sent, e);
        }
        assert forall id :: id in h.streams ==> |Queued(h.streams[id], e).queue| == |h.streams[id].queue| + 1 by {
          QueuedLength<E>(e);
        }
      case Read(id) =>
        if id in h.streams && h.streams[id].queue != [] {
          InOrderRead(h.streams[id], h.sent);
        }
      case Leave(_) =>
    }
  }

  lemma QueuedLength<E>(e: E)
    ensures forall s: Stream<E> :: |Queued(s, e).queue| == |s.queue| + 1
  {
  }

  lemma FreshInOrder<E>(n: nat, sent: seq<E>)
    requires n == |sent|
    ensures InOrder(Stream(n, [], []), sent)
  {
  }

  function HubRun<E>(size: nat, steps: seq<Step<E>>): Hub<E> {
    if steps == [] then Nobody()
    else HubStep(size, HubRun(size, steps[..|steps| - 1]), steps[|steps| - 1])
  }

  /** In every interleaving no channel exceeds its bound, and what a client gets are events sent since it
      came, in the order they were sent, each at most once. */
  lemma {:induction false} HubAlwaysHolds<E>(size: nat, steps: seq<Step<E>>)
    ensures HubHolds(size, HubRun(size, steps))
  {
    hide HubHolds, HubStep;
    if steps == [] {
      assert HubHolds(size, Nobody<E>()) by { EmptyHubHolds<E>(size); }
    } else {
      HubAlwaysHolds(size, steps[..|steps| - 1]);
      HubStepHolds(size, HubRun(size, steps[..|steps| - 1]), steps[|steps| - 1]);
    }
  }

  lemma EmptyHubHolds<E>(size: nat)
    ensures HubHolds<E>(size, Nobody<E>())
  {
  }

  /** A client missed nothing exactly when it got as many events as were sent since it came. */
  lemma NothingMissedIff<E>(size: nat, steps: seq<Step<E>>, id: nat)
    requires id in HubRun(size, steps).streams
    ensures var h := HubRun(size, steps);
            var s := h.streams[id];
            s.from <= |h.sent| &&
            (s.read + s.queue == h.sent[s.from..] <==> |s.read| + |s.queue| == |h.sent| - s.from)
  {
    HubAlwaysHolds(size, steps);
    var h := HubRun(size, steps);
    var s := h.streams[id];
    hide HubRun, Subsequence;
    assert InOrder(s, h.sent);
    SubsequenceShorter(s.read + s.queue, h.sent[s.from..]);
  }

  /** The clients and their channels are those of the hub. */
  ghost predicate Tracks<E>(clients: set<nat>, channels: map<nat, seq<E>>, h: Hub<E>) {
    && clients == Members(h.registered) && clients <= h.streams.Keys && channels.Keys == h.streams.Keys
    && forall id :: id in channels ==> channels[id] == h.streams[id].queue
  }

  lemma TracksStart<E>(clients: set<nat>, channels: map<nat, seq<E>>, h: Hub<E>, e: E)
    requires Tracks(clients, channels, h)
    ensures (forall id :: id in clients ==> id in h.streams) && Offered(h, CHANNEL_SIZE, {}, e, channels)
  {
  }

  lemma TracksSent<E>(clients: set<nat>, channels: map<nat, seq<E>>, h: Hub<E>, e: E, offered: map<nat, seq<E>>)
    requires Tracks(clients, channels, h) && Offered(h, CHANNEL_SIZE, clients, e, offered)
    ensures Tracks(clients, offered, HubStep(CHANNEL_SIZE, h, Send(e)))
  {
    hide Offered, HasRoom;
    OfferAll(h, CHANNEL_SIZE, h.registered, e, offered);
  }

  lemma TracksGives<E>(clients: set<nat>, channels: map<nat, seq<E>>, h: Hub<E>, e: E, offered: map<nat, seq<E>>)
    requires Tracks(clients, channels, h) && Offered(h, CHANNEL_SIZE, clients, e, offered)
    ensures forall id :: id in channels && id in offered ==>
              offered[id] == channels[id] + if id in clients && |channels[id]| < 64 then [e] else []
  {
  }

  class Channels<E> {
    var clients: set<nat>
    var channels: map<nat, seq<E>>
    ghost var hub: Hub<E>

    constructor ()
      ensures Valid() && hub == Nobody()
    {
      clients, channels, hub := {}, map[], Nobody();
    }

    ghost predicate Valid()
      reads this
    {
      Tracks(clients, channels, hub)
    }

    /** Offers the event to every client, in whatever order the map gives them; a full channel passes. */
    method Broadcast(e: E)
      requires Valid()
      modifies this
      ensures Valid() && hub == HubStep(CHANNEL_SIZE, old(hub), Send(e))
      ensures clients == old(clients)
      ensures forall id :: id in old(channels) && id in channels ==>
                channels[id] == old(channels)[id] + if id in clients && |old(channels)[id]| < 64 then [e] else []
    {
      hide Tracks, Offered, HubStep;
      TracksStart(clients, channels, hub, e);
      var offered := OfferChannels(clients, channels, e, hub);
      TracksSent(clients, channels, hub, e, offered);
      TracksGives(clients, channels, hub, e, offered);
      channels := offered;
      hub := HubStep(CHANNEL_SIZE, hub, Send(e));
    }

    /** The next event of a client's channel, if there is one. */
    method Receive(id: nat) returns (e: seq<E>)
      requires Valid() && id in channels
      modifies this
      ensures Valid() && hub == HubStep(CHANNEL_SIZE, old(hub), Read(id))
      ensures |e| == (if old(channels)[id] == [] then 0 else 1)
      ensures channels == old(channels)[id := channels[id]] && e + channels[id] == old(channels)[id]
      ensures hub.streams[id].read == old(hub).streams[id].read + e
    {
      hub := HubStep(CHANNEL_SIZE, hub, Read(id));
      if channels[id] == [] {
        return [];
      }
      e := [channels[id][0]];
      channels := channels[id := channels[id][1..]];
    }
  }

  method OfferChannels<E>(all: set<nat>, before: map<nat, seq<E>>, e: E, ghost h: Hub<E>)
    returns (channels: map<nat, seq<E>>)
    requires (forall id :: id in all ==> id in h.streams) && Offered(h, CHANNEL_SIZE, {}, e, before)
    ensures Offered(h, CHANNEL_SIZE, all, e, channels)
  {
    hide Offered;
    channels := before;
    var todo := all;
    assert all - todo == {};
    while todo != {}
      invariant todo <= all && Offered(h, CHANNEL_SIZE, all - todo, e, channels)
      decreases todo
    {
      var c :| c in todo;
      OfferNext(h, CHANNEL_SIZE, all - todo, e, channels, c);
      assert all - todo + {c} == all - (todo - {c});
      if |channels[c]| < CHANNEL_SIZE {
        channels := channels[c := channels[c] + [e]];
      }
      todo := todo - {c};
    }
    assert all - todo == all;
  }
}
