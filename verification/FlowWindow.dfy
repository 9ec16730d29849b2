/** The flow buffer of one detection window: bounded, dropping its oldest flow when full, handed
    over and cleared when the window closes. */
module FlowWindow {
  import opened Recent
  import opened Sorting

  /** One closed window: its flows and its bounds. */
  datatype Window<T> = Window(flows: seq<T>, start: string, end: string)

  datatype Event<T> = Push(flow: T) | Fire(now: string)

  /** The buffer, when its window opened, and the windows closed so far. */
  datatype State<T> = State(buffer: seq<T>, start: string, windows: seq<Window<T>>)

  function Step<T>(max: nat, s: State<T>, e: Event<T>): State<T> {
    match e
    case Push(flow) =>
      if |s.buffer| >= max then
        if s.buffer == [] then s else s.(buffer := s.buffer[1..] + [flow])
      else s.(buffer := s.buffer + [flow])
    case Fire(now) => State([], now, s.windows + [Window(s.buffer, s.start, now)])
  }

  function Run<T>(max: nat, start: string, events: seq<Event<T>>): State<T> {
    if events == [] then State([], start, [])
    else Step(max, Run(max, start, events[..|events| - 1]), events[|events| - 1])
  }

  class WindowBuffer<T> {
    const maxBuffer: nat
    var buffer: seq<T>
    var start: string
    ghost var closed: seq<Window<T>>

    constructor (maxBuffer: nat, start: string)
      ensures this.maxBuffer == maxBuffer && Now() == State([], start, [])
    {
      this.maxBuffer, this.buffer, this.start, this.closed := maxBuffer, [], start, [];
    }

    ghost function Now(): State<T>
      reads this
    {
      State(buffer, start, closed)
    }

    /** Appends a flow, dropping the oldest when full. With no room at all there is no oldest to
        drop: the source raises an error and keeps nothing. */
    method Add(flow: T) returns (ok: bool)
      modifies this`buffer
      ensures Now() == Step(maxBuffer, old(Now()), Push(flow))
      ensures ok <==> maxBuffer > 0 || old(buffer) != []
    {
      if |buffer| >= maxBuffer {
        if buffer == [] {
          return false;
        }
        buffer := buffer[1..];
      }
      buffer := buffer + [flow];
      ok := true;
    }

    /** Closes the window and hands it over. */
    method Close(now: string) returns (w: Window<T>)
      modifies this
      ensures Now() == Step(maxBuffer, old(Now()), Fire(now))
      ensures closed == old(closed) + [w]
    {
      w := Window(buffer, start, now);
      buffer := [];
      start := now;
      closed := closed + [w];
    }
  }

  /** Over any run, each closed window is exactly the last `max` of the flows pushed since the one
      before it closed, in order; so is the buffer for the open window; and the windows tile time. */
  lemma {:induction false} RunIs<T>(max: nat, start: string, events: seq<Event<T>>)
    requires max > 0
    ensures var s, parts := Run(max, start, events), Segments(events);
            && |s.windows| + 1 == |parts|
            && (forall k :: 0 <= k < |s.windows| ==> s.windows[k].flows == LastN(parts[k], max))
            && s.buffer == LastN(parts[|s.windows|], max)
            && Tiles(s.windows, start, s.start)
  {
    hide Step, LastN, Tiles, Holds;
    if events == [] {
      EmptyHolds<T>(max, start);
    } else {
      var n := |events| - 1;
      RunIs(max, start, events[..n]);
      HoldsMeans(max, start, Run(max, start, events[..n]), Segments(events[..n]));
      StepHolds(max, start, Run(max, start, events[..n]), Segments(events[..n]), events[n]);
    }
    HoldsMeans(max, start, Run(max, start, events), Segments(events));
  }

  ghost predicate Holds<T>(max: nat, start: string, s: State<T>, parts: seq<seq<T>>) {
    && |s.windows| + 1 == |parts|
    && (forall k :: 0 <= k < |s.windows| ==> s.windows[k].flows == LastN(parts[k], max))
    && s.buffer == LastN(parts[|s.windows|], max)
    && Tiles(s.windows, start, s.start)
  }

  lemma HoldsMeans<T>(max: nat, start: string, s: State<T>, parts: seq<seq<T>>)
    ensures Holds(max, start, s, parts) <==>
      && |s.windows| + 1 == |parts|
      && (forall k :: 0 <= k < |s.windows| ==> s.windows[k].flows == LastN(parts[k], max))
      && s.buffer == LastN(parts[|s.windows|], max)
      && Tiles(s.windows, start, s.start)
  {
  }

  lemma EmptyHolds<T>(max: nat, start: string)
    ensures Holds<T>(max, start, State([], start, []), [[]])
  {
  }

  lemma StepHolds<T>(max: nat, start: string, s: State<T>, parts: seq<seq<T>>, e: Event<T>)
    requires max > 0 && parts != [] && Holds(max, start, s, parts)
    ensures Holds(max, start, Step(max, s, e), Grown(parts, e))
  {
    if e.Push? {
      PushHolds(max, start, s, parts, e.flow);
    } else {
      FireHolds(max, start, s, parts, e.now);
    }
  }

  lemma PushHolds<T>(max: nat, start: string, s: State<T>, parts: seq<seq<T>>, flow: T)
    requires max > 0 && parts != [] && Holds(max, start, s, parts)
    ensures Holds(max, start, Step(max, s, Push(flow)), Grown(parts, Push(flow)))
  {
    hide LastN, Tiles;
    LastNGrows(parts[|parts| - 1], flow, max);
    LastNFits(parts[|parts| - 1], max);
  }

  lemma FireHolds<T>(max: nat, start: string, s: State<T>, parts: seq<seq<T>>, now: string)
    requires parts != [] && Holds(max, start, s, parts)
    ensures Holds(max, start, Step(max, s, Fire(now)), Grown(parts, Fire(now)))
  {
    hide LastN;
    LastNFits<T>([], max);
  }

  function Grown<T>(parts: seq<seq<T>>, e: Event<T>): (more: seq<seq<T>>)
    requires parts != []
    ensures more != []
  {
    match e
    case Push(flow) => parts[|parts| - 1 := parts[|parts| - 1] + [flow]]
    case Fire(_) => parts + [[]]
  }

  function Fires<T>(e: Event<T>): bool {
    e.Fire?
  }

  /** There is a window for every closing, and it ends then. */
  lemma {:induction false} WindowsEndAtFires<T>(max: nat, start: string, events: seq<Event<T>>)
    ensures var windows := Run(max, start, events).windows;
            && |windows| == |Where(events, Fires)|
            && forall i :: 0 <= i < |events| && events[i].Fire? ==>
                 EndsAt(windows, |Where(events[..i], Fires)|, events[i].now)
  {
    hide Where;
    if events == [] {
      WhereGrows([], Event<T>.Fire(""), Fires);
    } else {
      var n := |events| - 1;
      var past := events[..n];
      var windows := Run(max, start, events).windows;
      assert events == past + [events[n]];
      WindowsEndAtFires(max, start, past);
      WhereGrows(past, events[n], Fires);
      forall i | 0 <= i < |events| && events[i].Fire?
        ensures EndsAt(windows, |Where(events[..i], Fires)|, events[i].now)
      {
        assert i < n ==> past[..i] == events[..i] && past[i] == events[i];
      }
    }
  }

  predicate EndsAt<T>(windows: seq<Window<T>>, k: nat, now: string) {
    k < |windows| && windows[k].end == now
  }

  /** Without room every window is empty. */
  lemma {:induction false} NoRoomNoFlows<T>(start: string, events: seq<Event<T>>)
    ensures var s := Run(0, start, events);
            s.buffer == [] && forall k :: 0 <= k < |s.windows| ==> s.windows[k].flows == []
  {
    if events != [] {
      NoRoomNoFlows(start, events[..|events| - 1]);
    }
  }

  /** Each window starts where the one before it ended. */
  predicate Tiles<T>(windows: seq<Window<T>>, first: string, next: string) {
    && (windows == [] ==> first == next)
    && (windows != [] ==> windows[0].start == first && windows[|windows| - 1].end == next)
    && forall k :: 0 < k < |windows| ==> windows[k].start == windows[k - 1].end
  }

  /** The flows pushed between closings; the last part is still open. */
  function Segments<T>(events: seq<Event<T>>): (parts: seq<seq<T>>)
    ensures parts != []
  {
    if events == [] then [[]]
    else
      var n := |events| - 1;
      Grown(Segments(events[..n]), events[n])
  }

  function Pushes<T>(events: seq<Event<T>>): seq<T> {
    if events == [] then []
    else
      var n := |events| - 1;
      Pushes(events[..n]) + if events[n].Push? then [events[n].flow] else []
  }

  function Flatten<T>(parts: seq<seq<T>>): seq<T> {
    if parts == [] then [] else Flatten(parts[..|parts| - 1]) + parts[|parts| - 1]
  }

  lemma {:induction false} SegmentsHoldPushes<T>(events: seq<Event<T>>)
    ensures Flatten(Segments(events)) == Pushes(events)
  {
    if events != [] {
      var n := |events| - 1;
      var before := Segments(events[..n]);
      SegmentsHoldPushes(events[..n]);
      var parts := Segments(events);
      if events[n].Push? {
        assert parts[..|parts| - 1] == before[..|before| - 1];
      } else {
        assert parts[..|parts| - 1] == before;
      }
    }
  }

  function Snapshots<T>(s: State<T>): seq<seq<T>> {
    seq(|s.windows|, k requires 0 <= k < |s.windows| => s.windows[k].flows) + [s.buffer]
  }

  lemma {:induction false} ShorterParts<T>(a: seq<seq<T>>, b: seq<seq<T>>)
    requires |a| == |b| && forall k :: 0 <= k < |a| ==> |a[k]| <= |b[k]|
    ensures |Flatten(a)| <= |Flatten(b)|
    ensures |Flatten(a)| == |Flatten(b)| ==> forall k :: 0 <= k < |a| ==> |a[k]| == |b[k]|
  {
    if a != [] {
      var n := |a| - 1;
      ShorterParts(a[..n], b[..n]);
      if |Flatten(a)| == |Flatten(b)| {
        forall k | 0 <= k < |a| ensures |a[k]| == |b[k]| {
          assert k < n ==> |a[..n][k]| == |b[..n][k]|;
        }
      }
    }
  }

  /** The closed windows and the buffer hold exactly what was pushed, in order, if and only if no window
      overflowed. */
  lemma {:induction false} NothingLostIff<T>(max: nat, start: string, events: seq<Event<T>>)
    requires max > 0
    ensures Flatten(Snapshots(Run(max, start, events))) == Pushes(events)
       <==> forall k :: 0 <= k < |Segments(events)| ==> |Segments(events)[k]| <= max
  {
    hide Flatten, Run, Segments, Tiles;
    RunIs(max, start, events);
    SegmentsHoldPushes(events);
    var kept, parts := Snapshots(Run(max, start, events)), Segments(events);
    assert |kept| == |parts| && forall k :: 0 <= k < |kept| ==> kept[k] == LastN(parts[k], max);
    ShorterParts(kept, parts);
    if forall k :: 0 <= k < |parts| ==> |parts[k]| <= max {
      assert kept == parts;
    }
  }
}
