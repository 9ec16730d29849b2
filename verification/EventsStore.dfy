/** The event buffer kept in two scored sets: each push adds, expires and caps. Incremental pruning
    refines one selection over the whole history. */
module EventsStore {
  import opened Sorting

  // ---- The order of a scored set --------------------------------------------------

  type Scored = map<string, int>

  /** `a` ranks above `b`: a later score, or the same score and a larger member. */
  predicate Above(z: Scored, a: string, b: string)
    requires a in z && b in z
  {
    z[a] > z[b] || (z[a] == z[b] && LexLess(b, a))
  }

  function Higher(z: Scored, m: string): set<string>
    requires m in z
  {
    set a | a in z && Above(z, a, m)
  }

  lemma {:induction false} AboveTotal(z: Scored, a: string, b: string)
    requires a in z && b in z
    ensures a == b || Above(z, a, b) || Above(z, b, a)
    ensures !(Above(z, a, b) && Above(z, b, a))
  {
    LexTotal(a, b);
  }

  lemma {:induction false} AboveTransitive(z: Scored, a: string, b: string, c: string)
    requires a in z && b in z && c in z && Above(z, a, b) && Above(z, b, c)
    ensures Above(z, a, c)
  {
    if z[a] == z[b] == z[c] {
      LexTransitive(c, b, a);
    }
  }

  // ---- The operations of the scored set ---------------------------------------------

  function Add(z: Scored, member: string, score: int): Scored {
    z[member := score]
  }

  /** Removes every member with a score up to and including `cutoff`. */
  function RemoveByScore(z: Scored, cutoff: int): Scored {
    map m | m in z && z[m] > cutoff :: z[m]
  }

  /** Position from the oldest, starting at 0. */
  function Rank(z: Scored, m: string): nat
    requires m in z
  {
    |set a | a in z && Above(z, m, a)|
  }

  /** Removes the members whose rank lies between `start` and `stop`; negative bounds count from
      the end, -1 being the newest. */
  function RemoveByRank(z: Scored, start: int, stop: int): Scored {
    var lo := if start < 0 then start + |z| else start;
    var hi := if stop < 0 then stop + |z| else stop;
    map m | m in z && !(lo <= Rank(z, m) <= hi) :: z[m]
  }

  /** The `n` newest members: those with fewer than `n` others above them. */
  function Newest(z: Scored, n: nat): Scored {
    map m | m in z && |Higher(z, m)| < n :: z[m]
  }

  lemma {:induction false} RankFromEitherEnd(z: Scored, m: string)
    requires m in z
    ensures Rank(z, m) + |Higher(z, m)| + 1 == |z|
  {
    var lower := set a | a in z && Above(z, m, a);
    forall a ensures a in z.Keys <==> a in lower + Higher(z, m) + {m} {
      if a in z {
        AboveTotal(z, a, m);
      }
    }
    AboveTotal(z, m, m);
    forall a ensures !(a in lower && a in Higher(z, m)) {
      if a in z {
        AboveTotal(z, a, m);
      }
    }
    assert z.Keys == lower + Higher(z, m) + {m};
    assert |z| == |z.Keys|;
  }

  /** Removing ranks 0 to -1 - cap keeps exactly the `cap` newest. */
  lemma {:induction false} CapKeepsNewest(z: Scored, cap: nat)
    ensures RemoveByRank(z, 0, -1 - cap) == Newest(z, cap)
  {
    forall m | m in z ensures Rank(z, m) <= |z| - cap - 1 <==> |Higher(z, m)| >= cap {
      RankFromEitherEnd(z, m);
    }
  }

  // ---- Selections that agree on the newest ------------------------------------------

  lemma {:induction false} Lowest(z: Scored, s: set<string>) returns (low: string)
    requires s != {} && s <= z.Keys
    ensures low in s && forall a :: a in s && a != low ==> Above(z, a, low)
    decreases |s|
  {
    var pick :| pick in s;
    var rest := s - {pick};
    assert forall a :: a in s ==> a == pick || a in rest;
    low := pick;
    if rest != {} {
      var other := Lowest(z, rest);
      AboveTotal(z, pick, other);
      if Above(z, pick, other) {
        low := other;
      } else {
        forall a | a in rest && a != other ensures Above(z, a, pick) {
          AboveTransitive(z, a, other, pick);
        }
      }
    }
  }

  predicate UpClosed(z: Scored, s: set<string>) {
    s <= z.Keys && forall a, b :: a in z && b in s && Above(z, a, b) ==> a in s
  }

  /** Any upward-closed set of at least `n` members holds `n` that are among the newest `n`. */
  lemma {:induction false} TopOf(z: Scored, s: set<string>, n: nat) returns (top: set<string>)
    requires UpClosed(z, s) && |s| >= n
    ensures top <= s && |top| == n
    ensures forall m :: m in top ==> |Higher(z, m)| < n
    decreases |s|
  {
    if |s| == n {
      top := s;
      forall m | m in top ensures |Higher(z, m)| < n {
        AboveTotal(z, m, m);
        assert Higher(z, m) <= s - {m};
        SubsetSize(Higher(z, m), s - {m});
      }
    } else {
      var low := Lowest(z, s);
      forall a, b | a in z && b in s - {low} && Above(z, a, b) ensures a in s - {low} {
        AboveTotal(z, a, b);
      }
      top := TopOf(z, s - {low}, n);
    }
  }

  lemma {:induction false} SubsetSize(a: set<string>, b: set<string>)
    requires a <= b
    ensures |a| <= |b|
  {
    assert b == a + (b - a);
  }

  predicate SubMap(a: Scored, b: Scored) {
    forall m :: m in a ==> m in b && a[m] == b[m]
  }

  /** Two sets have the same `n` newest when one is part of the other and holds those. */
  lemma {:induction false} SameNewest(a: Scored, b: Scored, n: nat)
    requires SubMap(a, b)
    requires forall m :: m in b && |Higher(b, m)| < n ==> m in a
    ensures Newest(a, n) == Newest(b, n)
  {
    forall m | m in a ensures |Higher(a, m)| < n <==> |Higher(b, m)| < n {
      assert Higher(a, m) <= Higher(b, m);
      SubsetSize(Higher(a, m), Higher(b, m));
      if |Higher(b, m)| >= n {
        HigherIsUpClosed(b, m);
        var top := TopOf(b, Higher(b, m), n);
        assert top <= Higher(a, m);
        SubsetSize(top, Higher(a, m));
      }
    }
  }

  lemma {:induction false} HigherIsUpClosed(z: Scored, m: string)
    requires m in z
    ensures UpClosed(z, Higher(z, m))
  {
    forall a, b | a in z && b in Higher(z, m) && Above(z, a, b) ensures a in Higher(z, m) {
      AboveTransitive(z, a, b, m);
    }
  }

  // ---- The store -----------------------------------------------------------------

  function Pruned(z: Scored, now: int, retention: int, cap: nat): Scored {
    RemoveByRank(RemoveByScore(z, now - retention), 0, -1 - cap)
  }

  datatype Kind = Violation | Flow

  function Expired(z: Scored, cutoff: int): set<string> {
    set m | m in z && z[m] <= cutoff
  }

  function Excess(size: int, cap: nat): int {
    if size > cap then size - cap else 0
  }

  lemma {:induction false} NewestSize(z: Scored, n: nat)
    ensures |Newest(z, n)| == if |z| <= n then |z| else n
  {
    var kept := Newest(z, n).Keys;
    assert |kept| == |Newest(z, n)| && |z.Keys| == |z|;
    if |z| <= n {
      forall m | m in z ensures |Higher(z, m)| < n {
        RankFromEitherEnd(z, m);
      }
      assert kept == z.Keys;
    } else {
      var top := TopOf(z, z.Keys, n);
      SubsetSize(top, kept);
      if |kept| > n {
        var low := Lowest(z, kept);
        SubsetSize(kept - {low}, Higher(z, low));
      }
    }
  }

  /** What each step of a prune removes: the expired members, then those beyond the cap. */
  lemma {:induction false} PruneCounts(z: Scored, cutoff: int, cap: nat)
    ensures var live := RemoveByScore(z, cutoff);
            && |z| - |live| == |Expired(z, cutoff)|
            && |live| - |RemoveByRank(live, 0, -1 - cap)| == Excess(|live|, cap)
  {
    var live := RemoveByScore(z, cutoff);
    assert z.Keys == live.Keys + Expired(z, cutoff) && live.Keys !! Expired(z, cutoff);
    assert |z.Keys| == |z| && |live.Keys| == |live|;
    CapKeepsNewest(live, cap);
    NewestSize(live, cap);
  }

  class Store {
    const retentionMs: int
    const maxTotal: nat
    var violations: Scored
    var flows: Scored

    constructor (retentionDays: nat, maxTotal: nat)
      ensures retentionMs == retentionDays * 86400 * 1000 && this.maxTotal == maxTotal
      ensures violations == map[] && flows == map[]
    {
      this.retentionMs, this.maxTotal := retentionDays * 86400 * 1000, maxTotal;
      violations, flows := map[], map[];
    }

    function Of(kind: Kind): Scored
      reads this
    {
      if kind.Violation? then violations else flows
    }

    /** Adds the event, or moves it up when it is there already, then prunes its set. */
    method Push(kind: Kind, payload: string, now: int)
      modifies this
      ensures Of(kind) == Pruned(Add(old(Of(kind)), payload, now), now, retentionMs, maxTotal)
      ensures forall other :: other != kind ==> Of(other) == old(Of(other))
    {
      var z := Add(Of(kind), payload, now);
      z := RemoveByScore(z, now - retentionMs);
      z := RemoveByRank(z, 0, -1 - maxTotal);
      if kind.Violation? {
        violations := z;
      } else {
        flows := z;
      }
    }

    /** Prunes both sets and reports how many members each step removed. */
    method Prune(now: int) returns (vExpired: int, fExpired: int, vCapped: int, fCapped: int)
      modifies this
      ensures violations == Pruned(old(violations), now, retentionMs, maxTotal)
      ensures flows == Pruned(old(flows), now, retentionMs, maxTotal)
      ensures vExpired == |Expired(old(violations), now - retentionMs)|
      ensures fExpired == |Expired(old(flows), now - retentionMs)|
      ensures vCapped == Excess(|old(violations)| - vExpired, maxTotal)
      ensures fCapped == Excess(|old(flows)| - fExpired, maxTotal)
    {
      PruneCounts(violations, now - retentionMs, maxTotal);
      PruneCounts(flows, now - retentionMs, maxTotal);
      hide Expired, RemoveByScore, RemoveByRank;
      var v := RemoveByScore(violations, now - retentionMs);
      var f := RemoveByScore(flows, now - retentionMs);
      vExpired, fExpired := |violations| - |v|, |flows| - |f|;
      violations, flows := RemoveByRank(v, 0, -1 - maxTotal), RemoveByRank(f, 0, -1 - maxTotal);
      vCapped, fCapped := |v| - |violations|, |f| - |flows|;
    }
  }

  // ---- Whole histories ---------------------------------------------------------------

  /** What happens to one set: a push of a payload or a prune, each with the clock's reading. */
  datatype Event = Pushed(payload: string, at: int) | Swept(at: int)

  function Incremental(history: seq<Event>, retention: int, cap: nat): Scored {
    if history == [] then map[]
    else
      var before := Incremental(history[..|history| - 1], retention, cap);
      match history[|history| - 1]
      case Pushed(payload, at) => Pruned(Add(before, payload, at), at, retention, cap)
      case Swept(at) => Pruned(before, at, retention, cap)
  }

  /** When each payload was last pushed. */
  function LastPush(history: seq<Event>): Scored {
    if history == [] then map[]
    else
      var before := LastPush(history[..|history| - 1]);
      match history[|history| - 1]
      case Pushed(payload, at) => before[payload := at]
      case Swept(_) => before
  }

  predicate ClockRuns(history: seq<Event>) {
    forall i, j :: 0 <= i <= j < |history| ==> history[i].at <= history[j].at
  }

  /** One selection over everything ever pushed: the newest `cap` payloads, by last push, among
      those still inside the retention window at the last event. */
  function Selected(history: seq<Event>, retention: int, cap: nat): Scored {
    if history == [] then map[]
    else Newest(RemoveByScore(LastPush(history), history[|history| - 1].at - retention), cap)
  }

  lemma {:induction false} LastPushBounds(history: seq<Event>, m: string)
    requires m in LastPush(history)
    ensures exists i :: 0 <= i < |history| && history[i] == Pushed(m, LastPush(history)[m])
  {
    var n := |history| - 1;
    if history[n] == Pushed(m, LastPush(history)[m]) {
    } else {
      LastPushBounds(history[..n], m);
      var i :| 0 <= i < n && history[..n][i] == Pushed(m, LastPush(history[..n])[m]);
      assert history[i] == history[..n][i];
    }
  }

  /** Dropping what is expired or beyond the cap at one moment does not change the selection made
      after the next event. */
  lemma {:induction false} PruneEarlier(g: Scored, cutoff: int, g': Scored, cutoff': int, pushed: set<string>, cap: nat)
    requires cutoff <= cutoff' && g.Keys + pushed == g'.Keys
    requires forall m :: m in g && m !in pushed ==> g'[m] == g[m]
    requires forall p, m :: p in pushed && m in g' ==> g'[m] <= g'[p]
    requires forall p, m :: p in pushed && m in g ==> g[m] <= g'[p]
    ensures var kept := Newest(RemoveByScore(g, cutoff), cap);
            var before := map m | m in kept.Keys + pushed :: g'[m];
            Newest(RemoveByScore(before, cutoff'), cap) == Newest(RemoveByScore(g', cutoff'), cap)
  {
    var live := RemoveByScore(g, cutoff);
    var kept := Newest(live, cap);
    var before := map m | m in kept.Keys + pushed :: g'[m];
    var a, b := RemoveByScore(before, cutoff'), RemoveByScore(g', cutoff');
    forall m | m in b && |Higher(b, m)| < cap ensures m in a {
      if m !in pushed {
        forall x | x in Higher(live, m) ensures x in Higher(b, m) {
          if x in pushed {
            assert g[x] <= g'[x];
          }
        }
        assert Higher(live, m) <= Higher(b, m);
        SubsetSize(Higher(live, m), Higher(b, m));
      }
    }
    SameNewest(a, b, cap);
  }

  /** For every history with a clock that never runs backwards, pruning at every event leaves
      exactly the selection over the whole history. */
  lemma {:induction false} IncrementalIsSelected(history: seq<Event>, retention: int, cap: nat)
    requires ClockRuns(history)
    ensures Incremental(history, retention, cap) == Selected(history, retention, cap)
  {
    hide RemoveByScore, Newest, RemoveByRank;
    if history != [] {
      var n := |history| - 1;
      var past, last := history[..n], history[n];
      IncrementalIsSelected(past, retention, cap);
      forall m | m in LastPush(past) ensures LastPush(past)[m] <= last.at {
        LastPushBounds(past, m);
      }
      var cutoff := if n == 0 then last.at - retention else past[n - 1].at - retention;
      assert n > 0 ==> past[n - 1] == history[n - 1];
      assert LastPush(past) == map[] || n > 0;
      NothingToSelect(cutoff, cap);
      SelectStep(LastPush(past), cutoff, last, retention, cap);
    }
  }

  lemma {:induction false} NothingToSelect(cutoff: int, cap: nat)
    ensures Newest(RemoveByScore(map[], cutoff), cap) == map[]
  {
  }

  lemma KeptValues(g: Scored, cutoff: int, cap: nat)
    ensures SubMap(Newest(RemoveByScore(g, cutoff), cap), g)
  {
  }

  lemma BeforeIs(kept: Scored, g: Scored, event: Event)
    requires SubMap(kept, g)
    ensures var before := if event.Pushed? then Add(kept, event.payload, event.at) else kept;
            var g' := if event.Pushed? then g[event.payload := event.at] else g;
            var pushed := if event.Pushed? then {event.payload} else {};
            kept.Keys + pushed <= g'.Keys && before == map m | m in kept.Keys + pushed :: g'[m]
  {
  }

  /** One event, on a set that is already a selection from `g`. */
  lemma {:induction false} SelectStep(g: Scored, cutoff: int, event: Event, retention: int, cap: nat)
    requires cutoff <= event.at - retention
    requires forall m :: m in g ==> g[m] <= event.at
    ensures var kept := Newest(RemoveByScore(g, cutoff), cap);
            var before := if event.Pushed? then Add(kept, event.payload, event.at) else kept;
            var g' := if event.Pushed? then g[event.payload := event.at] else g;
            Pruned(before, event.at, retention, cap) == Newest(RemoveByScore(g', event.at - retention), cap)
  {
    hide RemoveByScore, Newest, RemoveByRank;
    var kept := Newest(RemoveByScore(g, cutoff), cap);
    var before := if event.Pushed? then Add(kept, event.payload, event.at) else kept;
    var g' := if event.Pushed? then g[event.payload := event.at] else g;
    var pushed := if event.Pushed? then {event.payload} else {};
    PruneEarlier(g, cutoff, g', event.at - retention, pushed, cap);
    KeptValues(g, cutoff, cap);
    BeforeIs(kept, g, event);
    CapKeepsNewest(RemoveByScore(before, event.at - retention), cap);
  }

  // ---- Who survives -----------------------------------------------------------------

  /** The event pushes a payload that no later event pushes. */
  predicate LastAt(history: seq<Event>, i: nat) {
    && i < |history| && history[i].Pushed?
    && forall k :: i < k < |history| && history[k].Pushed? ==> history[k].payload != history[i].payload
  }

  lemma {:induction false} LastPushAt(history: seq<Event>, i: nat)
    requires LastAt(history, i)
    ensures history[i].payload in LastPush(history) && LastPush(history)[history[i].payload] == history[i].at
  {
    var n := |history| - 1;
    if i < n {
      assert LastAt(history[..n], i);
      LastPushAt(history[..n], i);
    }
  }

  lemma {:induction false} PushedAt(history: seq<Event>, m: string) returns (i: nat)
    requires m in LastPush(history)
    ensures LastAt(history, i) && history[i].payload == m
  {
    var n := |history| - 1;
    if history[n].Pushed? && history[n].payload == m {
      i := n;
    } else {
      i := PushedAt(history[..n], m);
    }
  }

  lemma LastIsPushed(history: seq<Event>, i: nat)
    requires LastAt(history, i)
    ensures i < |history| && history[i].Pushed?
  {
  }

  lemma LastPushIs(history: seq<Event>)
    ensures forall i: nat :: LastAt(history, i) ==>
              history[i].payload in LastPush(history) && LastPush(history)[history[i].payload] == history[i].at
    ensures forall m :: m in LastPush(history) ==> exists i: nat :: LastAt(history, i) && history[i].payload == m
  {
    hide LastAt, LastPush;
    forall i: nat | LastAt(history, i)
      ensures i < |history| && history[i].Pushed? && history[i].payload in LastPush(history)
           && LastPush(history)[history[i].payload] == history[i].at
    {
      LastIsPushed(history, i);
      LastPushAt(history, i);
    }
    forall m | m in LastPush(history) ensures exists i: nat :: LastAt(history, i) && history[i].payload == m {
      var i := PushedAt(history, m);
    }
  }

  /** One last push beats another: it came later, or at the same time with the larger payload. */
  predicate Beats(history: seq<Event>, j: nat, i: nat) {
    && LastAt(history, i) && LastAt(history, j)
    && (history[j].at > history[i].at
        || (history[j].at == history[i].at && LexLess(history[i].payload, history[j].payload)))
  }

  lemma {:induction false} SameSize(js: set<nat>, texts: set<string>, name: nat -> string)
    requires forall i, j :: i in js && j in js && name(i) == name(j) ==> i == j
    requires forall t :: t in texts <==> exists j :: j in js && name(j) == t
    ensures |js| == |texts|
  {
    if js == {} {
      assert texts == {};
    } else {
      var j :| j in js;
      SameSize(js - {j}, texts - {name(j)}, name);
    }
  }

  /** With a clock that never runs backwards, a payload is held after a history exactly when the time of its last push
      is still inside the retention window and fewer than `cap` payloads beat it; and it is held with that time. */
  lemma HeldIff(history: seq<Event>, retention: int, cap: nat, i: nat)
    requires ClockRuns(history) && LastAt(history, i)
    ensures var z := Incremental(history, retention, cap);
            && (history[i].payload in z <==>
                  && history[i].at > history[|history| - 1].at - retention
                  && |set j: nat | j < |history| && Beats(history, j, i)| < cap)
            && (history[i].payload in z ==> z[history[i].payload] == history[i].at)
  {
    hide Incremental, LastPush, LexLess, Pruned;
    IncrementalIsSelected(history, retention, cap);
    LastPushIs(history);
    var cutoff := history[|history| - 1].at - retention;
    if history[i].at > cutoff {
      BeatenBy(history, cutoff, i);
    }
  }

  lemma BeatenBy(history: seq<Event>, cutoff: int, i: nat)
    requires LastAt(history, i) && history[i].at > cutoff
    requires history[i].payload in RemoveByScore(LastPush(history), cutoff)
    ensures |Higher(RemoveByScore(LastPush(history), cutoff), history[i].payload)|
         == |set j: nat | j < |history| && Beats(history, j, i)|
  {
    hide LastPush, LexLess;
    LastPushIs(history);
    var m := history[i].payload;
    var live := RemoveByScore(LastPush(history), cutoff);
    var js := set j: nat | j < |history| && Beats(history, j, i);
    var name := (j: nat) => if j < |history| && history[j].Pushed? then history[j].payload else "";
    forall t ensures t in Higher(live, m) <==> exists j :: j in js && name(j) == t {
      if t in Higher(live, m) {
        var j: nat :| LastAt(history, j) && history[j].payload == t;
        assert j in js;
      }
    }
    SameSize(js, Higher(live, m), name);
  }

  /** What is held was pushed. */
  lemma HeldWasPushed(history: seq<Event>, retention: int, cap: nat, m: string)
    requires ClockRuns(history) && m in Incremental(history, retention, cap)
    ensures exists i: nat :: LastAt(history, i) && history[i].payload == m
  {
    hide Incremental, LastPush, LastAt;
    IncrementalIsSelected(history, retention, cap);
    LastPushIs(history);
  }

  /** A clock that runs backwards breaks it: the second push expires the first payload, which the
      selection made at the third event's earlier time still holds. */
  lemma {:induction false} ClockMatters()
    ensures var history := [Pushed("a", 10), Pushed("b", 100), Swept(15)];
            "a" !in Incremental(history, 20, 5) && "a" in Selected(history, 20, 5)
  {
    hide RemoveByRank, Newest;
    var one, two := [Pushed("a", 10)], [Pushed("a", 10), Pushed("b", 100)];
    var history := two + [Swept(15)];
    assert history == [Pushed("a", 10), Pushed("b", 100), Swept(15)];
    assert one[..0] == [] && two[..1] == one && history[..2] == two;
    ExpiredForGood(history);
    HeldByOldTime(map["a" := 10, "b" := 100]);
  }

  lemma {:induction false} ExpiredForGood(history: seq<Event>)
    requires |history| == 3 && history[2] == Swept(15)
    requires history[..2] == [Pushed("a", 10), Pushed("b", 100)]
    ensures "a" !in Incremental(history, 20, 5)
  {
    hide Newest;
    var one, two := [Pushed("a", 10)], [Pushed("a", 10), Pushed("b", 100)];
    assert one[..0] == [] && two[..1] == one;
    var z := Incremental(one, 20, 5);
    assert "a" in z ==> z["a"] == 10;
    assert "a" !in Pruned(Add(z, "b", 100), 100, 20, 5);
  }

  lemma {:induction false} HeldByOldTime(z: Scored)
    requires z == map["a" := 10, "b" := 100]
    ensures "a" in Newest(RemoveByScore(z, -5), 5)
  {
    var live := RemoveByScore(z, -5);
    LexIrreflexive("a");
    assert Higher(live, "a") <= {"b"};
    SubsetSize(Higher(live, "a"), {"b"});
  }

  // ---- Reading -------------------------------------------------------------------------

  /** The members a read since `since` with a limit sees: the newest `limit` of those. */
  function ReadSince(z: Scored, since: int, limit: nat): Scored {
    Newest(RemoveByScore(z, since - 1), limit)
  }

  /** A read that asks for no more than the cap sees what it would see had nothing been capped. */
  lemma {:induction false} CapUnseen(z: Scored, cap: nat, since: int, limit: nat)
    requires limit <= cap
    ensures ReadSince(Newest(z, cap), since, limit) == ReadSince(z, since, limit)
  {
    var a, b := RemoveByScore(Newest(z, cap), since - 1), RemoveByScore(z, since - 1);
    forall m | m in b && |Higher(b, m)| < limit ensures m in a {
      assert Higher(z, m) <= Higher(b, m);
      SubsetSize(Higher(z, m), Higher(b, m));
    }
    SameNewest(a, b, limit);
  }
}
