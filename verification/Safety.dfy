/** The agent's rate limiter and circuit breaker: queues and counters that refine statements about
    the whole history of grants and failures. */
module Safety {
  import opened Sorting

  // ---- Rate limiter ---------------------------------------------------------------------------

  datatype Limits = Limits(perMinute: nat, total: nat, perIp: nat, ipWindow: real)

  /** A slot given to an address, without its prefix length, at some time. */
  datatype Grant = Grant(ip: string, at: real)

  function BareIp(src: string): string {
    if src == "" || src[0] == '/' then "" else [src[0]] + BareIp(src[1..])
  }

  function Times(grants: seq<Grant>): seq<real> {
    seq(|grants|, i requires 0 <= i < |grants| => grants[i].at)
  }

  function OfIp(grants: seq<Grant>, ip: string): seq<Grant> {
    if grants == [] then []
    else
      var n := |grants| - 1;
      OfIp(grants[..n], ip) + if grants[n].ip == ip then [grants[n]] else []
  }

  /** How many of `times` lie at or after `since`. */
  function CountSince(times: seq<real>, since: real): nat {
    if times == [] then 0
    else CountSince(times[..|times| - 1], since) + if times[|times| - 1] >= since then 1 else 0
  }

  /** The rule the limiter stands for: fewer than the limit in the last minute, in all, and for the
      address in its window, the ends of both windows included. */
  predicate Allowed(l: Limits, grants: seq<Grant>, ip: string, now: real) {
    && CountSince(Times(grants), now - 60.0) < l.perMinute
    && |grants| < l.total
    && CountSince(Times(OfIp(grants, ip)), now - l.ipWindow) < l.perIp
  }

  predicate InOrder(times: seq<real>) {
    forall i, j :: 0 <= i <= j < |times| ==> times[i] <= times[j]
  }

  predicate Upto(times: seq<real>, bound: real) {
    forall i :: 0 <= i < |times| ==> times[i] <= bound
  }

  /** `queue` is the end of `times`, and everything before it lies before `cutoff`. */
  predicate TailSince(queue: seq<real>, times: seq<real>, cutoff: real) {
    && |queue| <= |times| && queue == times[|times| - |queue|..]
    && forall i :: 0 <= i < |times| - |queue| ==> times[i] < cutoff
  }

  lemma {:induction false} CountNone(times: seq<real>, since: real)
    requires forall i :: 0 <= i < |times| ==> times[i] < since
    ensures CountSince(times, since) == 0
  {
    if times != [] {
      CountNone(times[..|times| - 1], since);
    }
  }

  lemma {:induction false} CountAppend(a: seq<real>, b: seq<real>, since: real)
    ensures CountSince(a + b, since) == CountSince(a, since) + CountSince(b, since)
    decreases |b|
  {
    if b == [] {
      assert a + b == a;
    } else {
      var n := |b| - 1;
      assert (a + b)[..|a + b| - 1] == a + b[..n];
      CountAppend(a, b[..n], since);
    }
  }

  lemma {:induction false} CountAll(times: seq<real>, since: real)
    requires forall i :: 0 <= i < |times| ==> times[i] >= since
    ensures CountSince(times, since) == |times|
  {
    if times != [] {
      CountAll(times[..|times| - 1], since);
    }
  }

  /** Once it starts inside the window, the queue's length is the count over the whole history. */
  lemma {:induction false} QueueCounts(queue: seq<real>, times: seq<real>, since: real)
    requires InOrder(times) && TailSince(queue, times, since)
    requires queue == [] || queue[0] >= since
    ensures CountSince(times, since) == |queue|
  {
    var k := |times| - |queue|;
    assert times == times[..k] + queue;
    CountNone(times[..k], since);
    forall i | 0 <= i < |queue| ensures queue[i] >= since {
      assert queue[i] == times[k + i] && queue[0] == times[k];
    }
    CountAll(queue, since);
    CountAppend(times[..k], queue, since);
  }

  /** Drops what lies before the cutoff from the front of a queue. */
  method Evict(queue: seq<real>, cutoff: real, ghost times: seq<real>, ghost before: real) returns (kept: seq<real>)
    requires InOrder(times) && TailSince(queue, times, before) && before <= cutoff
    ensures TailSince(kept, times, cutoff)
    ensures kept == [] || kept[0] >= cutoff
  {
    kept := queue;
    while kept != [] && kept[0] < cutoff
      invariant TailSince(kept, times, cutoff)
      decreases |kept|
    {
      ghost var k := |times| - |kept|;
      assert kept[0] == times[k];
      kept := kept[1..];
    }
  }

  lemma TimesAppend(grants: seq<Grant>, g: Grant)
    ensures Times(grants + [g]) == Times(grants) + [g.at]
  {
  }

  lemma InOrderAppend(times: seq<real>, at: real)
    requires InOrder(times) && Upto(times, at)
    ensures InOrder(times + [at])
  {
  }

  lemma InOrderInit(times: seq<real>)
    requires InOrder(times) && times != []
    ensures InOrder(times[..|times| - 1]) && Upto(times[..|times| - 1], times[|times| - 1])
  {
  }

  lemma {:induction false} OfIpInOrder(grants: seq<Grant>, ip: string, bound: real)
    requires InOrder(Times(grants)) && Upto(Times(grants), bound)
    ensures InOrder(Times(OfIp(grants, ip))) && Upto(Times(OfIp(grants, ip)), bound)
  {
    if grants == [] {
      assert OfIp(grants, ip) == [] && Times([]) == [];
    } else {
      var n := |grants| - 1;
      assert Times(grants)[n] == grants[n].at;
      assert Times(grants)[..n] == Times(grants[..n]);
      InOrderInit(Times(grants));
      OfIpInOrder(grants[..n], ip, grants[n].at);
      TimesAppend(OfIp(grants[..n], ip), grants[n]);
      InOrderAppend(Times(OfIp(grants[..n], ip)), grants[n].at);
      assert Upto(Times(OfIp(grants[..n], ip)), bound);
      assert OfIp(grants[..n], ip) + [] == OfIp(grants[..n], ip);
    }
  }

  class RateLimiter {
    const limits: Limits
    var minuteWindow: seq<real>
    var totalCount: nat
    var perIp: map<string, seq<real>>
    ghost var grants: seq<Grant>
    ghost var clock: real

    constructor (limits: Limits, start: real)
      ensures Valid() && this.limits == limits && grants == [] && clock == start
    {
      this.limits := limits;
      minuteWindow, totalCount, perIp, grants, clock := [], 0, map[], [], start;
    }

    ghost predicate Valid()
      reads this
    {
      && Admitted(limits, grants) && History(grants, clock)
      && totalCount == |grants|
      && TailSince(minuteWindow, Times(grants), clock - 60.0)
      && QueuesHold(perIp, grants, clock - limits.ipWindow)
    }

    /** Grants a slot exactly when the rule allows it, and records it. */
    method CheckAndConsume(srcIp: string, now: real) returns (granted: bool)
      requires Valid() && clock <= now
      modifies this
      ensures Valid() && clock == now
      ensures granted <==> Allowed(limits, old(grants), BareIp(srcIp), now)
      ensures grants == old(grants) + if granted then [Grant(BareIp(srcIp), now)] else []
    {
      hide Admitted, TailSince, QueuesHold, History, OfIp, CountSince, BareIp, Times;
      var bare := BareIp(srcIp);
      ghost var past := grants;
      HistoryOrder(past, bare, clock);
      QueueHolds(perIp, past, bare, clock - limits.ipWindow);
      minuteWindow := Evict(minuteWindow, now - 60.0, Times(past), clock - 60.0);
      var queue := Evict(Queue(perIp, bare), now - limits.ipWindow, Times(OfIp(past, bare)), clock - limits.ipWindow);
      QueueCounts(minuteWindow, Times(past), now - 60.0);
      QueueCounts(queue, Times(OfIp(past, bare)), now - limits.ipWindow);
      QueueEvicted(perIp, past, bare, clock - limits.ipWindow, queue, now - limits.ipWindow);
      perIp := perIp[bare := queue];
      HistoryLater(past, clock, now);
      clock := now;
      if |minuteWindow| >= limits.perMinute || totalCount >= limits.total || |queue| >= limits.perIp {
        return false;
      }
      grants := past + [Grant(bare, now)];
      HistoryGrows(past, bare, now);
      AdmittedGrows(limits, past, bare, now);
      TimesAppend(past, Grant(bare, now));
      TailGrows(minuteWindow, Times(past), now - 60.0, now);
      QueueGranted(perIp, past, bare, now - limits.ipWindow, now);
      minuteWindow := minuteWindow + [now];
      totalCount := totalCount + 1;
      perIp := perIp[bare := Queue(perIp, bare) + [now]];
      granted := true;
    }
  }

  ghost predicate History(grants: seq<Grant>, clock: real) {
    InOrder(Times(grants)) && Upto(Times(grants), clock)
  }

  /** The queue of an address; one never seen is empty. */
  function Queue(perIp: map<string, seq<real>>, ip: string): seq<real> {
    if ip in perIp then perIp[ip] else []
  }

  ghost predicate QueuesHold(perIp: map<string, seq<real>>, grants: seq<Grant>, cutoff: real) {
    forall ip :: TailSince(Queue(perIp, ip), Times(OfIp(grants, ip)), cutoff)
  }

  lemma HistoryOrder(grants: seq<Grant>, ip: string, clock: real)
    requires History(grants, clock)
    ensures InOrder(Times(grants)) && InOrder(Times(OfIp(grants, ip)))
  {
    OfIpInOrder(grants, ip, clock);
  }

  lemma HistoryLater(grants: seq<Grant>, clock: real, now: real)
    requires History(grants, clock) && clock <= now
    ensures History(grants, now)
  {
  }

  lemma HistoryGrows(grants: seq<Grant>, ip: string, now: real)
    requires History(grants, now)
    ensures History(grants + [Grant(ip, now)], now)
  {
    TimesAppend(grants, Grant(ip, now));
    InOrderAppend(Times(grants), now);
  }

  lemma QueueHolds(perIp: map<string, seq<real>>, grants: seq<Grant>, ip: string, cutoff: real)
    requires QueuesHold(perIp, grants, cutoff)
    ensures TailSince(Queue(perIp, ip), Times(OfIp(grants, ip)), cutoff)
  {
  }

  lemma TailGrows(queue: seq<real>, times: seq<real>, cutoff: real, now: real)
    requires TailSince(queue, times, cutoff)
    ensures TailSince(queue + [now], times + [now], cutoff)
  {
    assert (times + [now])[|times| - |queue|..] == times[|times| - |queue|..] + [now];
  }

  lemma TailLater(queue: seq<real>, times: seq<real>, cutoff: real, later: real)
    requires TailSince(queue, times, cutoff) && cutoff <= later
    ensures TailSince(queue, times, later)
  {
  }

  lemma QueueEvicted(perIp: map<string, seq<real>>, grants: seq<Grant>, ip: string, cutoff: real,
                     queue: seq<real>, later: real)
    requires QueuesHold(perIp, grants, cutoff) && cutoff <= later
    requires TailSince(queue, Times(OfIp(grants, ip)), later)
    ensures QueuesHold(perIp[ip := queue], grants, later)
  {
    hide OfIp, Times, TailSince;
    forall x ensures TailSince(Queue(perIp[ip := queue], x), Times(OfIp(grants, x)), later) {
      QueueHolds(perIp, grants, x, cutoff);
      TailLater(Queue(perIp, x), Times(OfIp(grants, x)), cutoff, later);
    }
  }

  lemma OfIpAppend(grants: seq<Grant>, g: Grant, ip: string)
    ensures OfIp(grants + [g], ip) == OfIp(grants, ip) + if g.ip == ip then [g] else []
  {
    assert (grants + [g])[..|grants|] == grants;
  }

  lemma QueueGranted(perIp: map<string, seq<real>>, grants: seq<Grant>, ip: string, cutoff: real, now: real)
    requires QueuesHold(perIp, grants, cutoff)
    ensures QueuesHold(perIp[ip := Queue(perIp, ip) + [now]], grants + [Grant(ip, now)], cutoff)
  {
    hide OfIp, Times, TailSince;
    var queues, more := perIp[ip := Queue(perIp, ip) + [now]], grants + [Grant(ip, now)];
    forall x ensures TailSince(Queue(queues, x), Times(OfIp(more, x)), cutoff) {
      QueueHolds(perIp, grants, x, cutoff);
      OfIpAppend(grants, Grant(ip, now), x);
      if x == ip {
        TimesAppend(OfIp(grants, x), Grant(ip, now));
        TailGrows(Queue(perIp, x), Times(OfIp(grants, x)), cutoff, now);
      } else {
        assert OfIp(grants, x) + [] == OfIp(grants, x);
      }
    }
  }

  // ---- Counts and addresses ---------------------------------------------------------------------

  /** An address is what stands in front of the first slash. */
  lemma {:induction false} BareIpIs(src: string)
    ensures '/' !in BareIp(src)
    ensures src == BareIp(src) || BareIp(src) + "/" <= src
  {
    if src != "" && src[0] != '/' {
      BareIpIs(src[1..]);
      assert src == [src[0]] + src[1..];
      if src[1..] != BareIp(src[1..]) {
        assert [src[0]] + (BareIp(src[1..]) + "/") <= src;
        assert [src[0]] + (BareIp(src[1..]) + "/") == BareIp(src) + "/";
      }
    }
  }

  lemma {:induction false} SinceIs(grants: seq<Grant>, since: real, p: Grant -> bool)
    requires forall g :: p(g) <==> g.at >= since
    ensures CountSince(Times(grants), since) == |Where(grants, p)|
  {
    hide CountSince, Times, Where;
    if grants == [] {
      NoTimes("");
      NoneSince(since);
      WhereGrows([], Grant("", since), p);
    } else {
      var n := |grants| - 1;
      var past, g := grants[..n], grants[n];
      assert grants == past + [g];
      SinceIs(past, since, p);
      TimesAppend(past, g);
      CountSnoc(Times(past), g.at, since);
      WhereGrows(past, g, p);
    }
  }

  lemma {:induction false} IpSinceIs(grants: seq<Grant>, ip: string, since: real, p: Grant -> bool)
    requires forall g :: p(g) <==> g.ip == ip && g.at >= since
    ensures CountSince(Times(OfIp(grants, ip)), since) == |Where(grants, p)|
  {
    hide CountSince, Times, OfIp, Where;
    if grants == [] {
      NoTimes(ip);
      NoneSince(since);
      WhereGrows([], Grant(ip, since), p);
    } else {
      var n := |grants| - 1;
      var past, g := grants[..n], grants[n];
      assert grants == past + [g];
      IpSinceIs(past, ip, since, p);
      OfIpAppend(past, g, ip);
      if g.ip == ip {
        TimesAppend(OfIp(past, ip), g);
        CountSnoc(Times(OfIp(past, ip)), g.at, since);
      } else {
        assert OfIp(past, ip) + [] == OfIp(past, ip);
      }
      WhereGrows(past, g, p);
    }
  }

  lemma NoneSince(since: real)
    ensures CountSince([], since) == 0
  {
  }

  lemma CountSnoc(times: seq<real>, at: real, since: real)
    ensures CountSince(times + [at], since) == CountSince(times, since) + if at >= since then 1 else 0
  {
    assert (times + [at])[..|times|] == times;
  }

  /** A slot is allowed exactly when fewer grants than the rate are at most a minute old, fewer than the total were
      made at all, and fewer than an address's share were made to it within its window. */
  lemma AllowedIff(l: Limits, grants: seq<Grant>, ip: string, now: real)
    ensures Allowed(l, grants, ip, now) <==>
              && |set i: nat | i < |grants| && grants[i].at >= now - 60.0| < l.perMinute
              && |grants| < l.total
              && |set i: nat | i < |grants| && grants[i].ip == ip && grants[i].at >= now - l.ipWindow| < l.perIp
  {
    hide CountSince, Times, OfIp;
    var recent := (g: Grant) => g.at >= now - 60.0;
    var its := (g: Grant) => g.ip == ip && g.at >= now - l.ipWindow;
    SinceIs(grants, now - 60.0, recent);
    IpSinceIs(grants, ip, now - l.ipWindow, its);
    assert Where(grants, recent) == set i: nat | i < |grants| && grants[i].at >= now - 60.0;
    assert Where(grants, its) == set i: nat | i < |grants| && grants[i].ip == ip && grants[i].at >= now - l.ipWindow;
  }

  // ---- What the limiter promises over any run ---------------------------------------------------

  /** Grants in the order they were made, each allowed when it was made. */
  predicate Admitted(l: Limits, grants: seq<Grant>) {
    grants == [] ||
    var n := |grants| - 1;
    Admitted(l, grants[..n]) && Allowed(l, grants[..n], grants[n].ip, grants[n].at)
  }

  /** How many of `times` lie between `from` and `to`, both included. */
  function CountBetween(times: seq<real>, from: real, to: real): nat {
    if times == [] then 0
    else
      var n := |times| - 1;
      CountBetween(times[..n], from, to) + if from <= times[n] <= to then 1 else 0
  }

  /** Each time found fewer than `max` in the window of that length before it. */
  predicate Spaced(times: seq<real>, max: nat, length: real) {
    times == [] ||
    var n := |times| - 1;
    Spaced(times[..n], max, length) && CountSince(times[..n], times[n] - length) < max
  }

  lemma {:induction false} BetweenIsSince(times: seq<real>, from: real, to: real, since: real)
    requires since <= from
    ensures CountBetween(times, from, to) <= CountSince(times, since)
  {
    if times != [] {
      BetweenIsSince(times[..|times| - 1], from, to, since);
    }
  }

  /** Then no window of that length, wherever it lies, holds more than `max`. */
  lemma {:induction false} NoWindowOverflows(times: seq<real>, max: nat, length: real, from: real)
    requires Spaced(times, max, length)
    ensures CountBetween(times, from, from + length) <= max
  {
    hide CountSince;
    if times != [] {
      var n := |times| - 1;
      NoWindowOverflows(times[..n], max, length, from);
      if from <= times[n] <= from + length {
        BetweenIsSince(times[..n], from, from + length, times[n] - length);
      }
    }
  }

  lemma {:induction false} AdmittedSpaced(l: Limits, grants: seq<Grant>, ip: string)
    requires Admitted(l, grants)
    ensures |grants| <= l.total
    ensures Spaced(Times(grants), l.perMinute, 60.0)
    ensures Spaced(Times(OfIp(grants, ip)), l.perIp, l.ipWindow)
  {
    hide CountSince, OfIp, Times;
    if grants == [] {
      NoTimes(ip);
    } else {
      var n := |grants| - 1;
      var past, g := grants[..n], grants[n];
      AdmittedSpaced(l, past, ip);
      assert grants == past + [g];
      SpacedGrows(past, g, l.perMinute, 60.0);
      OfIpAppend(past, g, ip);
      if g.ip == ip {
        SpacedGrows(OfIp(past, ip), g, l.perIp, l.ipWindow);
      } else {
        assert OfIp(past, ip) + [] == OfIp(past, ip);
      }
    }
  }

  lemma NoTimes(ip: string)
    ensures Times([]) == [] && OfIp([], ip) == []
  {
  }

  lemma SpacedGrows(grants: seq<Grant>, g: Grant, max: nat, length: real)
    requires Spaced(Times(grants), max, length) && CountSince(Times(grants), g.at - length) < max
    ensures Spaced(Times(grants + [g]), max, length)
  {
    hide CountSince;
    TimesAppend(grants, g);
    assert (Times(grants) + [g.at])[..|grants|] == Times(grants);
  }

  lemma {:induction false} BetweenGrows(grants: seq<Grant>, ip: string, from: real, to: real,
                                        p: Grant -> bool, q: Grant -> bool)
    requires forall g :: p(g) <==> from <= g.at <= to
    requires forall g :: q(g) <==> g.ip == ip && from <= g.at <= to
    ensures CountBetween(Times(grants), from, to) == |Where(grants, p)|
    ensures CountBetween(Times(OfIp(grants, ip)), from, to) == |Where(grants, q)|
  {
    hide CountBetween, Times, OfIp, Where;
    if grants == [] {
      NoTimes(ip);
      NoneBetween(from, to);
      WhereGrows([], Grant(ip, from), p);
      WhereGrows([], Grant(ip, from), q);
    } else {
      var n := |grants| - 1;
      var past, g := grants[..n], grants[n];
      assert grants == past + [g];
      BetweenGrows(past, ip, from, to, p, q);
      TimesAppend(past, g);
      BetweenSnoc(Times(past), g.at, from, to);
      OfIpAppend(past, g, ip);
      if g.ip == ip {
        TimesAppend(OfIp(past, ip), g);
        BetweenSnoc(Times(OfIp(past, ip)), g.at, from, to);
      } else {
        assert OfIp(past, ip) + [] == OfIp(past, ip);
      }
      WhereGrows(past, g, p);
      WhereGrows(past, g, q);
    }
  }

  lemma BetweenIs(grants: seq<Grant>, ip: string, from: real, to: real)
    ensures CountBetween(Times(grants), from, to) == |set i: nat | i < |grants| && from <= grants[i].at <= to|
    ensures CountBetween(Times(OfIp(grants, ip)), from, to)
         == |set i: nat | i < |grants| && grants[i].ip == ip && from <= grants[i].at <= to|
  {
    hide CountBetween, Times, OfIp;
    var between := (g: Grant) => from <= g.at <= to;
    var its := (g: Grant) => g.ip == ip && from <= g.at <= to;
    BetweenGrows(grants, ip, from, to, between, its);
    assert Where(grants, between) == set i: nat | i < |grants| && from <= grants[i].at <= to;
    assert Where(grants, its) == set i: nat | i < |grants| && grants[i].ip == ip && from <= grants[i].at <= to;
  }

  lemma NoneBetween(from: real, to: real)
    ensures CountBetween([], from, to) == 0
  {
  }

  lemma BetweenSnoc(times: seq<real>, at: real, from: real, to: real)
    ensures CountBetween(times + [at], from, to) == CountBetween(times, from, to) + if from <= at <= to then 1 else 0
  {
    assert (times + [at])[..|times|] == times;
  }

  /** Over any run of the limiter: never more grants in all than the total; never more in any sixty
      seconds than the rate; never more for one address in any of its windows than its share. */
  lemma LimitsHold(l: Limits, grants: seq<Grant>, from: real, ip: string)
    requires Admitted(l, grants)
    ensures |grants| <= l.total
    ensures |set i: nat | i < |grants| && from <= grants[i].at <= from + 60.0| <= l.perMinute
    ensures |set i: nat | i < |grants| && grants[i].ip == ip && from <= grants[i].at <= from + l.ipWindow| <= l.perIp
    ensures CountBetween(Times(grants), from, from + 60.0) <= l.perMinute
    ensures CountBetween(Times(OfIp(grants, ip)), from, from + l.ipWindow) <= l.perIp
  {
    hide *;
    AdmittedSpaced(l, grants, ip);
    NoWindowOverflows(Times(grants), l.perMinute, 60.0, from);
    NoWindowOverflows(Times(OfIp(grants, ip)), l.perIp, l.ipWindow, from);
    BetweenIs(grants, ip, from, from + 60.0);
    BetweenIs(grants, ip, from, from + l.ipWindow);
  }

  /** Each decision of the limiter keeps its history admitted. */
  lemma AdmittedGrows(l: Limits, grants: seq<Grant>, ip: string, now: real)
    requires Admitted(l, grants) && Allowed(l, grants, ip, now)
    ensures Admitted(l, grants + [Grant(ip, now)])
  {
    hide Allowed;
    assert (grants + [Grant(ip, now)])[..|grants|] == grants;
  }

  // ---- Circuit breaker ----------------------------------------------------------------------------

  datatype Report = Worked | Failed(at: real)

  /** Failures since the last success. */
  function Streak(reports: seq<Report>): nat {
    if reports == [] || reports[|reports| - 1].Worked? then 0 else Streak(reports[..|reports| - 1]) + 1
  }

  /** The breaker is open for `halt` seconds from every failure that makes a streak of at least
      `threshold`, until something works. */
  predicate OpenAt(threshold: nat, halt: real, reports: seq<Report>, now: real) {
    Streak(reports) >= threshold && Streak(reports) > 0 && now < reports[|reports| - 1].at + halt
  }

  class CircuitBreaker {
    const threshold: nat
    const halt: real
    var failures: nat
    var openUntil: real
    ghost var reports: seq<Report>

    constructor (threshold: nat, halt: real)
      ensures Valid() && this.threshold == threshold && this.halt == halt && reports == []
    {
      this.threshold, this.halt, failures, openUntil, reports := threshold, halt, 0, 0.0, [];
    }

    ghost predicate Valid()
      reads this
    {
      && failures == Streak(reports)
      && openUntil == if failures >= threshold && failures > 0 then reports[|reports| - 1].at + halt else 0.0
    }

    /** The clock reads more than 0. */
    method IsOpen(now: real) returns (open: bool)
      requires Valid() && now >= 0.0
      ensures open <==> OpenAt(threshold, halt, reports, now)
    {
      open := openUntil > now;
    }

    method RecordSuccess()
      requires Valid()
      modifies this
      ensures Valid() && reports == old(reports) + [Worked]
    {
      failures, openUntil := 0, 0.0;
      reports := reports + [Worked];
    }

    method RecordFailure(now: real)
      requires Valid()
      modifies this
      ensures Valid() && reports == old(reports) + [Failed(now)]
    {
      failures := failures + 1;
      ghost var before := reports;
      reports := reports + [Failed(now)];
      assert reports[..|before|] == before;
      if failures >= threshold {
        openUntil := now + halt;
      }
    }
  }

  /** So many of the last reports at least are failures. */
  predicate FailedLast(reports: seq<Report>, k: nat) {
    k <= |reports| && forall i :: |reports| - k <= i < |reports| ==> reports[i].Failed?
  }

  lemma {:induction false} StreakIs(reports: seq<Report>, k: nat)
    ensures Streak(reports) >= k <==> FailedLast(reports, k)
  {
    if k > 0 && reports != [] {
      StreakIs(reports[..|reports| - 1], k - 1);
    }
  }

  /** The breaker is open exactly when at least the threshold of reports, and at least one, were failures in the end
      and the halt after the last of them is not over. */
  lemma OpenAtIff(threshold: nat, halt: real, reports: seq<Report>, now: real)
    ensures OpenAt(threshold, halt, reports, now) <==>
              && FailedLast(reports, if threshold == 0 then 1 else threshold)
              && now < reports[|reports| - 1].at + halt
  {
    hide Streak;
    StreakIs(reports, threshold);
    StreakIs(reports, 1);
  }

  /** The streak survives the halt: after it, one more failure opens the breaker again at once. */
  lemma {:induction false} ReopensAtOnce(threshold: nat, halt: real, reports: seq<Report>, now: real)
    requires Streak(reports) >= threshold && halt > 0.0
    ensures OpenAt(threshold, halt, reports + [Failed(now)], now)
  {
    assert (reports + [Failed(now)])[..|reports|] == reports;
  }
}
