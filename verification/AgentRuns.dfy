/** What every run of the agent over alerts taken one after another keeps: where cached decisions come from, what
    a hit enforces, and how many rules reach the network. */
module AgentRuns {
  import opened Text
  import opened Policy
  import opened DecisionAgent
  import opened Safety

  /** An alert, what the outside answers while it is processed, how the fork's tasks interleave, and the
      time at which the limiter is asked. */
  datatype Event = Event(alert: Alert, a: Answers, schedule: seq<Task>, at: real)

  function CacheAfter(cfg: Config, h: seq<Event>): Cache {
    if h == [] then map[] else
      var n := |h| - 1;
      ProcessWith(cfg, CacheAfter(cfg, h[..n]), h[n].alert, h[n].a, h[n].schedule).cache
  }

  /** The cache as event `i` finds it, less what has expired. */
  function Live(cfg: Config, h: seq<Event>, i: nat): Cache
    requires i < |h|
  {
    CacheAfter(cfg, h[..i]) - h[i].a.expired
  }

  function ResultAt(cfg: Config, h: seq<Event>, i: nat): Result
    requires i < |h|
  {
    ProcessWith(cfg, CacheAfter(cfg, h[..i]), h[i].alert, h[i].a, h[i].schedule)
  }

  function UsedAt(cfg: Config, h: seq<Event>, i: nat): Option<Intent>
    requires i < |h|
  {
    Used(cfg, Live(cfg, h, i), h[i].alert, h[i].a)
  }

  function HitAt(cfg: Config, h: seq<Event>, i: nat): Option<Intent>
    requires i < |h|
  {
    Lookup(cfg, Live(cfg, h, i), h[i].alert, h[i].a)
  }

  /** Every fork runs to the end of both tasks. */
  predicate Fair(cfg: Config, h: seq<Event>) {
    forall i :: 0 <= i < |h| ==> RunsOut(cfg, CacheAfter(cfg, h[..i]), h[i].alert, h[i].a, h[i].schedule)
  }

  lemma FairPrefix(cfg: Config, h: seq<Event>, n: nat)
    requires Fair(cfg, h) && n <= |h|
    ensures Fair(cfg, h[..n])
  {
    hide RunsOut, CacheAfter;
    forall i | 0 <= i < n
      ensures RunsOut(cfg, CacheAfter(cfg, h[..n][..i]), h[..n][i].alert, h[..n][i].a, h[..n][i].schedule)
    {
      assert h[..n][..i] == h[..i];
    }
  }

  /** Runs of the agent's own method, which enforces first and explains after, are fair: what holds of
      fair runs holds of them. */
  lemma SequentialIsFair(cfg: Config, h: seq<Event>)
    requires forall i :: 0 <= i < |h| ==> h[i].schedule == ENFORCE_FIRST
    ensures Fair(cfg, h)
  {
    hide Prepare, Run, ENFORCE_FIRST, CacheAfter;
    forall i | 0 <= i < |h| ensures RunsOut(cfg, CacheAfter(cfg, h[..i]), h[i].alert, h[i].a, h[i].schedule) {
      var live := Live(cfg, h, i);
      match Prepare(cfg, live, h[i].alert, h[i].a) {
        case Closed(_, _) =>
        case Open(intent, key, hit) => EnforceThenReason(Env(cfg, h[i].a, key, hit), intent, live);
      }
    }
  }

  // ---- The cache ------------------------------------------------------------------------------------

  /** Event `i` enforced, on a miss, the decision `t` stands for, and `k` is its key. */
  predicate Origin(cfg: Config, h: seq<Event>, i: nat, k: string, t: Intent)
    requires i < |h|
  {
    && HitAt(cfg, h, i) == None && ResultAt(cfg, h, i).outcome == Enforced
    && KeyOf(cfg, h[i].alert, h[i].a) == k
    && UsedAt(cfg, h, i).Some? && SameRule(t, UsedAt(cfg, h, i).value)
    && t.action == Drop && OwnRuleId(cfg, t)
  }

  predicate OwnRuleId(cfg: Config, i: Intent) {
    i.ruleId == RuleId(cfg.digest, i.srcIp, i.dstIp, i.dstPort, i.protocol)
  }

  lemma UsedHasOwnId(cfg: Config, live: Cache, alert: Alert, a: Answers)
    requires Used(cfg, live, alert, a).Some?
    ensures OwnRuleId(cfg, Used(cfg, live, alert, a).value)
  {
  }

  lemma OriginLater(cfg: Config, h: seq<Event>, n: nat, i: nat, k: string, t: Intent)
    requires n <= |h| && i < n && Origin(cfg, h[..n], i, k, t)
    ensures Origin(cfg, h, i, k, t)
  {
    assert h[..n][..i] == h[..i];
  }

  lemma SameRuleTwice(a: Intent, b: Intent, c: Intent)
    requires SameRule(a, b) && SameRule(b, c)
    ensures SameRule(a, c) && a.action == b.action && a.ruleId == b.ruleId && a.srcIp == b.srcIp && a.dstIp == b.dstIp
    ensures a.dstPort == b.dstPort && a.protocol == b.protocol
  {
  }

  /** Every entry of the cache, after any run, is a drop decision that some earlier alert enforced after
      missing the cache under that key. */
  lemma {:induction false} EntryOrigin(cfg: Config, h: seq<Event>, k: string) returns (i: nat)
    requires Fair(cfg, h) && k in CacheAfter(cfg, h)
    ensures i < |h| && Origin(cfg, h, i, k, CacheAfter(cfg, h)[k])
  {
    hide RunsOut, ProcessWith, Lookup, Used, KeyOf, MayPush, Origin, OwnRuleId, Pushes;
    var n := |h| - 1;
    var ev, before := h[n], CacheAfter(cfg, h[..n]);
    FairPrefix(cfg, h, n);
    BackendAskedIff(cfg, before, ev.alert, ev.a, ev.schedule);
    var r := ProcessWith(cfg, before, ev.alert, ev.a, ev.schedule);
    assert r.cache == CacheAfter(cfg, h);
    if r.outcome == Enforced && HitAt(cfg, h, n).None? && cfg.caching && ev.a.cacheWrites
       && k == KeyOf(cfg, ev.alert, ev.a) {
      i := n;
      StoredHere(cfg, h, k);
    } else {
      assert k in before && SameRule(r.cache[k], before[k]);
      i := EntryOrigin(cfg, h[..n], k);
      OriginSame(cfg, h[..n], i, k, before[k], r.cache[k]);
      OriginLater(cfg, h, n, i, k, r.cache[k]);
    }
  }

  lemma OriginSame(cfg: Config, h: seq<Event>, i: nat, k: string, t: Intent, u: Intent)
    requires i < |h| && Origin(cfg, h, i, k, t) && SameRule(u, t)
    ensures Origin(cfg, h, i, k, u)
  {
    hide RunsOut, ProcessWith, Lookup, Used, KeyOf, CacheAfter;
    SameRuleTwice(u, t, UsedAt(cfg, h, i).value);
  }

  lemma StoredHere(cfg: Config, h: seq<Event>, k: string)
    requires Fair(cfg, h) && h != []
    requires var n := |h| - 1;
             && ResultAt(cfg, h, n).outcome == Enforced && HitAt(cfg, h, n).None?
             && cfg.caching && h[n].a.cacheWrites && k == KeyOf(cfg, h[n].alert, h[n].a)
    ensures k in CacheAfter(cfg, h) && Origin(cfg, h, |h| - 1, k, CacheAfter(cfg, h)[k])
  {
    hide RunsOut, ProcessWith, Lookup, Used, KeyOf, Pushes;
    var n := |h| - 1;
    var ev, before := h[n], CacheAfter(cfg, h[..n]);
    BackendAskedIff(cfg, before, ev.alert, ev.a, ev.schedule);
    UsedHasOwnId(cfg, Live(cfg, h, n), ev.alert, ev.a);
    var used := UsedAt(cfg, h, n).value;
    SameRuleTwice(CacheAfter(cfg, h)[k], used, used);
  }

  /** On a hit, in any run: the decision in force blocks the live alert's own source under a rule id of
      its own tuple, is otherwise what an earlier alert with this key enforced, and leaves the cache as
      it is. */
  lemma {:induction false} HitEnforces(cfg: Config, h: seq<Event>, j: nat) returns (i: nat)
    requires Fair(cfg, h) && j < |h| && HitAt(cfg, h, j).Some?
    ensures ResultAt(cfg, h, j).cache == Live(cfg, h, j)
    ensures i < j && ResultAt(cfg, h, i).outcome == Enforced && HitAt(cfg, h, i).None? && UsedAt(cfg, h, i).Some?
    ensures KeyOf(cfg, h[i].alert, h[i].a) == KeyOf(cfg, h[j].alert, h[j].a)
    ensures var now, then_ := HitAt(cfg, h, j).value, UsedAt(cfg, h, i).value;
            && UsedAt(cfg, h, j) == Some(now)
            && now.srcIp == (if '/' in h[j].alert.srcIp then h[j].alert.srcIp else h[j].alert.srcIp + "/32")
            && OwnRuleId(cfg, now) && now.action == Drop
            && SameRule(now, then_.(srcIp := now.srcIp, ruleId := now.ruleId))
  {
    hide RunsOut, ProcessWith, KeyOf, CacheAfter, RuleId;
    var k := KeyOf(cfg, h[j].alert, h[j].a);
    FairPrefix(cfg, h, j);
    i := EntryOrigin(cfg, h[..j], k);
    OriginLater(cfg, h, j, i, k, CacheAfter(cfg, h[..j])[k]);
    HitKeepsCache(cfg, CacheAfter(cfg, h[..j]), h[j].alert, h[j].a, h[j].schedule);
  }

  lemma {:induction false} RunKeepsCache(e: Env, f: Fork, schedule: seq<Task>)
    requires e.hit
    ensures Run(e, f, schedule).cache == f.cache
    decreases |schedule|
  {
    if schedule != [] {
      RunKeepsCache(e, Step(e, f, schedule[0]), schedule[1..]);
    }
  }

  lemma HitKeepsCache(cfg: Config, cache: Cache, alert: Alert, a: Answers, schedule: seq<Task>)
    requires Lookup(cfg, cache - a.expired, alert, a).Some?
    ensures ProcessWith(cfg, cache, alert, a, schedule).cache == cache - a.expired
  {
    hide Prepare, Run, Lookup;
    var live := cache - a.expired;
    OpenIffUsed(cfg, live, alert, a);
    match Prepare(cfg, live, alert, a) {
      case Closed(_, _) =>
      case Open(i, key, hit) => RunKeepsCache(Env(cfg, a, key, hit), Begin(i, live), schedule);
    }
  }

  /** So with an injective digest a hit stands for an alert of the same shape: same signature, zones and
      port always, and with signals that hold no bar the same features altogether. */
  lemma {:induction false} HitSameShape(cfg: Config, h: seq<Event>, j: nat) returns (i: nat)
    requires Fair(cfg, h) && j < |h| && HitAt(cfg, h, j).Some? && Injective(cfg.digest)
    requires forall n :: 0 <= n < |h| ==> PlainNames(Shape(cfg, h[n]))
    ensures i < j && ResultAt(cfg, h, i).outcome == Enforced
    ensures var f, g := Shape(cfg, h[i]), Shape(cfg, h[j]);
            && f.sid == g.sid && f.srcZone == g.srcZone && f.dstZone == g.dstZone && f.dstPort == g.dstPort
            && ('|' !in f.correlation && '|' !in g.correlation ==> f == g)
  {
    hide RunsOut, ProcessWith, CacheAfter, RuleId, Lookup, Used, CacheKey, PlainNames, Field;
    i := HitEnforces(cfg, h, j);
    var f, g := Shape(cfg, h[i]), Shape(cfg, h[j]);
    assert PlainNames(f) && PlainNames(g);
    KeySeparates(cfg.digest, f, g);
    if '|' !in f.correlation && '|' !in g.correlation {
      KeyIff(cfg.digest, f, g);
    }
  }

  function Shape(cfg: Config, ev: Event): Features {
    FeaturesOf(cfg, ev.alert, if ev.a.gather.Said? then ev.a.gather.value else "")
  }

  /** Two sources get one key, all else being equal, exactly when their zones and their baselines have the
      same names: moving about within a zone finds the same entry, leaving it does not. */
  lemma SameKeyIff(cfg: Config, ev: Event, ip: string)
    requires Injective(cfg.digest)
    requires PlainNames(Shape(cfg, ev)) && PlainNames(Shape(cfg, ev.(alert := ev.alert.(srcIp := ip))))
    ensures var moved := ev.alert.(srcIp := ip);
            KeyOf(cfg, ev.alert, ev.a) == KeyOf(cfg, moved, ev.a) <==>
              (ZoneName(cfg, ev.alert.srcIp) == ZoneName(cfg, ip)
               && Shape(cfg, ev).baseline == Shape(cfg, ev.(alert := moved)).baseline)
  {
    hide CacheKey, Lower, ZoneName, PlainNames, Field, Tail;
    var f, g := Shape(cfg, ev), Shape(cfg, ev.(alert := ev.alert.(srcIp := ip)));
    if CacheKey(cfg.digest, f) == CacheKey(cfg.digest, g) {
      KeySeparates(cfg.digest, f, g);
      BaselineSplits(f, g);
    }
  }

  /** Everybody agrees: the model proposes `draft`, and nothing stands in its way. */
  function Willing(draft: Intent): Answers {
    Answers(Said(()), Said("threat"), Said(""), {}, true, Said(Proposed(draft)), (i: Intent) => Said([]),
            Said(None), Said(None), Said(Pushed(true, "")), Said(()), Said(()), Said(()), true,
            Said(NotRecord), Said(NotRecord))
  }

  function Agreed(alert: Alert, draft: Intent): Event {
    Event(alert, Willing(draft), ENFORCE_FIRST, 0.0)
  }

  lemma WillingPushes(cfg: Config, live: Cache, alert: Alert, draft: Intent)
    requires !cfg.dryRun && Used(cfg, live, alert, Willing(draft)).Some?
    requires var i := Used(cfg, live, alert, Willing(draft)).value; i.action.Drop? && i.confidence >= cfg.auto
    ensures MayPush(cfg, live, alert, Willing(draft)) && Succeeds(Willing(draft))
  {
    hide Used;
    ThreatIsThreat(draft);
    BenignIff(Willing(draft));
    hide SaysBenign;
  }

  lemma ThreatIsThreat(draft: Intent)
    ensures Classification(Willing(draft)) == "threat"
  {
    StripEnds("threat");
    assert Lower("threat") == "threat";
  }

  /** Two alerts of one shape, one after the other: the second is answered from the cache, and the rule that
      is pushed for it blocks its own source from the destination of the first decision, whatever its own
      destination is. */
  lemma SecondKeepsDestination(cfg: Config, first: Alert, second: Alert, draft: Intent)
    requires cfg.caching && !cfg.dryRun && draft.action.Drop? && draft.confidence >= cfg.auto
    requires FeaturesOf(cfg, first, "") == FeaturesOf(cfg, second, "")
    ensures var pushed := Pushes(CallsAt(cfg, [Agreed(first, draft), Agreed(second, draft)], 1));
            |pushed| == 1 && pushed[0].srcIp == LiveSource(second) && pushed[0].dstIp == draft.dstIp
  {
    hide RunsOut, ProcessWith, MayPush, Pushes, RuleId, FeaturesOf, CacheKey, Willing;
    var h, a := [Agreed(first, draft), Agreed(second, draft)], Willing(draft);
    WillingGathers(draft);
    SequentialIsFair(cfg, h);
    var k := KeyOf(cfg, first, a);
    assert h[..0] == [] && h[..1] == [h[0]] && h[..1][..0] == [];
    WillingPushes(cfg, map[], first, draft);
    assert RunsOut(cfg, CacheAfter(cfg, h[..0]), h[0].alert, h[0].a, h[0].schedule);
    var none: Cache := map[];
    assert none - a.expired == none;
    BackendAskedIff(cfg, none, first, a, ENFORCE_FIRST);
    var cache := CacheAfter(cfg, h[..1]);
    assert cache == ProcessWith(cfg, map[], first, a, ENFORCE_FIRST).cache;
    assert k in cache && SameRule(cache[k], Used(cfg, map[], first, a).value);
    assert cache - a.expired == cache;
    assert Lookup(cfg, cache, second, a) == Some(Rebound(cfg, cache[k], second));
    WillingPushes(cfg, cache, second, draft);
    assert RunsOut(cfg, CacheAfter(cfg, h[..1]), h[1].alert, h[1].a, h[1].schedule);
    BackendAskedIff(cfg, cache, second, a, ENFORCE_FIRST);
  }

  lemma WillingGathers(draft: Intent)
    ensures var a := Willing(draft);
            && a.gather == Said("") && a.expired == {} && a.cacheReads && a.cacheWrites
            && a.decide == Said(Proposed(draft))
  {
  }

  /** The two zones of the example below. */
  function WebOrApp(ip: string): Option<string> {
    if "10.1.100." <= ip then Some("WEB") else if "10.2.100." <= ip then Some("APP") else None
  }

  /** For instance: a source of the web zone found on its way to 10.2.100.10 in the zone of the applications,
      and then to 10.2.100.11, is blocked from 10.2.100.10 twice. */
  lemma OldTargetBlocked(draft: Intent)
    requires draft.action.Drop? && draft.confidence >= 0.85 && draft.dstIp == "10.2.100.10"
    ensures var cfg := Config((s: string) => s, WebOrApp, (_, _, _, _) => "none", 0.85, 0.7, 0.5, false, true);
            var first := Alert(9000001, "10.1.100.10", "10.2.100.10", 22, "tcp");
            var second := Alert(9000001, "10.1.100.10", "10.2.100.11", 22, "tcp");
            var pushed := Pushes(CallsAt(cfg, [Agreed(first, draft), Agreed(second, draft)], 1));
            |pushed| == 1 && pushed[0].dstIp == "10.2.100.10" != second.destIp
  {
    hide CallsAt, Pushes, Agreed, WebOrApp;
    var cfg := Config((s: string) => s, WebOrApp, (_, _, _, _) => "none", 0.85, 0.7, 0.5, false, true);
    ZonesOfExample();
    SecondKeepsDestination(cfg, Alert(9000001, "10.1.100.10", "10.2.100.10", 22, "tcp"),
                           Alert(9000001, "10.1.100.10", "10.2.100.11", 22, "tcp"), draft);
    assert "10.2.100.10"[10] != "10.2.100.11"[10];
  }

  lemma ZonesOfExample()
    ensures WebOrApp("10.1.100.10") == Some("WEB")
    ensures WebOrApp("10.2.100.10") == Some("APP") && WebOrApp("10.2.100.11") == Some("APP")
  {
    assert "10.1.100."[3] != "10.2.100.10"[3] && "10.1.100."[3] != "10.2.100.11"[3];
  }

  // ---- How much reaches the network -------------------------------------------------------------------

  /** The addresses the limiter is asked about. */
  function Asks(calls: seq<Call>): seq<string> {
    if calls == [] then []
    else
      var n := |calls| - 1;
      Asks(calls[..n]) + if calls[n].AskedLimiter? then [calls[n].src] else []
  }

  lemma AsksGrow(calls: seq<Call>, c: Call)
    ensures Asks(calls + [c]) == Asks(calls) + if c.AskedLimiter? then [c.src] else []
  {
    assert (calls + [c])[..|calls|] == calls;
  }

  /** Nothing is handed to the backend before the limiter gave the decision's own address a slot. */
  predicate SlotFirst(e: Env, f: Fork) {
    && (f.at == Start || f.at == BreakerAsked ==> Asks(f.calls) == [])
    && (f.at == Start || f.at == BreakerAsked || f.at == LimiterAsked ==> Pushes(f.calls) == [])
    && (f.at == LimiterAsked ==> Asks(f.calls) == [f.intent.srcIp])
    && (f.at == BackendAsked || f.at == SuccessTold || f.at == FailureTold || f.at == LastFailureTold ==>
          Asks(f.calls) == [f.intent.srcIp] && e.a.limiter == Said(None))
    && |Asks(f.calls)| <= 1 && |Pushes(f.calls)| <= 1
    && (Pushes(f.calls) != [] ==>
          (&& Asks(f.calls) == [f.intent.srcIp] && e.a.limiter == Said(None)
           && Pushes(f.calls)[0].srcIp == f.intent.srcIp))
  }

  lemma StepSlotFirst(e: Env, f: Fork)
    requires SlotFirst(e, f)
    ensures SlotFirst(e, EnforceStep(e, f))
  {
    hide Asks, Pushes;
    StepPushes(e, f);
    AsksGrow(f.calls, AskedBreaker);
    AsksGrow(f.calls, AskedLimiter(f.intent.srcIp));
    AsksGrow(f.calls, AskedBackend(f.intent));
    AsksGrow(f.calls, ToldSuccess);
    AsksGrow(f.calls, ToldFailure);
    AsksGrow(f.calls, Stored(e.key, f.intent));
    assert Asks(f.calls) + [] == Asks(f.calls);
  }

  lemma ThinkSlotFirst(e: Env, f: Fork)
    requires SlotFirst(e, f)
    ensures SlotFirst(e, ReasonStep(e, f))
  {
  }

  lemma {:induction false} RunSlotFirst(e: Env, f: Fork, schedule: seq<Task>)
    requires SlotFirst(e, f)
    ensures SlotFirst(e, Run(e, f, schedule))
    decreases |schedule|
  {
    hide SlotFirst, EnforceStep, ReasonStep;
    if schedule != [] {
      StepSlotFirst(e, f);
      ThinkSlotFirst(e, f);
      RunSlotFirst(e, Step(e, f, schedule[0]), schedule[1..]);
    }
  }

  lemma NothingAsked()
    ensures Asks([]) == [] && Pushes([]) == []
  {
  }

  lemma PushHasSlot(cfg: Config, cache: Cache, alert: Alert, a: Answers, schedule: seq<Task>)
    ensures var calls := ProcessWith(cfg, cache, alert, a, schedule).calls;
            && |Asks(calls)| <= 1 && |Pushes(calls)| <= 1
            && (Pushes(calls) != [] ==> a.limiter == Said(None) && Asks(calls) == [Pushes(calls)[0].srcIp])
  {
    hide Prepare, Run, Asks, Pushes;
    NothingAsked();
    var live := cache - a.expired;
    match Prepare(cfg, live, alert, a) {
      case Closed(_, _) =>
      case Open(i, key, hit) => RunSlotFirst(Env(cfg, a, key, hit), Begin(i, live), schedule);
    }
  }

  function CallsAt(cfg: Config, h: seq<Event>, i: nat): seq<Call>
    requires i < |h|
  {
    ResultAt(cfg, h, i).calls
  }

  /** Slots given by the limiter over a run. */
  function Slots(cfg: Config, h: seq<Event>): seq<Grant> {
    if h == [] then []
    else
      var n := |h| - 1;
      var asked := Asks(CallsAt(cfg, h, n));
      var past := Slots(cfg, h[..n]);
      if asked != [] && h[n].a.limiter == Said(None) then past + [Grant(BareIp(asked[0]), h[n].at)] else past
  }

  /** Rules handed to the backend over a run. */
  function Handed(cfg: Config, h: seq<Event>): seq<Grant> {
    if h == [] then []
    else
      var n := |h| - 1;
      var rules := Pushes(CallsAt(cfg, h, n));
      var past := Handed(cfg, h[..n]);
      if rules != [] then past + [Grant(BareIp(rules[0].srcIp), h[n].at)] else past
  }

  /** The limiter that answers is the agent's own: it gives a slot only where its rule allows one. */
  predicate Limited(l: Limits, cfg: Config, h: seq<Event>) {
    h == [] ||
    var n := |h| - 1;
    var asked := Asks(CallsAt(cfg, h, n));
    && Limited(l, cfg, h[..n])
    && (asked != [] && h[n].a.limiter == Said(None) ==> Allowed(l, Slots(cfg, h[..n]), BareIp(asked[0]), h[n].at))
  }

  lemma {:induction false} SlotsAdmitted(l: Limits, cfg: Config, h: seq<Event>)
    requires Limited(l, cfg, h)
    ensures Admitted(l, Slots(cfg, h))
  {
    hide Asks, Allowed, CallsAt;
    if h != [] {
      var n := |h| - 1;
      SlotsAdmitted(l, cfg, h[..n]);
      var asked := Asks(CallsAt(cfg, h, n));
      if asked != [] && h[n].a.limiter == Said(None) {
        AdmittedGrows(l, Slots(cfg, h[..n]), BareIp(asked[0]), h[n].at);
      }
    }
  }

  lemma CountsGrow(grants: seq<Grant>, g: Grant, ip: string, from: real, to: real)
    ensures CountBetween(Times(grants + [g]), from, to)
         == CountBetween(Times(grants), from, to) + if from <= g.at <= to then 1 else 0
    ensures CountBetween(Times(OfIp(grants + [g], ip)), from, to)
         == CountBetween(Times(OfIp(grants, ip)), from, to) + if g.ip == ip && from <= g.at <= to then 1 else 0
  {
    hide OfIp;
    OneMore(grants, g, from, to);
    OfIpAppend(grants, g, ip);
    OneMore(OfIp(grants, ip), g, from, to);
    assert OfIp(grants, ip) + [] == OfIp(grants, ip);
  }

  lemma OneMore(grants: seq<Grant>, g: Grant, from: real, to: real)
    ensures CountBetween(Times(grants + [g]), from, to)
         == CountBetween(Times(grants), from, to) + if from <= g.at <= to then 1 else 0
  {
    TimesAppend(grants, g);
    assert (Times(grants) + [g.at])[..|grants|] == Times(grants);
  }

  /** Every rule handed over has its slot. */
  lemma {:induction false} HandedWithinSlots(cfg: Config, h: seq<Event>, ip: string, from: real, to: real)
    ensures |Handed(cfg, h)| <= |Slots(cfg, h)|
    ensures CountBetween(Times(Handed(cfg, h)), from, to) <= CountBetween(Times(Slots(cfg, h)), from, to)
    ensures CountBetween(Times(OfIp(Handed(cfg, h), ip)), from, to)
         <= CountBetween(Times(OfIp(Slots(cfg, h), ip)), from, to)
  {
    hide Asks, Pushes, ProcessWith, CountBetween, Times, OfIp, BareIp, CacheAfter;
    if h != [] {
      var n := |h| - 1;
      HandedWithinSlots(cfg, h[..n], ip, from, to);
      PushHasSlot(cfg, CacheAfter(cfg, h[..n]), h[n].alert, h[n].a, h[n].schedule);
      var rules, asked := Pushes(CallsAt(cfg, h, n)), Asks(CallsAt(cfg, h, n));
      if rules != [] {
        CountsGrow(Handed(cfg, h[..n]), Grant(BareIp(rules[0].srcIp), h[n].at), ip, from, to);
      }
      if asked != [] {
        CountsGrow(Slots(cfg, h[..n]), Grant(BareIp(asked[0]), h[n].at), ip, from, to);
      }
    }
  }

  /** Over any run of alerts taken one after another, with any model answers, schedules and exceptions:
      never more rules reach the network than the limits allow, in all, in any minute, and for one address
      in any of its windows. */
  lemma BlastRadius(l: Limits, cfg: Config, h: seq<Event>, ip: string, from: real)
    requires Limited(l, cfg, h)
    ensures var handed := Handed(cfg, h);
            && |handed| <= l.total
            && |set i: nat | i < |handed| && from <= handed[i].at <= from + 60.0| <= l.perMinute
            && |set i: nat | i < |handed| && handed[i].ip == ip && from <= handed[i].at <= from + l.ipWindow| <= l.perIp
  {
    hide *;
    BetweenIs(Handed(cfg, h), ip, from, from + 60.0);
    BetweenIs(Handed(cfg, h), ip, from, from + l.ipWindow);
    SlotsAdmitted(l, cfg, h);
    LimitsHold(l, Slots(cfg, h), from, ip);
    HandedWithinSlots(cfg, h, ip, from, from + 60.0);
    HandedWithinSlots(cfg, h, ip, from, from + l.ipWindow);
  }

  // ---- The breaker over runs ----------------------------------------------------------------------------

  /** What a breaker that never raises has been told over a run. */
  function Heard(cfg: Config, h: seq<Event>): seq<Report> {
    if h == [] then []
    else
      var n := |h| - 1;
      Heard(cfg, h[..n]) + ReportsOf(Tells(CallsAt(cfg, h, n)), h[n].at)
  }

  function ReportsOf(tells: seq<Call>, at: real): seq<Report> {
    if tells == [] then []
    else
      var n := |tells| - 1;
      ReportsOf(tells[..n], at) + [if tells[n].ToldSuccess? then Worked else Failed(at)]
  }

  /** The breaker that answers is the agent's own, and its calls raise nothing. */
  predicate Guarded(threshold: nat, halt: real, cfg: Config, h: seq<Event>) {
    forall i :: 0 <= i < |h| ==>
      && h[i].a.success.Said? && h[i].a.failure.Said?
      && (h[i].a.breaker == Said(None) ==> !OpenAt(threshold, halt, Heard(cfg, h[..i]), h[i].at))
  }

  /** Event `i` hands a rule to the backend. */
  predicate Pushing(cfg: Config, h: seq<Event>, i: nat)
    requires i < |h|
  {
    MayPush(cfg, Live(cfg, h, i), h[i].alert, h[i].a)
  }

  /** Pushes that failed since the last one that succeeded. */
  function FailedInARow(cfg: Config, h: seq<Event>): nat {
    if h == [] then 0
    else
      var n := |h| - 1;
      if !Pushing(cfg, h, n) then FailedInARow(cfg, h[..n])
      else if Succeeds(h[n].a) then 0
      else FailedInARow(cfg, h[..n]) + 1
  }

  lemma OneReport(c: Call, at: real)
    ensures ReportsOf([], at) == [] && ReportsOf([c], at) == [if c.ToldSuccess? then Worked else Failed(at)]
  {
    assert [c][..0] == [];
  }

  lemma StreakGrows(reports: seq<Report>, r: Report)
    ensures Streak(reports + [r]) == if r.Worked? then 0 else Streak(reports) + 1
  {
    assert (reports + [r])[..|reports|] == reports;
  }

  /** The breaker's streak counts the failed pushes in a row, whatever came between them. */
  lemma {:induction false} StreakIsFailures(threshold: nat, halt: real, cfg: Config, h: seq<Event>)
    requires Fair(cfg, h) && Guarded(threshold, halt, cfg, h)
    ensures Streak(Heard(cfg, h)) == FailedInARow(cfg, h)
  {
    hide RunsOut, ProcessWith, MayPush, Tells, CacheAfter, OpenAt, Streak;
    if h == [] {
      assert Streak([]) == 0 by { NoStreak(); }
    } else {
      var n := |h| - 1;
      FairPrefix(cfg, h, n);
      GuardedPrefix(threshold, halt, cfg, h, n);
      StreakIsFailures(threshold, halt, cfg, h[..n]);
      BreakerHears(cfg, CacheAfter(cfg, h[..n]), h[n].alert, h[n].a, h[n].schedule);
      var past := Heard(cfg, h[..n]);
      OneReport(ToldSuccess, h[n].at);
      OneReport(ToldFailure, h[n].at);
      StreakGrows(past, Worked);
      StreakGrows(past, Failed(h[n].at));
      assert past + [] == past;
    }
  }

  lemma NoStreak()
    ensures Streak([]) == 0
  {
  }

  lemma GuardedPrefix(threshold: nat, halt: real, cfg: Config, h: seq<Event>, n: nat)
    requires Guarded(threshold, halt, cfg, h) && n <= |h|
    ensures Guarded(threshold, halt, cfg, h[..n])
  {
    hide OpenAt, Heard;
    forall i | 0 <= i < n
      ensures h[..n][i].a.success.Said? && h[..n][i].a.failure.Said?
        && (h[..n][i].a.breaker == Said(None) ==> !OpenAt(threshold, halt, Heard(cfg, h[..n][..i]), h[..n][i].at))
    {
      assert h[..n][..i] == h[..i];
    }
  }

  predicate LastHeard(cfg: Config, h: seq<Event>, r: Report) {
    Heard(cfg, h) != [] && Heard(cfg, h)[|Heard(cfg, h)| - 1] == r
  }

  /** With alerts taken one after another, once `threshold` pushes in a row have failed, no rule reaches the
      backend until `halt` seconds after the last failure. */
  lemma NoPushWhileOpen(threshold: nat, halt: real, cfg: Config, h: seq<Event>, n: nat)
    requires Fair(cfg, h) && Guarded(threshold, halt, cfg, h) && n < |h|
    requires Pushing(cfg, h, n)
    ensures FailedInARow(cfg, h[..n]) == 0 || FailedInARow(cfg, h[..n]) < threshold
         || (exists at :: LastHeard(cfg, h[..n], Failed(at)) && h[n].at >= at + halt)
  {
    hide RunsOut, ProcessWith, Tells, CacheAfter, Heard, Used, Lookup;
    FairPrefix(cfg, h, n);
    GuardedPrefix(threshold, halt, cfg, h, n);
    StreakIsFailures(threshold, halt, cfg, h[..n]);
    var heard := Heard(cfg, h[..n]);
    assert h[n].a.breaker == Said(None);
    if heard != [] && heard[|heard| - 1].Failed? {
      assert LastHeard(cfg, h[..n], Failed(heard[|heard| - 1].at));
    }
  }
}
