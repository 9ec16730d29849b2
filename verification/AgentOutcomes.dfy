/** What becomes of an alert, case by case, in terms of what the collaborators say; and which alerts share a
    key. */
module AgentOutcomes {
  import opened Text
  import opened Policy
  import opened DecisionAgent
  import opened AgentRuns
  import opened Safety

  // ---- Before the fork ----------------------------------------------------------------------------------

  /** An alert is closed as benign without a decision exactly when its context was loaded and the classifier's
      answer is the word benign. */
  lemma ClosedBenignIff(cfg: Config, live: Cache, alert: Alert, a: Answers)
    ensures Prepare(cfg, live, alert, a) == Closed(Benign, None) <==> a.load.Said? && SaysBenign(a)
  {
    hide SaysBenign, Classification, Lookup, Used, KeyOf;
    BenignIff(a);
  }

  /** A classifier that raises, or says anything else, changes nothing in what follows. */
  lemma OtherwiseGoesOn(cfg: Config, live: Cache, alert: Alert, a: Answers, other: Reply<string>)
    requires !SaysBenign(a) && !SaysBenign(a.(classify := other))
    ensures Prepare(cfg, live, alert, a) == Prepare(cfg, live, alert, a.(classify := other))
  {
    hide SaysBenign, Classification, KeyOf;
    BenignIff(a);
    BenignIff(a.(classify := other));
    SameKey(cfg, alert, a, a.(classify := other));
  }

  lemma SameKey(cfg: Config, alert: Alert, a: Answers, b: Answers)
    requires a.gather == b.gather
    ensures KeyOf(cfg, alert, a) == KeyOf(cfg, alert, b)
  {
  }

  /** The cached decision is in force when caching is on, the cache can be read and holds the alert's key; it is
      turned on the alert's own source, under a rule id of its new tuple, and keeps only a drop as it is or
      logs. Otherwise it is the one proposed, under a rule id of its own, without explanations. */
  lemma UsedIs(cfg: Config, live: Cache, alert: Alert, a: Answers)
    ensures var key, used := KeyOf(cfg, alert, a), Used(cfg, live, alert, a);
            if cfg.caching && a.cacheReads && key in live then
              var old_, src := live[key], if '/' in alert.srcIp then alert.srcIp else alert.srcIp + "/32";
              used == Some(old_.(srcIp := src, action := if old_.action == Drop then Drop else LogOnly,
                                 ruleId := RuleId(cfg.digest, src, old_.dstIp, old_.dstPort, old_.protocol)))
            else if a.decide.Said? && a.decide.value.Proposed? then
              var draft := a.decide.value.draft;
              var id := RuleId(cfg.digest, draft.srcIp, draft.dstIp, draft.dstPort, draft.protocol);
              used == Some(draft.(audit := NO_AUDIT, ruleId := id))
            else used == None
    ensures Lookup(cfg, live, alert, a).Some? <==> cfg.caching && a.cacheReads && KeyOf(cfg, alert, a) in live
  {
    hide KeyOf, RuleId;
  }

  // ---- The outcome --------------------------------------------------------------------------------------

  /** What enforcement ends with: an exception of breaker or limiter, or of recording the last failure, leaves
      no outcome. */
  function Ending(e: Env, i: Intent): Option<Outcome> {
    if !i.action.Drop? then None
    else if e.a.breaker.Raised? then None
    else if e.a.breaker.value.Some? then Some(Rejected)
    else if e.a.limiter.Raised? then None
    else if e.a.limiter.value.Some? then Some(Rejected)
    else if e.cfg.dryRun then Some(DryRun)
    else if e.a.push.Said? && e.a.push.value.success && e.a.success.Said? then Some(Enforced)
    else Some(Error)
  }

  lemma EarlyEnding(e: Env, i: Intent, live: Cache)
    requires !Admits(e, i)
    ensures EnforceSteps(e, Begin(i, live), 3).outcome == Ending(e, i)
  {
    ThreeSteps(e, Begin(i, live));
    hide EnforceSteps;
  }

  lemma AloneEnds(e: Env, i: Intent, live: Cache)
    ensures var f := EnforceSteps(e, Begin(i, live), AWAITS);
            f.outcome == Ending(e, i) || (f.outcome == None && Ending(e, i) == Some(Error))
  {
    hide EnforceStep, EnforceSteps;
    Alone(e, i, live);
    if !Admits(e, i) {
      EarlyEnding(e, i, live);
      FirstSteps(e, i, live);
      StepsCompose(e, Begin(i, live), 3, 3);
      FinishedStays(e, EnforceSteps(e, Begin(i, live), 3), 3);
    }
  }

  /** The outcome of every alert, under every schedule. It is the word benign, a failing collaborator, a
      refusal of the model, the validators or the confidence gate, that there is nothing to enforce, a refusal
      of breaker or limiter, a dry run, or what came of the push. */
  lemma OutcomeIs(cfg: Config, cache: Cache, alert: Alert, a: Answers, schedule: seq<Task>)
    requires RunsOut(cfg, cache, alert, a, schedule)
    ensures var live := cache - a.expired;
            var used, outcome := Used(cfg, live, alert, a), ProcessWith(cfg, cache, alert, a, schedule).outcome;
            var reached := a.load.Said? && !SaysBenign(a) && a.gather.Said?;
            && (a.load.Raised? ==> outcome == Error)
            && (a.load.Said? && SaysBenign(a) ==> outcome == Benign)
            && (a.load.Said? && !SaysBenign(a) && a.gather.Raised? ==> outcome == Error)
            && (reached && used.None? ==> outcome == if a.decide.Raised? then Error else Rejected)
            && (reached && used.Some? ==> outcome == Decided(cfg, a, used.value))
  {
    hide Prepare, EnforceStep, EnforceSteps, Run, Lookup, Used, KeyOf, SaysBenign, Ending, Succeeds;
    var live := cache - a.expired;
    PreparedIs(cfg, live, alert, a);
    match Prepare(cfg, live, alert, a) {
      case Closed(_, _) =>
      case Open(i, key, hit) =>
        var e := Env(cfg, a, key, hit);
        ForkEnds(e, i, live, schedule);
        AloneEnds(e, i, live);
        EndingAnyKey(cfg, a, key, hit, i);
    }
  }

  lemma EndingAnyKey(cfg: Config, a: Answers, key: string, hit: bool, i: Intent)
    ensures Ending(Env(cfg, a, key, hit), i) == Ending(Env(cfg, a, "", false), i)
  {
  }

  /** What a decision in force leads to. */
  function Decided(cfg: Config, a: Answers, i: Intent): Outcome {
    match a.validate(i)
    case Raised(_) => Error
    case Said(errors) =>
      if errors != [] then Rejected
      else if i.confidence < cfg.auto && i.confidence < cfg.notify then
        if i.confidence >= cfg.hold then Held else Rejected
      else if i.action.LogOnly? then Benign
      else
        match Ending(Env(cfg, a, "", false), i) case Some(o) => o case None => Error
  }

  lemma PreparedIs(cfg: Config, live: Cache, alert: Alert, a: Answers)
    ensures var p, used := Prepare(cfg, live, alert, a), Used(cfg, live, alert, a);
            && (a.load.Raised? ==> p == Closed(Error, None))
            && (a.load.Said? && SaysBenign(a) ==> p == Closed(Benign, None))
            && (a.load.Said? && !SaysBenign(a) && a.gather.Raised? ==> p == Closed(Error, None))
            && (a.load.Said? && !SaysBenign(a) && a.gather.Said? ==>
                  (if used.None? then p == Closed(if a.decide.Raised? then Error else Rejected, None)
                   else if p.Closed? then p == Closed(Decided(cfg, a, used.value), used)
                   else
                     p.intent == used.value && !used.value.action.LogOnly? && a.validate(used.value) == Said([])
                     && (used.value.confidence >= cfg.auto || used.value.confidence >= cfg.notify)))
  {
    hide SaysBenign, Classification, Lookup, Used, KeyOf;
    BenignIff(a);
  }

  // ---- Whom it asks ---------------------------------------------------------------------------------------

  predicate Asking(e: Env, f: Fork) {
    match f.at
    case Start => Asks(f.calls) == []
    case BreakerAsked => Asks(f.calls) == [] && f.intent.action.Drop?
    case Finished =>
      Asks(f.calls) == if f.intent.action.Drop? && e.a.breaker == Said(None) then [f.intent.srcIp] else []
    case _ => Asks(f.calls) == [f.intent.srcIp] && f.intent.action.Drop? && e.a.breaker == Said(None)
  }

  lemma StepAsking(e: Env, f: Fork)
    requires Asking(e, f)
    ensures Asking(e, EnforceStep(e, f))
  {
    hide Asks;
    AsksGrow(f.calls, AskedBreaker);
    AsksGrow(f.calls, AskedLimiter(f.intent.srcIp));
    AsksGrow(f.calls, AskedBackend(f.intent));
    AsksGrow(f.calls, ToldSuccess);
    AsksGrow(f.calls, ToldFailure);
    AsksGrow(f.calls, Stored(e.key, f.intent));
    assert Asks(f.calls) + [] == Asks(f.calls) && [] + [f.intent.srcIp] == [f.intent.srcIp];
  }

  lemma ThinkAsking(e: Env, f: Fork)
    requires Asking(e, f)
    ensures Asking(e, ReasonStep(e, f)) && SameRule(f.intent, ReasonStep(e, f).intent)
  {
    hide Asks;
  }

  lemma {:induction false} RunAsking(e: Env, f: Fork, schedule: seq<Task>)
    requires Asking(e, f)
    ensures Asking(e, Run(e, f, schedule)) && SameRule(f.intent, Run(e, f, schedule).intent)
    decreases |schedule|
  {
    hide Asking, ReasonStep;
    if schedule != [] {
      if schedule[0] == Enforcing {
        StepAsking(e, f);
        StepIntent(e, f);
      } else {
        ThinkAsking(e, f);
      }
      hide EnforceStep;
      RunAsking(e, Step(e, f, schedule[0]), schedule[1..]);
    }
  }

  /** A slot is asked for exactly when a drop reaches enforcement and the breaker is closed: an open breaker
      costs no slot. */
  lemma SlotAskedIff(cfg: Config, cache: Cache, alert: Alert, a: Answers, schedule: seq<Task>)
    requires RunsOut(cfg, cache, alert, a, schedule)
    ensures var p := Prepare(cfg, cache - a.expired, alert, a);
            Asks(ProcessWith(cfg, cache, alert, a, schedule).calls)
            == if p.Open? && p.intent.action.Drop? && a.breaker == Said(None) then [p.intent.srcIp] else []
  {
    hide Prepare, EnforceStep, Run, Asks;
    NothingAsked();
    var live := cache - a.expired;
    match Prepare(cfg, live, alert, a) {
      case Closed(_, _) =>
      case Open(i, key, hit) => RunAsking(Env(cfg, a, key, hit), Begin(i, live), schedule);
    }
  }

  /** A rule is on record as handed over for every alert of a run that reaches the backend, and for no other, under its
      own address and time. */
  lemma HandedGrows(cfg: Config, h: seq<Event>)
    requires Fair(cfg, h) && h != []
    ensures var n := |h| - 1;
            Handed(cfg, h) ==
            Handed(cfg, h[..n])
            + if Pushing(cfg, h, n) then [Grant(BareIp(UsedAt(cfg, h, n).value.srcIp), h[n].at)] else []
  {
    hide RunsOut, ProcessWith, CacheAfter, MayPush, Used, Lookup, KeyOf, Pushes;
    var n := |h| - 1;
    BackendAskedIff(cfg, CacheAfter(cfg, h[..n]), h[n].alert, h[n].a, h[n].schedule);
    assert Handed(cfg, h[..n]) + [] == Handed(cfg, h[..n]);
  }

  // ---- Explanations -------------------------------------------------------------------------------------

  /** A decision ends with the first readable explanation: the first answer's if it came, and only if the first
      attempt raised the second one's; a hit keeps what it had. */
  lemma ThoughtIs(e: Env, i: Intent, x: Audit)
    ensures e.hit ==> Thought(e, i) == i
    ensures !e.hit && e.a.reason == Said(Explanation(x)) ==> Thought(e, i) == i.(audit := x)
    ensures !e.hit && e.a.reason.Raised? && e.a.reasonAgain == Said(Explanation(x)) ==> Thought(e, i) == i.(audit := x)
    ensures e.a.reason.Said? && !e.a.reason.value.Explanation? ==> Thought(e, i) == i
    ensures e.a.reason.Raised? && (e.a.reasonAgain.Raised? || !e.a.reasonAgain.value.Explanation?) ==>
              Thought(e, i) == i
  {
  }

  // ---- Keys -----------------------------------------------------------------------------------------------

  /** Zones without a name are one with the zone called unknown. */
  predicate SameZone(y: Option<string>, z: Option<string>) {
    y == z || (Nameless(y) && Nameless(z))
  }

  predicate Nameless(z: Option<string>) {
    z == None || z == Some("") || z == Some("unknown")
  }

  /** No destination is one with a destination in a zone called none. */
  predicate SameDestination(cfg: Config, a: string, b: string) {
    if a == "" then b == "" || cfg.zoneOf(b) == Some("none")
    else if b == "" then cfg.zoneOf(a) == Some("none")
    else SameZone(cfg.zoneOf(a), cfg.zoneOf(b))
  }

  predicate SameProtocol(a: string, b: string) {
    Lower(if a == "" then "tcp" else a) == Lower(if b == "" then "tcp" else b)
  }

  /** Two alerts share a key exactly when they agree in signature, the zones of source and destination, port,
      protocol up to letter case, the baseline of their flows, and correlation. */
  lemma KeysAgreeIff(cfg: Config, x: Event, y: Event)
    requires Injective(cfg.digest) && PlainNames(Shape(cfg, x)) && PlainNames(Shape(cfg, y))
    requires x.a.gather.Said? && y.a.gather.Said? && '|' !in x.a.gather.value && '|' !in y.a.gather.value
    ensures KeyOf(cfg, x.alert, x.a) == KeyOf(cfg, y.alert, y.a) <==>
              && x.alert.sid == y.alert.sid
              && SameZone(cfg.zoneOf(x.alert.srcIp), cfg.zoneOf(y.alert.srcIp))
              && SameDestination(cfg, x.alert.destIp, y.alert.destIp)
              && x.alert.destPort == y.alert.destPort
              && SameProtocol(x.alert.proto, y.alert.proto)
              && cfg.baselineOf(x.alert.srcIp, x.alert.destIp, x.alert.destPort, WithCase(x.alert.proto))
                 == cfg.baselineOf(y.alert.srcIp, y.alert.destIp, y.alert.destPort, WithCase(y.alert.proto))
              && x.a.gather.value == y.a.gather.value
  {
    hide CacheKey, Lower, PlainNames;
    KeyIff(cfg.digest, Shape(cfg, x), Shape(cfg, y));
    TcpIsSmall();
  }

  function WithCase(proto: string): string {
    Lower(if proto == "" then "tcp" else proto)
  }

  lemma TcpIsSmall()
    ensures Lower("tcp") == "tcp"
  {
  }
}
