/** The decision pipeline: one alert through load, classify, gather, cache, decide, validate, then the
    fork of enforcement and reasoning, whose tasks interleave at every await. */
module DecisionAgent {
  import opened Text
  import opened Policy

  /** An answer of a collaborator, or the exception it raised. */
  datatype Reply<+T> = Said(value: T) | Raised(error: string)

  datatype Outcome = Enforced | DryRun | Rejected | Held | Benign | Error

  datatype Alert = Alert(sid: int, srcIp: string, destIp: string, destPort: int, proto: string)

  datatype Config = Config(digest: string -> string, zoneOf: string -> Option<string>,
                           baselineOf: (string, string, int, string) -> string,
                           auto: real, notify: real, hold: real, dryRun: bool, caching: bool)

  datatype Decided = Proposed(draft: Intent) | Refused(reason: string)

  datatype Pushed = Pushed(success: bool, error: string)

  /** What the reasoning model sent: fields that could be read, no record at all, or a record whose
      fields could not be read. */
  datatype Explained = Explanation(audit: Audit) | NotRecord | Unreadable

  /** Everything the outside says while one alert is processed. `expired` holds the cache keys whose
      time has run out. */
  datatype Answers = Answers(
    load: Reply<()>, classify: Reply<string>, gather: Reply<string>,
    expired: set<string>, cacheReads: bool, decide: Reply<Decided>, validate: Intent -> Reply<seq<string>>,
    breaker: Reply<Option<string>>, limiter: Reply<Option<string>>, push: Reply<Pushed>,
    success: Reply<()>, failure: Reply<()>, failureAgain: Reply<()>, cacheWrites: bool,
    reason: Reply<Explained>, reasonAgain: Reply<Explained>)

  /** What the pipeline does to the outside, in order. */
  datatype Call =
    | AskedBreaker | AskedLimiter(src: string) | AskedBackend(rule: Intent)
    | ToldSuccess | ToldFailure | Stored(key: string, rule: Intent)

  type Cache = map<string, Intent>

  // ---- Up to the fork ---------------------------------------------------------------------------

  function Classification(a: Answers): string {
    match a.classify
    case Raised(_) => "suspicious"
    case Said(text) =>
      var raw := Lower(Strip(text));
      if raw == "benign" || raw == "suspicious" || raw == "threat" then raw else "suspicious"
  }

  function ProtocolOf(alert: Alert): string {
    if alert.proto == "" then "tcp" else Lower(alert.proto)
  }

  function ZoneName(cfg: Config, ip: string): string {
    match cfg.zoneOf(ip) case Some(z) => if z == "" then "unknown" else z case None => "unknown"
  }

  function FeaturesOf(cfg: Config, alert: Alert, correlation: string): Features {
    Features(alert.sid, ZoneName(cfg, alert.srcIp), if alert.destIp == "" then "none" else ZoneName(cfg, alert.destIp),
             alert.destPort, ProtocolOf(alert),
             cfg.baselineOf(alert.srcIp, alert.destIp, alert.destPort, ProtocolOf(alert)), correlation)
  }

  function KeyOf(cfg: Config, alert: Alert, a: Answers): string {
    CacheKey(cfg.digest, FeaturesOf(cfg, alert, if a.gather.Said? then a.gather.value else ""))
  }

  /** Constructing an intent with an empty rule id computes one from its own flow tuple. */
  function WithRuleId(cfg: Config, i: Intent): Intent {
    i.(ruleId := RuleId(cfg.digest, i.srcIp, i.dstIp, i.dstPort, i.protocol))
  }

  function LiveSource(alert: Alert): string {
    if '/' in alert.srcIp then alert.srcIp else alert.srcIp + "/32"
  }

  /** A cached decision turned on the live alert's source. */
  function Rebound(cfg: Config, cached: Intent, alert: Alert): Intent {
    WithRuleId(cfg, cached.(srcIp := LiveSource(alert),
                            action := if cached.action.Drop? || cached.action.LogOnly? then cached.action else LogOnly))
  }

  function Lookup(cfg: Config, cache: Cache, alert: Alert, a: Answers): Option<Intent> {
    var key := KeyOf(cfg, alert, a);
    if cfg.caching && a.cacheReads && key in cache then Some(Rebound(cfg, cache[key], alert)) else None
  }

  /** The decision in force: the cached one, else the one the model proposed. */
  function Used(cfg: Config, cache: Cache, alert: Alert, a: Answers): Option<Intent> {
    match Lookup(cfg, cache, alert, a)
    case Some(i) => Some(i)
    case None =>
      if a.decide.Said? && a.decide.value.Proposed?
      then Some(WithRuleId(cfg, a.decide.value.draft.(audit := NO_AUDIT))) else None
  }

  /** Where an alert stands before the fork: closed with an outcome, or open with a decision. */
  datatype Stage = Closed(outcome: Outcome, known: Option<Intent>) | Open(intent: Intent, key: string, hit: bool)

  function Prepare(cfg: Config, cache: Cache, alert: Alert, a: Answers): Stage {
    if a.load.Raised? then Closed(Error, None)
    else if Classification(a) == "benign" then Closed(Benign, None)
    else if a.gather.Raised? then Closed(Error, None)
    else
      var hit := Lookup(cfg, cache, alert, a).Some?;
      match Used(cfg, cache, alert, a)
      case None => Closed(if a.decide.Raised? then Error else Rejected, None)
      case Some(i) =>
        match a.validate(i)
        case Raised(_) => Closed(Error, Some(i))
        case Said(errors) =>
          if errors != [] then Closed(Rejected, Some(i))
          else if i.confidence >= cfg.auto || i.confidence >= cfg.notify then
            if i.action.LogOnly? then Closed(Benign, Some(i)) else Open(i, KeyOf(cfg, alert, a), hit)
          else Closed(if i.confidence >= cfg.hold then Held else Rejected, Some(i))
  }

  // ---- The fork -----------------------------------------------------------------------------------

  datatype Place =
    | Start | BreakerAsked | LimiterAsked | BackendAsked
    | SuccessTold | FailureTold | LastFailureTold | Finished

  datatype Thinking = Idle | Tried(times: nat) | Over

  datatype Task = Enforcing | Reasoning

  /** What the two tasks share, and where each of them stands. */
  datatype Fork = Fork(intent: Intent, outcome: Option<Outcome>, calls: seq<Call>, cache: Cache,
                       at: Place, thinking: Thinking)

  datatype Env = Env(cfg: Config, a: Answers, key: string, hit: bool)

  /** From one await of the enforcing task to the next. An exception it does not catch ends it where it
      stands: the fork swallows exceptions. */
  function EnforceStep(e: Env, f: Fork): Fork {
    match f.at
    case Start =>
      if f.intent.action.Drop? then f.(calls := f.calls + [AskedBreaker], at := BreakerAsked) else f.(at := Finished)
    case BreakerAsked =>
      (match e.a.breaker
       case Raised(_) => f.(at := Finished)
       case Said(Some(_)) => f.(outcome := Some(Rejected), at := Finished)
       case Said(None) => f.(calls := f.calls + [AskedLimiter(f.intent.srcIp)], at := LimiterAsked))
    case LimiterAsked =>
      (match e.a.limiter
       case Raised(_) => f.(at := Finished)
       case Said(Some(_)) => f.(outcome := Some(Rejected), at := Finished)
       case Said(None) =>
         if e.cfg.dryRun then f.(outcome := Some(DryRun), at := Finished)
         else f.(calls := f.calls + [AskedBackend(f.intent)], at := BackendAsked))
    case BackendAsked =>
      (match e.a.push
       case Raised(_) => f.(calls := f.calls + [ToldFailure], at := LastFailureTold)
       case Said(p) =>
         if p.success then f.(calls := f.calls + [ToldSuccess], at := SuccessTold)
         else f.(calls := f.calls + [ToldFailure], at := FailureTold))
    case SuccessTold =>
      if e.a.success.Raised? then f.(calls := f.calls + [ToldFailure], at := LastFailureTold)
      else if !e.hit && e.cfg.caching && e.a.cacheWrites then
        f.(outcome := Some(Enforced), calls := f.calls + [Stored(e.key, f.intent)],
           cache := f.cache[e.key := f.intent], at := Finished)
      else f.(outcome := Some(Enforced), at := Finished)
    case FailureTold =>
      if e.a.failure.Raised? then f.(calls := f.calls + [ToldFailure], at := LastFailureTold)
      else f.(outcome := Some(Error), at := Finished)
    case LastFailureTold =>
      var again := if e.a.push.Said? && !e.a.push.value.success then e.a.failureAgain else e.a.failure;
      if again.Raised? then f.(at := Finished) else f.(outcome := Some(Error), at := Finished)
    case Finished => f
  }

  function Explain(said: Explained, i: Intent): Intent {
    if said.Explanation? then i.(audit := said.audit) else i
  }

  /** From one await of the reasoning task to the next. */
  function ReasonStep(e: Env, f: Fork): Fork {
    match f.thinking
    case Idle => f.(thinking := if e.hit then Over else Tried(0))
    case Tried(n) =>
      var reply := if n == 0 then e.a.reason else e.a.reasonAgain;
      (match reply
       case Said(said) => f.(intent := Explain(said, f.intent), thinking := Over)
       case Raised(_) => f.(thinking := if n == 0 then Tried(1) else Over))
    case Over => f
  }

  function Step(e: Env, f: Fork, t: Task): Fork {
    if t.Enforcing? then EnforceStep(e, f) else ReasonStep(e, f)
  }

  function Run(e: Env, f: Fork, schedule: seq<Task>): Fork
    decreases |schedule|
  {
    if schedule == [] then f else Run(e, Step(e, f, schedule[0]), schedule[1..])
  }

  predicate Complete(f: Fork) {
    f.at == Finished && f.thinking == Over
  }

  function Begin(intent: Intent, cache: Cache): Fork {
    Fork(intent, None, [], cache, Start, Idle)
  }

  // ---- One alert ------------------------------------------------------------------------------------

  datatype Result = Result(outcome: Outcome, intent: Option<Intent>, calls: seq<Call>, cache: Cache)

  function Concluded(f: Fork): Result {
    Result(if f.outcome.Some? then f.outcome.value else Error, Some(f.intent), f.calls, f.cache)
  }

  function ProcessWith(cfg: Config, cache: Cache, alert: Alert, a: Answers, schedule: seq<Task>): Result {
    var live := cache - a.expired;
    match Prepare(cfg, live, alert, a)
    case Closed(o, i) => Result(o, i, [], live)
    case Open(i, key, hit) => Concluded(Run(Env(cfg, a, key, hit), Begin(i, live), schedule))
  }

  /** The schedule lets both tasks of the fork, if there is one, run to their ends. */
  predicate RunsOut(cfg: Config, cache: Cache, alert: Alert, a: Answers, schedule: seq<Task>) {
    var live := cache - a.expired;
    match Prepare(cfg, live, alert, a)
    case Closed(_, _) => true
    case Open(i, key, hit) => Complete(Run(Env(cfg, a, key, hit), Begin(i, live), schedule))
  }

  // ---- Interleaving -----------------------------------------------------------------------------------

  predicate SameRule(i: Intent, j: Intent) {
    i.(audit := NO_AUDIT) == j.(audit := NO_AUDIT)
  }

  predicate SameCall(c: Call, d: Call) {
    match c
    case AskedBackend(i) => d.AskedBackend? && SameRule(i, d.rule)
    case Stored(k, i) => d.Stored? && k == d.key && SameRule(i, d.rule)
    case _ => c == d
  }

  predicate SameCalls(c: seq<Call>, d: seq<Call>) {
    |c| == |d| && forall i :: 0 <= i < |c| ==> SameCall(c[i], d[i])
  }

  predicate SameCache(c: Cache, d: Cache) {
    c.Keys == d.Keys && forall k :: k in c ==> SameRule(c[k], d[k])
  }

  /** Equal in everything enforcement does or sees: only audit fields may differ. */
  predicate Agree(f: Fork, g: Fork) {
    && SameRule(f.intent, g.intent) && f.outcome == g.outcome && SameCalls(f.calls, g.calls)
    && SameCache(f.cache, g.cache) && f.at == g.at
  }

  /** As many awaits as enforcement can have. */
  const AWAITS: nat := 6

  function EnforceSteps(e: Env, f: Fork, n: nat): Fork
    decreases n
  {
    if n == 0 then f else EnforceSteps(e, EnforceStep(e, f), n - 1)
  }

  function Turns(schedule: seq<Task>, t: Task): nat {
    if schedule == [] then 0 else (if schedule[0] == t then 1 else 0) + Turns(schedule[1..], t)
  }

  lemma CallsGrow(c: seq<Call>, d: seq<Call>, x: Call, y: Call)
    requires SameCalls(c, d) && SameCall(x, y)
    ensures SameCalls(c + [x], d + [y])
  {
  }

  lemma CacheGrows(c: Cache, d: Cache, k: string, i: Intent, j: Intent)
    requires SameCache(c, d) && SameRule(i, j)
    ensures SameCache(c[k := i], d[k := j])
  {
  }

  lemma EarlyAgrees(e: Env, f: Fork, g: Fork)
    requires Agree(f, g) && (f.at == Start || f.at == BreakerAsked || f.at == LimiterAsked)
    ensures Agree(EnforceStep(e, f), EnforceStep(e, g))
  {
    hide SameCalls, SameCache;
    CallsGrow(f.calls, g.calls, AskedBreaker, AskedBreaker);
    CallsGrow(f.calls, g.calls, AskedLimiter(f.intent.srcIp), AskedLimiter(g.intent.srcIp));
    CallsGrow(f.calls, g.calls, AskedBackend(f.intent), AskedBackend(g.intent));
  }

  lemma LateAgrees(e: Env, f: Fork, g: Fork)
    requires Agree(f, g) && f.at != Start && f.at != BreakerAsked && f.at != LimiterAsked
    ensures Agree(EnforceStep(e, f), EnforceStep(e, g))
  {
    hide SameCalls, SameCache;
    CallsGrow(f.calls, g.calls, ToldSuccess, ToldSuccess);
    CallsGrow(f.calls, g.calls, ToldFailure, ToldFailure);
    CallsGrow(f.calls, g.calls, Stored(e.key, f.intent), Stored(e.key, g.intent));
    CacheGrows(f.cache, g.cache, e.key, f.intent, g.intent);
  }

  lemma EnforceAgrees(e: Env, f: Fork, g: Fork)
    requires Agree(f, g)
    ensures Agree(EnforceStep(e, f), EnforceStep(e, g))
  {
    hide EnforceStep, Agree;
    if f.at == Start || f.at == BreakerAsked || f.at == LimiterAsked {
      EarlyAgrees(e, f, g);
    } else {
      LateAgrees(e, f, g);
    }
  }

  lemma ReasonUnseen(e: Env, f: Fork, g: Fork)
    requires Agree(f, g)
    ensures Agree(ReasonStep(e, f), g)
  {
    hide SameCalls, SameCache;
  }

  /** However the two tasks interleave, enforcement is where it would be had it run alone for as many
      steps. */
  lemma {:induction false} Interleaved(e: Env, f: Fork, g: Fork, schedule: seq<Task>)
    requires Agree(f, g)
    ensures Agree(Run(e, f, schedule), EnforceSteps(e, g, Turns(schedule, Enforcing)))
    decreases |schedule|
  {
    hide Agree, EnforceStep, ReasonStep;
    if schedule != [] {
      if schedule[0] == Enforcing {
        EnforceAgrees(e, f, g);
        Interleaved(e, EnforceStep(e, f), EnforceStep(e, g), schedule[1..]);
      } else {
        ReasonUnseen(e, f, g);
        Interleaved(e, ReasonStep(e, f), g, schedule[1..]);
      }
    }
  }

  lemma {:induction false} FinishedStays(e: Env, f: Fork, n: nat)
    requires f.at == Finished
    ensures EnforceSteps(e, f, n) == f
  {
    if n > 0 {
      FinishedStays(e, f, n - 1);
    }
  }

  lemma {:induction false} FinishedAgrees(e: Env, f: Fork, m: nat, n: nat)
    requires EnforceSteps(e, f, m).at == Finished && EnforceSteps(e, f, n).at == Finished
    ensures EnforceSteps(e, f, m) == EnforceSteps(e, f, n)
    decreases m + n
  {
    if f.at == Finished {
      FinishedStays(e, f, m);
      FinishedStays(e, f, n);
    } else {
      FinishedAgrees(e, EnforceStep(e, f), m - 1, n - 1);
    }
  }

  predicate SameResult(r: Result, s: Result) {
    && r.outcome == s.outcome && SameCalls(r.calls, s.calls) && SameCache(r.cache, s.cache)
    && (r.intent.Some? <==> s.intent.Some?)
    && (r.intent.Some? ==> SameRule(r.intent.value, s.intent.value))
  }

  /** Two complete schedules give one outcome, one sequence of calls to breaker, limiter and backend, and
      one cache, down to every enforcement field. */
  lemma ScheduleUnseen(cfg: Config, cache: Cache, alert: Alert, a: Answers, s: seq<Task>, t: seq<Task>)
    requires RunsOut(cfg, cache, alert, a, s) && RunsOut(cfg, cache, alert, a, t)
    ensures SameResult(ProcessWith(cfg, cache, alert, a, s), ProcessWith(cfg, cache, alert, a, t))
  {
    hide Prepare, EnforceStep, ReasonStep, Run;
    var live := cache - a.expired;
    match Prepare(cfg, live, alert, a) {
      case Closed(_, _) =>
      case Open(i, key, hit) =>
        var e, f := Env(cfg, a, key, hit), Begin(i, live);
        Interleaved(e, f, f, s);
        Interleaved(e, f, f, t);
        FinishedAgrees(e, f, Turns(s, Enforcing), Turns(t, Enforcing));
    }
  }

  // ---- What reaches the backend -----------------------------------------------------------------------

  function Pushes(calls: seq<Call>): seq<Intent> {
    if calls == [] then []
    else
      var n := |calls| - 1;
      Pushes(calls[..n]) + if calls[n].AskedBackend? then [calls[n].rule] else []
  }

  /** The classifier answered, and its answer, stripped and in lower case, is the word benign. */
  predicate SaysBenign(a: Answers) {
    a.classify.Said? && Lower(Strip(a.classify.value)) == "benign"
  }

  /** Nothing but that word makes an alert benign: not another answer, and not an exception. */
  lemma BenignIff(a: Answers)
    ensures Classification(a) == "benign" <==> SaysBenign(a)
  {
    hide Strip, Lower;
    assert "suspicious" != "benign";
  }

  /** Every gate on the way to the backend is passed. */
  predicate MayPush(cfg: Config, live: Cache, alert: Alert, a: Answers) {
    && a.load.Said? && !SaysBenign(a) && a.gather.Said?
    && var used := Used(cfg, live, alert, a);
    && used.Some? && used.value.action == Drop
    && a.validate(used.value) == Said([])
    && (used.value.confidence >= cfg.auto || used.value.confidence >= cfg.notify)
    && a.breaker == Said(None) && a.limiter == Said(None) && !cfg.dryRun
  }

  /** What enforcement alone comes to. */
  predicate Admits(e: Env, i: Intent) {
    i.action.Drop? && e.a.breaker == Said(None) && e.a.limiter == Said(None) && !e.cfg.dryRun
  }

  predicate Succeeds(a: Answers) {
    a.push.Said? && a.push.value.success && a.success.Said?
  }

  function Remembered(e: Env, i: Intent, live: Cache): Cache {
    if Admits(e, i) && Succeeds(e.a) && !e.hit && e.cfg.caching && e.a.cacheWrites then live[e.key := i] else live
  }

  lemma PushesGrow(calls: seq<Call>, c: Call)
    ensures Pushes(calls + [c]) == Pushes(calls) + if c.AskedBackend? then [c.rule] else []
  {
    assert (calls + [c])[..|calls|] == calls;
  }

  predicate Hands(e: Env, f: Fork) {
    f.at == LimiterAsked && e.a.limiter == Said(None) && !e.cfg.dryRun
  }

  lemma StepPushes(e: Env, f: Fork)
    ensures Pushes(EnforceStep(e, f).calls) == if Hands(e, f) then Pushes(f.calls) + [f.intent] else Pushes(f.calls)
  {
    hide Pushes;
    PushesGrow(f.calls, AskedBreaker);
    PushesGrow(f.calls, AskedLimiter(f.intent.srcIp));
    PushesGrow(f.calls, AskedBackend(f.intent));
    PushesGrow(f.calls, ToldSuccess);
    PushesGrow(f.calls, ToldFailure);
    PushesGrow(f.calls, Stored(e.key, f.intent));
    assert Pushes(f.calls) + [] == Pushes(f.calls);
  }

  lemma ThreeSteps(e: Env, f: Fork)
    ensures EnforceSteps(e, f, 3) == EnforceStep(e, EnforceStep(e, EnforceStep(e, f)))
  {
    hide EnforceStep;
    var f2 := EnforceStep(e, EnforceStep(e, f));
    assert EnforceSteps(e, f2, 1) == EnforceSteps(e, EnforceStep(e, f2), 0);
  }

  lemma {:induction false} FirstSteps(e: Env, i: Intent, live: Cache)
    ensures var f := EnforceSteps(e, Begin(i, live), 3);
            && f.intent == i && f.cache == live
            && Pushes(f.calls) == (if Admits(e, i) then [i] else [])
            && if Admits(e, i) then f.at == BackendAsked && f.outcome == None
               else f.at == Finished && f.outcome != Some(Enforced)
  {
    hide Pushes;
    var f0 := Begin(i, live);
    var f1 := EnforceStep(e, f0);
    var f2 := EnforceStep(e, f1);
    ThreeSteps(e, f0);
    assert Pushes([]) == [] by { PushesNone(); }
    StepPushes(e, f0);
    StepPushes(e, f1);
    StepPushes(e, f2);
  }

  lemma PushesNone()
    ensures Pushes([]) == []
  {
  }

  lemma LastPushes(e: Env, f: Fork)
    requires f.at == BackendAsked
    ensures Pushes(EnforceSteps(e, f, 3).calls) == Pushes(f.calls)
  {
    hide Pushes, EnforceSteps;
    ThreeSteps(e, f);
    var f1 := EnforceStep(e, f);
    var f2 := EnforceStep(e, f1);
    assert f1.at != LimiterAsked && f2.at != LimiterAsked;
    hide EnforceStep;
    StepPushes(e, f);
    StepPushes(e, f1);
    StepPushes(e, f2);
  }

  /** Whether an enforced decision is remembered. */
  predicate Remembers(e: Env) {
    !e.hit && e.cfg.caching && e.a.cacheWrites
  }

  lemma BackendStep(e: Env, f: Fork)
    requires f.at == BackendAsked
    ensures var g := EnforceStep(e, f);
            && g.outcome == f.outcome && g.cache == f.cache && g.intent == f.intent
            && g.at == match e.a.push
                       case Raised(_) => LastFailureTold
                       case Said(p) => if p.success then SuccessTold else FailureTold
  {
  }

  lemma SuccessStep(e: Env, f: Fork)
    requires f.at == SuccessTold
    ensures var g := EnforceStep(e, f);
            if e.a.success.Said? then
              g.at == Finished && g.outcome == Some(Enforced)
              && g.cache == if Remembers(e) then f.cache[e.key := f.intent] else f.cache
            else g.at == LastFailureTold && g.outcome == f.outcome && g.cache == f.cache
  {
  }

  lemma FailureStep(e: Env, f: Fork)
    requires f.at == FailureTold || f.at == LastFailureTold || f.at == Finished
    ensures var g := EnforceStep(e, f);
            && g.cache == f.cache && (g.outcome == f.outcome || g.outcome == Some(Error))
            && (g.at == Finished || (f.at == FailureTold && g.at == LastFailureTold))
            && (f.at == Finished ==> g == f)
  {
  }

  lemma LastSteps(e: Env, f: Fork)
    requires f.at == BackendAsked && f.outcome == None
    ensures var g := EnforceSteps(e, f, 3);
            && g.at == Finished
            && (if Succeeds(e.a) then g.outcome == Some(Enforced) else g.outcome == None || g.outcome == Some(Error))
            && g.cache == if Succeeds(e.a) && Remembers(e) then f.cache[e.key := f.intent] else f.cache
  {
    hide EnforceStep, EnforceSteps;
    ThreeSteps(e, f);
    var f1 := EnforceStep(e, f);
    var f2 := EnforceStep(e, f1);
    BackendStep(e, f);
    if f1.at == SuccessTold {
      SuccessStep(e, f1);
    } else {
      FailureStep(e, f1);
    }
    FailureStep(e, f2);
  }

  lemma {:induction false} StepsCompose(e: Env, f: Fork, m: nat, n: nat)
    ensures EnforceSteps(e, f, m + n) == EnforceSteps(e, EnforceSteps(e, f, m), n)
    decreases m
  {
    if m > 0 {
      StepsCompose(e, EnforceStep(e, f), m - 1, n);
    }
  }

  /** Alone, enforcement ends in six steps; it asks the backend once if it is admitted and never
      otherwise. */
  lemma Alone(e: Env, i: Intent, live: Cache)
    ensures var f := EnforceSteps(e, Begin(i, live), AWAITS);
            && f.at == Finished
            && Pushes(f.calls) == (if Admits(e, i) then [i] else [])
            && (if Admits(e, i) then f.outcome == Some(Enforced) || f.outcome == None || f.outcome == Some(Error)
                else f.outcome != Some(Enforced))
            && (f.outcome == Some(Enforced) <==> Admits(e, i) && Succeeds(e.a))
            && f.cache == Remembered(e, i, live)
  {
    hide EnforceStep, EnforceSteps, Pushes;
    var f := EnforceSteps(e, Begin(i, live), 3);
    FirstSteps(e, i, live);
    StepsCompose(e, Begin(i, live), 3, 3);
    if Admits(e, i) {
      LastSteps(e, f);
      LastPushes(e, f);
    } else {
      FinishedStays(e, f, 3);
    }
  }

  lemma {:induction false} PushesSame(c: seq<Call>, d: seq<Call>)
    requires SameCalls(c, d)
    ensures |Pushes(c)| == |Pushes(d)|
    ensures forall k :: 0 <= k < |Pushes(c)| ==> SameRule(Pushes(c)[k], Pushes(d)[k])
    decreases |c|
  {
    if c != [] {
      var n := |c| - 1;
      assert SameCall(c[n], d[n]);
      PushesSame(c[..n], d[..n]);
    }
  }

  lemma {:induction false} ForkEnds(e: Env, i: Intent, live: Cache, schedule: seq<Task>)
    requires Run(e, Begin(i, live), schedule).at == Finished
    ensures Agree(Run(e, Begin(i, live), schedule), EnforceSteps(e, Begin(i, live), AWAITS))
  {
    hide Run, EnforceStep, EnforceSteps;
    var f := Begin(i, live);
    Interleaved(e, f, f, schedule);
    Alone(e, i, live);
    FinishedAgrees(e, f, Turns(schedule, Enforcing), AWAITS);
  }

  lemma OpenIffUsed(cfg: Config, live: Cache, alert: Alert, a: Answers)
    ensures var p := Prepare(cfg, live, alert, a);
            && (MayPush(cfg, live, alert, a) ==> p.Open?)
            && (p.Open? ==>
                  (&& Used(cfg, live, alert, a) == Some(p.intent) && p.key == KeyOf(cfg, alert, a)
                   && (p.hit <==> Lookup(cfg, live, alert, a).Some?)
                   && (MayPush(cfg, live, alert, a) <==> Admits(Env(cfg, a, p.key, p.hit), p.intent))))
            && (p.Closed? ==> p.outcome != Enforced)
  {
    hide Lookup, Used, KeyOf, Classification, SaysBenign;
    BenignIff(a);
  }

  /** For every answer and exception of the collaborators and every schedule: the backend is asked at
      most once, exactly when every gate lets the decision through, and with that decision; the outcome
      is enforced exactly when it then reports success and recording the success raises nothing; and
      that, on a miss, is what the cache learns. */
  lemma {:induction false} BackendAskedIff(cfg: Config, cache: Cache, alert: Alert, a: Answers, schedule: seq<Task>)
    requires RunsOut(cfg, cache, alert, a, schedule)
    ensures var live := cache - a.expired;
            var r := ProcessWith(cfg, cache, alert, a, schedule);
            && |Pushes(r.calls)| == (if MayPush(cfg, live, alert, a) then 1 else 0)
            && (MayPush(cfg, live, alert, a) ==> SameRule(Pushes(r.calls)[0], Used(cfg, live, alert, a).value))
            && (r.outcome == Enforced <==> MayPush(cfg, live, alert, a) && Succeeds(a))
            && (MayPush(cfg, live, alert, a) && !Succeeds(a) ==> r.outcome == Error)
            && SameCache(r.cache,
                 if r.outcome == Enforced && Lookup(cfg, live, alert, a).None? && cfg.caching && a.cacheWrites
                 then live[KeyOf(cfg, alert, a) := Used(cfg, live, alert, a).value] else live)
  {
    hide Prepare, EnforceStep, EnforceSteps, Run, MayPush, Lookup, Used, KeyOf, Pushes;
    var live := cache - a.expired;
    OpenIffUsed(cfg, live, alert, a);
    match Prepare(cfg, live, alert, a) {
      case Closed(_, _) =>
        PushesNone();
      case Open(i, key, hit) =>
        var e := Env(cfg, a, key, hit);
        ForkEnds(e, i, live, schedule);
        Alone(e, i, live);
        PushesSame(Run(e, Begin(i, live), schedule).calls, EnforceSteps(e, Begin(i, live), AWAITS).calls);
    }
  }

  // ---- What the breaker is told -----------------------------------------------------------------------

  function Tells(calls: seq<Call>): seq<Call> {
    if calls == [] then []
    else
      var n := |calls| - 1;
      if calls[n].ToldSuccess? || calls[n].ToldFailure? then Tells(calls[..n]) + [calls[n]] else Tells(calls[..n])
  }

  /** What the breaker should hear about a push: its success if it succeeded, its failure if it failed or
      raised; and a failure more for each of these calls that raised within the guarded block. */
  function DueTells(a: Answers): seq<Call> {
    match a.push
    case Raised(_) => [ToldFailure]
    case Said(p) =>
      if p.success then if a.success.Said? then [ToldSuccess] else [ToldSuccess, ToldFailure]
      else if a.failure.Said? then [ToldFailure] else [ToldFailure, ToldFailure]
  }

  lemma TellsGrow(calls: seq<Call>, c: Call)
    ensures Tells(calls + [c]) == if c.ToldSuccess? || c.ToldFailure? then Tells(calls) + [c] else Tells(calls)
  {
    assert (calls + [c])[..|calls|] == calls;
  }

  predicate Told(e: Env, f: Fork) {
    match f.at
    case Start => Tells(f.calls) == []
    case BreakerAsked => Tells(f.calls) == []
    case LimiterAsked => Tells(f.calls) == [] && e.a.breaker == Said(None) && f.intent.action.Drop?
    case BackendAsked => Tells(f.calls) == [] && Admits(e, f.intent)
    case SuccessTold =>
      Tells(f.calls) == [ToldSuccess] && Admits(e, f.intent) && e.a.push.Said? && e.a.push.value.success
    case FailureTold =>
      Tells(f.calls) == [ToldFailure] && Admits(e, f.intent) && e.a.push.Said? && !e.a.push.value.success
    case _ => Tells(f.calls) == if Admits(e, f.intent) then DueTells(e.a) else []
  }

  predicate ToldPlace(e: Env, f: Fork) {
    && Told(e, f) && (f.at == BreakerAsked ==> f.intent.action.Drop?)
    && (f.at == LastFailureTold ==> Admits(e, f.intent))
  }

  lemma StepTold(e: Env, f: Fork)
    requires ToldPlace(e, f)
    ensures ToldPlace(e, EnforceStep(e, f))
  {
    hide Tells;
    TellsGrow(f.calls, AskedBreaker);
    TellsGrow(f.calls, AskedLimiter(f.intent.srcIp));
    TellsGrow(f.calls, AskedBackend(f.intent));
    TellsGrow(f.calls, ToldSuccess);
    TellsGrow(f.calls, ToldFailure);
    TellsGrow(f.calls, Stored(e.key, f.intent));
  }

  lemma ThinkTold(e: Env, f: Fork)
    requires ToldPlace(e, f)
    ensures ToldPlace(e, ReasonStep(e, f)) && SameRule(ReasonStep(e, f).intent, f.intent)
  {
    hide Tells, DueTells;
  }

  lemma {:induction false} RunTold(e: Env, f: Fork, schedule: seq<Task>)
    requires ToldPlace(e, f)
    ensures ToldPlace(e, Run(e, f, schedule)) && SameRule(Run(e, f, schedule).intent, f.intent)
    decreases |schedule|
  {
    hide ToldPlace, ReasonStep;
    if schedule != [] {
      var g := Step(e, f, schedule[0]);
      if schedule[0] == Enforcing {
        StepTold(e, f);
        StepIntent(e, f);
      } else {
        ThinkTold(e, f);
      }
      hide EnforceStep;
      RunTold(e, g, schedule[1..]);
    }
  }

  lemma StepIntent(e: Env, f: Fork)
    ensures EnforceStep(e, f).intent == f.intent
  {
  }

  lemma NothingTold()
    ensures Tells([]) == []
  {
  }

  /** Under every schedule the breaker hears of every push, in full and in order, and of nothing else. */
  lemma BreakerHears(cfg: Config, cache: Cache, alert: Alert, a: Answers, schedule: seq<Task>)
    requires RunsOut(cfg, cache, alert, a, schedule)
    ensures Tells(ProcessWith(cfg, cache, alert, a, schedule).calls)
         == if MayPush(cfg, cache - a.expired, alert, a) then DueTells(a) else []
  {
    hide Prepare, EnforceStep, Run, MayPush, Lookup, Used, KeyOf, Tells, DueTells;
    var live := cache - a.expired;
    OpenIffUsed(cfg, live, alert, a);
    NothingTold();
    match Prepare(cfg, live, alert, a) {
      case Closed(_, _) =>
      case Open(i, key, hit) => RunTold(Env(cfg, a, key, hit), Begin(i, live), schedule);
    }
  }

  /** A success that cannot be recorded: the rule stands in the network and the outcome says error. */
  lemma UnrecordedSuccess(cfg: Config, cache: Cache, alert: Alert, a: Answers, schedule: seq<Task>)
    requires RunsOut(cfg, cache, alert, a, schedule) && MayPush(cfg, cache - a.expired, alert, a)
    requires a.push.Said? && a.push.value.success && a.success.Raised?
    ensures var r := ProcessWith(cfg, cache, alert, a, schedule);
            |Pushes(r.calls)| == 1 && r.outcome == Error
  {
    hide Prepare, EnforceStep, EnforceSteps, Run, MayPush, Lookup, Used, KeyOf, Pushes;
    BackendAskedIff(cfg, cache, alert, a, schedule);
  }

  // ---- What the reasoning task leaves ---------------------------------------------------------------------

  /** The decision with the explanation that came, if one came. */
  function Thought(e: Env, i: Intent): Intent {
    if e.hit then i
    else match e.a.reason
      case Said(said) => Explain(said, i)
      case Raised(_) => if e.a.reasonAgain.Said? then Explain(e.a.reasonAgain.value, i) else i
  }

  predicate ThinkingHolds(e: Env, i: Intent, f: Fork) {
    match f.thinking
    case Idle => f.intent == i
    case Tried(n) => f.intent == i && !e.hit && n <= 1 && (n == 1 ==> e.a.reason.Raised?)
    case Over => f.intent == Thought(e, i)
  }

  predicate WholeAudits(e: Env, i: Intent, calls: seq<Call>) {
    forall k :: 0 <= k < |calls| ==>
      (calls[k].AskedBackend? || calls[k].Stored? ==> calls[k].rule == i || calls[k].rule == Thought(e, i))
  }

  /** In the same way enforcement is not seen by the reasoning task, and a decision is handed over and
      stored with all of its explanation or none of it. */
  lemma {:induction false} ExplainedWhole(e: Env, i: Intent, f: Fork, schedule: seq<Task>)
    requires ThinkingHolds(e, i, f) && WholeAudits(e, i, f.calls)
    ensures var g := Run(e, f, schedule);
            ThinkingHolds(e, i, g) && WholeAudits(e, i, g.calls)
    decreases |schedule|
  {
    hide WholeAudits;
    if schedule != [] {
      var g := Step(e, f, schedule[0]);
      assert ThinkingHolds(e, i, g) && WholeAudits(e, i, g.calls) by {
        StepKeepsAudits(e, i, f, schedule[0]);
      }
      ExplainedWhole(e, i, g, schedule[1..]);
    }
  }

  lemma AuditsGrow(e: Env, i: Intent, calls: seq<Call>, c: Call)
    requires WholeAudits(e, i, calls)
    requires c.AskedBackend? || c.Stored? ==> c.rule == i || c.rule == Thought(e, i)
    ensures WholeAudits(e, i, calls + [c])
  {
  }

  lemma StepKeepsAudits(e: Env, i: Intent, f: Fork, t: Task)
    requires ThinkingHolds(e, i, f) && WholeAudits(e, i, f.calls)
    ensures ThinkingHolds(e, i, Step(e, f, t)) && WholeAudits(e, i, Step(e, f, t).calls)
  {
    hide WholeAudits;
    AuditsGrow(e, i, f.calls, AskedBreaker);
    AuditsGrow(e, i, f.calls, AskedLimiter(f.intent.srcIp));
    AuditsGrow(e, i, f.calls, AskedBackend(f.intent));
    AuditsGrow(e, i, f.calls, ToldSuccess);
    AuditsGrow(e, i, f.calls, ToldFailure);
    AuditsGrow(e, i, f.calls, Stored(e.key, f.intent));
  }

  // ---- The agent ----------------------------------------------------------------------------------------

  const ENFORCE_FIRST: seq<Task> :=
    [Enforcing, Enforcing, Enforcing, Enforcing, Enforcing, Enforcing, Reasoning, Reasoning, Reasoning]

  lemma {:induction false} RunEnforcing(e: Env, f: Fork, n: nat, schedule: seq<Task>)
    requires n <= |schedule| && forall i :: 0 <= i < n ==> schedule[i] == Enforcing
    ensures Run(e, f, schedule) == Run(e, EnforceSteps(e, f, n), schedule[n..])
    decreases n
  {
    hide EnforceStep, ReasonStep;
    if n == 0 {
      assert schedule[0..] == schedule;
    } else {
      RunEnforcing(e, EnforceStep(e, f), n - 1, schedule[1..]);
      assert schedule[1..][n - 1..] == schedule[n..];
    }
  }

  lemma {:induction false} ThinksInThree(e: Env, f: Fork, schedule: seq<Task>)
    requires f.thinking == Idle && schedule == [Reasoning, Reasoning, Reasoning]
    ensures Run(e, f, schedule) == f.(intent := Thought(e, f.intent), thinking := Over)
  {
    hide EnforceStep;
    var f1 := ReasonStep(e, f);
    var f2 := ReasonStep(e, f1);
    var f3 := ReasonStep(e, f2);
    assert schedule[1..] == [Reasoning, Reasoning] && schedule[1..][1..] == [Reasoning];
    assert schedule[1..][1..][1..] == [];
    assert f3 == f.(intent := Thought(e, f.intent), thinking := Over);
    hide ReasonStep, Thought;
    assert Run(e, f, schedule) == Run(e, f1, schedule[1..]);
    assert Run(e, f1, schedule[1..]) == Run(e, f2, schedule[1..][1..]);
    assert Run(e, f2, schedule[1..][1..]) == Run(e, f3, schedule[1..][1..][1..]);
  }

  lemma {:induction false} StepKeepsIntent(e: Env, f: Fork, n: nat)
    ensures EnforceSteps(e, f, n).intent == f.intent && EnforceSteps(e, f, n).thinking == f.thinking
    decreases n
  {
    if n > 0 {
      StepKeepsIntent(e, EnforceStep(e, f), n - 1);
    }
  }

  /** Enforcing to the end, then reasoning to the end, is one complete schedule of every fork. */
  lemma EnforceThenReason(e: Env, i: Intent, live: Cache)
    ensures Run(e, Begin(i, live), ENFORCE_FIRST)
         == EnforceSteps(e, Begin(i, live), AWAITS).(intent := Thought(e, i), thinking := Over)
    ensures Complete(Run(e, Begin(i, live), ENFORCE_FIRST))
  {
    hide Run, EnforceSteps, Thought;
    RunEnforcing(e, Begin(i, live), AWAITS, ENFORCE_FIRST);
    StepKeepsIntent(e, Begin(i, live), AWAITS);
    assert ENFORCE_FIRST[AWAITS..] == [Reasoning, Reasoning, Reasoning];
    ThinksInThree(e, EnforceSteps(e, Begin(i, live), AWAITS), ENFORCE_FIRST[AWAITS..]);
    Alone(e, i, live);
  }

  class Agent {
    const cfg: Config
    var cache: Cache
    var calls: seq<Call>

    constructor (cfg: Config)
      ensures this.cfg == cfg && cache == map[] && calls == []
    {
      this.cfg, cache, calls := cfg, map[], [];
    }

    /** One alert to its decision. With `ScheduleUnseen` this is, in all that is enforced, the result of
        every schedule of the fork. */
    method Process(alert: Alert, a: Answers) returns (outcome: Outcome, intent: Option<Intent>)
      modifies this
      ensures var r := ProcessWith(cfg, old(cache), alert, a, ENFORCE_FIRST);
              outcome == r.outcome && intent == r.intent && cache == r.cache && calls == old(calls) + r.calls
    {
      hide Run, Prepare, Thought, EnforceSteps, ENFORCE_FIRST;
      cache := cache - a.expired;
      var stage := Decide(alert, a);
      match stage {
        case Closed(closed, known) =>
          outcome, intent := closed, known;
          assert calls + [] == calls;
        case Open(used, key, hit) =>
          EnforceThenReason(Env(cfg, a, key, hit), used, cache);
          var enforced := Enforce(used, key, hit, a);
          outcome := if enforced.Some? then enforced.value else Error;
          var explained := CollectReasoning(used, key, hit, a);
          intent := Some(explained);
      }
    }

    /** From loading the context to the confidence gate; an exception on the way is an error outcome. */
    method Decide(alert: Alert, a: Answers) returns (stage: Stage)
      ensures stage == Prepare(cfg, cache, alert, a)
    {
      hide KeyOf, Rebound, WithRuleId, Classification;
      if a.load.Raised? {
        return Closed(Error, None);
      }
      if Classification(a) == "benign" {
        return Closed(Benign, None);
      }
      if a.gather.Raised? {
        return Closed(Error, None);
      }
      var key := KeyOf(cfg, alert, a);
      var used: Intent;
      var hit := cfg.caching && a.cacheReads && key in cache;
      if hit {
        used := Rebound(cfg, cache[key], alert);
      } else {
        match a.decide {
          case Raised(_) => return Closed(Error, None);
          case Said(Refused(_)) => return Closed(Rejected, None);
          case Said(Proposed(draft)) => used := WithRuleId(cfg, draft.(audit := NO_AUDIT));
        }
      }
      var closed := Validate(used, a);
      stage := if closed.Some? then Closed(closed.value, Some(used)) else Open(used, key, hit);
    }

    /** The outcome that closes the alert before the fork, if one does. */
    method Validate(i: Intent, a: Answers) returns (closed: Option<Outcome>)
      ensures closed == None <==>
                a.validate(i) == Said([]) && i.confidence >= RMin(cfg.auto, cfg.notify) && !i.action.LogOnly?
      ensures closed == Some(Error) <==> a.validate(i).Raised?
      ensures closed == Some(Benign) <==>
                a.validate(i) == Said([]) && i.confidence >= RMin(cfg.auto, cfg.notify) && i.action.LogOnly?
      ensures closed == Some(Held) <==>
                a.validate(i) == Said([]) && cfg.hold <= i.confidence < RMin(cfg.auto, cfg.notify)
      ensures closed.Some? ==> closed.value in {Error, Benign, Held, Rejected}
    {
      var checked := a.validate(i);
      if checked.Raised? {
        return Some(Error);
      }
      if checked.value != [] {
        return Some(Rejected);
      }
      if i.confidence < cfg.auto && i.confidence < cfg.notify {
        return Some(if i.confidence >= cfg.hold then Held else Rejected);
      }
      closed := if i.action.LogOnly? then Some(Benign) else None;
    }

    /** The enforcing task run without a break. */
    method Enforce(i: Intent, key: string, hit: bool, a: Answers) returns (outcome: Option<Outcome>)
      modifies this
      ensures var f := EnforceSteps(Env(cfg, a, key, hit), Begin(i, old(cache)), AWAITS);
              outcome == f.outcome && cache == f.cache && calls == old(calls) + f.calls
    {
      hide EnforceSteps;
      ghost var e, f := Env(cfg, a, key, hit), Begin(i, cache);
      ThreeSteps(e, f);
      StepsCompose(e, f, 3, 3);
      FinishedHere(e, EnforceSteps(e, f, 3), 3);
      outcome := None;
      if !i.action.Drop? {
        assert calls == calls + [];
        return;
      }
      calls := calls + [AskedBreaker];
      match a.breaker {
        case Raised(_) => return;
        case Said(Some(_)) => return Some(Rejected);
        case Said(None) =>
      }
      calls := calls + [AskedLimiter(i.srcIp)];
      match a.limiter {
        case Raised(_) => return;
        case Said(Some(_)) => return Some(Rejected);
        case Said(None) =>
      }
      if cfg.dryRun {
        return Some(DryRun);
      }
      calls := calls + [AskedBackend(i)];
      outcome := Report(i, key, hit, a, EnforceSteps(e, f, 3));
    }

    /** What the backend's answer leads to. */
    method Report(i: Intent, key: string, hit: bool, a: Answers, ghost f: Fork) returns (outcome: Option<Outcome>)
      requires f.at == BackendAsked && f.outcome == None && f.intent == i && f.cache == cache
      modifies this
      ensures var g := EnforceSteps(Env(cfg, a, key, hit), f, 3);
              && outcome == g.outcome && cache == g.cache
              && exists more :: g.calls == f.calls + more && calls == old(calls) + more
    {
      ghost var e := Env(cfg, a, key, hit);
      ThreeSteps(e, f);
      hide EnforceSteps;
      ghost var before := calls;
      outcome := None;
      var report := a.failure;
      ghost var more;
      if a.push.Said? && a.push.value.success {
        calls, more := calls + [ToldSuccess], [ToldSuccess];
        if a.success.Said? {
          if !hit && cfg.caching && a.cacheWrites {
            calls, more := calls + [Stored(key, i)], more + [Stored(key, i)];
            cache := cache[key := i];
          }
          assert calls == before + more;
          assert EnforceSteps(e, f, 3).calls == f.calls + more;
          return Some(Enforced);
        }
        calls, more := calls + [ToldFailure], more + [ToldFailure];
      } else {
        calls, more := calls + [ToldFailure], [ToldFailure];
        if a.push.Said? {
          if a.failure.Said? {
            return Some(Error);
          }
          report := a.failureAgain;
          calls, more := calls + [ToldFailure], more + [ToldFailure];
        }
      }
      if report.Said? {
        outcome := Some(Error);
      }
      assert calls == before + more;
      assert EnforceSteps(e, f, 3).calls == f.calls + more;
    }

    /** Two attempts at an explanation; whatever happens, the decision itself is unchanged. */
    method CollectReasoning(i: Intent, key: string, hit: bool, a: Answers) returns (explained: Intent)
      ensures explained == Thought(Env(cfg, a, key, hit), i) && SameRule(explained, i)
    {
      explained := i;
      if hit {
        return;
      }
      var attempt, got := 0, None;
      while attempt < 2 && got == None
        invariant 0 <= attempt <= 2
        invariant got == None ==> (attempt >= 1 ==> a.reason.Raised?) && (attempt == 2 ==> a.reasonAgain.Raised?)
        invariant got.Some? ==> if a.reason.Said? then got.value == a.reason.value else a.reasonAgain == Said(got.value)
      {
        var reply := if attempt == 0 then a.reason else a.reasonAgain;
        if reply.Said? {
          got := Some(reply.value);
        }
        attempt := attempt + 1;
      }
      if got.Some? && got.value.Explanation? {
        explained := i.(audit := got.value.audit);
      }
    }
  }

  function RMin(x: real, y: real): real {
    if x <= y then x else y
  }

  lemma FinishedHere(e: Env, f: Fork, n: nat)
    ensures f.at == Finished ==> EnforceSteps(e, f, n) == f
  {
    if f.at == Finished {
      FinishedStays(e, f, n);
    }
  }
}
