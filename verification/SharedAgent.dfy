/** One agent shared by alerts that overlap: their forks take turns at every await, around one cache, one
    breaker and one limiter. */
module SharedAgent {
  import opened Text
  import opened Policy
  import opened DecisionAgent
  import opened Safety
  import opened AgentRuns

  /** The agent's settings, its limiter's and its breaker's. */
  datatype Setup = Setup(cfg: Config, limits: Limits, threshold: nat, halt: real)

  /** An alert on its way: before the cache is asked, closed, or in its fork. */
  datatype Job =
    | Waiting(alert: Alert, a: Answers)
    | Shut(outcome: Outcome)
    | Running(alert: Alert, env: Env, fork: Fork)

  /** What the alerts share, the limiter and the breaker by their histories; and the rules handed over. */
  datatype Shared = Shared(jobs: seq<Job>, cache: Cache, reports: seq<Report>, slots: seq<Grant>, handed: seq<Grant>)

  datatype Turn =
    | Arrive(alert: Alert, a: Answers)
    | Expire(keys: set<string>)
    | Look(job: nat)
    | Go(job: nat, task: Task, at: real)

  predicate BreakerOpen(o: Setup, w: Shared, at: real) {
    OpenAt(o.threshold, o.halt, w.reports, at)
  }

  /** The outside's answers, with those of the agent's own breaker and limiter at this moment. */
  function Current(o: Setup, w: Shared, a: Answers, src: string, at: real): Answers {
    a.(breaker := Said(if BreakerOpen(o, w, at) then Some("open") else None),
       limiter := Said(if Allowed(o.limits, w.slots, BareIp(src), at) then None else Some("limit")),
       success := Said(()), failure := Said(()), failureAgain := Said(()))
  }

  function Later(f: Fork, g: Fork): seq<Call> {
    if |f.calls| <= |g.calls| then g.calls[|f.calls|..] else []
  }

  function HandedIn(calls: seq<Call>, at: real): seq<Grant> {
    if Pushes(calls) == [] then [] else [Grant(BareIp(Pushes(calls)[0].srcIp), at)]
  }

  predicate TakesSlot(o: Setup, w: Shared, f: Fork, task: Task, at: real) {
    task.Enforcing? && f.at == LimiterAsked && Allowed(o.limits, w.slots, BareIp(f.intent.srcIp), at)
  }

  /** One task of one alert goes on to its next await. */
  function Went(o: Setup, w: Shared, j: nat, task: Task, at: real): Shared
    requires j < |w.jobs| && w.jobs[j].Running?
  {
    var job := w.jobs[j];
    var f := job.fork.(cache := w.cache);
    var g := Step(job.env.(a := Current(o, w, job.env.a, f.intent.srcIp, at)), f, task);
    Shared(w.jobs[j := job.(fork := g)], g.cache, w.reports + ReportsOf(Tells(Later(f, g)), at),
           if TakesSlot(o, w, f, task, at) then w.slots + [Grant(BareIp(f.intent.srcIp), at)] else w.slots,
           w.handed + HandedIn(Later(f, g), at))
  }

  function Looked(o: Setup, w: Shared, alert: Alert, a: Answers): Job {
    match Prepare(o.cfg, w.cache, alert, a)
    case Closed(outcome, _) => Shut(outcome)
    case Open(i, key, hit) => Running(alert, Env(o.cfg, a, key, hit), Begin(i, w.cache))
  }

  function After(o: Setup, w: Shared, t: Turn): Shared {
    match t
    case Arrive(alert, a) => w.(jobs := w.jobs + [Waiting(alert, a)])
    case Expire(keys) => w.(cache := w.cache - keys)
    case Look(j) =>
      if j < |w.jobs| && w.jobs[j].Waiting? then
        w.(jobs := w.jobs[j := Looked(o, w, w.jobs[j].alert, w.jobs[j].a)])
      else w
    case Go(j, task, at) => if j < |w.jobs| && w.jobs[j].Running? then Went(o, w, j, task, at) else w
  }

  function AfterAll(o: Setup, w: Shared, turns: seq<Turn>): Shared
    decreases |turns|
  {
    if turns == [] then w else AfterAll(o, After(o, w, turns[0]), turns[1..])
  }

  function Nothing(): Shared {
    Shared([], map[], [], [], [])
  }

  // ---- What one step calls ------------------------------------------------------------------------------

  /** The calls of one step of enforcement: a push exactly from a granted slot, a report after a push. */
  lemma StepCalls(e: Env, f: Fork)
    ensures var calls := Later(f, EnforceStep(e, f));
            && Pushes(calls) == (if Hands(e, f) then [f.intent] else [])
            && (Tells(calls) != [] ==> f.at == BackendAsked || f.at == SuccessTold || f.at == FailureTold)
  {
    hide Pushes, Tells;
    var g := EnforceStep(e, f);
    assert Later(f, g) == [] || Later(f, g) == [g.calls[|f.calls|]];
    NoCalls();
    OneCall(AskedBreaker);
    OneCall(AskedLimiter(f.intent.srcIp));
    OneCall(AskedBackend(f.intent));
    OneCall(ToldSuccess);
    OneCall(ToldFailure);
    OneCall(Stored(e.key, f.intent));
  }

  lemma NoCalls()
    ensures Pushes([]) == [] && Tells([]) == []
  {
  }

  lemma OneCall(c: Call)
    ensures Pushes([c]) == (if c.AskedBackend? then [c.rule] else [])
    ensures Tells([c]) == (if c.ToldSuccess? || c.ToldFailure? then [c] else [])
  {
    PushesGrow([], c);
    TellsGrow([], c);
    assert [] + [c] == [c];
  }

  lemma ThinkCalls(e: Env, f: Fork)
    ensures Later(f, ReasonStep(e, f)) == [] && ReasonStep(e, f).at == f.at
  {
  }

  // ---- Limits hold in full ------------------------------------------------------------------------------

  ghost predicate SlotsHold(o: Setup, w: Shared) {
    Admitted(o.limits, w.slots) && w.handed == if o.cfg.dryRun then [] else w.slots
  }

  /** Every fork runs under the agent's settings. */
  ghost predicate OwnSettings(o: Setup, w: Shared) {
    forall j :: 0 <= j < |w.jobs| && w.jobs[j].Running? ==> w.jobs[j].env.cfg == o.cfg
  }

  lemma TurnKeepsSettings(o: Setup, w: Shared, t: Turn)
    requires OwnSettings(o, w)
    ensures OwnSettings(o, After(o, w, t))
  {
    hide Prepare, Step;
  }

  lemma WentSlots(o: Setup, w: Shared, j: nat, task: Task, at: real)
    requires j < |w.jobs| && w.jobs[j].Running? && OwnSettings(o, w) && SlotsHold(o, w)
    ensures SlotsHold(o, Went(o, w, j, task, at))
  {
    hide EnforceStep, ReasonStep, Pushes, Tells, Allowed, Admitted, OpenAt, BareIp;
    var f := w.jobs[j].fork.(cache := w.cache);
    var e := w.jobs[j].env.(a := Current(o, w, w.jobs[j].env.a, f.intent.srcIp, at));
    NoCalls();
    assert w.handed + [] == w.handed;
    if task.Enforcing? {
      StepCalls(e, f);
      if TakesSlot(o, w, f, task, at) {
        AdmittedGrows(o.limits, w.slots, BareIp(f.intent.srcIp), at);
      }
    } else {
      ThinkCalls(e, f);
    }
  }

  lemma {:induction false} AllSlots(o: Setup, w: Shared, turns: seq<Turn>)
    requires OwnSettings(o, w) && SlotsHold(o, w)
    ensures SlotsHold(o, AfterAll(o, w, turns))
    decreases |turns|
  {
    hide OwnSettings, Went, Looked;
    if turns != [] {
      var t := turns[0];
      TurnKeepsSettings(o, w, t);
      if t.Go? && t.job < |w.jobs| && w.jobs[t.job].Running? {
        WentSlots(o, w, t.job, t.task, t.at);
      }
      assert SlotsHold(o, After(o, w, t));
      hide After, SlotsHold;
      AllSlots(o, After(o, w, t), turns[1..]);
    }
  }

  /** However alerts overlap: never more rules reach the network than the limits allow, in all, in any
      minute, and for one address in any of its windows. */
  lemma SharedBlastRadius(o: Setup, turns: seq<Turn>, ip: string, from: real)
    ensures var handed := AfterAll(o, Nothing(), turns).handed;
            && |handed| <= o.limits.total
            && |set i: nat | i < |handed| && from <= handed[i].at <= from + 60.0| <= o.limits.perMinute
            && |set i: nat | i < |handed| && handed[i].ip == ip && from <= handed[i].at <= from + o.limits.ipWindow|
               <= o.limits.perIp
  {
    hide AfterAll, CountBetween, Times, OfIp, Admitted;
    NothingHeld(o);
    AllSlots(o, Nothing(), turns);
    LimitsHold(o.limits, AfterAll(o, Nothing(), turns).handed, from, ip);
  }

  lemma NothingHeld(o: Setup)
    ensures OwnSettings(o, Nothing()) && SlotsHold(o, Nothing()) && Admitted(o.limits, [])
  {
  }

  // ---- The breaker ----------------------------------------------------------------------------------------

  /** The alert has been let past the breaker and has not reached the backend. */
  predicate PastBreaker(job: Job) {
    job.Running? && job.fork.at == LimiterAsked
  }

  function InFlight(jobs: seq<Job>): nat {
    if jobs == [] then 0
    else InFlight(jobs[..|jobs| - 1]) + if PastBreaker(jobs[|jobs| - 1]) then 1 else 0
  }

  lemma {:induction false} InFlightChanges(jobs: seq<Job>, j: nat, job: Job)
    requires j < |jobs|
    ensures InFlight(jobs[j := job]) + (if PastBreaker(jobs[j]) then 1 else 0)
         == InFlight(jobs) + (if PastBreaker(job) then 1 else 0)
  {
    hide PastBreaker;
    var n := |jobs| - 1;
    if j == n {
      assert jobs[j := job][..n] == jobs[..n];
    } else {
      assert jobs[j := job][..n] == jobs[..n][j := job];
      InFlightChanges(jobs[..n], j, job);
    }
  }

  /** Nobody gets past an open breaker. */
  lemma OnlyPastClosed(o: Setup, w: Shared, j: nat, task: Task, at: real)
    requires j < |w.jobs| && w.jobs[j].Running?
    requires !PastBreaker(w.jobs[j]) && PastBreaker(Went(o, w, j, task, at).jobs[j])
    ensures !BreakerOpen(o, w, at)
  {
    hide OpenAt, Allowed;
  }

  /** While the breaker is open, every rule handed over takes an alert out of the number that were past it
      already, and none is added. */
  lemma OpenTurn(o: Setup, w: Shared, t: Turn)
    requires t.Go? ==> BreakerOpen(o, w, t.at)
    ensures |After(o, w, t).handed| + InFlight(After(o, w, t).jobs) <= |w.handed| + InFlight(w.jobs)
  {
    hide InFlight, EnforceStep, ReasonStep, Prepare, Pushes, Tells, OpenAt, Allowed;
    match t {
      case Arrive(alert, a) => InFlightGrows(w.jobs, Waiting(alert, a));
      case Expire(_) =>
      case Look(j) =>
        if j < |w.jobs| && w.jobs[j].Waiting? {
          InFlightChanges(w.jobs, j, Looked(o, w, w.jobs[j].alert, w.jobs[j].a));
        }
      case Go(j, task, at) =>
        if j < |w.jobs| && w.jobs[j].Running? {
          OpenGo(o, w, j, task, at);
        }
    }
  }

  lemma OpenGo(o: Setup, w: Shared, j: nat, task: Task, at: real)
    requires j < |w.jobs| && w.jobs[j].Running? && BreakerOpen(o, w, at)
    ensures var u := Went(o, w, j, task, at);
            |u.handed| + InFlight(u.jobs) <= |w.handed| + InFlight(w.jobs)
  {
    hide InFlight, Pushes, Tells, OpenAt, Allowed, EnforceStep, ReasonStep;
    var f := w.jobs[j].fork.(cache := w.cache);
    var e := w.jobs[j].env.(a := Current(o, w, w.jobs[j].env.a, f.intent.srcIp, at));
    var u := Went(o, w, j, task, at);
    InFlightChanges(w.jobs, j, u.jobs[j]);
    NoCalls();
    if task.Enforcing? {
      StepCalls(e, f);
      PlaceAfter(e, f);
      if PastBreaker(u.jobs[j]) && !PastBreaker(w.jobs[j]) {
        OnlyPastClosed(o, w, j, task, at);
      }
    } else {
      ThinkCalls(e, f);
    }
  }

  lemma PlaceAfter(e: Env, f: Fork)
    ensures f.at == LimiterAsked ==> EnforceStep(e, f).at != LimiterAsked
  {
  }

  lemma InFlightGrows(jobs: seq<Job>, job: Job)
    ensures InFlight(jobs + [job]) == InFlight(jobs) + if PastBreaker(job) then 1 else 0
  {
    assert (jobs + [job])[..|jobs|] == jobs;
  }

  /** The breaker is open at every one of the turns. */
  predicate OpenThroughout(o: Setup, w: Shared, turns: seq<Turn>)
    decreases |turns|
  {
    turns == [] ||
    ((turns[0].Go? ==> BreakerOpen(o, w, turns[0].at)) && OpenThroughout(o, After(o, w, turns[0]), turns[1..]))
  }

  /** However alerts overlap: as long as the breaker stays open, no more rules are handed over than there
      were alerts past it when it opened. */
  lemma {:induction false} OnlyInFlightFollow(o: Setup, w: Shared, turns: seq<Turn>)
    requires OpenThroughout(o, w, turns)
    ensures |AfterAll(o, w, turns).handed| <= |w.handed| + InFlight(w.jobs)
    ensures |AfterAll(o, w, turns).handed| + InFlight(AfterAll(o, w, turns).jobs) <= |w.handed| + InFlight(w.jobs)
    decreases |turns|
  {
    hide After, BreakerOpen, InFlight;
    if turns != [] {
      OpenTurn(o, w, turns[0]);
      OnlyInFlightFollow(o, After(o, w, turns[0]), turns[1..]);
    }
  }

  // ---- Where cached decisions come from -----------------------------------------------------------------

  predicate InProgress(at: Place) {
    at != Start && at != Finished
  }

  /** An alert in its fork: its decision carries its own rule id, only a drop goes further than the start,
      and the backend has been asked at most once, exactly once if the alert was enforced. */
  ghost predicate JobHolds(o: Setup, job: Job) {
    job.Running? ==>
      var f := job.fork;
      && job.env.cfg == o.cfg && OwnRuleId(o.cfg, f.intent) && (InProgress(f.at) ==> f.intent.action.Drop?)
      && (f.at == Start || f.at == BreakerAsked || f.at == LimiterAsked ==> Pushes(f.calls) == [])
      && (f.at == SuccessTold ==> |Pushes(f.calls)| == 1) && |Pushes(f.calls)| <= 1
      && (f.at == BackendAsked ==> |Pushes(f.calls)| == 1)
      && (f.outcome == Some(Enforced) ==> f.at == Finished && f.intent.action.Drop? && |Pushes(f.calls)| == 1)
  }

  lemma EnforceJob(o: Setup, e: Env, f: Fork, alert: Alert, env: Env)
    requires env.cfg == e.cfg && JobHolds(o, Running(alert, env, f))
    ensures JobHolds(o, Running(alert, env, EnforceStep(e, f)))
  {
    hide Pushes, OwnRuleId, Tells;
    StepPushes(e, f);
  }

  lemma ReasonJob(o: Setup, e: Env, f: Fork, alert: Alert, env: Env)
    requires JobHolds(o, Running(alert, env, f))
    ensures JobHolds(o, Running(alert, env, ReasonStep(e, f)))
  {
    hide Pushes, RuleId;
  }

  /** Alert `j` was enforced after missing the cache under key `k`, with the decision `t` stands for. */
  ghost predicate OriginAt(o: Setup, jobs: seq<Job>, k: string, t: Intent, j: nat) {
    && j < |jobs| && jobs[j].Running? && !jobs[j].env.hit && jobs[j].env.key == k
    && jobs[j].fork.outcome == Some(Enforced) && jobs[j].fork.at == Finished
    && jobs[j].fork.intent.action.Drop? && OwnRuleId(o.cfg, jobs[j].fork.intent)
    && SameRule(t, jobs[j].fork.intent)
  }

  ghost predicate HasOrigin(o: Setup, jobs: seq<Job>, k: string, t: Intent) {
    exists j :: OriginAt(o, jobs, k, t, j)
  }

  ghost predicate SharedHolds(o: Setup, w: Shared) {
    && (forall j :: 0 <= j < |w.jobs| ==> JobHolds(o, w.jobs[j]))
    && (forall k :: k in w.cache ==> HasOrigin(o, w.jobs, k, w.cache[k]))
  }

  lemma OriginMoves(o: Setup, jobs: seq<Job>, more: seq<Job>, k: string, t: Intent)
    requires HasOrigin(o, jobs, k, t)
    requires forall j :: OriginAt(o, jobs, k, t, j) ==> OriginAt(o, more, k, t, j)
    ensures HasOrigin(o, more, k, t)
  {
    hide OriginAt;
    var j :| OriginAt(o, jobs, k, t, j);
    assert OriginAt(o, more, k, t, j);
  }

  /** What a step of enforcement may do to the cache. */
  lemma CacheStep(e: Env, f: Fork)
    ensures var g := EnforceStep(e, f);
            && g.intent == f.intent && (f.at == Finished ==> g == f)
            && (g.cache == f.cache ||
                (&& f.at == SuccessTold && !e.hit && g.cache == f.cache[e.key := f.intent]
                 && g.outcome == Some(Enforced) && g.at == Finished))
  {
  }

  lemma ThinkStep(e: Env, f: Fork)
    ensures var g := ReasonStep(e, f);
            g.cache == f.cache && g.outcome == f.outcome && g.at == f.at && SameRule(f.intent, g.intent)
  {
  }

  /** The step of alert `j` from `f` to `g`, whichever task took it. */
  lemma WentJob(o: Setup, w: Shared, j: nat, task: Task, at: real)
    requires j < |w.jobs| && w.jobs[j].Running? && JobHolds(o, w.jobs[j])
    ensures var job, u := w.jobs[j], Went(o, w, j, task, at);
            var f, g := job.fork, u.jobs[j].fork;
            && u.jobs == w.jobs[j := job.(fork := g)] && JobHolds(o, u.jobs[j])
            && SameRule(f.intent, g.intent)
            && (f.at == Finished ==> g.at == Finished && g.outcome == f.outcome && u.cache == w.cache)
            && (u.cache == w.cache ||
                (&& InProgress(f.at) && !job.env.hit && u.cache == w.cache[job.env.key := f.intent]
                 && g.outcome == Some(Enforced) && g.at == Finished))
  {
    hide EnforceStep, ReasonStep, JobHolds, Pushes, Tells, OpenAt, Allowed, SameRule;
    var f := w.jobs[j].fork.(cache := w.cache);
    var e := w.jobs[j].env.(a := Current(o, w, w.jobs[j].env.a, f.intent.srcIp, at));
    CachePlays(o, w.jobs[j], w.cache);
    SameRuleSelf(f.intent);
    if task.Enforcing? {
      EnforceJob(o, e, f, w.jobs[j].alert, w.jobs[j].env);
      CacheStep(e, f);
    } else {
      ReasonJob(o, e, f, w.jobs[j].alert, w.jobs[j].env);
      ThinkStep(e, f);
    }
  }

  lemma SameRuleSelf(i: Intent)
    ensures SameRule(i, i)
  {
  }

  lemma CachePlays(o: Setup, job: Job, cache: Cache)
    requires job.Running? && JobHolds(o, job)
    ensures JobHolds(o, Running(job.alert, job.env, job.fork.(cache := cache)))
  {
    hide Pushes, OwnRuleId;
  }

  lemma SameRuleJoins(t: Intent, i: Intent, j: Intent)
    requires SameRule(t, i) && SameRule(i, j)
    ensures SameRule(t, j)
  {
  }

  lemma GoHolds(o: Setup, w: Shared, j: nat, task: Task, at: real)
    requires j < |w.jobs| && w.jobs[j].Running? && SharedHolds(o, w)
    ensures SharedHolds(o, Went(o, w, j, task, at))
  {
    hide Went, JobHolds;
    WentJob(o, w, j, task, at);
    var job, u := w.jobs[j], Went(o, w, j, task, at);
    var f, g := job.fork, u.jobs[j].fork;
    DropAndId(o, job);
    SameRuleActs(o, f.intent, g.intent);
    hide OwnRuleId;
    forall k | k in u.cache ensures HasOrigin(o, u.jobs, k, u.cache[k]) {
      if u.cache != w.cache && k == job.env.key {
        assert OriginAt(o, u.jobs, k, u.cache[k], j);
      } else {
        forall i | OriginAt(o, w.jobs, k, w.cache[k], i) ensures OriginAt(o, u.jobs, k, w.cache[k], i) {
          if i == j {
            SameRuleJoins(w.cache[k], f.intent, g.intent);
          }
        }
        OriginMoves(o, w.jobs, u.jobs, k, w.cache[k]);
      }
    }
  }

  lemma DropAndId(o: Setup, job: Job)
    requires job.Running? && JobHolds(o, job)
    ensures OwnRuleId(o.cfg, job.fork.intent) && (InProgress(job.fork.at) ==> job.fork.intent.action.Drop?)
  {
  }

  lemma SameRuleActs(o: Setup, i: Intent, j: Intent)
    requires SameRule(i, j)
    ensures i.action == j.action && (OwnRuleId(o.cfg, i) <==> OwnRuleId(o.cfg, j))
  {
  }

  lemma LookedHolds(o: Setup, w: Shared, alert: Alert, a: Answers)
    ensures JobHolds(o, Looked(o, w, alert, a))
  {
    hide Prepare, OwnRuleId;
    OpenIffUsed(o.cfg, w.cache, alert, a);
    match Prepare(o.cfg, w.cache, alert, a) {
      case Closed(_, _) =>
      case Open(i, key, hit) =>
        UsedHasOwnId(o.cfg, w.cache, alert, a);
        NoCalls();
    }
  }

  lemma TurnHolds(o: Setup, w: Shared, t: Turn)
    requires SharedHolds(o, w)
    ensures SharedHolds(o, After(o, w, t))
  {
    hide JobHolds, Went, Looked, SameRule, OwnRuleId;
    var u := After(o, w, t);
    if t.Go? && t.job < |w.jobs| && w.jobs[t.job].Running? {
      GoHolds(o, w, t.job, t.task, t.at);
    } else {
      if t.Look? && t.job < |w.jobs| && w.jobs[t.job].Waiting? {
        LookedHolds(o, w, w.jobs[t.job].alert, w.jobs[t.job].a);
      }
      if t.Arrive? {
        WaitingHolds(o, t.alert, t.a);
      }
      forall k | k in u.cache ensures HasOrigin(o, u.jobs, k, u.cache[k]) {
        assert k in w.cache && u.cache[k] == w.cache[k];
        OriginMoves(o, w.jobs, u.jobs, k, w.cache[k]);
      }
    }
  }

  lemma WaitingHolds(o: Setup, alert: Alert, a: Answers)
    ensures JobHolds(o, Waiting(alert, a))
  {
  }

  lemma {:induction false} AllHold(o: Setup, w: Shared, turns: seq<Turn>)
    requires SharedHolds(o, w)
    ensures SharedHolds(o, AfterAll(o, w, turns))
    decreases |turns|
  {
    hide SharedHolds, After;
    if turns != [] {
      TurnHolds(o, w, turns[0]);
      AllHold(o, After(o, w, turns[0]), turns[1..]);
    }
  }

  /** However alerts overlap: every entry of the cache is a drop that some alert enforced after missing the
      cache under that key, and no alert has the backend asked twice. */
  lemma SharedEntryOrigin(o: Setup, turns: seq<Turn>)
    ensures var w := AfterAll(o, Nothing(), turns);
            && (forall k :: k in w.cache ==> HasOrigin(o, w.jobs, k, w.cache[k]))
            && (forall j :: 0 <= j < |w.jobs| && w.jobs[j].Running? ==>
                  (&& |Pushes(w.jobs[j].fork.calls)| <= 1
                   && (w.jobs[j].fork.outcome == Some(Enforced) ==> |Pushes(w.jobs[j].fork.calls)| == 1)))
  {
    hide AfterAll, Pushes, HasOrigin;
    assert SharedHolds(o, Nothing());
    AllHold(o, Nothing(), turns);
    var w := AfterAll(o, Nothing(), turns);
    assert forall j :: 0 <= j < |w.jobs| ==> JobHolds(o, w.jobs[j]);
  }

  // ---- What a hit enforces ------------------------------------------------------------------------------

  /** The decision of alert `j`, which hit the cache, is that of alert `i`, which missed it under the same key
      and was enforced, turned on another source. */
  ghost predicate HitFrom(o: Setup, jobs: seq<Job>, j: nat, i: nat)
    requires j < |jobs| && jobs[j].Running?
  {
    && i < |jobs| && jobs[i].Running? && !jobs[i].env.hit && jobs[i].env.key == jobs[j].env.key
    && jobs[i].fork.outcome == Some(Enforced) && jobs[i].fork.at == Finished
    && Turned(jobs[j].fork.intent, jobs[i].fork.intent)
  }

  predicate Turned(i: Intent, j: Intent) {
    SameRule(i, j.(srcIp := i.srcIp, ruleId := i.ruleId))
  }

  ghost predicate HitHolds(o: Setup, jobs: seq<Job>, j: nat)
    requires j < |jobs|
  {
    jobs[j].Running? && jobs[j].env.hit ==>
      jobs[j].fork.intent.srcIp == LiveSource(jobs[j].alert) && exists i: nat :: HitFrom(o, jobs, j, i)
  }

  ghost predicate HitsHold(o: Setup, jobs: seq<Job>) {
    forall j :: 0 <= j < |jobs| ==> HitHolds(o, jobs, j)
  }

  lemma TurnedStays(i: Intent, i': Intent, j: Intent, j': Intent)
    requires Turned(i, j) && SameRule(i, i') && SameRule(j, j')
    ensures Turned(i', j') && i.srcIp == i'.srcIp
  {
  }

  /** A list in which every running alert is still what it was, and a finished one still has its outcome. */
  ghost predicate Carried(jobs: seq<Job>, more: seq<Job>) {
    && |jobs| <= |more|
    && forall j :: 0 <= j < |jobs| && jobs[j].Running? ==>
         && more[j].Running? && more[j].env == jobs[j].env && more[j].alert == jobs[j].alert
         && SameRule(jobs[j].fork.intent, more[j].fork.intent)
         && (jobs[j].fork.at == Finished ==>
               more[j].fork.at == Finished && more[j].fork.outcome == jobs[j].fork.outcome)
  }

  lemma HitCarried(o: Setup, jobs: seq<Job>, more: seq<Job>, j: nat)
    requires Carried(jobs, more) && j < |jobs| && jobs[j].Running? && HitHolds(o, jobs, j)
    ensures HitHolds(o, more, j)
  {
    hide Turned, SameRule;
    if jobs[j].env.hit {
      var i: nat :| HitFrom(o, jobs, j, i);
      TurnedStays(jobs[j].fork.intent, more[j].fork.intent, jobs[i].fork.intent, more[i].fork.intent);
      assert HitFrom(o, more, j, i);
    }
  }

  lemma TurnCarries(o: Setup, w: Shared, t: Turn)
    requires SharedHolds(o, w)
    ensures Carried(w.jobs, After(o, w, t).jobs)
  {
    hide Went, Looked, SameRule, JobHolds, HasOrigin;
    forall j | 0 <= j < |w.jobs| && w.jobs[j].Running? ensures SameRule(w.jobs[j].fork.intent, w.jobs[j].fork.intent) {
      SameRuleSelf(w.jobs[j].fork.intent);
    }
    if t.Go? && t.job < |w.jobs| && w.jobs[t.job].Running? {
      WentJob(o, w, t.job, t.task, t.at);
    }
  }

  /** An alert that finds its decision in the cache takes it from an alert that was enforced. */
  lemma LookedHit(o: Setup, w: Shared, j: nat)
    requires j < |w.jobs| && w.jobs[j].Waiting? && SharedHolds(o, w)
    ensures HitHolds(o, w.jobs[j := Looked(o, w, w.jobs[j].alert, w.jobs[j].a)], j)
  {
    hide Prepare, JobHolds, RuleId, KeyOf;
    var alert, a := w.jobs[j].alert, w.jobs[j].a;
    var job := Looked(o, w, alert, a);
    var jobs := w.jobs[j := job];
    OpenIffUsed(o.cfg, w.cache, alert, a);
    if job.Running? && job.env.hit {
      var k := KeyOf(o.cfg, alert, a);
      var t := w.cache[k];
      assert HasOrigin(o, w.jobs, k, t);
      var i: nat :| OriginAt(o, w.jobs, k, t, i);
      assert HitFrom(o, jobs, j, i);
    }
  }

  lemma TurnHits(o: Setup, w: Shared, t: Turn)
    requires SharedHolds(o, w) && HitsHold(o, w.jobs)
    ensures HitsHold(o, After(o, w, t).jobs)
  {
    hide SharedHolds, Went, Looked, HitHolds, Carried;
    var u := After(o, w, t);
    TurnCarries(o, w, t);
    CarriedLength(w.jobs, u.jobs);
    forall j | 0 <= j < |u.jobs| ensures HitHolds(o, u.jobs, j) {
      if j < |w.jobs| && w.jobs[j].Running? {
        assert HitHolds(o, w.jobs, j);
        HitCarried(o, w.jobs, u.jobs, j);
      } else if t == Look(j) && j < |w.jobs| && w.jobs[j].Waiting? {
        LookedHit(o, w, j);
      } else {
        StillNotRunning(o, w, t, j);
        NoHit(o, u.jobs, j);
      }
    }
  }

  lemma StillNotRunning(o: Setup, w: Shared, t: Turn, j: nat)
    requires j < |After(o, w, t).jobs| && (j < |w.jobs| ==> !w.jobs[j].Running?)
    requires !(t == Look(j) && j < |w.jobs| && w.jobs[j].Waiting?)
    ensures !After(o, w, t).jobs[j].Running?
  {
    hide Step, Looked;
  }

  lemma CarriedLength(jobs: seq<Job>, more: seq<Job>)
    requires Carried(jobs, more)
    ensures |jobs| <= |more|
  {
  }

  lemma NoHit(o: Setup, jobs: seq<Job>, j: nat)
    requires j < |jobs| && !jobs[j].Running?
    ensures HitHolds(o, jobs, j)
  {
  }

  lemma {:induction false} AllHits(o: Setup, w: Shared, turns: seq<Turn>)
    requires SharedHolds(o, w) && HitsHold(o, w.jobs)
    ensures SharedHolds(o, AfterAll(o, w, turns)) && HitsHold(o, AfterAll(o, w, turns).jobs)
    decreases |turns|
  {
    hide SharedHolds, HitsHold, After;
    if turns != [] {
      TurnHolds(o, w, turns[0]);
      TurnHits(o, w, turns[0]);
      AllHits(o, After(o, w, turns[0]), turns[1..]);
    }
  }

  /** However alerts overlap: the decision of an alert that hit the cache has the alert's own source and a rule
      id of its own tuple, and is otherwise that of an alert that missed it under the same key and was
      enforced. */
  lemma SharedHitEnforces(o: Setup, turns: seq<Turn>, j: nat) returns (i: nat)
    requires var jobs := AfterAll(o, Nothing(), turns).jobs;
             j < |jobs| && jobs[j].Running? && jobs[j].env.hit
    ensures var jobs := AfterAll(o, Nothing(), turns).jobs;
            var src := jobs[j].alert.srcIp;
            && jobs[j].fork.intent.srcIp == (if '/' in src then src else src + "/32")
            && OwnRuleId(o.cfg, jobs[j].fork.intent) && HitFrom(o, jobs, j, i)
  {
    hide AfterAll, OwnRuleId, HitFrom, HasOrigin;
    assert SharedHolds(o, Nothing()) && HitsHold(o, Nothing().jobs);
    AllHits(o, Nothing(), turns);
    var w := AfterAll(o, Nothing(), turns);
    assert JobHolds(o, w.jobs[j]) && HitHolds(o, w.jobs, j);
    var k: nat :| HitFrom(o, w.jobs, j, k);
    i := k;
  }

  // ---- A push behind an opening -----------------------------------------------------------------------

  /** Exactly when a turn hands a rule over: it takes the enforcing task of an alert past the breaker that
      the limiter lets through, in earnest. The breaker has no more say in it. */
  lemma HandsOverIff(o: Setup, w: Shared, t: Turn)
    requires OwnSettings(o, w)
    ensures |After(o, w, t).handed| > |w.handed| <==>
              t.Go? && t.task == Enforcing && t.job < |w.jobs| && MayGo(o, w, t.job, t.at)
  {
    hide EnforceStep, ReasonStep, Pushes, Tells, OpenAt, Allowed;
    if t.Go? && t.job < |w.jobs| && w.jobs[t.job].Running? {
      var f := w.jobs[t.job].fork.(cache := w.cache);
      var e := w.jobs[t.job].env.(a := Current(o, w, w.jobs[t.job].env.a, f.intent.srcIp, t.at));
      NoCalls();
      if t.task.Enforcing? {
        StepCalls(e, f);
      } else {
        ThinkCalls(e, f);
      }
    }
  }

  /** What a turn leaves on record. The breaker is told of a push when its answer is in, a failure unless the answer
      is a success; a slot is taken, and unless the run is dry the rule handed over, at the limiter's await if there is
      room; a turn of anything else, or of the reasoning task, leaves all three records as they are. */
  lemma TurnRecords(o: Setup, w: Shared, t: Turn)
    requires OwnSettings(o, w)
    ensures var u := After(o, w, t);
            if t.Go? && t.task.Enforcing? && t.job < |w.jobs| && w.jobs[t.job].Running? then
              var job := w.jobs[t.job];
              var grant := Grant(BareIp(job.fork.intent.srcIp), t.at);
              var room := job.fork.at == LimiterAsked && Allowed(o.limits, w.slots, grant.ip, t.at);
              var push := job.env.a.push;
              var told := if push.Said? && push.value.success then Worked else Failed(t.at);
              && u.reports == w.reports + (if job.fork.at == BackendAsked then [told] else [])
              && u.slots == w.slots + (if room then [grant] else [])
              && u.handed == w.handed + (if room && !o.cfg.dryRun then [grant] else [])
            else u.reports == w.reports && u.slots == w.slots && u.handed == w.handed
  {
    hide OpenAt, Allowed, EnforceStep, ReasonStep, ReportsOf, Pushes, Tells;
    assert w.reports + [] == w.reports && w.slots + [] == w.slots && w.handed + [] == w.handed;
    if t.Go? && t.job < |w.jobs| && w.jobs[t.job].Running? {
      var f := w.jobs[t.job].fork.(cache := w.cache);
      var e := w.jobs[t.job].env.(a := Current(o, w, w.jobs[t.job].env.a, f.intent.srcIp, t.at));
      NoCalls();
      OneReport(ToldFailure, t.at);
      OneReport(ToldSuccess, t.at);
      if t.task.Enforcing? {
        StepCalls(e, f);
        StepTells(e, f);
      } else {
        ThinkCalls(e, f);
      }
    }
  }

  /** What a turn does to the cache: keys expire when they do, and a key is learnt exactly when a push on a miss
      succeeded and is recorded, with writing on and working. */
  lemma TurnCaches(o: Setup, w: Shared, t: Turn)
    requires OwnSettings(o, w)
    ensures var u := After(o, w, t);
            if t.Expire? then
              u.cache.Keys == w.cache.Keys - t.keys && forall k :: k in u.cache ==> u.cache[k] == w.cache[k]
            else if t.Go? && t.task.Enforcing? && t.job < |w.jobs| && Learns(o, w.jobs[t.job]) then
              u.cache == w.cache[w.jobs[t.job].env.key := w.jobs[t.job].fork.intent]
            else u.cache == w.cache
  {
    hide Pushes, Tells, ReportsOf, OpenAt, Allowed, Prepare;
  }

  predicate Learns(o: Setup, job: Job) {
    && job.Running? && job.fork.at == SuccessTold
    && !job.env.hit && o.cfg.caching && job.env.a.cacheWrites
  }

  /** And to the alerts: one that arrives waits, one that looks is closed or forks as the pipeline has it on the cache
      of that moment, and no turn touches any other. */
  lemma TurnTouches(o: Setup, w: Shared, t: Turn)
    ensures var u := After(o, w, t);
            match t
            case Arrive(alert, a) => u.jobs == w.jobs + [Waiting(alert, a)]
            case Expire(_) => u.jobs == w.jobs
            case Look(j) =>
              && |u.jobs| == |w.jobs| && (forall i :: 0 <= i < |w.jobs| && i != j ==> u.jobs[i] == w.jobs[i])
              && (j < |w.jobs| && w.jobs[j].Waiting? ==>
                    match Prepare(o.cfg, w.cache, w.jobs[j].alert, w.jobs[j].a)
                    case Closed(outcome, _) => u.jobs[j] == Shut(outcome)
                    case Open(i, key, hit) =>
                      && u.jobs[j].Running? && u.jobs[j].alert == w.jobs[j].alert
                      && u.jobs[j].env == Env(o.cfg, w.jobs[j].a, key, hit) && u.jobs[j].fork.intent == i
                      && u.jobs[j].fork.at == Start && u.jobs[j].fork.thinking == Idle)
            case Go(j, _, _) =>
              && |u.jobs| == |w.jobs| && (forall i :: 0 <= i < |w.jobs| && i != j ==> u.jobs[i] == w.jobs[i])
              && (j < |w.jobs| && w.jobs[j].Running? ==>
                    u.jobs[j].Running? && u.jobs[j].alert == w.jobs[j].alert && u.jobs[j].env == w.jobs[j].env)
  {
    hide Prepare, EnforceStep, ReasonStep, Pushes, Tells, ReportsOf;
  }

  /** With reports that raise nothing the breaker is told once of every push, when its answer is in. */
  lemma StepTells(e: Env, f: Fork)
    requires e.a.success.Said? && e.a.failure.Said? && e.a.failureAgain.Said?
    ensures Tells(Later(f, EnforceStep(e, f))) ==
            if f.at == BackendAsked then [if e.a.push.Said? && e.a.push.value.success then ToldSuccess else ToldFailure]
            else []
  {
    hide Pushes, Tells;
    var g := EnforceStep(e, f);
    assert Later(f, g) == [] || Later(f, g) == [g.calls[|f.calls|]];
    NoCalls();
    OneCall(AskedBreaker);
    OneCall(AskedLimiter(f.intent.srcIp));
    OneCall(AskedBackend(f.intent));
    OneCall(ToldSuccess);
    OneCall(ToldFailure);
    OneCall(Stored(e.key, f.intent));
  }

  predicate MayGo(o: Setup, w: Shared, j: nat, at: real)
    requires j < |w.jobs|
  {
    && PastBreaker(w.jobs[j]) && !o.cfg.dryRun
    && Allowed(o.limits, w.slots, BareIp(w.jobs[j].fork.intent.srcIp), at)
  }

  /** So at any moment, the breaker open or not, some next turn hands a rule over exactly when some alert
      is past the breaker and has room in the limits. */
  lemma SomeTurnHandsOverIff(o: Setup, w: Shared, at: real)
    requires OwnSettings(o, w)
    ensures (exists j: nat, task: Task :: |After(o, w, Go(j, task, at)).handed| > |w.handed|) <==>
              exists j: nat :: j < |w.jobs| && MayGo(o, w, j, at)
  {
    hide After, MayGo;
    forall j: nat, task: Task
      ensures |After(o, w, Go(j, task, at)).handed| > |w.handed| <==>
                task == Enforcing && j < |w.jobs| && MayGo(o, w, j, at)
    {
      HandsOverIff(o, w, Go(j, task, at));
    }
    if j: nat :| j < |w.jobs| && MayGo(o, w, j, at) {
      assert |After(o, w, Go(j, Enforcing, at)).handed| > |w.handed|;
    }
  }

  /** The alert's step changed nothing but the alert itself, which stands at `at`. */
  ghost predicate OnlyMoved(w: Shared, u: Shared, j: nat, at: Place) {
    && j < |w.jobs| && w.jobs[j].Running? && |u.jobs| == |w.jobs| && u.jobs == w.jobs[j := u.jobs[j]]
    && u.jobs[j].Running? && u.jobs[j].env == w.jobs[j].env && u.jobs[j].fork.intent == w.jobs[j].fork.intent
    && u.jobs[j].fork.at == at
  }

  lemma GoStart(o: Setup, w: Shared, j: nat, at: real)
    requires j < |w.jobs| && w.jobs[j].Running? && w.jobs[j].fork.at == Start && w.jobs[j].fork.intent.action.Drop?
    ensures var u := Went(o, w, j, Enforcing, at);
            && OnlyMoved(w, u, j, BreakerAsked) && u.cache == w.cache
            && u.reports == w.reports && u.slots == w.slots && u.handed == w.handed
  {
    hide Pushes, Tells, OpenAt, Allowed;
    OneCall(AskedBreaker);
    assert w.handed + [] == w.handed && w.reports + [] == w.reports;
  }

  lemma GoBreaker(o: Setup, w: Shared, j: nat, at: real)
    requires j < |w.jobs| && w.jobs[j].Running? && w.jobs[j].fork.at == BreakerAsked && !BreakerOpen(o, w, at)
    ensures var u := Went(o, w, j, Enforcing, at);
            && OnlyMoved(w, u, j, LimiterAsked) && u.cache == w.cache
            && u.reports == w.reports && u.slots == w.slots && u.handed == w.handed
  {
    hide Pushes, Tells, OpenAt, Allowed;
    OneCall(AskedLimiter(w.jobs[j].fork.intent.srcIp));
    assert w.handed + [] == w.handed && w.reports + [] == w.reports;
  }

  lemma GoLimiter(o: Setup, w: Shared, j: nat, at: real)
    requires j < |w.jobs| && PastBreaker(w.jobs[j]) && !w.jobs[j].env.cfg.dryRun
    requires Allowed(o.limits, w.slots, BareIp(w.jobs[j].fork.intent.srcIp), at)
    ensures var u := Went(o, w, j, Enforcing, at);
            && OnlyMoved(w, u, j, BackendAsked) && u.cache == w.cache && u.reports == w.reports
            && u.slots == w.slots + [Grant(BareIp(w.jobs[j].fork.intent.srcIp), at)] && |u.handed| == |w.handed| + 1
  {
    hide Pushes, Tells, OpenAt, Allowed;
    OneCall(AskedBackend(w.jobs[j].fork.intent));
    assert w.reports + [] == w.reports;
  }

  lemma GoBackend(o: Setup, w: Shared, j: nat, at: real)
    requires j < |w.jobs| && w.jobs[j].Running? && w.jobs[j].fork.at == BackendAsked && w.jobs[j].env.a.push.Raised?
    ensures var u := Went(o, w, j, Enforcing, at);
            && OnlyMoved(w, u, j, LastFailureTold) && u.cache == w.cache
            && u.reports == w.reports + [Failed(at)] && u.slots == w.slots && u.handed == w.handed
  {
    hide Pushes, Tells, OpenAt, Allowed;
    OneCall(ToldFailure);
    OneReport(ToldFailure, at);
    assert w.handed + [] == w.handed;
  }

  lemma {:induction false} FewCounted(times: seq<real>, since: real)
    ensures CountSince(times, since) <= |times|
  {
    if times != [] {
      FewCounted(times[..|times| - 1], since);
    }
  }

  lemma {:induction false} FewOfIp(grants: seq<Grant>, ip: string)
    ensures |OfIp(grants, ip)| <= |grants|
  {
    if grants != [] {
      FewOfIp(grants[..|grants| - 1], ip);
    }
  }

  lemma {:induction false} NoneOfIp(grants: seq<Grant>, ip: string)
    requires forall i :: 0 <= i < |grants| ==> grants[i].ip != ip
    ensures OfIp(grants, ip) == []
  {
    if grants != [] {
      NoneOfIp(grants[..|grants| - 1], ip);
    }
  }

  lemma FewAllowed(l: Limits, grants: seq<Grant>, ip: string, at: real)
    requires |grants| < l.total && |grants| < l.perMinute
    requires |grants| < l.perIp || (0 < l.perIp && forall i :: 0 <= i < |grants| ==> grants[i].ip != ip)
    ensures Allowed(l, grants, ip, at)
  {
    if |grants| >= l.perIp {
      NoneOfIp(grants, ip);
    }
    FewCounted(Times(grants), at - 60.0);
    FewOfIp(grants, ip);
    FewCounted(Times(OfIp(grants, ip)), at - l.ipWindow);
  }

  lemma {:induction false} AllAppend(o: Setup, w: Shared, a: seq<Turn>, b: seq<Turn>)
    ensures AfterAll(o, w, a + b) == AfterAll(o, AfterAll(o, w, a), b)
    decreases |a|
  {
    hide After;
    if a == [] {
      assert a + b == b;
    } else {
      assert (a + b)[1..] == a[1..] + b;
      AllAppend(o, After(o, w, a[0]), a[1..], b);
    }
  }

  lemma AllSnoc(o: Setup, w: Shared, a: seq<Turn>, t: Turn)
    ensures AfterAll(o, w, a + [t]) == After(o, AfterAll(o, w, a), t)
  {
    hide After;
    AllAppend(o, w, a, [t]);
    var u := AfterAll(o, w, a);
    assert [t][1..] == [];
    assert AfterAll(o, After(o, u, t), []) == After(o, u, t);
  }

  lemma GoIsWent(o: Setup, w: Shared, j: nat, at: real)
    requires j < |w.jobs| && w.jobs[j].Running?
    ensures After(o, w, Go(j, Enforcing, at)) == Went(o, w, j, Enforcing, at)
  {
  }

  /** A drop let in by everybody, which the backend will not take. */
  function FailingAnswers(draft: Intent): Answers {
    Willing(draft).(push := Raised(""))
  }

  lemma LooksOpen(o: Setup, w: Shared, alert: Alert, a: Answers, draft: Intent)
    requires w.cache == map[] && (a == FailingAnswers(draft) || a == Willing(draft))
    requires draft.action.Drop? && draft.confidence >= o.cfg.auto
    ensures var job := Looked(o, w, alert, a);
            && job.Running? && job.env.a == a && job.env.cfg == o.cfg
            && job.fork.at == Start && job.fork.intent.action.Drop? && job.fork.intent.srcIp == draft.srcIp
  {
    hide KeyOf, RuleId;
    ThreatIsThreat(draft);
  }

  /** A world in which alert 0 has been past the breaker since before `m` pushes for the address `ip`, which
      is not its own, failed. */
  ghost predicate SpareWaits(o: Setup, w: Shared, ip: string, m: nat) {
    && |w.jobs| > 0 && PastBreaker(w.jobs[0]) && OwnSettings(o, w) && w.cache == map[]
    && BareIp(w.jobs[0].fork.intent.srcIp) != ip
    && |w.reports| == m && Streak(w.reports) == m && |w.slots| == m && |w.handed| == m
    && forall i :: 0 <= i < m ==> w.slots[i].ip == ip
  }

  /** Room for `threshold` pushes for one address and one for another. */
  predicate Roomy(o: Setup) {
    && o.threshold > 0 && o.halt > 0.0 && !o.cfg.dryRun
    && o.limits.total > o.threshold && o.limits.perMinute > o.threshold && o.limits.perIp >= o.threshold
  }

  lemma Entered(o: Setup, w: Shared, alert: Alert, a: Answers, draft: Intent)
    requires w.cache == map[] && OwnSettings(o, w) && (a == FailingAnswers(draft) || a == Willing(draft))
    requires draft.action.Drop? && draft.confidence >= o.cfg.auto
    ensures var n, u := |w.jobs|, AfterAll(o, w, [Arrive(alert, a), Look(|w.jobs|)]);
            && u == w.(jobs := w.jobs + [Looked(o, w, alert, a)]) && OwnSettings(o, u)
            && u.jobs[n].Running? && u.jobs[n].env.a == a && u.jobs[n].fork.at == Start
            && u.jobs[n].fork.intent.action.Drop? && u.jobs[n].fork.intent.srcIp == draft.srcIp
  {
    hide Looked, AfterAll;
    var t1, t2 := Arrive(alert, a), Look(|w.jobs|);
    var w1 := w.(jobs := w.jobs + [Waiting(alert, a)]);
    LooksOpen(o, w, alert, a, draft);
    SameLook(o, w, w1, alert, a);
    NoMoreTurns(o, w);
    AllSnoc(o, w, [], t1);
    AllSnoc(o, w, [] + [t1], t2);
    assert [] + [t1] + [t2] == [t1, t2];
    assert w1.jobs[|w.jobs| := Looked(o, w1, alert, a)] == w.jobs + [Looked(o, w, alert, a)];
  }

  lemma SameLook(o: Setup, w: Shared, u: Shared, alert: Alert, a: Answers)
    requires w.cache == u.cache
    ensures Looked(o, w, alert, a) == Looked(o, u, alert, a)
  {
  }

  lemma NoMoreTurns(o: Setup, w: Shared)
    ensures AfterAll(o, w, []) == w
  {
  }

  lemma FewFailures(o: Setup, reports: seq<Report>, at: real)
    requires Streak(reports) < o.threshold
    ensures !OpenAt(o.threshold, o.halt, reports, at)
  {
  }

  /** Alert `j` goes from its start to past the breaker. */
  lemma GoPast(o: Setup, w: Shared, j: nat, at: real)
    requires j < |w.jobs| && w.jobs[j].Running? && w.jobs[j].fork.at == Start && w.jobs[j].fork.intent.action.Drop?
    requires Streak(w.reports) < o.threshold && OwnSettings(o, w)
    ensures var u := AfterAll(o, w, [Go(j, Enforcing, at), Go(j, Enforcing, at)]);
            && OnlyMoved(w, u, j, LimiterAsked) && OwnSettings(o, u) && u.cache == w.cache
            && u.reports == w.reports && u.slots == w.slots && u.handed == w.handed
  {
    hide Went, After, AfterAll, Streak, OpenAt;
    var t := Go(j, Enforcing, at);
    NoMoreTurns(o, w);
    AllSnoc(o, w, [], t);
    AllSnoc(o, w, [] + [t], t);
    assert [] + [t] + [t] == [t, t];
    GoIsWent(o, w, j, at);
    GoStart(o, w, j, at);
    var w1 := AfterAll(o, w, [] + [t]);
    FewFailures(o, w1.reports, at);
    GoIsWent(o, w1, j, at);
    GoBreaker(o, w1, j, at);
  }

  /** And from there to a failed push. */
  lemma GoFail(o: Setup, w: Shared, j: nat, at: real)
    requires j < |w.jobs| && PastBreaker(w.jobs[j]) && w.jobs[j].env.a.push.Raised? && OwnSettings(o, w)
    requires Roomy(o) && |w.slots| < o.threshold
    ensures var u := AfterAll(o, w, [Go(j, Enforcing, at), Go(j, Enforcing, at)]);
            && OnlyMoved(w, u, j, LastFailureTold) && OwnSettings(o, u) && u.cache == w.cache
            && u.reports == w.reports + [Failed(at)] && |u.handed| == |w.handed| + 1
            && u.slots == w.slots + [Grant(BareIp(w.jobs[j].fork.intent.srcIp), at)]
  {
    hide Went, After, AfterAll, Allowed, BareIp;
    var t := Go(j, Enforcing, at);
    NoMoreTurns(o, w);
    AllSnoc(o, w, [], t);
    AllSnoc(o, w, [] + [t], t);
    assert [] + [t] + [t] == [t, t];
    FewAllowed(o.limits, w.slots, BareIp(w.jobs[j].fork.intent.srcIp), at);
    GoIsWent(o, w, j, at);
    GoLimiter(o, w, j, at);
    var w1 := AfterAll(o, w, [] + [t]);
    GoIsWent(o, w1, j, at);
    GoBackend(o, w1, j, at);
  }

  /** One more alert comes, goes past the closed breaker, and its push fails. */
  lemma OneMoreFails(o: Setup, w: Shared, m: nat, alert: Alert, draft: Intent, at: real) returns (turns: seq<Turn>)
    requires Roomy(o) && SpareWaits(o, w, BareIp(draft.srcIp), m) && m < o.threshold
    requires draft.action.Drop? && draft.confidence >= o.cfg.auto
    ensures var u := AfterAll(o, w, turns);
            SpareWaits(o, u, BareIp(draft.srcIp), m + 1) && u.reports[m] == Failed(at)
  {
    hide Looked, AfterAll, OwnSettings, Streak, BareIp;
    var n, t := |w.jobs|, Go(|w.jobs|, Enforcing, at);
    var enter, past, fail := [Arrive(alert, FailingAnswers(draft)), Look(n)], [t, t], [t, t];
    Entered(o, w, alert, FailingAnswers(draft), draft);
    var w1 := AfterAll(o, w, enter);
    GoPast(o, w1, n, at);
    var w2 := AfterAll(o, w1, past);
    GoFail(o, w2, n, at);
    var w3 := AfterAll(o, w2, fail);
    AllAppend(o, w, enter, past);
    AllAppend(o, w, enter + past, fail);
    turns := enter + past + fail;
    StreakGrows(w.reports, Failed(at));
  }

  lemma {:induction false} UntilOpen(o: Setup, w: Shared, m: nat, alert: Alert, draft: Intent, at: real)
    returns (turns: seq<Turn>)
    requires Roomy(o) && SpareWaits(o, w, BareIp(draft.srcIp), m) && m < o.threshold
    requires draft.action.Drop? && draft.confidence >= o.cfg.auto
    ensures var u := AfterAll(o, w, turns);
            SpareWaits(o, u, BareIp(draft.srcIp), o.threshold) && u.reports[o.threshold - 1] == Failed(at)
    decreases o.threshold - m
  {
    hide AfterAll, SpareWaits, Roomy, BareIp;
    turns := OneMoreFails(o, w, m, alert, draft, at);
    if m + 1 < o.threshold {
      var u := AfterAll(o, w, turns);
      var more := UntilOpen(o, u, m + 1, alert, draft, at);
      AllAppend(o, w, turns, more);
      turns := turns + more;
    }
  }

  /** An address apart from `ip`, to be dropped with enough confidence. */
  predicate Apart(o: Setup, other: Intent, ip: string) {
    other.action.Drop? && other.confidence >= o.cfg.auto && BareIp(other.srcIp) != ip
  }

  lemma SpareComes(o: Setup, spare: Alert, other: Intent, ip: string, at: real) returns (turns: seq<Turn>)
    requires Roomy(o) && Apart(o, other, ip)
    ensures SpareWaits(o, AfterAll(o, Nothing(), turns), ip, 0)
  {
    hide Looked, AfterAll, Allowed, OpenAt, BareIp;
    var t := Go(0, Enforcing, at);
    NothingHeld(o);
    Entered(o, Nothing(), spare, Willing(other), other);
    var enter := [Arrive(spare, Willing(other)), Look(0)];
    var w1 := AfterAll(o, Nothing(), enter);
    NoStreak();
    GoPast(o, w1, 0, at);
    AllAppend(o, Nothing(), enter, [t, t]);
    turns := enter + [t, t];
  }

  /** It does come to that: whatever the threshold, in every setup with room for that many pushes for one
      address and one for another, overlapping alerts have a run at whose end a rule is handed over while the
      breaker is open. */
  lemma PushedWhileOpen(o: Setup, spare: Alert, other: Intent, failing: Alert, draft: Intent, at: real)
    returns (before: seq<Turn>, last: Turn)
    requires Roomy(o) && draft.action.Drop? && draft.confidence >= o.cfg.auto && Apart(o, other, BareIp(draft.srcIp))
    ensures last == Go(0, Enforcing, at) && BreakerOpen(o, AfterAll(o, Nothing(), before), at)
    ensures |AfterAll(o, Nothing(), before + [last]).handed| == |AfterAll(o, Nothing(), before).handed| + 1
  {
    hide AfterAll, After, Went, Allowed, BareIp;
    var start := SpareComes(o, spare, other, BareIp(draft.srcIp), at);
    var w := AfterAll(o, Nothing(), start);
    var more := UntilOpen(o, w, 0, failing, draft, at);
    AllAppend(o, Nothing(), start, more);
    before, last := start + more, Go(0, Enforcing, at);
    var u := AfterAll(o, Nothing(), before);
    FewAllowed(o.limits, u.slots, BareIp(u.jobs[0].fork.intent.srcIp), at);
    AllSnoc(o, Nothing(), before, last);
    GoIsWent(o, u, 0, at);
    GoLimiter(o, u, 0, at);
  }

  /** The limits, the threshold and the halt that the source sets by default leave that room. */
  lemma DefaultsAreRoomy(cfg: Config)
    requires !cfg.dryRun
    ensures Roomy(Setup(cfg, Limits(5, 50, 3, 300.0), 3, 300.0))
  {
  }
}
