/** The agent's decision about one flow, its deterministic rule id and the key it is cached under. */
module Policy {
  import opened Text
  import opened Sorting

  datatype Action = Drop | LogOnly | Hold | Reject

  /** What explains a decision and enforces nothing. */
  datatype Audit = Audit(steps: seq<string>, hypotheses: seq<string>, primary: string, alternatives: seq<string>,
                         rollback: string, followUps: seq<string>, technique: string, tactic: string)

  const NO_AUDIT := Audit([], [], "", [], "", [], "", "")

  datatype Intent = Intent(ruleId: string, action: Action, srcIp: string, dstIp: string, dstPort: int,
                           protocol: string, priority: int, ttl: int, comment: string, confidence: real, audit: Audit)

  function RuleKey(src: string, dst: string, port: int, protocol: string): string {
    Lower(src + "|" + (dst + "|" + (IntText(port) + "|" + protocol)))
  }

  function RuleId(digest: string -> string, src: string, dst: string, port: int, protocol: string): string {
    "agent-" + digest(RuleKey(src, dst, port, protocol))
  }

  ghost predicate Injective(digest: string -> string) {
    forall a, b :: digest(a) == digest(b) ==> a == b
  }

  predicate SameTuple(a: Intent, b: Intent) {
    && Lower(a.srcIp) == Lower(b.srcIp) && Lower(a.dstIp) == Lower(b.dstIp)
    && a.dstPort == b.dstPort && Lower(a.protocol) == Lower(b.protocol)
  }

  lemma {:induction false} RuleKeyShape(src: string, dst: string, port: int, protocol: string)
    ensures RuleKey(src, dst, port, protocol)
         == Lower(src) + "|" + (Lower(dst) + "|" + (IntText(port) + "|" + Lower(protocol)))
  {
    LowerBar(src, dst + "|" + (IntText(port) + "|" + protocol));
    LowerBar(dst, IntText(port) + "|" + protocol);
    LowerBar(IntText(port), protocol);
    LowerNumber(port);
  }

  /** Two flow tuples share a rule id exactly when they are the same up to letter case. */
  lemma RuleIdIff(digest: string -> string, a: Intent, b: Intent)
    requires Injective(digest)
    requires '|' !in a.srcIp && '|' !in b.srcIp && '|' !in a.dstIp && '|' !in b.dstIp
    ensures RuleId(digest, a.srcIp, a.dstIp, a.dstPort, a.protocol)
         == RuleId(digest, b.srcIp, b.dstIp, b.dstPort, b.protocol)
       <==> SameTuple(a, b)
  {
    hide Lower, RuleKey;
    var k, l := RuleKey(a.srcIp, a.dstIp, a.dstPort, a.protocol), RuleKey(b.srcIp, b.dstIp, b.dstPort, b.protocol);
    RuleKeyShape(a.srcIp, a.dstIp, a.dstPort, a.protocol);
    RuleKeyShape(b.srcIp, b.dstIp, b.dstPort, b.protocol);
    assert ("agent-" + digest(k))[6..] == digest(k) && ("agent-" + digest(l))[6..] == digest(l);
    if k == l {
      LowerLacks(a.srcIp, '|');
      LowerLacks(b.srcIp, '|');
      LowerLacks(a.dstIp, '|');
      LowerLacks(b.dstIp, '|');
      var x, y := IntText(a.dstPort) + "|" + Lower(a.protocol), IntText(b.dstPort) + "|" + Lower(b.protocol);
      SplitFirst(Lower(a.srcIp), Lower(a.dstIp) + "|" + x, Lower(b.srcIp), Lower(b.dstIp) + "|" + y, '|');
      SplitFirst(Lower(a.dstIp), x, Lower(b.dstIp), y, '|');
      IntTextLacks(a.dstPort, '|');
      IntTextLacks(b.dstPort, '|');
      SplitFirst(IntText(a.dstPort), Lower(a.protocol), IntText(b.dstPort), Lower(b.protocol), '|');
      IntTextInjective(a.dstPort, b.dstPort);
    }
  }

  /** The id alone gives the source away, whatever stands in the other fields. */
  lemma IdGivesSource(digest: string -> string, a: string, x: string, b: string, y: string)
    requires Injective(digest) && '|' !in a && '|' !in b
    requires digest(Lower(a + "|" + x)) == digest(Lower(b + "|" + y))
    ensures Lower(a) == Lower(b)
  {
    hide Lower;
    LowerBar(a, x);
    LowerBar(b, y);
    LowerLacks(a, '|');
    LowerLacks(b, '|');
    SplitFirst(Lower(a), Lower(x), Lower(b), Lower(y), '|');
  }

  // ---- Cache key ------------------------------------------------------------------------------

  /** The features of an alert that decide whether a cached decision may stand for a new one. */
  datatype Features = Features(sid: int, srcZone: string, dstZone: string, dstPort: int, protocol: string,
                               baseline: string, correlation: string)

  function Field(name: string, value: string, rest: string): string {
    name + "=" + value + "|" + rest
  }

  function Blob(f: Features): string {
    Field("sid", IntText(f.sid), Field("src_zone", f.srcZone, Field("dst_zone", f.dstZone,
      Field("dst_port", IntText(f.dstPort), Field("proto", f.protocol, Tail(f))))))
  }

  /** The end of the blob, behind the protocol. */
  function Tail(f: Features): string {
    Field("baseline", f.baseline, "corr=" + f.correlation)
  }

  function CacheKey(digest: string -> string, f: Features): string {
    "agent:resp_cache:" + digest(Blob(f))
  }

  lemma FieldSplits(name: string, v: string, r: string, w: string, s: string)
    requires Field(name, v, r) == Field(name, w, s) && '|' !in v && '|' !in w
    ensures v == w && r == s
  {
    var n := |name + "="|;
    assert Field(name, v, r)[n..] == v + "|" + r && Field(name, w, s)[n..] == w + "|" + s;
    SplitFirst(v, r, w, s, '|');
  }

  /** No zone or baseline name holds a bar. */
  predicate PlainNames(f: Features) {
    '|' !in f.srcZone && '|' !in f.dstZone && '|' !in f.baseline
  }

  /** Whatever the alert carries, the key separates signatures, zones and ports. */
  lemma KeySeparates(digest: string -> string, f: Features, g: Features)
    requires Injective(digest) && PlainNames(f) && PlainNames(g)
    requires CacheKey(digest, f) == CacheKey(digest, g)
    ensures f.sid == g.sid && f.srcZone == g.srcZone && f.dstZone == g.dstZone && f.dstPort == g.dstPort
    ensures Field("proto", f.protocol, Tail(f)) == Field("proto", g.protocol, Tail(g))
  {
    hide Field, Tail;
    assert CacheKey(digest, f)[17..] == digest(Blob(f)) && CacheKey(digest, g)[17..] == digest(Blob(g));
    IntTextLacks(f.sid, '|');
    IntTextLacks(g.sid, '|');
    IntTextLacks(f.dstPort, '|');
    IntTextLacks(g.dstPort, '|');
    var a4, b4 := Field("proto", f.protocol, Tail(f)), Field("proto", g.protocol, Tail(g));
    var a3, b3 := Field("dst_port", IntText(f.dstPort), a4), Field("dst_port", IntText(g.dstPort), b4);
    var a2, b2 := Field("dst_zone", f.dstZone, a3), Field("dst_zone", g.dstZone, b3);
    var a1, b1 := Field("src_zone", f.srcZone, a2), Field("src_zone", g.srcZone, b2);
    FieldSplits("sid", IntText(f.sid), a1, IntText(g.sid), b1);
    FieldSplits("src_zone", f.srcZone, a2, g.srcZone, b2);
    FieldSplits("dst_zone", f.dstZone, a3, g.dstZone, b3);
    FieldSplits("dst_port", IntText(f.dstPort), a4, IntText(g.dstPort), b4);
    IntTextInjective(f.sid, g.sid);
    IntTextInjective(f.dstPort, g.dstPort);
  }

  /** When no correlation signal holds a bar, two alerts share a key exactly when all their features are
      the same, whatever their protocol texts hold: the last two bars of the blob are its own. */
  lemma KeyIff(digest: string -> string, f: Features, g: Features)
    requires Injective(digest) && PlainNames(f) && PlainNames(g)
    requires '|' !in f.correlation && '|' !in g.correlation
    ensures CacheKey(digest, f) == CacheKey(digest, g) <==> f == g
  {
    hide Blob, PlainNames;
    if CacheKey(digest, f) == CacheKey(digest, g) {
      KeySeparates(digest, f, g);
      TailSplits(f, g);
    }
  }

  lemma TailShape(f: Features)
    ensures Field("proto", f.protocol, Tail(f))
         == "proto=" + f.protocol + "|" + ("baseline=" + f.baseline) + "|" + ("corr=" + f.correlation)
  {
  }

  lemma NamedPlain(name: string, value: string)
    requires '|' !in name && '|' !in value
    ensures '|' !in name + value
  {
  }

  lemma SameNamed(name: string, v: string, w: string)
    requires name + v == name + w
    ensures v == w
  {
    assert (name + v)[|name|..] == v && (name + w)[|name|..] == w;
  }

  lemma TailSplits(f: Features, g: Features)
    requires Field("proto", f.protocol, Tail(f)) == Field("proto", g.protocol, Tail(g))
    requires PlainNames(f) && PlainNames(g) && '|' !in f.correlation && '|' !in g.correlation
    ensures f.protocol == g.protocol && f.baseline == g.baseline && f.correlation == g.correlation
  {
    hide Field, Tail;
    TailShape(f);
    TailShape(g);
    NamedPlain("corr=", f.correlation);
    NamedPlain("corr=", g.correlation);
    NamedPlain("baseline=", f.baseline);
    NamedPlain("baseline=", g.baseline);
    var x, y, v, w := "baseline=" + f.baseline, "baseline=" + g.baseline, "proto=" + f.protocol, "proto=" + g.protocol;
    SplitLast(v + "|" + x, "corr=" + f.correlation, w + "|" + y, "corr=" + g.correlation, '|');
    SplitLast(v, x, w, y, '|');
    SameNamed("corr=", f.correlation, g.correlation);
    SameNamed("baseline=", f.baseline, g.baseline);
    SameNamed("proto=", f.protocol, g.protocol);
  }

  /** With protocol and correlation the same, whatever they hold, the baseline is told apart. */
  lemma BaselineSplits(f: Features, g: Features)
    requires Field("proto", f.protocol, Tail(f)) == Field("proto", g.protocol, Tail(g))
    requires f.protocol == g.protocol && f.correlation == g.correlation
    ensures f.baseline == g.baseline
  {
    var v, a := "proto=" + f.protocol + "|baseline=", "|corr=" + f.correlation;
    var whole := Field("proto", f.protocol, Tail(f));
    assert whole == v + f.baseline + a;
    assert whole == v + g.baseline + a;
    assert whole[|v|..|whole| - |a|] == f.baseline;
    assert whole[|v|..|whole| - |a|] == g.baseline;
  }

  // ---- Correlation signals --------------------------------------------------------------------

  function KillChainStage(sid: int): Option<string> {
    if sid in {9000010, 9000011, 9000020} then Some("recon")
    else if sid in {9000003, 9000004, 9000005} then Some("lateral")
    else if sid in {9000001, 9000002} then Some("critical")
    else None
  }

  function KillChainStages(sids: seq<int>): seq<string> {
    if sids == [] then []
    else
      var past, stage := KillChainStages(sids[..|sids| - 1]), KillChainStage(sids[|sids| - 1]);
      if stage.Some? then past + [stage.value] else past
  }

  function Joined(texts: seq<string>): string {
    if texts == [] then ""
    else if |texts| == 1 then texts[0]
    else Joined(texts[..|texts| - 1]) + ", " + texts[|texts| - 1]
  }

  const MULTI_STAGE := "MULTI-STAGE \U{2014} "
  const PATTERN := " pattern detected"

  /** The signal of the distinct signatures seen from a source in the last minutes, in order. */
  function KillChainSignal(sids: seq<int>): string {
    var stages := KillChainStages(sids);
    if sids == [] then "no recent activity"
    else if |sids| < 2 then "single-SID activity"
    else if "recon" in stages && ("lateral" in stages || "critical" in stages) then
      MULTI_STAGE + ("recon \U{2192} " + ("escalation" + PATTERN))
    else if "lateral" in stages && "critical" in stages then
      MULTI_STAGE + ("lateral \U{2192} " + ("critical" + PATTERN))
    else "multi-SID activity (" + (Joined(stages) + ")")
  }

  predicate Recon(sids: seq<int>) {
    9000010 in sids || 9000011 in sids || 9000020 in sids
  }

  predicate Lateral(sids: seq<int>) {
    9000003 in sids || 9000004 in sids || 9000005 in sids
  }

  predicate Critical(sids: seq<int>) {
    9000001 in sids || 9000002 in sids
  }

  lemma {:induction false} StagesAre(sids: seq<int>)
    ensures "recon" in KillChainStages(sids) <==> Recon(sids)
    ensures "lateral" in KillChainStages(sids) <==> Lateral(sids)
    ensures "critical" in KillChainStages(sids) <==> Critical(sids)
    ensures forall t :: t in KillChainStages(sids) ==> t == "recon" || t == "lateral" || t == "critical"
  {
    assert "recon"[0] != "lateral"[0] && "recon"[0] != "critical"[0] && "lateral"[0] != "critical"[0];
    if sids != [] {
      var n := |sids| - 1;
      StagesAre(sids[..n]);
      assert sids == sids[..n] + [sids[n]];
    }
  }

  /** So many signatures have a stage. */
  lemma {:induction false} StagesMany(sids: seq<int>, staged: int -> bool)
    requires forall s :: staged(s) <==> 9000001 <= s <= 9000005 || s in {9000010, 9000011, 9000020}
    ensures |KillChainStages(sids)| == |Where(sids, staged)|
  {
    hide Where;
    if sids == [] {
      WhereGrows([], 0, staged);
    } else {
      var n := |sids| - 1;
      assert sids == sids[..n] + [sids[n]];
      StagesMany(sids[..n], staged);
      WhereGrows(sids[..n], sids[n], staged);
    }
  }

  /** A word so many times, with commas between. */
  function Listed(word: string, n: nat): string {
    if n == 0 then "" else if n == 1 then word else Listed(word, n - 1) + ", " + word
  }

  lemma {:induction false} JoinedSame(texts: seq<string>, word: string)
    requires forall i :: 0 <= i < |texts| ==> texts[i] == word
    ensures Joined(texts) == Listed(word, |texts|)
  {
    if |texts| > 1 {
      JoinedSame(texts[..|texts| - 1], word);
    }
  }

  /** What is said of the signatures seen from a source: of several, escalation exactly when reconnaissance is among
      them and something worse; else a move from lateral to critical exactly when both are among them; else the one
      stage that is among them, if any, as often as a signature has it. */
  lemma SignalIs(sids: seq<int>)
    ensures sids == [] ==> KillChainSignal(sids) == "no recent activity"
    ensures |sids| == 1 ==> KillChainSignal(sids) == "single-SID activity"
    ensures |sids| > 1 && Recon(sids) && (Lateral(sids) || Critical(sids)) ==>
              KillChainSignal(sids) == "MULTI-STAGE \U{2014} recon \U{2192} escalation pattern detected"
    ensures |sids| > 1 && !Recon(sids) && Lateral(sids) && Critical(sids) ==>
              KillChainSignal(sids) == "MULTI-STAGE \U{2014} lateral \U{2192} critical pattern detected"
    ensures |sids| > 1 && !(Recon(sids) && (Lateral(sids) || Critical(sids))) && !(Lateral(sids) && Critical(sids)) ==>
              KillChainSignal(sids) ==
              "multi-SID activity ("
              + (Listed(if Recon(sids) then "recon" else if Lateral(sids) then "lateral" else "critical",
                        |set i: nat | i < |sids|
                                      && (9000001 <= sids[i] <= 9000005 || sids[i] in {9000010, 9000011, 9000020})|)
                 + ")")
  {
    hide KillChainSignal, Listed, Recon, Lateral, Critical;
    SignalPatterns(sids);
    if |sids| > 1 && !(Recon(sids) && (Lateral(sids) || Critical(sids))) && !(Lateral(sids) && Critical(sids)) {
      var staged := (s: int) => 9000001 <= s <= 9000005 || s in {9000010, 9000011, 9000020};
      SignalLists(sids, staged);
      assert Where(sids, staged)
          == set i: nat | i < |sids| && (9000001 <= sids[i] <= 9000005 || sids[i] in {9000010, 9000011, 9000020});
    }
  }

  lemma PatternText(stage: string, worse: string)
    ensures MULTI_STAGE + (stage + (worse + PATTERN)) == MULTI_STAGE + stage + worse + " pattern detected"
  {
  }

  lemma EscalationText()
    ensures MULTI_STAGE + ("recon \U{2192} " + ("escalation" + PATTERN))
         == "MULTI-STAGE \U{2014} recon \U{2192} escalation pattern detected"
  {
    PatternText("recon \U{2192} ", "escalation");
    hide PATTERN;
    assert MULTI_STAGE + "recon \U{2192} " == "MULTI-STAGE \U{2014} recon \U{2192} ";
  }

  lemma CriticalText()
    ensures MULTI_STAGE + ("lateral \U{2192} " + ("critical" + PATTERN))
         == "MULTI-STAGE \U{2014} lateral \U{2192} critical pattern detected"
  {
    PatternText("lateral \U{2192} ", "critical");
    hide PATTERN;
    assert MULTI_STAGE + "lateral \U{2192} " == "MULTI-STAGE \U{2014} lateral \U{2192} ";
  }

  lemma SignalPatterns(sids: seq<int>)
    ensures sids == [] ==> KillChainSignal(sids) == "no recent activity"
    ensures |sids| == 1 ==> KillChainSignal(sids) == "single-SID activity"
    ensures |sids| > 1 && Recon(sids) && (Lateral(sids) || Critical(sids)) ==>
              KillChainSignal(sids) == "MULTI-STAGE \U{2014} recon \U{2192} escalation pattern detected"
    ensures |sids| > 1 && !Recon(sids) && Lateral(sids) && Critical(sids) ==>
              KillChainSignal(sids) == "MULTI-STAGE \U{2014} lateral \U{2192} critical pattern detected"
  {
    hide KillChainStages, Joined, Recon, Lateral, Critical, MULTI_STAGE, PATTERN;
    StagesAre(sids);
    EscalationText();
    CriticalText();
  }

  lemma SignalLists(sids: seq<int>, staged: int -> bool)
    requires forall s :: staged(s) <==> 9000001 <= s <= 9000005 || s in {9000010, 9000011, 9000020}
    requires |sids| > 1
    requires !(Recon(sids) && (Lateral(sids) || Critical(sids))) && !(Lateral(sids) && Critical(sids))
    ensures KillChainSignal(sids) ==
            "multi-SID activity ("
            + (Listed(if Recon(sids) then "recon" else if Lateral(sids) then "lateral" else "critical",
                      |Where(sids, staged)|) + ")")
  {
    hide KillChainStages, Joined, Listed, Recon, Lateral, Critical, MULTI_STAGE, PATTERN, Where;
    var stages := KillChainStages(sids);
    StagesAre(sids);
    StagesMany(sids, staged);
    assert forall i :: 0 <= i < |stages| ==> stages[i] in stages;
    JoinedSame(stages, if Recon(sids) then "recon" else if Lateral(sids) then "lateral" else "critical");
  }

  lemma {:induction false} JoinedPlain(texts: seq<string>)
    requires forall i :: 0 <= i < |texts| ==> '|' !in texts[i]
    ensures '|' !in Joined(texts)
  {
    if |texts| > 1 {
      JoinedPlain(texts[..|texts| - 1]);
    }
  }

  lemma {:induction false} StagesPlain(sids: seq<int>)
    ensures forall i :: 0 <= i < |KillChainStages(sids)| ==> '|' !in KillChainStages(sids)[i]
  {
    if sids != [] {
      StagesPlain(sids[..|sids| - 1]);
    }
  }

  lemma WordsPlain()
    ensures '|' !in "no recent activity" && '|' !in "single-SID activity"
    ensures '|' !in "multi-SID activity (" && '|' !in ")"
  {
  }

  lemma PatternsPlain()
    ensures '|' !in MULTI_STAGE && '|' !in PATTERN
    ensures '|' !in "recon \U{2192} " && '|' !in "lateral \U{2192} " && '|' !in "escalation" && '|' !in "critical"
  {
  }

  /** No signal holds a bar. */
  lemma SignalPlain(sids: seq<int>)
    ensures '|' !in KillChainSignal(sids)
  {
    hide KillChainStages, Joined, MULTI_STAGE, PATTERN;
    var stages := KillChainStages(sids);
    StagesPlain(sids);
    JoinedPlain(stages);
    WordsPlain();
    PatternsPlain();
    NamedPlain("escalation", PATTERN);
    NamedPlain("recon \U{2192} ", "escalation" + PATTERN);
    NamedPlain(MULTI_STAGE, "recon \U{2192} " + ("escalation" + PATTERN));
    NamedPlain("critical", PATTERN);
    NamedPlain("lateral \U{2192} ", "critical" + PATTERN);
    NamedPlain(MULTI_STAGE, "lateral \U{2192} " + ("critical" + PATTERN));
    NamedPlain(Joined(stages), ")");
    NamedPlain("multi-SID activity (", Joined(stages) + ")");
  }
}
