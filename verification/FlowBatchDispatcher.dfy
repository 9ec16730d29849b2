/** What happens when a detection window closes: aggregate, score, ask the batch classifier, and
    dispatch every suspect pair once. */
module FlowBatchDispatcher {
  import opened Text
  import opened Sorting
  import opened FlowAggregator

  const ARROW := '\U{2192}'

  // ---- Keys of records ----------------------------------------------------------------------

  function FirstPort(r: Record): int {
    if r.ports != [] then r.ports[0] else 0
  }

  /** The id under which a record is known to both detectors. */
  function PairKey(r: Record): string {
    r.pair.src + [ARROW] + r.pair.dst + ":" + IntText(FirstPort(r))
  }

  /** The key gives the pair away, provided no source address holds the arrow. */
  lemma {:induction false} PairKeyInjective(r: Record, s: Record)
    requires ARROW !in r.pair.src && ARROW !in s.pair.src
    requires PairKey(r) == PairKey(s)
    ensures r.pair == s.pair
  {
    var p, q := IntText(FirstPort(r)), IntText(FirstPort(s));
    var x, y := r.pair.dst + ":" + p, s.pair.dst + ":" + q;
    assert PairKey(r) == r.pair.src + [ARROW] + x;
    assert PairKey(s) == s.pair.src + [ARROW] + y;
    SplitFirst(r.pair.src, x, s.pair.src, y, ARROW);
    IntTextLacks(FirstPort(r), ':');
    IntTextLacks(FirstPort(s), ':');
    SplitLast(r.pair.dst, p, s.pair.dst, q, ':');
  }

  /** With the arrow in a source address two pairs can share a key. */
  lemma {:induction false} ArrowCollides(r: Record)
    ensures var a := r.(pair := Pair("a" + [ARROW] + "b", "c"));
            var b := r.(pair := Pair("a", "b" + [ARROW] + "c"));
            a.pair != b.pair && PairKey(a) == PairKey(b)
  {
    assert ("a" + [ARROW] + "b")[1] == ARROW;
    assert "a" + [ARROW] + "b" + [ARROW] + "c" == "a" + [ARROW] + ("b" + [ARROW] + "c");
  }

  predicate KeysDistinct(records: seq<Record>) {
    forall i, j :: 0 <= i < j < |records| ==> PairKey(records[i]) != PairKey(records[j])
  }

  /** The records of one window have distinct keys unless a source address holds the arrow. */
  lemma {:induction false} WindowKeysDistinct(ctx: Context, flows: seq<Flow>)
    requires forall f :: f in flows ==> ARROW !in f.srcIp
    ensures KeysDistinct(Aggregate(ctx, flows))
  {
    var records, pairs := Aggregate(ctx, flows), Pairs(flows);
    PairsHold(flows);
    forall i, j | 0 <= i < j < |records| ensures PairKey(records[i]) != PairKey(records[j]) {
      assert pairs[i] in pairs && pairs[j] in pairs && pairs[i] != pairs[j];
      if PairKey(records[i]) == PairKey(records[j]) {
        PairKeyInjective(records[i], records[j]);
        assert false;
      }
    }
  }

  // ---- Scoring ---------------------------------------------------------------------------------

  predicate AdminPort(ports: seq<int>) {
    exists p :: p in ports && p in {22, 3389, 5985, 5986}
  }

  function Score(r: Record): int {
    var src, dst, portCount := Upper(r.srcZone), Upper(r.destZone), |r.ports|;
    (if src != dst && (dst == "DB" || dst == "MGT") && r.flowCount > 1 then 2 else 0) +
    (if AdminPort(r.ports) && src != "MGT" then 2 else 0) +
    (if r.flowCount > 10 then 1 else 0) +
    (if portCount > 5 then 2 else 0) +
    (if src == "DB" && dst != "" && dst != "DB" then 3 else 0)
  }

  predicate StartsSuspect(tag: string) {
    "SUSPECT" <= tag
  }

  /** The classifier names the record's key with a SUSPECT label. */
  predicate Labelled(labels: map<string, string>, r: Record) {
    PairKey(r) in labels && StartsSuspect(labels[PairKey(r)])
  }

  predicate Suspect(threshold: int, labels: map<string, string>, r: Record) {
    Score(r) >= threshold || Labelled(labels, r)
  }

  /** One alert handed on: the record, the heuristic score it carries (0 below the threshold) and
      the classifier's label (empty when it is not a SUSPECT one). */
  datatype Dispatch = Dispatch(record: Record, score: int, tag: string)

  function DispatchOf(threshold: int, labels: map<string, string>, r: Record): Dispatch {
    Dispatch(r, if Score(r) >= threshold then Score(r) else 0, if Labelled(labels, r) then labels[PairKey(r)] else "")
  }

  /** The severity of the synthetic alert, 1 being the gravest. */
  function Severity(d: Dispatch): int {
    if d.score >= 6 || d.tag == "SUSPECT_content" then 1
    else if d.score >= 4 || d.tag in {"SUSPECT_lateral", "SUSPECT_exfil"} then 2
    else if d.score >= 2 || d.tag in {"SUSPECT_burst", "SUSPECT_scan", "SUSPECT_c2_beacon"} then 3
    else 4
  }

  /** The severity the source's own description gives. */
  function DescribedSeverity(d: Dispatch): int {
    if d.score >= 6 || d.tag == "SUSPECT_content" then 1
    else if d.score >= 4 || d.tag in {"SUSPECT_lateral", "SUSPECT_exfil"} then 2
    else if d.tag in {"SUSPECT_scan", "SUSPECT_burst", "SUSPECT_c2_beacon"} then 2
    else if d.score >= 2 then 3
    else 4
  }

  /** The code departs from it exactly for scans, bursts and beacons with a low score, one step milder. */
  lemma SeverityAsDescribedIff(d: Dispatch)
    ensures Severity(d) == DescribedSeverity(d)
       <==> !(d.score < 4 && d.tag in {"SUSPECT_scan", "SUSPECT_burst", "SUSPECT_c2_beacon"})
    ensures Severity(d) == DescribedSeverity(d) || Severity(d) == DescribedSeverity(d) + 1
  {
  }

  /** For instance: a scan with a score of three is described as severity 2 and comes out as 3. */
  lemma ScanComesOutMilder(r: Record)
    ensures DescribedSeverity(Dispatch(r, 3, "SUSPECT_scan")) == 2 && Severity(Dispatch(r, 3, "SUSPECT_scan")) == 3
  {
    assert "SUSPECT_scan" != "SUSPECT_content" && "SUSPECT_scan" != "SUSPECT_lateral";
    assert "SUSPECT_scan" != "SUSPECT_exfil";
  }

  datatype Stats = Stats(flows: nat, pairs: nat, heuristic: nat, llama: nat, suspects: nat,
                         dispatched: nat, skipped: nat, llamaCalled: bool, windowEnd: string)

  /** The keys under which a record reaches the threshold. */
  function HighKeys(threshold: int, records: seq<Record>): set<string> {
    set r | r in records && Score(r) >= threshold :: PairKey(r)
  }

  function LabelledKeys(labels: map<string, string>, records: seq<Record>): set<string> {
    set r | r in records && Labelled(labels, r) :: PairKey(r)
  }

  class Dispatcher {
    const threshold: int
    var lastStats: Stats

    constructor (threshold: int)
      ensures this.threshold == threshold
    {
      this.threshold := threshold;
      lastStats := Stats(0, 0, 0, 0, 0, 0, 0, false, "");
    }

    /** Everything done for one window. `enabled` is the trigger flag, `answers` what the classifier
        says when there is one, and `accepts` whether the n-th alert is taken without an error. No
        key is attempted twice; and when no two records share one, what is attempted is exactly the
        suspects, each with its score and its label. */
    method OnWindowClose(ctx: Context, flows: seq<Flow>, enabled: bool, classifier: bool,
                         answers: map<string, string>, accepts: nat -> bool)
      returns (attempted: seq<Dispatch>)
      modifies this
      ensures forall i, j :: 0 <= i < j < |attempted| ==> PairKey(attempted[i].record) != PairKey(attempted[j].record)
      ensures !enabled ==> attempted == []
      ensures var records := Aggregate(ctx, flows);
              var labels := if classifier && records != [] then answers else map[];
              && (enabled && KeysDistinct(records) ==> ExactlySuspects(threshold, labels, records, attempted))
              && (flows != [] ==>
                    && lastStats.llamaCalled == (enabled && labels != map[])
                    && lastStats.llama == if enabled then |LabelledKeys(labels, records)| else 0)
      ensures flows == [] ==> lastStats == old(lastStats) && attempted == []
      ensures flows != [] ==>
                && lastStats.flows == |flows| && lastStats.pairs == |Aggregate(ctx, flows)|
                && lastStats.suspects == |attempted| && lastStats.windowEnd == ctx.end
                && lastStats.dispatched == Accepted(accepts, |attempted|)
                && lastStats.heuristic == |HighKeys(threshold, Aggregate(ctx, flows))|
                && lastStats.skipped == (if enabled then 0 else lastStats.heuristic)
    {
      hide PairKey, KeysDistinct, ExactlySuspects, HitsOf, FlagsOf, Through, Visited;
      attempted := [];
      if flows == [] {
        NoSuspects(threshold, ctx, if classifier && Aggregate(ctx, flows) != [] then answers else map[]);
        return;
      }
      var records := AggregateFlows(ctx, flows);
      var hits := ScoreAll(records, threshold);
      HitsAreHigh(records, threshold, hits);
      lastStats := Stats(|flows|, |records|, |hits|, 0, 0, 0, 0, false, ctx.end);
      if !enabled {
        lastStats := lastStats.(skipped := |hits|);
        return;
      }
      var labels: map<string, string> := if classifier && records != [] then answers else map[];
      var flags := LabelAll(records, labels);
      FlagsAreLabelled(records, labels, flags);
      lastStats := lastStats.(llamaCalled := labels != map[], llama := |flags|,
                              suspects := |hits.Keys + flags.Keys|);
      ghost var done;
      var dispatched;
      attempted, dispatched, done := DispatchAll(hits, flags, accepts);
      KeysDiffer(records, threshold, labels, hits, flags, done, attempted);
      if KeysDistinct(records) {
        AttemptsAreSuspects(records, threshold, labels, hits, flags, done, attempted);
      }
      lastStats := lastStats.(dispatched := dispatched);
    }
  }

  // ---- The detectors and the dispatch loop --------------------------------------------------------

  /** What a detector has found under one key: the record, with a score or with a label. */
  datatype Hit = Hit(record: Record, score: int)

  datatype Flag = Flag(record: Record, tag: string)

  /** `hits` are the records above the threshold, each under its key; of two with one key one stays. */
  predicate HitsOf(records: seq<Record>, threshold: int, hits: map<string, Hit>) {
    && (forall r :: r in records && Score(r) >= threshold ==> PairKey(r) in hits)
    && forall k :: k in hits ==> IsHit(records, threshold, k, hits[k])
  }

  predicate IsHit(records: seq<Record>, threshold: int, k: string, h: Hit) {
    h.record in records && PairKey(h.record) == k && h.score == Score(h.record) >= threshold
  }

  /** `flags` are the records with a SUSPECT label, each under its key; of two with one key one stays. */
  predicate FlagsOf(records: seq<Record>, labels: map<string, string>, flags: map<string, Flag>) {
    && (forall r :: r in records && Labelled(labels, r) ==> PairKey(r) in flags)
    && forall k :: k in flags ==> IsFlag(records, labels, k, flags[k])
  }

  predicate IsFlag(records: seq<Record>, labels: map<string, string>, k: string, f: Flag) {
    f.record in records && PairKey(f.record) == k && Labelled(labels, f.record) && f.tag == labels[k]
  }

  lemma HitsAreHigh(records: seq<Record>, threshold: int, hits: map<string, Hit>)
    requires HitsOf(records, threshold, hits)
    ensures |hits| == |HighKeys(threshold, records)|
  {
    hide Score, PairKey;
    assert hits.Keys == HighKeys(threshold, records);
  }

  lemma FlagsAreLabelled(records: seq<Record>, labels: map<string, string>, flags: map<string, Flag>)
    requires FlagsOf(records, labels, flags)
    ensures |flags| == |LabelledKeys(labels, records)|
  {
    hide Labelled, PairKey;
    assert flags.Keys == LabelledKeys(labels, records);
  }

  method ScoreAll(records: seq<Record>, threshold: int) returns (hits: map<string, Hit>)
    ensures HitsOf(records, threshold, hits)
  {
    hide Score, PairKey;
    hits := map[];
    for i := 0 to |records|
      invariant forall j :: 0 <= j < i && Score(records[j]) >= threshold ==> PairKey(records[j]) in hits
      invariant forall k :: k in hits ==> IsHit(records, threshold, k, hits[k])
    {
      var score := Score(records[i]);
      if score >= threshold {
        hits := hits[PairKey(records[i]) := Hit(records[i], score)];
      }
    }
  }

  method LabelAll(records: seq<Record>, labels: map<string, string>) returns (flags: map<string, Flag>)
    ensures FlagsOf(records, labels, flags)
  {
    hide PairKey;
    flags := map[];
    for i := 0 to |records|
      invariant forall j :: 0 <= j < i && Labelled(labels, records[j]) ==> PairKey(records[j]) in flags
      invariant forall k :: k in flags ==> IsFlag(records, labels, k, flags[k])
    {
      var k := PairKey(records[i]);
      if k in labels && StartsSuspect(labels[k]) {
        flags := flags[k := Flag(records[i], labels[k])];
      }
    }
  }

  /** What the loop makes of one key: the heuristic record when there is one, else the labelled one. */
  function Entry(hits: map<string, Hit>, flags: map<string, Flag>, k: string): Dispatch
    requires k in hits || k in flags
  {
    Dispatch(if k in hits then hits[k].record else flags[k].record,
             if k in hits then hits[k].score else 0,
             if k in flags then flags[k].tag else "")
  }

  /** `done` are the keys gone through, each once, and `attempted` what was made of them. */
  ghost predicate Through(hits: map<string, Hit>, flags: map<string, Flag>, done: seq<string>,
                          attempted: seq<Dispatch>) {
    && Distinct(done) && |attempted| == |done|
    && forall i :: 0 <= i < |done| ==>
         (done[i] in hits || done[i] in flags) && attempted[i] == Entry(hits, flags, done[i])
  }

  /** Of the keys `all`, those not in `keys` any more have been done. */
  ghost predicate Visited(all: set<string>, keys: set<string>, done: seq<string>) {
    keys <= all && forall k :: k in done <==> k in all && k !in keys
  }

  /** The dispatch loop over the union of both detectors' keys, in any order. */
  method DispatchAll(hits: map<string, Hit>, flags: map<string, Flag>, accepts: nat -> bool)
    returns (attempted: seq<Dispatch>, dispatched: nat, ghost done: seq<string>)
    ensures Through(hits, flags, done, attempted)
    ensures Visited(hits.Keys + flags.Keys, {}, done)
    ensures |attempted| == |hits.Keys + flags.Keys|
    ensures dispatched == Accepted(accepts, |attempted|)
  {
    hide Through, Visited, Entry;
    attempted, dispatched, done := [], 0, [];
    ghost var all := hits.Keys + flags.Keys;
    var keys := hits.Keys + flags.Keys;
    NothingYet(hits, flags, all);
    while keys != {}
      invariant Through(hits, flags, done, attempted)
      invariant Visited(all, keys, done)
      invariant dispatched == Accepted(accepts, |attempted|)
      decreases keys
    {
      var k :| k in keys;
      OneMore(hits, flags, done, attempted, keys, k);
      if accepts(|attempted|) {
        dispatched := dispatched + 1;
      }
      attempted := attempted + [Entry(hits, flags, k)];
      done, keys := done + [k], keys - {k};
    }
    AllDone(hits, flags, done, attempted);
  }

  lemma NothingYet(hits: map<string, Hit>, flags: map<string, Flag>, all: set<string>)
    ensures Through(hits, flags, [], []) && Visited(all, all, [])
  {
  }

  lemma OneMore(hits: map<string, Hit>, flags: map<string, Flag>, done: seq<string>,
                attempted: seq<Dispatch>, keys: set<string>, k: string)
    requires Through(hits, flags, done, attempted) && Visited(hits.Keys + flags.Keys, keys, done) && k in keys
    ensures k in hits || k in flags
    ensures Through(hits, flags, done + [k], attempted + [Entry(hits, flags, k)])
    ensures Visited(hits.Keys + flags.Keys, keys - {k}, done + [k])
  {
    hide Entry;
  }

  lemma AllDone(hits: map<string, Hit>, flags: map<string, Flag>, done: seq<string>, attempted: seq<Dispatch>)
    requires Through(hits, flags, done, attempted) && Visited(hits.Keys + flags.Keys, {}, done)
    ensures |attempted| == |hits.Keys + flags.Keys|
  {
    hide Entry;
    DistinctSize(done, hits.Keys + flags.Keys);
  }

  /** How many of the first `n` alerts are taken without an error. */
  function Accepted(accepts: nat -> bool, n: nat): nat {
    if n == 0 then 0 else Accepted(accepts, n - 1) + if accepts(n - 1) then 1 else 0
  }

  lemma {:induction false} DistinctSize(s: seq<string>, members: set<string>)
    requires Distinct(s) && forall k :: k in s <==> k in members
    ensures |s| == |members|
  {
    if s == [] {
      assert members == {};
    } else {
      assert s[0] in s;
      assert forall k :: k in s[1..] ==> k in s;
      DistinctSize(s[1..], members - {s[0]});
    }
  }

  /** `attempted` holds the dispatch of every suspect record once, and nothing else. */
  ghost predicate ExactlySuspects(threshold: int, labels: map<string, string>, records: seq<Record>,
                                  attempted: seq<Dispatch>) {
    && Distinct(attempted)
    && forall d :: d in attempted <==>
         d.record in records && Suspect(threshold, labels, d.record) && d == DispatchOf(threshold, labels, d.record)
  }

  lemma NoSuspects(threshold: int, ctx: Context, labels: map<string, string>)
    ensures ExactlySuspects(threshold, labels, Aggregate(ctx, []), [])
  {
  }

  lemma {:induction false} EntryKey(records: seq<Record>, threshold: int, labels: map<string, string>,
                                    hits: map<string, Hit>, flags: map<string, Flag>, k: string)
    requires HitsOf(records, threshold, hits) && FlagsOf(records, labels, flags)
    requires k in hits || k in flags
    ensures Entry(hits, flags, k).record in records && PairKey(Entry(hits, flags, k).record) == k
  {
    hide Score, PairKey, Labelled;
  }

  lemma {:induction false} KeysDiffer(records: seq<Record>, threshold: int, labels: map<string, string>,
                                      hits: map<string, Hit>, flags: map<string, Flag>,
                                      done: seq<string>, attempted: seq<Dispatch>)
    requires HitsOf(records, threshold, hits) && FlagsOf(records, labels, flags)
    requires Through(hits, flags, done, attempted)
    ensures forall i, j :: 0 <= i < j < |attempted| ==> PairKey(attempted[i].record) != PairKey(attempted[j].record)
  {
    hide PairKey, HitsOf, FlagsOf, Entry;
    forall i, j | 0 <= i < j < |attempted| ensures PairKey(attempted[i].record) != PairKey(attempted[j].record) {
      EntryKey(records, threshold, labels, hits, flags, done[i]);
      EntryKey(records, threshold, labels, hits, flags, done[j]);
    }
  }

  /** With distinct keys, the entry under a record's key is the record's dispatch. */
  lemma {:induction false} EntryOfRecord(records: seq<Record>, threshold: int, labels: map<string, string>,
                                         hits: map<string, Hit>, flags: map<string, Flag>, r: Record)
    requires KeysDistinct(records) && HitsOf(records, threshold, hits) && FlagsOf(records, labels, flags)
    requires r in records
    ensures var k := PairKey(r);
            && (Suspect(threshold, labels, r) <==> k in hits || k in flags)
            && (k in hits || k in flags ==> Entry(hits, flags, k) == DispatchOf(threshold, labels, r))
  {
    hide Score, PairKey, KeysDistinct;
    KeyNamesRecord(records);
  }

  lemma {:induction false} AttemptsAreSuspects(records: seq<Record>, threshold: int, labels: map<string, string>,
                                               hits: map<string, Hit>, flags: map<string, Flag>,
                                               done: seq<string>, attempted: seq<Dispatch>)
    requires KeysDistinct(records) && HitsOf(records, threshold, hits) && FlagsOf(records, labels, flags)
    requires Through(hits, flags, done, attempted)
    requires Visited(hits.Keys + flags.Keys, {}, done)
    ensures ExactlySuspects(threshold, labels, records, attempted)
  {
    hide PairKey, KeysDistinct, Suspect, DispatchOf, Entry, HitsOf, FlagsOf;
    forall i | 0 <= i < |done|
      ensures var r := attempted[i].record;
              && r in records && PairKey(r) == done[i]
              && Suspect(threshold, labels, r) && attempted[i] == DispatchOf(threshold, labels, r)
    {
      EntryKey(records, threshold, labels, hits, flags, done[i]);
      EntryOfRecord(records, threshold, labels, hits, flags, attempted[i].record);
    }
    forall r | r in records && Suspect(threshold, labels, r) ensures DispatchOf(threshold, labels, r) in attempted {
      EntryOfRecord(records, threshold, labels, hits, flags, r);
      assert PairKey(r) in done;
      var i :| 0 <= i < |done| && done[i] == PairKey(r);
      assert attempted[i] == DispatchOf(threshold, labels, r);
    }
  }

  lemma KeyNamesRecord(records: seq<Record>)
    requires KeysDistinct(records)
    ensures forall r, s :: r in records && s in records && PairKey(r) == PairKey(s) ==> r == s
  {
    hide PairKey;
  }
}
