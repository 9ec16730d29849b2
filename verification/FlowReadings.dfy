/** What records, keys, scores and dispatches say of the flows they come from. */
module FlowReadings {
  import opened Text
  import opened Sorting
  import opened FlowAggregator
  import opened FlowBatchDispatcher

  // ---- Records --------------------------------------------------------------------------------------------

  /** A single flow makes one record of its own numbers, or none if an address is missing. A port 0, an unnamed
      application and an id 0 are left out. */
  lemma {:induction false} SingleFlow(ctx: Context, f: Flow)
    ensures Aggregate(ctx, [f]) ==
            if f.srcIp == "" || f.destIp == "" then []
            else [Record(Pair(f.srcIp, f.destIp), ctx.start, ctx.end, 1,
                         if Lower(f.proto) == "tcp" then 1 else 0, if Lower(f.proto) == "udp" then 1 else 0,
                         Volume(f.pktsToServer, f.pktsToServer), Volume(f.pktsToClient, f.pktsToClient),
                         Volume(f.bytesToServer, f.bytesToServer), Volume(f.bytesToClient, f.bytesToClient),
                         if f.destPort != 0 then [f.destPort] else [], if f.appProto != "" then [f.appProto] else [],
                         [f.state], if f.flowId != 0 then [f.flowId] else [],
                         ctx.zone(f.srcIp), ctx.zone(f.destIp))]
  {
    hide RecordOf;
    assert [f][..0] == [];
    if f.srcIp != "" && f.destIp != "" {
      assert Pairs([f]) == [Pair(f.srcIp, f.destIp)];
      assert Bucket([f], Pair(f.srcIp, f.destIp)) == [f];
      RecordOfOne(ctx, f);
    }
  }

  lemma RecordOfOne(ctx: Context, f: Flow)
    ensures RecordOf(ctx, Pair(f.srcIp, f.destIp), [f]) ==
            Record(Pair(f.srcIp, f.destIp), ctx.start, ctx.end, 1,
                   if Lower(f.proto) == "tcp" then 1 else 0, if Lower(f.proto) == "udp" then 1 else 0,
                   Volume(f.pktsToServer, f.pktsToServer), Volume(f.pktsToClient, f.pktsToClient),
                   Volume(f.bytesToServer, f.bytesToServer), Volume(f.bytesToClient, f.bytesToClient),
                   if f.destPort != 0 then [f.destPort] else [], if f.appProto != "" then [f.appProto] else [],
                   [f.state], if f.flowId != 0 then [f.flowId] else [],
                   ctx.zone(f.srcIp), ctx.zone(f.destIp))
  {
    hide Numbers, SortedTexts, Is, Lower, VolumeOf;
    assert [f][..0] == [];
    ReadsAs(f.proto);
    CountsOfOne(f);
    VolumeOfOne(f, PktsToServer);
    VolumeOfOne(f, PktsToClient);
    VolumeOfOne(f, BytesToServer);
    VolumeOfOne(f, BytesToClient);
    hide Tcp, Udp, Ids;
    assert PortSet([f]) == if f.destPort != 0 then {f.destPort} else {};
    assert AppSet([f]) == if f.appProto != "" then {f.appProto} else {};
    assert StateSet([f]) == {f.state};
    OneNumber(f.destPort);
    OneText(f.appProto);
    OneText(f.state);
  }

  lemma CountsOfOne(f: Flow)
    ensures Tcp([f]) == (if Is(f.proto, "tcp") then 1 else 0) && Udp([f]) == (if Is(f.proto, "udp") then 1 else 0)
    ensures Ids([f]) == if f.flowId != 0 then [f.flowId] else []
  {
    hide Is;
    var one := [f];
    var none := one[..|one| - 1];
    assert none == [];
    assert Tcp(one) == Tcp(none) + if Is(f.proto, "tcp") then 1 else 0;
    assert Udp(one) == Udp(none) + if Is(f.proto, "udp") then 1 else 0;
    assert Ids(one) == Ids(none) + if f.flowId != 0 then [f.flowId] else [];
  }

  lemma VolumeOfOne(f: Flow, m: Measure)
    ensures VolumeOf([f], m) == Volume(Of(m, f), Of(m, f))
  {
    var one := [f];
    assert one[..|one| - 1] == [];
    assert Sum(one, m) == Of(m, f);
  }

  lemma ReadsAs(proto: string)
    ensures Is(proto, "tcp") <==> Lower(proto) == "tcp"
    ensures Is(proto, "udp") <==> Lower(proto) == "udp"
  {
  }

  lemma OneNumber(n: int)
    ensures Numbers({n}) == [n] && Numbers({}) == []
  {
    AscendingUnique(Numbers({n}), [n]);
  }

  lemma OneText(t: string)
    ensures SortedTexts({t}) == [t] && SortedTexts({}) == []
  {
    var s := SortedTexts({t});
    assert t in s && SortedTexts({}) == [];
    forall i, j | 0 <= i < j < |s| ensures s[i] != s[j] {
      LexIrreflexive(s[i]);
    }
    DistinctSize(s, {t});
  }

  /** Joining adds the totals and keeps the greater of the maxima. */
  lemma JoinIs(a: Volume, b: Volume)
    ensures Join(a, b).sum == a.sum + b.sum
    ensures Join(a, b).max >= a.max && Join(a, b).max >= b.max
    ensures Join(a, b).max == a.max || Join(a, b).max == b.max
  {
  }

  lemma {:induction false} InBucket(flows: seq<Flow>, p: Pair, f: Flow)
    ensures f in Bucket(flows, p) <==> f in flows && f.srcIp != "" && f.destIp != "" && p == Pair(f.srcIp, f.destIp)
  {
    if flows != [] {
      var n := |flows| - 1;
      InBucket(flows[..n], p, f);
      assert flows == flows[..n] + [flows[n]];
    }
  }

  lemma {:induction false} BucketSize(flows: seq<Flow>, p: Pair, q: Flow -> bool)
    requires forall f :: q(f) <==> Counted(f) && PairOf(f) == p
    ensures |Bucket(flows, p)| == |Where(flows, q)|
  {
    hide Counted, PairOf, Where;
    if flows == [] {
      WhereGrows([], Flow(0, "", "", 0, "", "", "", 0, 0, 0, 0), q);
    } else {
      var n := |flows| - 1;
      assert flows == flows[..n] + [flows[n]];
      BucketSize(flows[..n], p, q);
      WhereGrows(flows[..n], flows[n], q);
    }
  }

  lemma {:induction false} BucketProto(flows: seq<Flow>, p: Pair, q: Flow -> bool, u: Flow -> bool)
    requires forall f :: q(f) <==> Counted(f) && PairOf(f) == p && Is(f.proto, "tcp")
    requires forall f :: u(f) <==> Counted(f) && PairOf(f) == p && Is(f.proto, "udp")
    ensures Tcp(Bucket(flows, p)) == |Where(flows, q)|
    ensures Udp(Bucket(flows, p)) == |Where(flows, u)|
  {
    hide Counted, PairOf, Where, Is, Bucket;
    if flows == [] {
      WhereGrows([], Flow(0, "", "", 0, "", "", "", 0, 0, 0, 0), q);
      WhereGrows([], Flow(0, "", "", 0, "", "", "", 0, 0, 0, 0), u);
      NoBucket(p);
    } else {
      var n := |flows| - 1;
      var past, f := flows[..n], flows[n];
      assert flows == past + [f];
      BucketProto(past, p, q, u);
      WhereGrows(past, f, q);
      WhereGrows(past, f, u);
      BucketSnoc(past, f, p);
      assert Bucket(past, p) + [] == Bucket(past, p);
      assert (Bucket(past, p) + [f])[..|Bucket(past, p)|] == Bucket(past, p);
    }
  }

  lemma NoBucket(p: Pair)
    ensures Bucket([], p) == []
  {
  }

  ghost predicate Greatest(max: int, values: set<int>) {
    max in values && forall v :: v in values ==> v <= max
  }

  lemma {:induction false} LargestBounds(bucket: seq<Flow>, m: Measure)
    requires bucket != []
    ensures forall f :: f in bucket ==> Of(m, f) <= Largest(bucket, m)
    ensures exists f :: f in bucket && Of(m, f) == Largest(bucket, m)
  {
    hide Of;
    var n := |bucket| - 1;
    var past := bucket[..n];
    assert bucket == past + [bucket[n]];
    assert bucket[n] in bucket;
    if n > 0 {
      LargestBounds(past, m);
      var f :| f in past && Of(m, f) == Largest(past, m);
      assert f in bucket;
    }
  }

  /** The flows from `src` to `dst`, by position. */
  predicate Between(f: Flow, p: Pair) {
    f.srcIp == p.src && f.destIp == p.dst
  }

  /** A record stands for the flows between its two addresses: it counts them, and those of them in either protocol
      in any case, holds the greatest of each of their four volumes, and lists their ports, applications and states
      in order. It has the window's bounds and each address's zone. */
  lemma {:induction false} RecordIs(ctx: Context, flows: seq<Flow>, r: Record)
    requires r in Aggregate(ctx, flows)
    ensures r.pair.src != "" && r.pair.dst != "" && exists f :: f in flows && Between(f, r.pair)
    ensures r.windowStart == ctx.start && r.windowEnd == ctx.end
    ensures r.srcZone == ctx.zone(r.pair.src) && r.destZone == ctx.zone(r.pair.dst)
    ensures r.flowCount == |set i: nat | i < |flows| && Between(flows[i], r.pair)|
    ensures r.tcpCount == |set i: nat | i < |flows| && Between(flows[i], r.pair) && Lower(flows[i].proto) == "tcp"|
    ensures r.udpCount == |set i: nat | i < |flows| && Between(flows[i], r.pair) && Lower(flows[i].proto) == "udp"|
    ensures Greatest(r.pktsToServer.max, set f: Flow | f in flows && Between(f, r.pair) :: f.pktsToServer)
    ensures Greatest(r.pktsToClient.max, set f: Flow | f in flows && Between(f, r.pair) :: f.pktsToClient)
    ensures Greatest(r.bytesToServer.max, set f: Flow | f in flows && Between(f, r.pair) :: f.bytesToServer)
    ensures Greatest(r.bytesToClient.max, set f: Flow | f in flows && Between(f, r.pair) :: f.bytesToClient)
    ensures Ascending(r.ports) && Alphabetical(r.appProtos) && Alphabetical(r.states)
    ensures forall x :: x in r.ports <==> x != 0 && exists f :: f in flows && Between(f, r.pair) && f.destPort == x
    ensures forall x :: x in r.appProtos <==> x != "" && exists f :: f in flows && Between(f, r.pair) && f.appProto == x
    ensures forall x :: x in r.states <==> exists f :: f in flows && Between(f, r.pair) && f.state == x
  {
    hide Bucket, Tcp, Udp, Largest, Sum, Is, Lower, Where, Greatest, Ascending, Alphabetical, Numbers, SortedTexts;
    var p := r.pair;
    var bucket := Bucket(flows, p);
    PairsHold(flows);
    assert p in Pairs(flows) && r == RecordOf(ctx, p, bucket);
    forall f ensures f in bucket <==> f in flows && Between(f, p) {
      InBucket(flows, p, f);
    }
    CountsAre(flows, p);
    MaximaAre(flows, p, bucket);
  }

  lemma CountsAre(flows: seq<Flow>, p: Pair)
    requires p.src != "" && p.dst != ""
    ensures |Bucket(flows, p)| == |set i: nat | i < |flows| && Between(flows[i], p)|
    ensures Tcp(Bucket(flows, p))
         == |set i: nat | i < |flows| && Between(flows[i], p) && Lower(flows[i].proto) == "tcp"|
    ensures Udp(Bucket(flows, p))
         == |set i: nat | i < |flows| && Between(flows[i], p) && Lower(flows[i].proto) == "udp"|
  {
    hide Bucket, Tcp, Udp, Is, Lower;
    var all := (f: Flow) => Between(f, p);
    var tcp := (f: Flow) => Between(f, p) && Lower(f.proto) == "tcp";
    var udp := (f: Flow) => Between(f, p) && Lower(f.proto) == "udp";
    forall f: Flow ensures (Is(f.proto, "tcp") <==> Lower(f.proto) == "tcp")
                  && (Is(f.proto, "udp") <==> Lower(f.proto) == "udp") {
      ReadsAs(f.proto);
    }
    BucketSize(flows, p, all);
    BucketProto(flows, p, tcp, udp);
    assert Where(flows, all) == set i: nat | i < |flows| && Between(flows[i], p);
    assert Where(flows, tcp) == set i: nat | i < |flows| && Between(flows[i], p) && Lower(flows[i].proto) == "tcp";
    assert Where(flows, udp) == set i: nat | i < |flows| && Between(flows[i], p) && Lower(flows[i].proto) == "udp";
  }

  lemma MaximaAre(flows: seq<Flow>, p: Pair, bucket: seq<Flow>)
    requires bucket != [] && forall f: Flow :: f in bucket <==> f in flows && Between(f, p)
    ensures Greatest(Largest(bucket, PktsToServer), set f: Flow | f in flows && Between(f, p) :: f.pktsToServer)
    ensures Greatest(Largest(bucket, PktsToClient), set f: Flow | f in flows && Between(f, p) :: f.pktsToClient)
    ensures Greatest(Largest(bucket, BytesToServer), set f: Flow | f in flows && Between(f, p) :: f.bytesToServer)
    ensures Greatest(Largest(bucket, BytesToClient), set f: Flow | f in flows && Between(f, p) :: f.bytesToClient)
  {
    hide Largest, Between;
    LargestBounds(bucket, PktsToServer);
    LargestBounds(bucket, PktsToClient);
    LargestBounds(bucket, BytesToServer);
    LargestBounds(bucket, BytesToClient);
  }

  /** The records of a window are those it has by pair, in the order in which their pairs first came. */
  lemma {:induction false} RecordsInOrder(ctx: Context, flows: seq<Flow>)
    ensures var records := Aggregate(ctx, flows);
            && (forall r: Record :: r in records <==> r.pair in ByPair(ctx, flows) && r == ByPair(ctx, flows)[r.pair])
            && forall i, j, b :: 0 <= i < j < |records| && 0 <= b < |flows| && Between(flows[b], records[j].pair) ==>
                 SeenBefore(flows, records[i].pair, b)
  {
    hide RecordOf, Bucket, SeenBefore;
    var records, pairs := Aggregate(ctx, flows), Pairs(flows);
    PairsHold(flows);
    forall r | r in records ensures r.pair in ByPair(ctx, flows) && r == ByPair(ctx, flows)[r.pair] {
      var i :| 0 <= i < |records| && records[i] == r;
      PairOfRecord(ctx, pairs[i], Bucket(flows, pairs[i]));
    }
    forall r: Record | r.pair in ByPair(ctx, flows) && r == ByPair(ctx, flows)[r.pair] ensures r in records {
      var i :| 0 <= i < |pairs| && pairs[i] == r.pair;
      assert records[i] == r;
    }
    forall i, j, b | 0 <= i < j < |records| && 0 <= b < |flows| && Between(flows[b], records[j].pair)
      ensures SeenBefore(flows, records[i].pair, b)
    {
      PairOfRecord(ctx, pairs[i], Bucket(flows, pairs[i]));
      PairOfRecord(ctx, pairs[j], Bucket(flows, pairs[j]));
      PairsInOrder(flows, i, j, b);
    }
  }

  lemma PairOfRecord(ctx: Context, p: Pair, bucket: seq<Flow>)
    ensures RecordOf(ctx, p, bucket).pair == p
  {
  }

  ghost predicate SeenBefore(flows: seq<Flow>, p: Pair, b: int) {
    exists a :: 0 <= a < b && a < |flows| && Between(flows[a], p)
  }

  lemma {:induction false} PairsInOrder(flows: seq<Flow>, i: nat, j: nat, b: nat)
    requires i < j < |Pairs(flows)| && b < |flows| && Between(flows[b], Pairs(flows)[j])
    ensures SeenBefore(flows, Pairs(flows)[i], b)
  {
    var n := |flows| - 1;
    var past := flows[..n];
    PairsHold(past);
    PairsHold(flows);
    assert Pairs(flows)[j] in Pairs(flows);
    if j < |Pairs(past)| {
      if b < n {
        PairsInOrder(past, i, j, b);
        var a :| 0 <= a < b && a < |past| && Between(past[a], Pairs(past)[i]);
        assert Between(flows[a], Pairs(flows)[i]);
      } else {
        SeenIn(past, i);
      }
    } else {
      if b < n {
        assert past[b] in past && PairOf(past[b]) == Pairs(flows)[j];
        assert Distinct(Pairs(flows));
        assert Counted(past[b]);
      }
      SeenIn(past, i);
    }
  }

  lemma SeenIn(flows: seq<Flow>, i: nat)
    requires i < |Pairs(flows)|
    ensures SeenBefore(flows, Pairs(flows)[i], |flows|)
  {
    PairsHold(flows);
    assert Pairs(flows)[i] in Pairs(flows);
    var f :| f in flows && Counted(f) && PairOf(f) == Pairs(flows)[i];
    var a :| 0 <= a < |flows| && flows[a] == f;
    assert Between(flows[a], Pairs(flows)[i]);
  }

  // ---- Keys -------------------------------------------------------------------------------------------------

  /** A record's key is its two addresses with an arrow between and behind a colon a number, which reads back as the
      first of its ports or, without any, as 0. */
  lemma KeyIs(r: Record) returns (port: string)
    ensures PairKey(r) == r.pair.src + "\U{2192}" + r.pair.dst + ":" + port
    ensures ParseInt(port) == Some(if r.ports == [] then 0 else r.ports[0])
  {
    hide ParseInt;
    port := IntText(FirstPort(r));
    ParseIntText(FirstPort(r));
  }

  // ---- Scores -----------------------------------------------------------------------------------------------

  predicate Critical(zone: string) {
    Upper(zone) == "DB" || Upper(zone) == "MGT"
  }

  /** Several flows to a critical zone from another one. */
  predicate Crosses(r: Record) {
    Upper(r.srcZone) != Upper(r.destZone) && Critical(r.destZone) && r.flowCount > 1
  }

  /** An administration port reached from outside the management zone. */
  predicate Administers(r: Record) {
    Upper(r.srcZone) != "MGT" && (22 in r.ports || 3389 in r.ports || 5985 in r.ports || 5986 in r.ports)
  }

  /** The database zone turned to another named zone. */
  predicate LeavesDatabase(r: Record) {
    Upper(r.srcZone) == "DB" && r.destZone != "" && Upper(r.destZone) != "DB"
  }

  /** At the usual threshold a record is suspect exactly for one of four reasons; many flows alone are none. */
  lemma SuspectIff(r: Record)
    ensures Score(r) >= 2 <==> Crosses(r) || Administers(r) || LeavesDatabase(r) || |r.ports| > 5
    ensures Score(r) == 0 <==> Score(r) < 2 && r.flowCount <= 10
  {
    hide Upper;
    UpperNone(r.destZone);
  }

  lemma UpperNone(zone: string)
    ensures Upper(zone) == "" <==> zone == ""
  {
    assert |Upper(zone)| == |zone|;
  }

  /** What each sign is worth: a record of one flow and no port has 3 if it leaves the database zone and 0 else; a
      second flow adds 2 on the way to a critical zone, and an eleventh 1; a first administration port adds 2 from
      outside the management zone, and a sixth port 2 more. */
  lemma SignsAreWorth(r: Record, n: nat, ports: seq<int>, more: seq<int>)
    ensures Score(r.(flowCount := 1, ports := [])) == if LeavesDatabase(r) then 3 else 0
    ensures 2 <= n <= 10 ==>
              Score(r.(flowCount := n)) == Score(r.(flowCount := 1))
                                           + if Crosses(r.(flowCount := n)) then 2 else 0
    ensures n > 10 ==> Score(r.(flowCount := n)) == Score(r.(flowCount := 2)) + 1
    ensures n == 0 ==> Score(r.(flowCount := n)) == Score(r.(flowCount := 1))
    ensures |ports| <= 5 ==>
              Score(r.(ports := ports)) == Score(r.(ports := [])) + if Administers(r.(ports := ports)) then 2 else 0
    ensures |ports| > 5 && |more| <= 5 && (Administers(r.(ports := ports)) <==> Administers(r.(ports := more))) ==>
              Score(r.(ports := ports)) == Score(r.(ports := more)) + 2
  {
    hide Upper;
    UpperNone(r.destZone);
    assert forall s: seq<int> :: Administers(r.(ports := s)) <==> AdminPort(s) && Upper(r.srcZone) != "MGT";
  }

  // ---- Dispatches -------------------------------------------------------------------------------------------

  /** The classifier's label of a record, if it names one that begins so. */
  predicate Marked(labels: map<string, string>, r: Record) {
    PairKey(r) in labels && |labels[PairKey(r)]| >= 7 && labels[PairKey(r)][..7] == "SUSPECT"
  }

  /** What is attempted where exactly the suspects are: one dispatch for each record whose score reaches the threshold
      or that is marked, with the score if it reaches it and else 0, and with the label if it marks and else none. */
  lemma AttemptedIff(threshold: int, labels: map<string, string>, records: seq<Record>, attempted: seq<Dispatch>)
    requires ExactlySuspects(threshold, labels, records, attempted)
    ensures forall d :: d in attempted <==>
              && d.record in records
              && (Score(d.record) >= threshold || Marked(labels, d.record))
              && d.score == (if Score(d.record) >= threshold then Score(d.record) else 0)
              && d.tag == (if Marked(labels, d.record) then labels[PairKey(d.record)] else "")
    ensures Distinct(attempted)
  {
    hide Score, PairKey;
  }

  /** Which severities a dispatch has at least. */
  lemma SeverityIs(d: Dispatch)
    ensures 1 <= Severity(d) <= 4
    ensures Severity(d) == 1 <==> d.score >= 6 || d.tag == "SUSPECT_content"
    ensures Severity(d) <= 2 <==> d.score >= 4 || d.tag in {"SUSPECT_content", "SUSPECT_lateral", "SUSPECT_exfil"}
    ensures Severity(d) <= 3 <==>
              || d.score >= 2
              || d.tag in {"SUSPECT_content", "SUSPECT_lateral", "SUSPECT_exfil",
                           "SUSPECT_burst", "SUSPECT_scan", "SUSPECT_c2_beacon"}
  {
  }

  lemma {:induction false} AcceptedIs(accepts: nat -> bool, n: nat)
    ensures Accepted(accepts, n) == |set i: nat | i < n && accepts(i)|
  {
    if n == 0 {
      assert (set i: nat | i < n && accepts(i)) == {};
    } else {
      AcceptedIs(accepts, n - 1);
      var before := set i: nat | i < n - 1 && accepts(i);
      var after := set i: nat | i < n && accepts(i);
      assert after == before + if accepts(n - 1) then {n - 1} else {};
    }
  }
}
