/** Grouping a window's flows by address pair: a partition of the flows, and a homomorphism from
    appending windows to combining records. */
module FlowAggregator {
  import opened Text
  import opened Sorting

  datatype Flow = Flow(flowId: int, srcIp: string, destIp: string, destPort: int, proto: string,
                       appProto: string, state: string,
                       pktsToServer: int, pktsToClient: int, bytesToServer: int, bytesToClient: int)

  datatype Pair = Pair(src: string, dst: string)

  datatype Record = Record(pair: Pair, windowStart: string, windowEnd: string,
                           flowCount: nat, tcpCount: nat, udpCount: nat,
                           pktsToServer: Volume, pktsToClient: Volume, bytesToServer: Volume, bytesToClient: Volume,
                           ports: seq<int>, appProtos: seq<string>, states: seq<string>, flowIds: seq<int>,
                           srcZone: string, destZone: string)

  /** A total and a largest single value. */
  datatype Volume = Volume(sum: int, max: int)

  function Max(a: int, b: int): int {
    if a < b then b else a
  }

  predicate Is(proto: string, name: string) {
    |proto| == |name| && forall i :: 0 <= i < |name| ==> LowerChar(proto[i]) == name[i]
  }

  function PairOf(f: Flow): Pair {
    Pair(f.srcIp, f.destIp)
  }

  /** Flows without both addresses are skipped. */
  predicate Counted(f: Flow) {
    f.srcIp != "" && f.destIp != ""
  }

  function Bucket(flows: seq<Flow>, pair: Pair): seq<Flow> {
    if flows == [] then []
    else
      var n := |flows| - 1;
      Bucket(flows[..n], pair) + if Counted(flows[n]) && PairOf(flows[n]) == pair then [flows[n]] else []
  }

  /** The pairs seen, each once, in the order they first came. */
  function Pairs(flows: seq<Flow>): seq<Pair> {
    if flows == [] then []
    else
      var n := |flows| - 1;
      var before := Pairs(flows[..n]);
      if Counted(flows[n]) && PairOf(flows[n]) !in before then before + [PairOf(flows[n])] else before
  }

  // ---- Features of one bucket -------------------------------------------------------------

  datatype Measure = PktsToServer | PktsToClient | BytesToServer | BytesToClient | One

  function Of(m: Measure, f: Flow): int {
    match m
    case PktsToServer => f.pktsToServer
    case PktsToClient => f.pktsToClient
    case BytesToServer => f.bytesToServer
    case BytesToClient => f.bytesToClient
    case One => 1
  }

  function Sum(flows: seq<Flow>, m: Measure): int {
    if flows == [] then 0 else Sum(flows[..|flows| - 1], m) + Of(m, flows[|flows| - 1])
  }

  function Largest(flows: seq<Flow>, m: Measure): int {
    if flows == [] then 0
    else if |flows| == 1 then Of(m, flows[0])
    else Max(Largest(flows[..|flows| - 1], m), Of(m, flows[|flows| - 1]))
  }

  function VolumeOf(flows: seq<Flow>, m: Measure): Volume {
    Volume(Sum(flows, m), Largest(flows, m))
  }

  function PortSet(flows: seq<Flow>): set<int> {
    set f | f in flows && f.destPort != 0 :: f.destPort
  }

  function AppSet(flows: seq<Flow>): set<string> {
    set f | f in flows && f.appProto != "" :: f.appProto
  }

  function StateSet(flows: seq<Flow>): set<string> {
    set f | f in flows :: f.state
  }

  function Ids(flows: seq<Flow>): seq<int> {
    if flows == [] then []
    else
      var n := |flows| - 1;
      Ids(flows[..n]) + if flows[n].flowId != 0 then [flows[n].flowId] else []
  }

  /** What one window knows besides its flows. */
  datatype Context = Context(start: string, end: string, zone: string -> string)

  function RecordOf(ctx: Context, pair: Pair, bucket: seq<Flow>): Record {
    Record(pair, ctx.start, ctx.end, |bucket|, Tcp(bucket), Udp(bucket),
           VolumeOf(bucket, PktsToServer), VolumeOf(bucket, PktsToClient),
           VolumeOf(bucket, BytesToServer), VolumeOf(bucket, BytesToClient),
           Numbers(PortSet(bucket)), SortedTexts(AppSet(bucket)), SortedTexts(StateSet(bucket)), Ids(bucket),
           ctx.zone(pair.src), ctx.zone(pair.dst))
  }

  function Tcp(flows: seq<Flow>): nat {
    if flows == [] then 0
    else Tcp(flows[..|flows| - 1]) + if Is(flows[|flows| - 1].proto, "tcp") then 1 else 0
  }

  function Udp(flows: seq<Flow>): nat {
    if flows == [] then 0
    else Udp(flows[..|flows| - 1]) + if Is(flows[|flows| - 1].proto, "udp") then 1 else 0
  }

  function Aggregate(ctx: Context, flows: seq<Flow>): seq<Record> {
    var pairs := Pairs(flows);
    seq(|pairs|, i requires 0 <= i < |pairs| => RecordOf(ctx, pairs[i], Bucket(flows, pairs[i])))
  }

  /** The first loop: every counted flow goes to its pair's bucket; pairs keep the order in which
      they first came. */
  method FillBuckets(flows: seq<Flow>) returns (buckets: map<Pair, seq<Flow>>, order: seq<Pair>)
    ensures order == Pairs(flows)
    ensures forall p :: p in buckets <==> p in order
    ensures forall p :: p in buckets ==> buckets[p] == Bucket(flows, p)
  {
    buckets, order := map[], [];
    for i := 0 to |flows|
      invariant order == Pairs(flows[..i])
      invariant forall p :: p in buckets <==> p in order
      invariant forall p :: Bucket(flows[..i], p) == if p in buckets then buckets[p] else []
    {
      assert flows[..i + 1][..i] == flows[..i];
      var f := flows[i];
      if Counted(f) {
        var p := PairOf(f);
        if p !in buckets {
          buckets := buckets[p := []];
          order := order + [p];
        }
        buckets := buckets[p := buckets[p] + [f]];
      }
    }
    assert flows[..|flows|] == flows;
  }

  /** The second loop: one record per bucket. */
  method AggregateFlows(ctx: Context, flows: seq<Flow>) returns (records: seq<Record>)
    ensures records == Aggregate(ctx, flows)
  {
    hide RecordOf, Bucket, Pairs;
    var buckets, order := FillBuckets(flows);
    records := [];
    for i := 0 to |order|
      invariant |records| == i
      invariant forall x :: 0 <= x < i ==> records[x] == RecordOf(ctx, order[x], Bucket(flows, order[x]))
    {
      assert order[i] in order;
      records := records + [RecordOf(ctx, order[i], buckets[order[i]])];
    }
  }

  // ---- Partition ----------------------------------------------------------------------------

  lemma {:induction false} PairsHold(flows: seq<Flow>)
    ensures Distinct(Pairs(flows))
    ensures forall p :: p in Pairs(flows) <==> Bucket(flows, p) != []
    ensures forall p :: p in Pairs(flows) <==> exists f :: f in flows && Counted(f) && PairOf(f) == p
  {
    if flows != [] {
      var n := |flows| - 1;
      var f := flows[n];
      PairsHold(flows[..n]);
      assert flows == flows[..n] + [f];
    }
  }

  lemma BagSnoc(flows: seq<Flow>, last: Flow, f: Flow)
    ensures multiset(flows + [last])[f] == multiset(flows)[f] + if last == f then 1 else 0
  {
    assert multiset(flows + [last]) == multiset(flows) + multiset([last]);
  }

  /** Each bucket holds exactly the counted flows of its pair, as often and in the order they came. */
  lemma {:induction false} BucketCounts(flows: seq<Flow>, p: Pair, f: Flow)
    ensures multiset(Bucket(flows, p))[f] == if Counted(f) && PairOf(f) == p then multiset(flows)[f] else 0
  {
    hide Counted, PairOf;
    if flows != [] {
      var n := |flows| - 1;
      var past, last := flows[..n], flows[n];
      BucketCounts(past, p, f);
      assert flows == past + [last];
      BagSnoc(past, last, f);
      BagSnoc(Bucket(past, p), last, f);
      assert Bucket(past, p) + [] == Bucket(past, p);
      BucketSnoc(past, last, p);
      hide Bucket;
    }
  }

  function CountedOnly(flows: seq<Flow>): seq<Flow> {
    if flows == [] then []
    else
      var n := |flows| - 1;
      CountedOnly(flows[..n]) + if Counted(flows[n]) then [flows[n]] else []
  }

  function BucketSums(flows: seq<Flow>, pairs: seq<Pair>, m: Measure): int {
    if pairs == [] then 0
    else
      var k := |pairs| - 1;
      BucketSums(flows, pairs[..k], m) + Sum(Bucket(flows, pairs[k]), m)
  }

  lemma {:induction false} SumSnoc(flows: seq<Flow>, f: Flow, m: Measure)
    ensures Sum(flows + [f], m) == Sum(flows, m) + Of(m, f)
  {
    assert (flows + [f])[..|flows|] == flows;
  }

  lemma {:induction false} BucketSnoc(flows: seq<Flow>, f: Flow, p: Pair)
    ensures Bucket(flows + [f], p) == Bucket(flows, p) + if Counted(f) && PairOf(f) == p then [f] else []
  {
    assert (flows + [f])[..|flows|] == flows;
  }

  lemma {:induction false} BucketSumGrows(flows: seq<Flow>, f: Flow, p: Pair, m: Measure)
    ensures Sum(Bucket(flows + [f], p), m) ==
            Sum(Bucket(flows, p), m) + if Counted(f) && PairOf(f) == p then Of(m, f) else 0
  {
    BucketSnoc(flows, f, p);
    SumSnoc(Bucket(flows, p), f, m);
    assert Bucket(flows, p) + [] == Bucket(flows, p);
  }

  lemma {:induction false} BucketSumsGrow(flows: seq<Flow>, f: Flow, pairs: seq<Pair>, m: Measure)
    requires Distinct(pairs)
    ensures BucketSums(flows + [f], pairs, m) ==
            BucketSums(flows, pairs, m) + if Counted(f) && PairOf(f) in pairs then Of(m, f) else 0
  {
    hide Bucket, Sum;
    if pairs != [] {
      var k := |pairs| - 1;
      BucketSumsGrow(flows, f, pairs[..k], m);
      BucketSumGrows(flows, f, pairs[k], m);
      assert pairs == pairs[..k] + [pairs[k]];
    }
  }

  /** The field of a record that sums `m`; the flow count sums ones. */
  function Total(r: Record, m: Measure): int {
    match m
    case PktsToServer => r.pktsToServer.sum
    case PktsToClient => r.pktsToClient.sum
    case BytesToServer => r.bytesToServer.sum
    case BytesToClient => r.bytesToClient.sum
    case One => r.flowCount
  }

  function Totals(records: seq<Record>, m: Measure): int {
    if records == [] then 0 else Totals(records[..|records| - 1], m) + Total(records[|records| - 1], m)
  }

  lemma {:induction false} TotalIsSum(ctx: Context, p: Pair, bucket: seq<Flow>, m: Measure)
    ensures Total(RecordOf(ctx, p, bucket), m) == Sum(bucket, m)
  {
    SumOfOnes(bucket);
  }

  lemma {:induction false} TotalsAreSums(ctx: Context, flows: seq<Flow>, pairs: seq<Pair>, records: seq<Record>,
                                         m: Measure)
    requires |records| == |pairs|
    requires forall i :: 0 <= i < |pairs| ==> records[i] == RecordOf(ctx, pairs[i], Bucket(flows, pairs[i]))
    ensures Totals(records, m) == BucketSums(flows, pairs, m)
  {
    hide RecordOf, Total, Sum;
    if pairs != [] {
      var k := |pairs| - 1;
      TotalsAreSums(ctx, flows, pairs[..k], records[..k], m);
      TotalIsSum(ctx, pairs[k], Bucket(flows, pairs[k]), m);
    }
  }

  /** The records' totals add up to the totals of the flows that have both addresses: nothing is
      lost and nothing counted twice. With the measure One this is the number of flows. */
  lemma {:induction false} TotalsConserved(ctx: Context, flows: seq<Flow>, m: Measure)
    ensures Totals(Aggregate(ctx, flows), m) == Sum(CountedOnly(flows), m)
  {
    TotalsAreSums(ctx, flows, Pairs(flows), Aggregate(ctx, flows), m);
    BucketSumsConserved(flows, m);
  }

  lemma {:induction false} BucketSumsConserved(flows: seq<Flow>, m: Measure)
    ensures BucketSums(flows, Pairs(flows), m) == Sum(CountedOnly(flows), m)
  {
    hide Bucket, Sum;
    if flows == [] {
      assert Sum([], m) == 0 by { SumOfNone(m); }
    } else {
      var n := |flows| - 1;
      var past, f, pairs := flows[..n], flows[n], Pairs(flows[..n]);
      assert flows == past + [f];
      BucketSumsConserved(past, m);
      PairsHold(past);
      SumSnoc(CountedOnly(past), f, m);
      assert CountedOnly(past) + [] == CountedOnly(past);
      BucketSumsGrow(past, f, pairs, m);
      if Counted(f) && PairOf(f) !in pairs {
        var p := PairOf(f);
        assert Pairs(flows) == pairs + [p] && (pairs + [p])[..|pairs|] == pairs;
        assert Bucket(past, p) == [];
        BucketSumGrows(past, f, p, m);
        SumOfNone(m);
      }
    }
  }

  lemma SumOfNone(m: Measure)
    ensures Sum([], m) == 0
  {
  }

  lemma {:induction false} SumOfOnes(flows: seq<Flow>)
    ensures Sum(flows, One) == |flows|
  {
    if flows != [] {
      SumOfOnes(flows[..|flows| - 1]);
    }
  }

  // ---- Homomorphism --------------------------------------------------------------------------

  function Join(a: Volume, b: Volume): Volume {
    Volume(a.sum + b.sum, Max(a.max, b.max))
  }

  /** Two records of one pair made into the record of both windows' flows. */
  function Combine(a: Record, b: Record): Record {
    a.(flowCount := a.flowCount + b.flowCount, tcpCount := a.tcpCount + b.tcpCount, udpCount := a.udpCount + b.udpCount,
       pktsToServer := Join(a.pktsToServer, b.pktsToServer), pktsToClient := Join(a.pktsToClient, b.pktsToClient),
       bytesToServer := Join(a.bytesToServer, b.bytesToServer), bytesToClient := Join(a.bytesToClient, b.bytesToClient),
       ports := Numbers((set x | x in a.ports) + set x | x in b.ports),
       appProtos := SortedTexts((set x | x in a.appProtos) + set x | x in b.appProtos),
       states := SortedTexts((set x | x in a.states) + set x | x in b.states),
       flowIds := a.flowIds + b.flowIds)
  }

  lemma {:induction false} BucketAppend(a: seq<Flow>, b: seq<Flow>, p: Pair)
    ensures Bucket(a + b, p) == Bucket(a, p) + Bucket(b, p)
    decreases |b|
  {
    if b == [] {
      assert a + b == a;
    } else {
      var n := |b| - 1;
      assert (a + b)[..|a + b| - 1] == a + b[..n];
      BucketAppend(a, b[..n], p);
    }
  }

  lemma {:induction false} VolumeAppend(a: seq<Flow>, b: seq<Flow>, m: Measure)
    requires a != [] && b != []
    ensures VolumeOf(a + b, m) == Join(VolumeOf(a, m), VolumeOf(b, m))
    decreases |b|
  {
    var n := |b| - 1;
    assert (a + b)[..|a + b| - 1] == a + b[..n];
    assert (a + b)[|a + b| - 1] == b[n];
    if n == 0 {
      assert a + b[..n] == a && b == [b[0]];
      assert Sum(b, m) == Sum(b[..0], m) + Of(m, b[0]) && Sum(b[..0], m) == 0;
      assert Largest(b, m) == Of(m, b[0]);
    } else {
      VolumeAppend(a, b[..n], m);
    }
  }

  lemma {:induction false} CountsAppend(a: seq<Flow>, b: seq<Flow>)
    ensures Tcp(a + b) == Tcp(a) + Tcp(b) && Udp(a + b) == Udp(a) + Udp(b) && Ids(a + b) == Ids(a) + Ids(b)
    decreases |b|
  {
    if b == [] {
      assert a + b == a;
    } else {
      var n := |b| - 1;
      assert (a + b)[..|a + b| - 1] == a + b[..n];
      CountsAppend(a, b[..n]);
    }
  }

  lemma {:induction false} SetsAppend(a: seq<Flow>, b: seq<Flow>)
    ensures PortSet(a + b) == PortSet(a) + PortSet(b)
    ensures AppSet(a + b) == AppSet(a) + AppSet(b)
    ensures StateSet(a + b) == StateSet(a) + StateSet(b)
  {
    forall f ensures f in a + b <==> f in a || f in b {
    }
  }

  lemma {:induction false} SortedMembers(numbers: set<int>, texts: set<string>)
    ensures (set x | x in Numbers(numbers)) == numbers
    ensures (set x | x in SortedTexts(texts)) == texts
  {
  }

  /** The record of a pair over two windows' flows is the combination of its records in each. */
  lemma {:induction false} RecordAppend(ctx: Context, p: Pair, a: seq<Flow>, b: seq<Flow>)
    requires a != [] && b != []
    ensures RecordOf(ctx, p, a + b) == Combine(RecordOf(ctx, p, a), RecordOf(ctx, p, b))
  {
    forall m ensures VolumeOf(a + b, m) == Join(VolumeOf(a, m), VolumeOf(b, m)) {
      VolumeAppend(a, b, m);
    }
    CountsAppend(a, b);
    SetsAppend(a, b);
    SortedMembers(PortSet(a), AppSet(a));
    SortedMembers(PortSet(b), AppSet(b));
    SortedMembers({}, StateSet(a));
    SortedMembers({}, StateSet(b));
  }

  /** The records of a window by pair. */
  function ByPair(ctx: Context, flows: seq<Flow>): map<Pair, Record> {
    map p | p in Pairs(flows) :: RecordOf(ctx, p, Bucket(flows, p))
  }

  /** Aggregating two windows' flows together is combining their records pair by pair. */
  lemma {:induction false} AggregateAppend(ctx: Context, a: seq<Flow>, b: seq<Flow>, p: Pair)
    ensures p in ByPair(ctx, a + b) <==> p in ByPair(ctx, a) || p in ByPair(ctx, b)
    ensures p in ByPair(ctx, a + b) ==>
              ByPair(ctx, a + b)[p] ==
              if p !in ByPair(ctx, b) then ByPair(ctx, a)[p]
              else if p !in ByPair(ctx, a) then ByPair(ctx, b)[p]
              else Combine(ByPair(ctx, a)[p], ByPair(ctx, b)[p])
  {
    hide RecordOf, Combine;
    PairsHold(a);
    PairsHold(b);
    PairsHold(a + b);
    BucketAppend(a, b, p);
    if p in Pairs(a) && p in Pairs(b) {
      RecordAppend(ctx, p, Bucket(a, p), Bucket(b, p));
    } else if p in Pairs(a) {
      assert Bucket(a, p) + Bucket(b, p) == Bucket(a, p);
    } else if p in Pairs(b) {
      assert Bucket(a, p) + Bucket(b, p) == Bucket(b, p);
    }
  }

  // ---- Order of the flows ----------------------------------------------------------------------

  /** Equal records, but for the order of their flow ids. */
  predicate SameButIdOrder(a: Record, b: Record) {
    a.(flowIds := []) == b.(flowIds := []) && multiset(a.flowIds) == multiset(b.flowIds)
  }

  /** What a record does not take from its flows. */
  lemma SameHead(ctx: Context, p: Pair, a: seq<Flow>, b: seq<Flow>)
    ensures var x, y := RecordOf(ctx, p, a), RecordOf(ctx, p, b);
            && x.pair == y.pair && x.windowStart == y.windowStart && x.windowEnd == y.windowEnd
            && x.srcZone == y.srcZone && x.destZone == y.destZone
  {
  }

  lemma {:induction false} CombineSwaps(x: Record, y: Record)
    requires x.pair == y.pair && x.windowStart == y.windowStart && x.windowEnd == y.windowEnd
    requires x.srcZone == y.srcZone && x.destZone == y.destZone
    ensures SameButIdOrder(Combine(x, y), Combine(y, x))
  {
    assert (set v | v in x.ports) + (set v | v in y.ports) == (set v | v in y.ports) + (set v | v in x.ports);
    assert (set v | v in x.appProtos) + (set v | v in y.appProtos)
           == (set v | v in y.appProtos) + (set v | v in x.appProtos);
    assert (set v | v in x.states) + (set v | v in y.states) == (set v | v in y.states) + (set v | v in x.states);
  }

  lemma {:induction false} SwapHalves(ctx: Context, p: Pair, a: seq<Flow>, b: seq<Flow>)
    ensures SameButIdOrder(RecordOf(ctx, p, a + b), RecordOf(ctx, p, b + a))
  {
    hide RecordOf, Combine, SameButIdOrder;
    if a == [] || b == [] {
      SameRefl(RecordOf(ctx, p, a + b));
      assert a + b == b + a;
    } else {
      RecordAppend(ctx, p, a, b);
      RecordAppend(ctx, p, b, a);
      SameHead(ctx, p, a, b);
      CombineSwaps(RecordOf(ctx, p, a), RecordOf(ctx, p, b));
    }
  }

  lemma {:induction false} SameCongruent(ctx: Context, p: Pair, a: seq<Flow>, b: seq<Flow>, c: seq<Flow>)
    requires (a == []) == (b == []) && SameButIdOrder(RecordOf(ctx, p, a), RecordOf(ctx, p, b))
    ensures SameButIdOrder(RecordOf(ctx, p, a + c), RecordOf(ctx, p, b + c))
  {
    hide RecordOf;
    if a == [] || c == [] {
      assert a + c == (if a == [] then c else a) && b + c == (if a == [] then c else b);
    } else {
      RecordAppend(ctx, p, a, c);
      RecordAppend(ctx, p, b, c);
    }
  }

  /** A bucket's record does not depend on the order of its flows, but for the order of flow ids. */
  lemma {:induction false} OrderUnseen(ctx: Context, p: Pair, a: seq<Flow>, b: seq<Flow>)
    requires multiset(a) == multiset(b)
    ensures SameButIdOrder(RecordOf(ctx, p, a), RecordOf(ctx, p, b))
    decreases |a|
  {
    hide RecordOf, SameButIdOrder;
    if a == [] {
      assert |multiset(b)| == 0 && b == [];
      SwapHalves(ctx, p, a, []);
      assert a + [] == a && [] + a == a;
    } else {
      var a', f, left, right := TakeOut(a, b);
      var b' := left + right;
      OrderUnseen(ctx, p, a', b');
      assert |multiset(a')| == |multiset(b')|;
      SameCongruent(ctx, p, a', b', [f]);
      MoveToEnd(ctx, p, left, f, right);
      SameTransitive(RecordOf(ctx, p, a), RecordOf(ctx, p, b' + [f]), RecordOf(ctx, p, b));
    }
  }

  lemma BagWithout(a: multiset<Flow>, b: multiset<Flow>, x: multiset<Flow>, f: Flow)
    requires a + multiset{f} == b && x + multiset{f} == b
    ensures a == x
  {
    assert a == b - multiset{f} && x == b - multiset{f};
  }

  lemma BagOfParts(left: seq<Flow>, f: Flow, right: seq<Flow>)
    ensures multiset(left + [f] + right) == multiset(left + right) + multiset{f}
  {
    assert multiset(left + [f] + right) == multiset(left) + multiset([f]) + multiset(right);
    assert multiset(left + right) == multiset(left) + multiset(right);
  }

  /** The last flow of one order, and where another order has it. */
  lemma TakeOut(a: seq<Flow>, b: seq<Flow>)
    returns (a': seq<Flow>, f: Flow, left: seq<Flow>, right: seq<Flow>)
    requires a != [] && multiset(a) == multiset(b)
    ensures a == a' + [f] && b == left + [f] + right
    ensures multiset(a') == multiset(left + right)
  {
    var n := |a| - 1;
    a', f := a[..n], a[n];
    assert a == a' + [f] + [] && a' + [] == a';
    assert f in multiset(b);
    var i :| 0 <= i < |b| && b[i] == f;
    left, right := b[..i], b[i + 1..];
    assert b == left + [f] + right;
    BagOfParts(a', f, []);
    BagOfParts(left, f, right);
    BagWithout(multiset(a'), multiset(b), multiset(left + right), f);
  }

  lemma SameRefl(a: Record)
    ensures SameButIdOrder(a, a)
  {
  }

  lemma SameTransitive(a: Record, b: Record, c: Record)
    requires SameButIdOrder(a, b) && SameButIdOrder(b, c)
    ensures SameButIdOrder(a, c)
  {
  }

  lemma {:induction false} MoveToEnd(ctx: Context, p: Pair, left: seq<Flow>, f: Flow, right: seq<Flow>)
    ensures SameButIdOrder(RecordOf(ctx, p, left + right + [f]), RecordOf(ctx, p, left + [f] + right))
  {
    hide RecordOf, SameButIdOrder;
    // left ++ right ++ f  ~  right ++ f ++ left  ~  f ++ right ... each step swaps halves or extends.
    var x := right + [f];
    SwapHalves(ctx, p, left, x);
    assert left + x == left + right + [f];
    SwapHalves(ctx, p, right, [f]);
    SameCongruent(ctx, p, x, [f] + right, left);
    SwapHalves(ctx, p, [f] + right, left);
    assert left + ([f] + right) == left + [f] + right;
    SameTransitive(RecordOf(ctx, p, left + x), RecordOf(ctx, p, x + left), RecordOf(ctx, p, [f] + right + left));
    SameTransitive(RecordOf(ctx, p, left + x), RecordOf(ctx, p, [f] + right + left),
                   RecordOf(ctx, p, left + ([f] + right)));
  }

  /** Aggregating does not depend on the order in which a window's flows came: the same pairs, and for each
      the same record but for the order of its flow ids. */
  lemma AggregateOrderUnseen(ctx: Context, a: seq<Flow>, b: seq<Flow>)
    requires multiset(a) == multiset(b)
    ensures ByPair(ctx, a).Keys == ByPair(ctx, b).Keys
    ensures forall p :: p in ByPair(ctx, a) ==> SameButIdOrder(ByPair(ctx, a)[p], ByPair(ctx, b)[p])
  {
    hide RecordOf, SameButIdOrder, Bucket, Pairs;
    forall p ensures multiset(Bucket(a, p)) == multiset(Bucket(b, p)) {
      forall f ensures multiset(Bucket(a, p))[f] == multiset(Bucket(b, p))[f] {
        BucketCounts(a, p, f);
        BucketCounts(b, p, f);
      }
    }
    PairsHold(a);
    PairsHold(b);
    forall p ensures p in Pairs(a) <==> p in Pairs(b) {
      assert |multiset(Bucket(a, p))| == |Bucket(a, p)| && |multiset(Bucket(b, p))| == |Bucket(b, p)|;
    }
    forall p | p in ByPair(ctx, a) ensures SameButIdOrder(ByPair(ctx, a)[p], ByPair(ctx, b)[p]) {
      OrderUnseen(ctx, p, Bucket(a, p), Bucket(b, p));
    }
  }
}
