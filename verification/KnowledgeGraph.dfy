/** Loading kill chains and the policy matrix into a property graph, and rebuilding them from rows
    that the graph returns in no fixed order. */
module KnowledgeGraph {
  import opened Sorting

  datatype Stage = Stage(number: int, tactic: string, signals: seq<int>, indicators: string, fpSources: seq<string>)

  datatype About = About(description: string, dwell: string, intervention: string, containment: string)

  datatype Chain = Chain(name: string, about: About, stages: seq<Stage>)

  /** An EXPECTED_IN edge is identified by its ends and its stage number. */
  datatype EdgeKey = EdgeKey(sid: int, chain: string, stage: int)

  datatype EdgeProps = EdgeProps(tactic: string, indicators: string, fpSources: seq<string>)

  /** The nodes and edges a reload leaves behind, on a graph that has been wiped. */
  datatype Graph = Graph(sids: set<int>, chains: map<string, About>, edges: map<EdgeKey, EdgeProps>)

  datatype Row = Row(key: EdgeKey, props: EdgeProps)

  // ---- Writing -----------------------------------------------------------------------

  function MergeChain(g: Graph, c: Chain): Graph {
    g.(chains := g.chains[c.name := c.about])
  }

  /** Matches both ends, then merges the edge and sets its properties; without both ends, nothing. */
  function MergeSignal(g: Graph, chain: string, st: Stage, sid: int): Graph {
    if sid in g.sids && chain in g.chains then
      g.(edges := g.edges[EdgeKey(sid, chain, st.number) := EdgeProps(st.tactic, st.indicators, st.fpSources)])
    else g
  }

  function MergeSignals(g: Graph, chain: string, st: Stage, signals: seq<int>): Graph {
    if signals == [] then g
    else
      var n := |signals| - 1;
      MergeSignal(MergeSignals(g, chain, st, signals[..n]), chain, st, signals[n])
  }

  function MergeStages(g: Graph, chain: string, stages: seq<Stage>): Graph {
    if stages == [] then g
    else
      var n := |stages| - 1;
      MergeSignals(MergeStages(g, chain, stages[..n]), chain, stages[n], stages[n].signals)
  }

  function Load(g: Graph, chains: seq<Chain>): Graph {
    if chains == [] then g
    else
      var n := |chains| - 1;
      var c := chains[n];
      MergeStages(MergeChain(Load(g, chains[..n]), c), c.name, c.stages)
  }

  function SignalCount(stages: seq<Stage>): nat {
    if stages == [] then 0 else SignalCount(stages[..|stages| - 1]) + |stages[|stages| - 1].signals|
  }

  function EdgeCount(chains: seq<Chain>): nat {
    if chains == [] then 0 else EdgeCount(chains[..|chains| - 1]) + SignalCount(chains[|chains| - 1].stages)
  }

  lemma {:induction false} TakeTake<T>(s: seq<T>, n: nat)
    requires n < |s|
    ensures s[..n + 1][..n] == s[..n] && s[..n + 1][n] == s[n]
  {
  }

  class Loader {
    var graph: Graph

    /** The nested loops of a reload; the edge count goes up for every signal, whether or not its
        ends were found or its edge was there already. */
    method LoadKillChains(chains: seq<Chain>) returns (nodes: nat, edges: nat)
      modifies this
      ensures graph == Load(old(graph), chains)
      ensures nodes == |chains| && edges == EdgeCount(chains)
    {
      nodes, edges := 0, 0;
      for i := 0 to |chains|
        invariant graph == Load(old(graph), chains[..i])
        invariant nodes == i && edges == EdgeCount(chains[..i])
      {
        var c := chains[i];
        TakeTake(chains, i);
        graph := MergeChain(graph, c);
        nodes := nodes + 1;
        var added := LoadStages(c);
        edges := edges + added;
      }
      assert chains[..|chains|] == chains;
    }

    method LoadStages(c: Chain) returns (edges: nat)
      modifies this
      ensures graph == MergeStages(old(graph), c.name, c.stages)
      ensures edges == SignalCount(c.stages)
    {
      edges := 0;
      for j := 0 to |c.stages|
        invariant graph == MergeStages(old(graph), c.name, c.stages[..j])
        invariant edges == SignalCount(c.stages[..j])
      {
        var st := c.stages[j];
        TakeTake(c.stages, j);
        ghost var before := graph;
        for k := 0 to |st.signals|
          invariant graph == MergeSignals(before, c.name, st, st.signals[..k])
          invariant edges == SignalCount(c.stages[..j]) + k
        {
          TakeTake(st.signals, k);
          graph := MergeSignal(graph, c.name, st, st.signals[k]);
          edges := edges + 1;
        }
        assert st.signals[..|st.signals|] == st.signals;
      }
      assert c.stages[..|c.stages|] == c.stages;
    }
  }

  // ---- What a load leaves in the graph ---------------------------------------------------

  function PropsOf(st: Stage): EdgeProps {
    EdgeProps(st.tactic, st.indicators, st.fpSources)
  }

  /** `key` is a signal of `st`, whatever its chain. */
  predicate InStage(st: Stage, key: EdgeKey) {
    st.number == key.stage && key.sid in st.signals
  }

  /** `key` is a signal of stage `j`. */
  predicate InStages(stages: seq<Stage>, j: int, key: EdgeKey) {
    0 <= j < |stages| && InStage(stages[j], key)
  }

  predicate DistinctNumbers(stages: seq<Stage>) {
    forall x, y :: 0 <= x < y < |stages| ==> stages[x].number != stages[y].number
  }

  predicate DistinctNames(chains: seq<Chain>) {
    forall x, y :: 0 <= x < y < |chains| ==> chains[x].name != chains[y].name
  }

  lemma {:induction false} SignalsMerged(g: Graph, chain: string, st: Stage, signals: seq<int>, k: EdgeKey)
    requires chain in g.chains
    ensures var h := MergeSignals(g, chain, st, signals);
            var hit := k.chain == chain && k.stage == st.number && k.sid in signals && k.sid in g.sids;
            && h.sids == g.sids && h.chains == g.chains
            && (k in h.edges <==> hit || k in g.edges)
            && (k in h.edges ==> h.edges[k] == if hit then PropsOf(st) else g.edges[k])
    decreases |signals|
  {
    if signals != [] {
      var n := |signals| - 1;
      SignalsMerged(g, chain, st, signals[..n], k);
      assert signals == signals[..n] + [signals[n]];
    }
  }

  lemma {:induction false} StagesMerged(g: Graph, chain: string, stages: seq<Stage>, k: EdgeKey)
    requires chain in g.chains
    ensures var h := MergeStages(g, chain, stages);
            var hit := k.chain == chain && k.sid in g.sids && exists j :: InStages(stages, j, k);
            && h.sids == g.sids && h.chains == g.chains
            && (k in h.edges <==> hit || k in g.edges)
            && (k in h.edges && !hit ==> h.edges[k] == g.edges[k])
            && (hit && DistinctNumbers(stages) ==>
                  forall j :: InStages(stages, j, k) ==> h.edges[k] == PropsOf(stages[j]))
    decreases |stages|
  {
    if stages != [] {
      var n := |stages| - 1;
      var mid := MergeStages(g, chain, stages[..n]);
      StagesMerged(g, chain, stages[..n], k);
      SignalsMerged(mid, chain, stages[n], stages[n].signals, k);
      forall j ensures InStages(stages, j, k) <==>
                       InStages(stages[..n], j, k) || (j == n && InStage(stages[n], k)) {
      }
      if InStage(stages[n], k) {
        assert InStages(stages, n, k);
      }
      if DistinctNumbers(stages) {
        assert DistinctNumbers(stages[..n]);
        forall j | InStages(stages[..n], j, k) ensures !InStage(stages[n], k) {
          assert stages[j].number != stages[n].number;
        }
      }
    }
  }

  /** `key` is a signal of stage `j` of chain `i`. */
  predicate InChains(chains: seq<Chain>, i: int, j: int, key: EdgeKey) {
    0 <= i < |chains| && chains[i].name == key.chain && InStages(chains[i].stages, j, key)
  }

  predicate Named(chains: seq<Chain>, i: int, name: string) {
    0 <= i < |chains| && chains[i].name == name
  }

  lemma {:induction false} LoadedChains(sids: set<int>, chains: seq<Chain>, name: string)
    ensures var h := Load(Graph(sids, map[], map[]), chains);
            && h.sids == sids
            && (name in h.chains <==> exists i :: Named(chains, i, name))
            && (DistinctNames(chains) ==>
                  forall i :: Named(chains, i, name) ==> name in h.chains && h.chains[name] == chains[i].about)
    decreases |chains|
  {
    if chains != [] {
      var n := |chains| - 1;
      var mid := MergeChain(Load(Graph(sids, map[], map[]), chains[..n]), chains[n]);
      LoadedChains(sids, chains[..n], name);
      StagesMerged(mid, chains[n].name, chains[n].stages, EdgeKey(0, "", 0));
      forall i ensures Named(chains, i, name) <==> Named(chains[..n], i, name) || (i == n && chains[n].name == name) {
      }
      if chains[n].name == name {
        assert Named(chains, n, name);
      }
      if DistinctNames(chains) {
        assert DistinctNames(chains[..n]);
      }
    }
  }

  lemma {:induction false} LoadedEdges(sids: set<int>, chains: seq<Chain>, k: EdgeKey)
    ensures var h := Load(Graph(sids, map[], map[]), chains);
            && (k in h.edges <==> k.sid in sids && exists i, j :: InChains(chains, i, j, k))
            && (DistinctNames(chains) && (forall c :: c in chains ==> DistinctNumbers(c.stages)) && k in h.edges ==>
                  forall i, j :: InChains(chains, i, j, k) ==> h.edges[k] == PropsOf(chains[i].stages[j]))
    decreases |chains|
  {
    if chains != [] {
      var n := |chains| - 1;
      var last := chains[n];
      var mid := MergeChain(Load(Graph(sids, map[], map[]), chains[..n]), last);
      LoadedEdges(sids, chains[..n], k);
      LoadedChains(sids, chains[..n], k.chain);
      StagesMerged(mid, last.name, last.stages, k);
      forall i, j ensures InChains(chains, i, j, k) <==>
                          InChains(chains[..n], i, j, k)
                          || (i == n && last.name == k.chain && InStages(last.stages, j, k)) {
      }
      forall j | InStages(last.stages, j, k) && last.name == k.chain ensures InChains(chains, n, j, k) {
      }
      if DistinctNames(chains) && forall c :: c in chains ==> DistinctNumbers(c.stages) {
        assert DistinctNames(chains[..n]) && last in chains;
        assert forall c :: c in chains[..n] ==> c in chains;
        forall i, j | InChains(chains[..n], i, j, k) ensures last.name != k.chain {
          assert chains[i].name != chains[n].name;
        }
      }
    }
  }

  /** No later stage of the chain has the same number and signal. */
  predicate LastStage(stages: seq<Stage>, j: int, k: EdgeKey) {
    InStages(stages, j, k) && forall j' :: j < j' < |stages| ==> !InStages(stages, j', k)
  }

  /** No later chain of that name has the signal in a stage of that number. */
  ghost predicate LastChain(chains: seq<Chain>, i: int, j: int, k: EdgeKey) {
    && InChains(chains, i, j, k) && LastStage(chains[i].stages, j, k)
    && forall i', j' :: i < i' < |chains| ==> !InChains(chains, i', j', k)
  }

  lemma {:induction false} LastStageMerged(g: Graph, chain: string, stages: seq<Stage>, j: int, k: EdgeKey)
    requires chain in g.chains && chain == k.chain && k.sid in g.sids && LastStage(stages, j, k)
    ensures var h := MergeStages(g, chain, stages);
            k in h.edges && h.edges[k] == EdgeProps(stages[j].tactic, stages[j].indicators, stages[j].fpSources)
    decreases |stages|
  {
    var n := |stages| - 1;
    var mid := MergeStages(g, chain, stages[..n]);
    StagesMerged(g, chain, stages[..n], k);
    SignalsMerged(mid, chain, stages[n], stages[n].signals, k);
    if j < n {
      assert InStages(stages[..n], j, k);
      forall j' | j < j' < |stages[..n]| ensures !InStages(stages[..n], j', k) {
        assert !InStages(stages, j', k);
      }
      LastStageMerged(g, chain, stages[..n], j, k);
      assert !InStages(stages, n, k);
    }
  }

  /** Of several stages that write one edge the last one to be loaded settles it. */
  lemma {:induction false} LastOneSettles(sids: set<int>, chains: seq<Chain>, i: int, j: int, k: EdgeKey)
    requires k.sid in sids && LastChain(chains, i, j, k)
    ensures var h, st := Load(Graph(sids, map[], map[]), chains), chains[i].stages[j];
            k in h.edges && h.edges[k] == EdgeProps(st.tactic, st.indicators, st.fpSources)
    decreases |chains|
  {
    hide LastStage, MergeStages, InStages;
    var n := |chains| - 1;
    var last := chains[n];
    var mid := MergeChain(Load(Graph(sids, map[], map[]), chains[..n]), last);
    LoadedChains(sids, chains[..n], k.chain);
    StagesMerged(mid, last.name, last.stages, k);
    if i == n {
      LastStageMerged(mid, last.name, last.stages, j, k);
    } else {
      forall i', j' | i < i' < |chains[..n]| ensures !InChains(chains[..n], i', j', k) {
        assert !InChains(chains, i', j', k);
      }
      assert LastChain(chains[..n], i, j, k);
      LastOneSettles(sids, chains[..n], i, j, k);
      forall j' | InStages(last.stages, j', k) ensures last.name != k.chain {
        assert !InChains(chains, n, j', k);
      }
    }
  }

  /** And of several chains of one name the last one describes the node. */
  lemma {:induction false} LastOneDescribes(sids: set<int>, chains: seq<Chain>, i: nat)
    requires i < |chains| && forall i' :: i < i' < |chains| ==> chains[i'].name != chains[i].name
    ensures var h := Load(Graph(sids, map[], map[]), chains);
            chains[i].name in h.chains && h.chains[chains[i].name] == chains[i].about
    decreases |chains|
  {
    hide MergeStages;
    var n := |chains| - 1;
    var mid := MergeChain(Load(Graph(sids, map[], map[]), chains[..n]), chains[n]);
    StagesMerged(mid, chains[n].name, chains[n].stages, EdgeKey(0, "", 0));
    if i < n {
      assert forall i' :: i < i' < n ==> chains[..n][i'] == chains[i'];
      LastOneDescribes(sids, chains[..n], i);
    }
  }

  /** The edge count is the number of signals written in all stages of all chains. */
  lemma {:induction false} EdgeCountIs(a: seq<Chain>, b: seq<Chain>, name: string, about: About,
                                       stages: seq<Stage>, st: Stage)
    ensures EdgeCount(a + b) == EdgeCount(a) + EdgeCount(b)
    ensures EdgeCount([Chain(name, about, stages + [st])]) == EdgeCount([Chain(name, about, stages)]) + |st.signals|
    ensures EdgeCount([Chain(name, about, [])]) == 0
    decreases |b|
  {
    assert (stages + [st])[..|stages|] == stages;
    var one, more := [Chain(name, about, stages)], [Chain(name, about, stages + [st])];
    assert one[..0] == [] && more[..0] == [] && [Chain(name, about, [])][..0] == [];
    if b == [] {
      assert a + b == a;
    } else {
      var n := |b| - 1;
      assert (a + b)[..|a + b| - 1] == a + b[..n];
      EdgeCountIs(a, b[..n], name, about, stages, st);
    }
  }

  // ---- Reading ---------------------------------------------------------------------------

  type Stages = map<int, Stage>

  /** The grouping of rows by chain, then by stage number, as the reader's loop fills it. */
  function Group(rows: seq<Row>): map<string, Stages> {
    if rows == [] then map[]
    else
      var n := |rows| - 1;
      AddRow(Group(rows[..n]), rows[n])
  }

  function AddRow(grouped: map<string, Stages>, row: Row): map<string, Stages> {
    var k := row.key;
    var stages := if k.chain in grouped then grouped[k.chain] else map[];
    var st := if k.stage in stages then stages[k.stage]
              else Stage(k.stage, row.props.tactic, [], row.props.indicators, row.props.fpSources);
    grouped[k.chain := stages[k.stage := st.(signals := st.signals + [k.sid])]]
  }

  /** The stages of one chain, each with its signals sorted, in the order of their numbers. */
  function Assemble(stages: Stages, numbers: seq<int>): seq<Stage>
    requires forall i :: 0 <= i < |numbers| ==> numbers[i] in stages
  {
    if numbers == [] then []
    else
      var st := stages[numbers[0]];
      [st.(signals := Sort(st.signals))] + Assemble(stages, numbers[1..])
  }

  datatype Node = Node(name: string, about: About)

  function Rebuild(grouped: map<string, Stages>, node: Node): Chain {
    var stages := if node.name in grouped then grouped[node.name] else map[];
    Chain(node.name, node.about, Assemble(stages, Numbers(stages.Keys)))
  }

  function Read(nodes: seq<Node>, rows: seq<Row>): seq<Chain> {
    seq(|nodes|, i requires 0 <= i < |nodes| => Rebuild(Group(rows), nodes[i]))
  }

  /** The reader's loops: rows are grouped as they come, then every chain node is completed. */
  method ReadKillChains(nodes: seq<Node>, rows: seq<Row>) returns (chains: seq<Chain>)
    ensures chains == Read(nodes, rows)
  {
    var grouped: map<string, Stages> := map[];
    for i := 0 to |rows|
      invariant grouped == Group(rows[..i])
    {
      TakeTake(rows, i);
      var k, props := rows[i].key, rows[i].props;
      ghost var before := grouped;
      if k.chain !in grouped {
        grouped := grouped[k.chain := map[]];
      }
      var stages := grouped[k.chain];
      ghost var known := stages;
      if k.stage !in stages {
        stages := stages[k.stage := Stage(k.stage, props.tactic, [], props.indicators, props.fpSources)];
      }
      var st := stages[k.stage];
      stages := stages[k.stage := st.(signals := st.signals + [k.sid])];
      assert stages == known[k.stage := st.(signals := st.signals + [k.sid])];
      grouped := grouped[k.chain := stages];
      assert grouped == before[k.chain := stages] == AddRow(before, rows[i]);
    }
    assert rows[..|rows|] == rows;
    chains := [];
    for i := 0 to |nodes|
      invariant |chains| == i && forall x :: 0 <= x < i ==> chains[x] == Rebuild(Group(rows), nodes[x])
    {
      chains := chains + [Rebuild(grouped, nodes[i])];
    }
  }

  // ---- Rows in any order --------------------------------------------------------------------

  predicate DistinctKeys(rows: seq<Row>) {
    forall i, j :: 0 <= i < j < |rows| ==> rows[i].key != rows[j].key
  }

  /** `rows` are the edges, each once, in some order. */
  ghost predicate RowsOf(rows: seq<Row>, edges: map<EdgeKey, EdgeProps>) {
    DistinctKeys(rows) && forall r :: r in rows <==> r.key in edges && r.props == edges[r.key]
  }

  /** `nodes` are the chain nodes, each once, in some order. */
  ghost predicate NodesOf(nodes: seq<Node>, chains: map<string, About>) {
    && (forall i, j :: 0 <= i < j < |nodes| ==> nodes[i].name != nodes[j].name)
    && forall node :: node in nodes <==> node.name in chains && node.about == chains[node.name]
  }

  predicate HasStage(grouped: map<string, Stages>, chain: string, number: int) {
    chain in grouped && number in grouped[chain]
  }

  /** The rows of one stage of one chain, in the order they came. */
  function Matching(rows: seq<Row>, chain: string, number: int): seq<Row> {
    if rows == [] then []
    else
      var n := |rows| - 1;
      Matching(rows[..n], chain, number) +
      if rows[n].key.chain == chain && rows[n].key.stage == number then [rows[n]] else []
  }

  function Sids(rows: seq<Row>): seq<int> {
    seq(|rows|, i requires 0 <= i < |rows| => rows[i].key.sid)
  }

  function StageOf(rows: seq<Row>, number: int): Stage
    requires rows != []
  {
    Stage(number, rows[0].props.tactic, Sids(rows), rows[0].props.indicators, rows[0].props.fpSources)
  }

  /** A stage comes out of the grouping exactly when some row names it, made of those rows. */
  lemma {:induction false} GroupIs(rows: seq<Row>, chain: string, number: int)
    ensures HasStage(Group(rows), chain, number) <==> Matching(rows, chain, number) != []
    ensures HasStage(Group(rows), chain, number) ==>
              Group(rows)[chain][number] == StageOf(Matching(rows, chain, number), number)
  {
    if rows != [] {
      var n := |rows| - 1;
      var last, past := rows[n], Matching(rows[..n], chain, number);
      GroupIs(rows[..n], chain, number);
      assert Sids(past + [last]) == Sids(past) + [last.key.sid];
    }
  }

  /** The row names the stage. */
  predicate Names(row: Row, chain: string, number: int) {
    row.key.chain == chain && row.key.stage == number
  }

  /** The first row that names a stage gives it everything but its signals; every row that names it, and no other,
      gives it a signal. */
  lemma {:induction false} FirstRowGives(rows: seq<Row>, chain: string, number: int, i: nat)
    requires i < |rows| && Names(rows[i], chain, number)
    requires forall j :: 0 <= j < i ==> !Names(rows[j], chain, number)
    ensures HasStage(Group(rows), chain, number)
    ensures var st := Group(rows)[chain][number];
            && st.number == number && st.tactic == rows[i].props.tactic
            && st.indicators == rows[i].props.indicators && st.fpSources == rows[i].props.fpSources
            && forall sid :: sid in st.signals <==>
                 exists row :: row in rows && Names(row, chain, number) && row.key.sid == sid
  {
    hide Group, Matching;
    var matching := Matching(rows, chain, number);
    GroupIs(rows, chain, number);
    FirstMatching(rows, chain, number, i);
    forall row ensures row in matching <==> row in rows && Names(row, chain, number) {
      InMatching(rows, chain, number, row);
    }
    forall sid ensures sid in Sids(matching) <==> exists row :: row in matching && row.key.sid == sid {
      SidsOf(matching, sid);
    }
  }

  lemma {:induction false} FirstMatching(rows: seq<Row>, chain: string, number: int, i: nat)
    requires i < |rows| && Names(rows[i], chain, number)
    requires forall j :: 0 <= j < i ==> !Names(rows[j], chain, number)
    ensures Matching(rows, chain, number) != [] && Matching(rows, chain, number)[0] == rows[i]
  {
    var n := |rows| - 1;
    var past := Matching(rows[..n], chain, number);
    if i < n {
      FirstMatching(rows[..n], chain, number, i);
    } else {
      HeadOf(past);
      if past != [] {
        InMatching(rows[..n], chain, number, past[0]);
        assert false;
      }
    }
  }

  lemma SidsOf(rows: seq<Row>, sid: int)
    ensures sid in Sids(rows) <==> exists row :: row in rows && row.key.sid == sid
  {
    if sid in Sids(rows) {
      var i :| 0 <= i < |rows| && Sids(rows)[i] == sid;
      assert rows[i] in rows;
    }
    if row :| row in rows && row.key.sid == sid {
      var i :| 0 <= i < |rows| && rows[i] == row;
      assert Sids(rows)[i] == sid;
    }
  }

  lemma HeadOf(rows: seq<Row>)
    ensures rows != [] ==> rows[0] in rows
  {
  }

  lemma {:induction false} InMatching(rows: seq<Row>, chain: string, number: int, r: Row)
    ensures r in Matching(rows, chain, number) <==> r in rows && r.key.chain == chain && r.key.stage == number
  {
    if rows != [] {
      var n := |rows| - 1;
      InMatching(rows[..n], chain, number, r);
      assert r in rows <==> r in rows[..n] || r == rows[n];
    }
  }

  lemma {:induction false} MatchingHolds(rows: seq<Row>, chain: string, number: int)
    requires DistinctKeys(rows)
    ensures forall r :: r in Matching(rows, chain, number) <==>
                        r in rows && r.key.chain == chain && r.key.stage == number
    ensures Distinct(Sids(Matching(rows, chain, number)))
  {
    forall r ensures r in Matching(rows, chain, number) <==>
                     r in rows && r.key.chain == chain && r.key.stage == number {
      InMatching(rows, chain, number, r);
    }
    MatchingDistinct(rows, chain, number);
  }

  lemma {:induction false} MatchingDistinct(rows: seq<Row>, chain: string, number: int)
    requires DistinctKeys(rows)
    ensures Distinct(Sids(Matching(rows, chain, number)))
  {
    if rows != [] {
      var n := |rows| - 1;
      var last, past := rows[n], Matching(rows[..n], chain, number);
      MatchingDistinct(rows[..n], chain, number);
      if last.key.chain == chain && last.key.stage == number {
        forall i | 0 <= i < |past| ensures Sids(past)[i] != last.key.sid {
          InMatching(rows[..n], chain, number, past[i]);
          var x :| 0 <= x < n && rows[..n][x] == past[i];
          assert rows[x].key != rows[n].key;
        }
        assert Sids(past + [last]) == Sids(past) + [last.key.sid];
        assert Matching(rows, chain, number) == past + [last];
      } else {
        assert Matching(rows, chain, number) == past;
      }
    }
  }

  lemma {:induction false} AssembleAt(stages: Stages, numbers: seq<int>)
    requires forall i :: 0 <= i < |numbers| ==> numbers[i] in stages
    ensures |Assemble(stages, numbers)| == |numbers|
    ensures forall i :: 0 <= i < |numbers| ==>
              Assemble(stages, numbers)[i] == stages[numbers[i]].(signals := Sort(stages[numbers[i]].signals))
  {
    if numbers != [] {
      AssembleAt(stages, numbers[1..]);
    }
  }

  // ---- The round trip ---------------------------------------------------------------------

  predicate WellFormedStages(stages: seq<Stage>, sids: set<int>) {
    && (forall x, y :: 0 <= x < y < |stages| ==> stages[x].number < stages[y].number)
    && (forall j :: 0 <= j < |stages| ==>
          && stages[j].signals != [] && Ascending(stages[j].signals)
          && forall sid :: sid in stages[j].signals ==> sid in sids)
  }

  /** Distinct names; in each chain stage numbers that strictly increase; in each stage at least
      one signal, in strictly ascending order, and every signal in the catalogue. */
  predicate WellFormed(chains: seq<Chain>, sids: set<int>) {
    DistinctNames(chains) && forall i :: 0 <= i < |chains| ==> WellFormedStages(chains[i].stages, sids)
  }

  lemma {:induction false} RebuiltIsWellFormed(grouped: map<string, Stages>, rows: seq<Row>, node: Node, sids: set<int>)
    requires grouped == Group(rows) && DistinctKeys(rows)
    requires forall r :: r in rows ==> r.key.sid in sids
    ensures WellFormedStages(Rebuild(grouped, node).stages, sids)
  {
    var stages: Stages := if node.name in grouped then grouped[node.name] else map[];
    var numbers := Numbers(stages.Keys);
    AssembleAt(stages, numbers);
    var built := Assemble(stages, numbers);
    forall j | 0 <= j < |built|
      ensures built[j].number == numbers[j] && built[j].signals != [] && Ascending(built[j].signals)
      ensures forall sid :: sid in built[j].signals ==> sid in sids
    {
      assert numbers[j] in numbers;
      GroupIs(rows, node.name, numbers[j]);
      MatchingHolds(rows, node.name, numbers[j]);
      var matching := Matching(rows, node.name, numbers[j]);
      SortAscending(Sids(matching));
      assert Sids(matching)[0] in Sort(Sids(matching));
      forall sid | sid in built[j].signals ensures sid in sids {
        var i :| 0 <= i < |matching| && Sids(matching)[i] == sid;
        assert matching[i] in matching;
      }
    }
  }

  /** What reading returns is well formed, whatever was loaded. */
  lemma {:induction false} ReadIsWellFormed(sids: set<int>, chains: seq<Chain>, nodes: seq<Node>, rows: seq<Row>)
    requires NodesOf(nodes, Load(Graph(sids, map[], map[]), chains).chains)
    requires RowsOf(rows, Load(Graph(sids, map[], map[]), chains).edges)
    ensures WellFormed(Read(nodes, rows), sids)
  {
    forall r | r in rows ensures r.key.sid in sids {
      LoadedEdges(sids, chains, r.key);
    }
    forall i | 0 <= i < |nodes| ensures WellFormedStages(Read(nodes, rows)[i].stages, sids) {
      RebuiltIsWellFormed(Group(rows), rows, nodes[i], sids);
    }
  }

  /** The stage numbers of a chain, in its own order. */
  function StageNumbers(stages: seq<Stage>): seq<int> {
    seq(|stages|, j requires 0 <= j < |stages| => stages[j].number)
  }

  lemma SameName(chains: seq<Chain>, x: int, y: int)
    requires DistinctNames(chains) && 0 <= x < |chains| && 0 <= y < |chains|
    requires chains[x].name == chains[y].name
    ensures x == y
  {
  }

  lemma SameNumber(stages: seq<Stage>, sids: set<int>, x: int, y: int)
    requires WellFormedStages(stages, sids) && 0 <= x < |stages| && 0 <= y < |stages|
    requires stages[x].number == stages[y].number
    ensures x == y
  {
  }

  lemma {:induction false} LoadedEdgeOf(sids: set<int>, chains: seq<Chain>, i: int, j: int, sid: int)
    requires WellFormed(chains, sids) && 0 <= i < |chains| && 0 <= j < |chains[i].stages|
    ensures var edges := Load(Graph(sids, map[], map[]), chains).edges;
            var k := EdgeKey(sid, chains[i].name, chains[i].stages[j].number);
            && (k in edges <==> sid in chains[i].stages[j].signals)
            && (k in edges ==> edges[k] == PropsOf(chains[i].stages[j]))
  {
    var k := EdgeKey(sid, chains[i].name, chains[i].stages[j].number);
    LoadedEdges(sids, chains, k);
    forall c | c in chains ensures DistinctNumbers(c.stages) {
    }
    if sid in chains[i].stages[j].signals {
      assert InChains(chains, i, j, k);
    }
    forall i', j' | InChains(chains, i', j', k) ensures i' == i && j' == j {
      SameName(chains, i', i);
      SameNumber(chains[i].stages, sids, j', j);
    }
  }

  /** A stage of a well-formed chain is grouped from its rows, and sorting restores its signals. */
  lemma {:induction false} StageRestored(sids: set<int>, chains: seq<Chain>, rows: seq<Row>, i: int, j: int)
    requires WellFormed(chains, sids) && 0 <= i < |chains| && 0 <= j < |chains[i].stages|
    requires RowsOf(rows, Load(Graph(sids, map[], map[]), chains).edges)
    ensures var c := chains[i];
            && HasStage(Group(rows), c.name, c.stages[j].number)
            && var st := Group(rows)[c.name][c.stages[j].number];
               st.(signals := Sort(st.signals)) == c.stages[j]
  {
    var c, st, edges := chains[i], chains[i].stages[j], Load(Graph(sids, map[], map[]), chains).edges;
    var matching := Matching(rows, c.name, st.number);
    GroupIs(rows, c.name, st.number);
    MatchingHolds(rows, c.name, st.number);
    forall sid ensures sid in Sids(matching) <==> sid in st.signals {
      LoadedEdgeOf(sids, chains, i, j, sid);
      var k := EdgeKey(sid, c.name, st.number);
      if sid in st.signals {
        assert Row(k, edges[k]) in matching;
        var x :| 0 <= x < |matching| && matching[x] == Row(k, edges[k]);
        assert Sids(matching)[x] == sid;
      }
      if sid in Sids(matching) {
        var x :| 0 <= x < |matching| && Sids(matching)[x] == sid;
        assert matching[x] in matching && matching[x].key == k;
      }
    }
    assert st.signals[0] in Sids(matching);
    var first := matching[0];
    assert first in matching && Sids(matching)[0] == first.key.sid;
    LoadedEdgeOf(sids, chains, i, j, first.key.sid);
    assert first.key == EdgeKey(first.key.sid, c.name, st.number);
    SortAscending(Sids(matching));
    AscendingUnique(Sort(Sids(matching)), st.signals);
  }

  lemma RowIsEdge(rows: seq<Row>, edges: map<EdgeKey, EdgeProps>, r: Row)
    requires RowsOf(rows, edges) && r in rows
    ensures r.key in edges
  {
  }

  /** A stage that comes out of the grouping is one that was loaded. */
  lemma {:induction false} NumberWasLoaded(sids: set<int>, chains: seq<Chain>, rows: seq<Row>, i: int, n: int)
    requires WellFormed(chains, sids) && 0 <= i < |chains|
    requires RowsOf(rows, Load(Graph(sids, map[], map[]), chains).edges)
    requires chains[i].name in Group(rows) && n in Group(rows)[chains[i].name]
    ensures n in StageNumbers(chains[i].stages)
  {
    hide Group, Load, RowsOf;
    var c, numbers := chains[i], StageNumbers(chains[i].stages);
    GroupIs(rows, c.name, n);
    var r := Matching(rows, c.name, n)[0];
    InMatching(rows, c.name, n, r);
    assert r in Matching(rows, c.name, n);
    RowIsEdge(rows, Load(Graph(sids, map[], map[]), chains).edges, r);
    LoadedEdges(sids, chains, r.key);
    var i', j' :| InChains(chains, i', j', r.key);
    SameName(chains, i', i);
    assert numbers[j'] == n;
  }

  lemma {:induction false} NumbersRestored(sids: set<int>, chains: seq<Chain>, rows: seq<Row>, i: int, stages: Stages)
    requires WellFormed(chains, sids) && 0 <= i < |chains|
    requires RowsOf(rows, Load(Graph(sids, map[], map[]), chains).edges)
    requires stages == if chains[i].name in Group(rows) then Group(rows)[chains[i].name] else map[]
    ensures Numbers(stages.Keys) == StageNumbers(chains[i].stages)
  {
    hide Group, Load, RowsOf;
    var numbers := StageNumbers(chains[i].stages);
    forall n ensures n in Numbers(stages.Keys) <==> n in numbers {
      if n in numbers {
        var j :| 0 <= j < |numbers| && numbers[j] == n;
        StageRestored(sids, chains, rows, i, j);
      }
      if n in stages {
        NumberWasLoaded(sids, chains, rows, i, n);
      }
    }
    AscendingUnique(Numbers(stages.Keys), numbers);
  }

  lemma {:induction false} ChainRestored(sids: set<int>, chains: seq<Chain>, rows: seq<Row>, i: int)
    requires WellFormed(chains, sids) && 0 <= i < |chains|
    requires RowsOf(rows, Load(Graph(sids, map[], map[]), chains).edges)
    ensures Rebuild(Group(rows), Node(chains[i].name, chains[i].about)) == chains[i]
  {
    var c := chains[i];
    var stages: Stages := if c.name in Group(rows) then Group(rows)[c.name] else map[];
    NumbersRestored(sids, chains, rows, i, stages);
    var numbers := Numbers(stages.Keys);
    AssembleAt(stages, numbers);
    forall j | 0 <= j < |c.stages| ensures Assemble(stages, numbers)[j] == c.stages[j] {
      StageRestored(sids, chains, rows, i, j);
    }
    assert Assemble(stages, numbers) == c.stages;
  }

  /** Well-formed chains come back, whatever the order of the rows. */
  lemma {:induction false} WellFormedComesBack(sids: set<int>, chains: seq<Chain>, nodes: seq<Node>, rows: seq<Row>)
    requires NodesOf(nodes, Load(Graph(sids, map[], map[]), chains).chains)
    requires RowsOf(rows, Load(Graph(sids, map[], map[]), chains).edges)
    requires WellFormed(chains, sids)
    ensures multiset(Read(nodes, rows)) == multiset(chains)
  {
    var out, about := Read(nodes, rows), Load(Graph(sids, map[], map[]), chains).chains;
    forall i | 0 <= i < |nodes| ensures out[i] in chains {
      assert nodes[i] in nodes;
      LoadedChains(sids, chains, nodes[i].name);
      var x :| Named(chains, x, nodes[i].name);
      ChainRestored(sids, chains, rows, x);
    }
    forall x | 0 <= x < |chains| ensures chains[x] in out {
      LoadedChains(sids, chains, chains[x].name);
      assert Named(chains, x, chains[x].name);
      assert Node(chains[x].name, chains[x].about) in nodes;
      var i :| 0 <= i < |nodes| && nodes[i] == Node(chains[x].name, chains[x].about);
      ChainRestored(sids, chains, rows, x);
      assert out[i] == chains[x];
    }
    forall i, j | 0 <= i < j < |out| ensures out[i] != out[j] {
      assert out[i].name == nodes[i].name && out[j].name == nodes[j].name;
    }
    SameMembersSameBag(out, chains);
  }

  /** Loading kill chains and reading them back gives the same chains, whatever the order in which
      the graph returns its nodes and edges, if and only if the chains are well formed. */
  lemma {:induction false} RoundTripIff(sids: set<int>, chains: seq<Chain>, nodes: seq<Node>, rows: seq<Row>)
    requires NodesOf(nodes, Load(Graph(sids, map[], map[]), chains).chains)
    requires RowsOf(rows, Load(Graph(sids, map[], map[]), chains).edges)
    ensures multiset(Read(nodes, rows)) == multiset(chains) <==> WellFormed(chains, sids)
  {
    if WellFormed(chains, sids) {
      WellFormedComesBack(sids, chains, nodes, rows);
    }
    if multiset(Read(nodes, rows)) == multiset(chains) {
      ReadIsWellFormed(sids, chains, nodes, rows);
      SameBagWellFormed(Read(nodes, rows), chains, sids);
    }
  }

  lemma {:induction false} SameBagWellFormed(a: seq<Chain>, b: seq<Chain>, sids: set<int>)
    requires multiset(a) == multiset(b) && WellFormed(a, sids)
    ensures WellFormed(b, sids)
  {
    forall i | 0 <= i < |b| ensures b[i] in a {
      assert b[i] in multiset(b);
    }
    forall x, y | 0 <= x < y < |b| ensures b[x].name != b[y].name {
      if b[x].name == b[y].name {
        var i :| 0 <= i < |a| && a[i] == b[x];
        var j :| 0 <= j < |a| && a[j] == b[y];
        SameName(a, i, j);
        CountTwice(b, x, y);
        CountDistinct(a, b[x]);
        assert false;
      }
    }
  }
}
