/** What every mix of NETCONF sessions and REST calls keeps: a rule id lives on one leaf, an agent's rules
    are drops in the agent's name, a delete removes one id and nothing else. */
module RuleRuns {
  import opened Text
  import opened Policy
  import opened RuleDistribution

  // ---- One leaf for each id ---------------------------------------------------------------------------

  /** The prefix length a proxy adds to a bare address. */
  function Wire(src: string): string {
    if '/' in src then src else src + "/32"
  }

  function IdOf(digest: string -> string, src: string, tail: string): string {
    "agent-" + digest(Lower(src + "|" + tail))
  }

  /** The rule id is the digest of a flow tuple that begins with the rule's source. */
  ghost predicate Deterministic(digest: string -> string, r: Rule) {
    exists src, tail :: '|' !in src && r.src == Wire(src) && r.id == IdOf(digest, src, tail)
  }

  /** The agent's own ids are of this kind. */
  lemma RuleIdDeterministic(digest: string -> string, i: Intent, r: Rule)
    requires '|' !in i.srcIp && r.src == (if '/' in i.srcIp then i.srcIp else i.srcIp + "/32")
    requires r.id == RuleId(digest, i.srcIp, i.dstIp, i.dstPort, i.protocol)
    ensures Deterministic(digest, r)
  {
    assert r.id == IdOf(digest, i.srcIp, i.dstIp + "|" + (IntText(i.dstPort) + "|" + i.protocol));
  }

  /** Every stored rule stands under its own id on the leaf of its source. */
  ghost predicate Placed(parse: string -> Option<Net>, digest: string -> string, s: Leaves) {
    forall l, id :: id in On(s, l) ==> InPlace(parse, digest, l, id, On(s, l)[id])
  }

  ghost predicate InPlace(parse: string -> Option<Net>, digest: string -> string, l: Leaf, id: string, r: Rule) {
    r.id == id && Deterministic(digest, r) && Home(parse, r.src) == l
  }

  lemma SlashKept(s: string)
    ensures '/' in Lower(s) <==> '/' in s
  {
    if '/' in s {
      var i :| 0 <= i < |s| && s[i] == '/';
      assert Lower(s)[i] == '/';
    } else {
      LowerLacks(s, '/');
    }
  }

  lemma WireCase(a: string, b: string)
    requires Lower(a) == Lower(b)
    ensures Lower(Wire(a)) == Lower(Wire(b))
  {
    hide Lower;
    SlashKept(a);
    SlashKept(b);
    LowerConcat(a, "/32");
    LowerConcat(b, "/32");
  }

  /** Text without letters is its own lower case, and the lower case of nothing else. */
  lemma {:induction false} NoLetters(a: string, b: string)
    requires Lower(a) == Lower(b)
    requires forall i :: 0 <= i < |a| ==> IsDigit(a[i]) || a[i] == '.' || a[i] == '/'
    ensures a == b
  {
    assert |a| == |Lower(a)| == |Lower(b)| == |b|;
    forall i | 0 <= i < |a| ensures a[i] == b[i] {
      assert LowerChar(a[i]) == Lower(a)[i] == Lower(b)[i] == LowerChar(b[i]);
    }
  }

  lemma CaseBlind(parse: string -> Option<Net>, a: string, b: string)
    requires ReadsIpv4(parse) && Lower(a) == Lower(b)
    ensures Home(parse, a) == Home(parse, b)
  {
    hide FirstZone;
    assert |Lower(a)| == |Lower(b)|;
    if parse(a).Some? {
      NoLetters(a, b);
    } else if parse(b).Some? {
      NoLetters(b, a);
    }
  }

  lemma SameIdSameHome(parse: string -> Option<Net>, digest: string -> string, q: Rule, r: Rule)
    requires ReadsIpv4(parse) && Injective(digest)
    requires Deterministic(digest, q) && Deterministic(digest, r) && q.id == r.id
    ensures Home(parse, q.src) == Home(parse, r.src)
  {
    hide Home, Wire, Lower;
    var a, x :| '|' !in a && q.src == Wire(a) && q.id == IdOf(digest, a, x);
    var b, y :| '|' !in b && r.src == Wire(b) && r.id == IdOf(digest, b, y);
    var d, e := digest(Lower(a + "|" + x)), digest(Lower(b + "|" + y));
    assert ("agent-" + d)[6..] == d && ("agent-" + e)[6..] == e;
    IdGivesSource(digest, a, x, b, y);
    WireCase(a, b);
    CaseBlind(parse, q.src, r.src);
  }

  /** Placed stores hold every id on at most one leaf: the home of its source. */
  lemma OneLeafPerId(parse: string -> Option<Net>, digest: string -> string, s: Leaves, id: string)
    requires ReadsIpv4(parse) && Injective(digest) && Placed(parse, digest, s)
    ensures !(id in s.one && id in s.two)
  {
    hide Home, Deterministic;
    if id in s.one && id in s.two {
      assert InPlace(parse, digest, Leaf1, id, On(s, Leaf1)[id]);
      assert InPlace(parse, digest, Leaf2, id, On(s, Leaf2)[id]);
      SameIdSameHome(parse, digest, s.one[id], s.two[id]);
    }
  }

  /** A successful push keeps the stores placed exactly when it goes to the source's home. */
  lemma PlacedIff(parse: string -> Option<Net>, digest: string -> string, agent: bool, s: Leaves, r: Rule, k: Link)
    requires Placed(parse, digest, s) && Deterministic(digest, r)
    requires Push(parse, agent, s, r, k).1 == Fine
    ensures Placed(parse, digest, Push(parse, agent, s, r, k).0) <==>
              NetconfTarget(parse, k, r.src) == Some(Home(parse, r.src))
  {
    hide Home, Acceptable, Deterministic;
    var l := NetconfTarget(parse, k, r.src).value;
    var q := Stamped(agent, r);
    assert Deterministic(digest, q) by { StampKeeps(digest, agent, r); }
    WrittenPlaced(parse, digest, s, l, q);
  }

  lemma StampKeeps(digest: string -> string, agent: bool, r: Rule)
    requires Deterministic(digest, r)
    ensures Deterministic(digest, Stamped(agent, r)) && Stamped(agent, r).id == r.id && Stamped(agent, r).src == r.src
  {
    var src, tail :| '|' !in src && r.src == Wire(src) && r.id == IdOf(digest, src, tail);
    assert Stamped(agent, r).id == IdOf(digest, src, tail);
  }

  lemma PlacedAt(parse: string -> Option<Net>, digest: string -> string, s: Leaves, l: Leaf, id: string)
    ensures Placed(parse, digest, s) && id in On(s, l) ==> InPlace(parse, digest, l, id, On(s, l)[id])
  {
  }

  lemma WrittenPlaced(parse: string -> Option<Net>, digest: string -> string, s: Leaves, l: Leaf, r: Rule)
    requires Placed(parse, digest, s) && Deterministic(digest, r)
    ensures Placed(parse, digest, Written(s, l, r)) <==> Home(parse, r.src) == l
  {
    hide Home, Deterministic;
    var t := Written(s, l, r);
    assert r.id in On(t, l) && On(t, l)[r.id] == r;
    if Home(parse, r.src) == l {
      forall m, id | id in On(t, m) ensures InPlace(parse, digest, m, id, On(t, m)[id]) {
        if m == l && id == r.id {
          assert On(t, m)[id] == r;
        } else {
          assert id in On(s, m) && On(s, m)[id] == On(t, m)[id];
          assert InPlace(parse, digest, m, id, On(s, m)[id]);
        }
      }
    }
    PlacedAt(parse, digest, t, l, r.id);
  }

  lemma ErasedPlaced(parse: string -> Option<Net>, digest: string -> string, s: Leaves, ls: set<Leaf>, id: string)
    requires Placed(parse, digest, s)
    ensures Placed(parse, digest, Erased(s, ls, id))
  {
    hide InPlace;
    var t := Erased(s, ls, id);
    forall m, x | x in On(t, m) ensures InPlace(parse, digest, m, x, On(t, m)[x]) {
      assert x in On(s, m) && On(s, m)[x] == On(t, m)[x];
    }
  }

  /** Pushing an id again replaces its rule where it stands: no leaf gains or loses an id. */
  lemma RepushOverwrites(parse: string -> Option<Net>, digest: string -> string, agent: bool, s: Leaves, l: Leaf,
                         r: Rule, k: Link)
    requires ReadsIpv4(parse) && Injective(digest) && Placed(parse, digest, s) && Deterministic(digest, r)
    requires r.id in On(s, l) && Home(parse, r.src) in k.up && Push(parse, agent, s, r, k).1 == Fine
    ensures var t := Push(parse, agent, s, r, k).0;
            && On(t, l) == On(s, l)[r.id := Stamped(agent, r)] && On(t, l).Keys == On(s, l).Keys
            && forall m :: m != l ==> On(t, m) == On(s, m)
  {
    hide Home, Deterministic, Acceptable;
    assert InPlace(parse, digest, l, r.id, On(s, l)[r.id]);
    SameIdSameHome(parse, digest, On(s, l)[r.id], r);
    assert Stamped(agent, r).id == r.id;
  }

  predicate Gone(s: Leaves, id: string) {
    id !in s.one && id !in s.two
  }

  /** Whatever becomes of a delete, no rule but the one it names is touched. */
  ghost predicate OthersKept(s: Leaves, t: Leaves, id: string) {
    forall l, x :: x != id ==> (x in On(t, l) <==> x in On(s, l)) && (x in On(t, l) ==> On(t, l)[x] == On(s, l)[x])
  }

  /** A NETCONF delete that reports success has removed the rule everywhere exactly when every leaf that
      held it was among the clients tried. */
  lemma DeletedIff(s: Leaves, id: string, k: Link)
    ensures var (t, v) := Delete(s, id, k);
            && OthersKept(s, t, id)
            && (Gone(t, id) <==> forall l :: id in On(s, l) ==> l in DeleteTargets(k) && l !in k.broken)
            && (v == Fine ==> (Gone(t, id) <==> forall l :: id in On(s, l) ==> l in DeleteTargets(k)))
  {
    var (t, v) := Delete(s, id, k);
    assert id in s.one <==> id in On(s, Leaf1);
    assert id in s.two <==> id in On(s, Leaf2);
    if v == Fine {
      assert forall l :: l in DeleteTargets(k) ==> l !in k.broken by {
        forall l | l in DeleteTargets(k) ensures l !in k.broken {
          assert l in k.broken ==> l in DeleteTargets(k) * k.broken;
        }
      }
    }
  }

  /** A REST delete that reports success has done so exactly when every leaf that held the rule was
      connected and did not refuse. */
  lemma RestDeletedIff(s: Leaves, id: string, k: Link)
    ensures var (t, v) := RestDelete(s, id, k);
            && OthersKept(s, t, id)
            && (Gone(t, id) <==> forall l :: id in On(s, l) ==> l in k.up && l !in k.broken)
            && (v == Fine <==> k.up == {} || exists l :: l in k.up && l !in k.broken)
  {
    var (t, v) := RestDelete(s, id, k);
    assert id in s.one <==> id in On(s, Leaf1);
    assert id in s.two <==> id in On(s, Leaf2);
    if k.up != {} && !(k.up <= k.broken) {
      var l :| l in k.up && l !in k.broken;
    }
  }

  /** With all leaves answering, a delete removes its id everywhere and touches nothing else. */
  lemma DeleteErases(s: Leaves, id: string, k: Link)
    requires k.up == {Leaf1, Leaf2} && k.broken == {}
    ensures Delete(s, id, k).1 == Fine && Gone(Delete(s, id, k).0, id) && OthersKept(s, Delete(s, id, k).0, id)
  {
    hide OthersKept, Erased;
    DeletedIff(s, id, k);
    forall l: Leaf ensures l in DeleteTargets(k) {
      assert l == Leaf1 || l == Leaf2;
    }
  }

  /** With the leaf that holds the rule disconnected, a NETCONF delete reports success over the other one
      and the rule stands. */
  lemma DeleteMissesDownLeaf(s: Leaves, id: string)
    requires id in s.two
    ensures var (t, v) := Delete(s, id, Link({Leaf1}, None, {}));
            v == Fine && id in t.two
  {
  }

  /** So does a REST delete with no leaf connected, and with one leaf that answers and one that refuses. */
  lemma RestDeleteMisses(s: Leaves, id: string)
    requires id in s.two
    ensures var (t, v) := RestDelete(s, id, Link({}, None, {}));
            v == Fine && id in t.two
    ensures var (t, v) := RestDelete(s, id, Link({Leaf1, Leaf2}, None, {Leaf2}));
            v == Fine && id in t.two
  {
    assert Leaf1 in {Leaf1, Leaf2} && Leaf1 !in {Leaf2};
  }

  /** A REST push succeeds exactly when the rule has an id and a known action and its target answers; it
      then stands there whole, and nothing else changes. */
  lemma RestLands(parse: string -> Option<Net>, s: Leaves, r: Rule, k: Link)
    ensures var (t, v) := RestPush(parse, s, r, k);
            var l := RestTarget(parse, k, r.src);
            && (v == Fine <==>
                  r.id != "" && r.action in {"ACCEPT", "DROP", "RETURN"} && l.Some? && l.value !in k.broken)
            && (v == Fine ==> r.id in On(t, l.value) && On(t, l.value)[r.id] == r && OthersKept(s, t, r.id)
                              && forall m :: m != l.value ==> On(t, m) == On(s, m))
            && (v != Fine ==> t == s)
  {
    hide RestTarget;
  }

  /** An agent's acceptable rule is refused for its action exactly when the action is not DROP; it is never
      turned into a drop. */
  lemma AgentDeniedIff(parse: string -> Option<Net>, s: Leaves, r: Rule, k: Link)
    requires Acceptable(r)
    ensures Push(parse, true, s, r, k).1 == Failed("access-denied") <==> r.action != "DROP"
    ensures r.action != "DROP" ==> Push(parse, true, s, r, k).0 == s
  {
    hide NetconfTarget, Acceptable;
  }

  /** Deleting an OpenConfig set names the set, while what the set wrote stands under its entries: none of
      it goes. */
  lemma SetDeleteKeepsEntries(s: Leaves, table: string, e: Entry, k: Link)
    ensures var id := Translated(table, e).id;
            var t := Delete(s, table, k).0;
            id != table && forall l :: id in On(s, l) ==> id in On(t, l) && On(t, l)[id] == On(s, l)[id]
  {
    hide Upper, ProtocolName, AfterColon, ParseInt, AllDigits;
    assert |Translated(table, e).id| > |table|;
    DeletedIff(s, table, k);
  }

  // ---- Agents -----------------------------------------------------------------------------------------

  /** Whatever `t` holds and `s` does not is a drop rule in the agent's name, with a comment. */
  predicate AgentsOnly(s: Leaves, t: Leaves) {
    && (forall id :: id in t.one ==> Kept(s.one, id, t.one[id]) || AgentRule(t.one[id]))
    && (forall id :: id in t.two ==> Kept(s.two, id, t.two[id]) || AgentRule(t.two[id]))
  }

  predicate Kept(s: Store, id: string, r: Rule) {
    id in s && s[id] == r
  }

  predicate AgentRule(r: Rule) {
    r.action == "DROP" && r.source == "agent" && r.comment != ""
  }

  lemma AgentsCompose(s: Leaves, t: Leaves, u: Leaves)
    requires AgentsOnly(s, t) && AgentsOnly(t, u)
    ensures AgentsOnly(s, u)
  {
    hide AgentRule;
  }

  lemma WrittenAgent(s: Leaves, l: Leaf, r: Rule)
    requires AgentRule(r)
    ensures AgentsOnly(s, Written(s, l, r))
  {
    hide AgentRule;
  }

  lemma OneAgent(parse: string -> Option<Net>, s: Leaves, item: Item)
    ensures AgentsOnly(s, One(parse, true, s, item).0)
  {
    hide NetconfTarget, Acceptable, AgentsOnly, Written, Erased;
    NothingWritten(s);
    match item.order {
      case Broken(_) =>
      case Remove(id) => ErasedAgents(s, s, DeleteTargets(item.link) - item.link.broken, id);
      case Put(r) =>
        if r.action == "DROP" && NetconfTarget(parse, item.link, r.src).Some? {
          StampedAgent(r);
          WrittenAgent(s, NetconfTarget(parse, item.link, r.src).value, Stamped(true, r));
        }
    }
  }

  lemma StampedAgent(r: Rule)
    requires r.action == "DROP"
    ensures AgentRule(Stamped(true, r))
  {
  }

  lemma {:induction false} AfterAgent(parse: string -> Option<Net>, s: Leaves, items: seq<Item>)
    ensures AgentsOnly(s, After(parse, true, s, items))
  {
    hide AgentsOnly, One;
    if items == [] {
      assert AgentsOnly(s, s) by { NothingWritten(s); }
    } else {
      var past := items[..|items| - 1];
      AfterAgent(parse, s, past);
      OneAgent(parse, After(parse, true, s, past), items[|items| - 1]);
      AgentsCompose(s, After(parse, true, s, past), After(parse, true, s, items));
    }
  }

  lemma NothingWritten(s: Leaves)
    ensures AgentsOnly(s, s)
  {
  }

  lemma ErasedAgents(s: Leaves, t: Leaves, ls: set<Leaf>, id: string)
    requires AgentsOnly(s, t)
    ensures AgentsOnly(s, Erased(t, ls, id))
  {
    hide AgentRule, Kept;
  }

  /** A document of an agent, native or OpenConfig, of any length and however it ends, writes nothing but
      drop rules in the agent's name. */
  lemma DocumentAgent(parse: string -> Option<Net>, s: Leaves, items: seq<Item>, n: nat, t: Leaves, v: Verdict)
    requires StopsOnError(parse, true, s, items, n, t, v)
    ensures AgentsOnly(s, t)
  {
    hide AgentsOnly, After, Erased, VerdictAt;
    if n == |items| {
      AfterAgent(parse, s, items);
    } else {
      AfterAgent(parse, s, items[..n]);
      match items[n].order {
        case Remove(id) =>
          ErasedAgents(s, After(parse, true, s, items[..n]), DeleteTargets(items[n].link) - items[n].link.broken, id);
        case _ =>
      }
    }
  }

  // ---- Sessions and runs --------------------------------------------------------------------------------

  datatype Role = Admin | Operator | Agent

  datatype Cert = NoCert | Ou(unit: string)

  /** The role a certificate gives; none means the session is refused. */
  function RoleOf(bypass: bool, cert: Cert): Option<Role> {
    if bypass || cert.NoCert? then Some(Admin)
    else
      var ou := Lower(cert.unit);
      if ou in {"internal", "sdnc"} then Some(Admin)
      else if ou == "aws" then Some(Operator)
      else if ou == "auto" then Some(Agent)
      else None
  }

  /** One step of the framework. Each connection has a thread of its own. */
  datatype Act =
    | Open(conn: nat, cert: Cert)
    | Edit(conn: nat, items: seq<Item>)
    | Close(conn: nat)
    | Post(rule: Rule, link: Link)
    | Erase(id: string, link: Link)

  /** The leaves, and the role each thread keeps for itself. */
  datatype World = World(leaves: Leaves, current: map<nat, Role>)

  predicate IsAgent(w: World, conn: nat) {
    conn in w.current && w.current[conn] == Agent
  }

  ghost predicate Edits(parse: string -> Option<Net>, agent: bool, s: Leaves, items: seq<Item>, t: Leaves) {
    exists n, v :: StopsOnError(parse, agent, s, items, n, t, v)
  }

  ghost predicate Next(parse: string -> Option<Net>, bypass: bool, w: World, act: Act, u: World) {
    match act
    case Open(c, cert) =>
      (match RoleOf(bypass, cert)
       case None => u == w
       case Some(r) => u == w.(current := w.current[c := r]))
    case Close(c) => u == w.(current := w.current - {c})
    case Edit(c, items) => u.current == w.current && Edits(parse, IsAgent(w, c), w.leaves, items, u.leaves)
    case Post(r, k) => u == w.(leaves := RestPush(parse, w.leaves, r, k).0)
    case Erase(id, k) => u == w.(leaves := RestDelete(w.leaves, id, k).0)
  }

  /** `ws` is the course of worlds under `acts`, in whatever way the connections take turns. */
  ghost predicate Course(parse: string -> Option<Net>, bypass: bool, acts: seq<Act>, ws: seq<World>) {
    |ws| == |acts| + 1 && forall i :: 0 <= i < |acts| ==> Next(parse, bypass, ws[i], acts[i], ws[i + 1])
  }

  /** The role a connection has by its own acts alone. */
  function OwnRole(bypass: bool, acts: seq<Act>, conn: nat): Option<Role> {
    if acts == [] then None
    else
      var n := |acts| - 1;
      var before := OwnRole(bypass, acts[..n], conn);
      match acts[n]
      case Open(c, cert) => if c == conn && RoleOf(bypass, cert).Some? then RoleOf(bypass, cert) else before
      case Close(c) => if c == conn then None else before
      case _ => before
  }

  /** The role a thread reads is its own connection's, whatever the other connections do. */
  lemma {:induction false} RoleIsOwn(parse: string -> Option<Net>, bypass: bool, acts: seq<Act>, ws: seq<World>,
                                     i: nat, conn: nat)
    requires Course(parse, bypass, acts, ws) && i <= |acts| && ws[0].current == map[]
    ensures OwnRole(bypass, acts[..i], conn) == if conn in ws[i].current then Some(ws[i].current[conn]) else None
  {
    hide RoleOf, Edits;
    if i > 0 {
      RoleIsOwn(parse, bypass, acts, ws, i - 1, conn);
      assert Next(parse, bypass, ws[i - 1], acts[i - 1], ws[i - 1 + 1]);
      assert acts[..i][..i - 1] == acts[..i - 1];
    }
  }

  /** In any mix of sessions and REST calls, an edit on a connection opened with an agent's certificate
      writes nothing but drop rules in the agent's name. */
  lemma AgentWritesDrops(parse: string -> Option<Net>, bypass: bool, acts: seq<Act>, ws: seq<World>, i: nat)
    requires Course(parse, bypass, acts, ws) && ws[0].current == map[]
    requires i < |acts| && acts[i].Edit? && OwnRole(bypass, acts[..i], acts[i].conn) == Some(Agent)
    ensures AgentsOnly(ws[i].leaves, ws[i + 1].leaves)
  {
    hide AgentsOnly, OwnRole, StopsOnError;
    RoleIsOwn(parse, bypass, acts, ws, i, acts[i].conn);
    assert Next(parse, bypass, ws[i], acts[i], ws[i + 1]);
    var n, v :| StopsOnError(parse, true, ws[i].leaves, acts[i].items, n, ws[i + 1].leaves, v);
    DocumentAgent(parse, ws[i].leaves, acts[i].items, n, ws[i + 1].leaves, v);
  }

  /** Rules carry deterministic ids, and a NETCONF push finds the home of its rule connected; a REST push
      need not when the source lies in a zone. */
  ghost predicate Homely(parse: string -> Option<Net>, digest: string -> string, act: Act) {
    match act
    case Edit(_, items) => forall i :: 0 <= i < |items| ==> HomelyItem(parse, digest, items[i])
    case Post(r, k) => Deterministic(digest, r) && (Home(parse, r.src) in k.up || IpToLeaf(parse, r.src).Some?)
    case _ => true
  }

  ghost predicate HomelyItem(parse: string -> Option<Net>, digest: string -> string, item: Item) {
    item.order.Put? ==> Deterministic(digest, item.order.rule) && Home(parse, item.order.rule.src) in item.link.up
  }

  lemma OnePlaced(parse: string -> Option<Net>, digest: string -> string, agent: bool, s: Leaves, item: Item)
    requires Placed(parse, digest, s) && HomelyItem(parse, digest, item)
    ensures Placed(parse, digest, One(parse, agent, s, item).0)
  {
    hide Home, Placed, Deterministic, Acceptable, Erased;
    match item.order {
      case Broken(_) =>
      case Remove(id) => ErasedPlaced(parse, digest, s, DeleteTargets(item.link) - item.link.broken, id);
      case Put(r) =>
        if Push(parse, agent, s, r, item.link).1 == Fine {
          PlacedIff(parse, digest, agent, s, r, item.link);
        }
    }
  }

  lemma {:induction false} AfterPlaced(parse: string -> Option<Net>, digest: string -> string, agent: bool, s: Leaves,
                                       items: seq<Item>)
    requires Placed(parse, digest, s)
    requires forall i :: 0 <= i < |items| ==> HomelyItem(parse, digest, items[i])
    ensures Placed(parse, digest, After(parse, agent, s, items))
  {
    hide Placed, One, HomelyItem;
    if items != [] {
      var past := items[..|items| - 1];
      AfterPlaced(parse, digest, agent, s, past);
      OnePlaced(parse, digest, agent, After(parse, agent, s, past), items[|items| - 1]);
    }
  }

  lemma EditPlaced(parse: string -> Option<Net>, digest: string -> string, agent: bool, s: Leaves, items: seq<Item>,
                   n: nat, t: Leaves, v: Verdict)
    requires Placed(parse, digest, s) && StopsOnError(parse, agent, s, items, n, t, v)
    requires forall i :: 0 <= i < |items| ==> HomelyItem(parse, digest, items[i])
    ensures Placed(parse, digest, t)
  {
    hide Placed, After, HomelyItem, Erased, VerdictAt;
    if n == |items| {
      AfterPlaced(parse, digest, agent, s, items);
    } else {
      AfterPlaced(parse, digest, agent, s, items[..n]);
      match items[n].order {
        case Remove(id) =>
          ErasedPlaced(parse, digest, After(parse, agent, s, items[..n]),
                       DeleteTargets(items[n].link) - items[n].link.broken, id);
        case _ =>
      }
    }
  }

  lemma DeterministicSource(digest: string -> string, r: Rule)
    requires Deterministic(digest, r)
    ensures r.src != ""
  {
  }

  lemma PostPlaced(parse: string -> Option<Net>, digest: string -> string, s: Leaves, r: Rule, k: Link)
    requires ReadsIpv4(parse) && Placed(parse, digest, s) && Homely(parse, digest, Post(r, k))
    ensures Placed(parse, digest, RestPush(parse, s, r, k).0)
  {
    hide Placed, Deterministic, FirstZone, ZONES;
    WholeRangeHasNoZone(parse);
    DeterministicSource(digest, r);
    if RestPush(parse, s, r, k).1 == Fine {
      WrittenPlaced(parse, digest, s, RestTarget(parse, k, r.src).value, r);
    }
  }

  lemma {:induction false} CoursePlaced(parse: string -> Option<Net>, digest: string -> string, bypass: bool,
                                        acts: seq<Act>, ws: seq<World>, i: nat)
    requires ReadsIpv4(parse) && Course(parse, bypass, acts, ws) && Placed(parse, digest, ws[0].leaves)
    requires i <= |acts| && forall j :: 0 <= j < |acts| ==> Homely(parse, digest, acts[j])
    ensures Placed(parse, digest, ws[i].leaves)
  {
    hide Placed, HomelyItem, StopsOnError, RestPush, Home, Deterministic, RoleOf, Erased;
    if i > 0 {
      CoursePlaced(parse, digest, bypass, acts, ws, i - 1);
      var w, act, u := ws[i - 1], acts[i - 1], ws[i];
      assert Next(parse, bypass, ws[i - 1], acts[i - 1], ws[i - 1 + 1]);
      assert Homely(parse, digest, acts[i - 1]);
      match act {
        case Edit(c, items) =>
          var n, v :| StopsOnError(parse, IsAgent(w, c), w.leaves, items, n, u.leaves, v);
          EditPlaced(parse, digest, IsAgent(w, c), w.leaves, items, n, u.leaves, v);
        case Post(r, k) => PostPlaced(parse, digest, w.leaves, r, k);
        case Erase(id, k) => ErasedPlaced(parse, digest, w.leaves, k.up - k.broken, id);
        case _ =>
      }
    }
  }

  /** In every state reached from placed leaves by any mix of sessions and REST calls, an id lives on at
      most one leaf, and a rule under it lives at the home of its source. */
  lemma IdsStayUnique(parse: string -> Option<Net>, digest: string -> string, bypass: bool,
                      acts: seq<Act>, ws: seq<World>, i: nat, id: string)
    requires ReadsIpv4(parse) && Injective(digest)
    requires Course(parse, bypass, acts, ws) && Placed(parse, digest, ws[0].leaves)
    requires i <= |acts| && forall j :: 0 <= j < |acts| ==> Homely(parse, digest, acts[j])
    ensures !(id in ws[i].leaves.one && id in ws[i].leaves.two)
    ensures forall l :: id in On(ws[i].leaves, l) ==> Home(parse, On(ws[i].leaves, l)[id].src) == l
  {
    hide Homely, Home, Deterministic;
    CoursePlaced(parse, digest, bypass, acts, ws, i);
    OneLeafPerId(parse, digest, ws[i].leaves, id);
    forall l | id in On(ws[i].leaves, l) ensures Home(parse, On(ws[i].leaves, l)[id].src) == l {
      PlacedAt(parse, digest, ws[i].leaves, l, id);
    }
  }

  /** Without the condition it fails: pushed while its home is down over a session of the other leaf, then
      again once the home is back, a rule stands on both. */
  lemma DownThenUpDuplicates(parse: string -> Option<Net>, s: Leaves, r: Rule)
    requires Acceptable(r) && Home(parse, r.src) == Leaf2
    ensures var t := Push(parse, false, s, r, Link({Leaf1}, Some(Leaf1), {})).0;
            var u := Push(parse, false, t, r, Link({Leaf1, Leaf2}, Some(Leaf1), {})).0;
            r.id in u.one && r.id in u.two
  {
    hide Home, Acceptable;
  }

  // ---- One element, whole ---------------------------------------------------------------------------------

  /** A native element that goes through stands on the leaf of its own source under its own id with all its
      fields, over which only an agent's stamp may lie; every other entry of both leaves is untouched. */
  lemma ElementLands(parse: string -> Option<Net>, agent: bool, s: Leaves, e: Elem, k: Link)
    requires OrderOf(e).Put? && One(parse, agent, s, Item(OrderOf(e), k)).1 == Fine
    ensures var t := One(parse, agent, s, Item(OrderOf(e), k)).0;
            var l := NetconfTarget(parse, k, e.src);
            && l.Some? && e.id in On(t, l.value)
            && var r := On(t, l.value)[e.id];
            && (r.id, r.src, r.dst, r.srcPort, r.dstPort) == (e.id, e.src, e.dst, e.srcPort, e.dstPort)
            && Some(r.priority) == ParseInt(if e.priority == "" then "1000" else e.priority)
            && Some(r.ttl) == ParseInt(if e.ttl == "" then "0" else e.ttl)
            && r.action == Upper(if e.action == "" then "DROP" else e.action)
            && r.protocol == Lower(if e.protocol == "" then "all" else e.protocol)
            && (!agent ==> r.source == Lower(if e.source == "" then "sdnc" else e.source) && r.comment == e.comment)
            && (agent ==> r.source == "agent" && r.comment == if e.comment == "" then "agent:" + e.id else e.comment)
            && (forall m, id :: !(m == l.value && id == e.id) ==>
                  (id in On(t, m) <==> id in On(s, m)) && (id in On(t, m) ==> On(t, m)[id] == On(s, m)[id]))
  {
    hide NetconfTarget, ParseInt, Upper, Lower;
  }

  lemma PutLands(parse: string -> Option<Net>, agent: bool, s: Leaves, r: Rule, k: Link)
    requires Push(parse, agent, s, r, k).1 == Fine
    ensures var t, l := Push(parse, agent, s, r, k).0, NetconfTarget(parse, k, r.src);
            && l.Some? && r.id in On(t, l.value) && On(t, l.value)[r.id] == Stamped(agent, r)
            && (forall m, id :: !(m == l.value && id == r.id) ==>
                  (id in On(t, m) <==> id in On(s, m)) && (id in On(t, m) ==> On(t, m)[id] == On(s, m)[id]))
  {
    hide NetconfTarget, Acceptable;
  }

  /** What an entry translates to: the last part of its action if the bridge knows it, and DROP otherwise; the
      protocol by its known names, and all otherwise; the sequence number as priority, and 1000 without one. */
  lemma TranslatedIs(table: string, e: Entry)
    ensures var r := Translated(table, e);
            var sequence := if e.sequence == "" then "1000" else e.sequence;
            var protocol := Upper(if e.protocol == "" then "all" else e.protocol);
            var action := Upper(AfterColon(if e.action == "" then "DROP" else e.action));
            && r.id == table + "-" + sequence
            && (r.src, r.dst, r.srcPort, r.dstPort) == (e.src, e.dst, e.srcPort, e.dstPort)
            && (action in {"ACCEPT", "DROP", "RETURN"} ==> r.action == action)
            && (action !in {"ACCEPT", "DROP", "RETURN"} ==> r.action == "DROP")
            && (r.protocol == "tcp" <==> protocol in {"IP_TCP", "TCP", "6"})
            && (r.protocol == "udp" <==> protocol in {"IP_UDP", "UDP", "17"})
            && (r.protocol == "icmp" <==> protocol in {"IP_ICMP", "ICMP", "1"})
            && r.protocol in {"tcp", "udp", "icmp", "all"}
            && (if forall i :: 0 <= i < |sequence| ==> IsDigit(sequence[i]) then Some(r.priority) == ParseInt(sequence)
                else r.priority == 1000)
            && r.source == "sdnc" && r.comment == "oc-acl:" + table && r.ttl == 0
  {
    hide ParseInt, Upper, Lower, AfterColon, ProtocolName;
    var sequence := if e.sequence == "" then "1000" else e.sequence;
    if forall i :: 0 <= i < |sequence| ==> IsDigit(sequence[i]) {
      DigitsAreRead(sequence);
    }
    ProtocolIs(Upper(if e.protocol == "" then "all" else e.protocol));
  }

  /** An OpenConfig entry lands in the same way, as what it translates to, in the name of the controller or, from
      an agent, in the agent's. */
  lemma EntryLands(parse: string -> Option<Net>, agent: bool, s: Leaves, table: string, e: Entry, k: Link)
    requires One(parse, agent, s, Item(Put(Translated(table, e)), k)).1 == Fine
    ensures var t, made := One(parse, agent, s, Item(Put(Translated(table, e)), k)).0, Translated(table, e);
            var l := NetconfTarget(parse, k, e.src);
            && l.Some? && made.id in On(t, l.value)
            && On(t, l.value)[made.id] == made.(source := if agent then "agent" else "sdnc")
            && (made.src, made.dst, made.srcPort, made.dstPort) == (e.src, e.dst, e.srcPort, e.dstPort)
            && made.id == table + "-" + (if e.sequence == "" then "1000" else e.sequence)
            && (forall m, x :: !(m == l.value && x == made.id) ==>
                  (x in On(t, m) <==> x in On(s, m)) && (x in On(t, m) ==> On(t, m)[x] == On(s, m)[x]))
  {
    hide Push, Translated, NetconfTarget;
    TranslatedIs(table, e);
    PutLands(parse, agent, s, Translated(table, e), k);
    assert "oc-acl:" + table != "" by { assert |"oc-acl:" + table| > 0; }
  }

  lemma DigitsAreRead(t: string)
    requires t != "" && forall i :: 0 <= i < |t| ==> IsDigit(t[i])
    ensures ParseInt(t).Some?
  {
    ParseIntIff(t);
    StripEnds(t);
  }

  lemma NamesDiffer()
    ensures "tcp" != "udp" && "tcp" != "icmp" && "tcp" != "all" && "udp" != "icmp" && "udp" != "all" && "icmp" != "all"
  {
    assert "tcp"[0] != "udp"[0] && "udp"[0] != "all"[0] && "tcp"[0] != "all"[0];
  }

  lemma ProtocolIs(raw: string)
    ensures ProtocolName(raw) == "tcp" <==> raw in {"IP_TCP", "TCP", "6"}
    ensures ProtocolName(raw) == "udp" <==> raw in {"IP_UDP", "UDP", "17"}
    ensures ProtocolName(raw) == "icmp" <==> raw in {"IP_ICMP", "ICMP", "1"}
    ensures ProtocolName(raw) in {"tcp", "udp", "icmp", "all"}
  {
    NamesDiffer();
    assert "IP_TCP" != "IP_UDP" && |"TCP"| != |"17"| && "TCP" != "UDP" && "6" != "1";
    assert "IP_TCP"[3] != "IP_UDP"[3] && "TCP"[0] != "UDP"[0];
  }
}
