/** How rules reach the two leaves: routed by source zone, deleted by broadcast, applied in document
    order, from NETCONF sessions and from the REST interface. */
module RuleDistribution {
  import opened Text
  import opened Policy

  datatype Leaf = Leaf1 | Leaf2

  /** The rule record of the bridge; a field left out of the record is the empty text. */
  datatype Rule = Rule(id: string, action: string, src: string, dst: string, protocol: string, srcPort: string,
                       dstPort: string, priority: int, source: string, comment: string, ttl: int)

  type Store = map<string, Rule>

  datatype Leaves = Leaves(one: Store, two: Store)

  function On(s: Leaves, l: Leaf): Store {
    if l.Leaf1? then s.one else s.two
  }

  function Written(s: Leaves, l: Leaf, r: Rule): Leaves {
    if l.Leaf1? then s.(one := s.one[r.id := r]) else s.(two := s.two[r.id := r])
  }

  function Erased(s: Leaves, ls: set<Leaf>, id: string): Leaves {
    Leaves(if Leaf1 in ls then s.one - {id} else s.one, if Leaf2 in ls then s.two - {id} else s.two)
  }

  // ---- ZONES ----------------------------------------------------------------------------------------

  /** An IPv4 network: its first address and the length of its prefix. */
  datatype Net = Net(base: nat, prefix: nat)

  function Quad(a: nat, b: nat, c: nat, d: nat): nat {
    ((a * 256 + b) * 256 + c) * 256 + d
  }

  function Size(prefix: nat): (n: nat)
    ensures n >= 1
    decreases 32 - prefix
  {
    if prefix >= 32 then 1 else 2 * Size(prefix + 1)
  }

  predicate SubnetOf(n: Net, z: Net) {
    z.base <= n.base && n.base + Size(n.prefix) <= z.base + Size(z.prefix)
  }

  datatype Zone = Zone(net: Net, leaf: Leaf)

  const ZONES: seq<Zone> := [
    Zone(Net(Quad(10, 1, 100, 0), 24), Leaf1), Zone(Net(Quad(10, 1, 200, 0), 24), Leaf1),
    Zone(Net(Quad(10, 2, 100, 0), 24), Leaf2), Zone(Net(Quad(10, 2, 50, 0), 24), Leaf2)]

  function FirstZone(zones: seq<Zone>, n: Net): Option<Leaf> {
    if zones == [] then None
    else if SubnetOf(n, zones[0].net) then Some(zones[0].leaf) else FirstZone(zones[1..], n)
  }

  /** The reader of addresses, which is not modelled: it takes nothing but digits, dots and a slash, and
      reads the whole range as itself. */
  ghost predicate ReadsIpv4(parse: string -> Option<Net>) {
    && (forall s, i :: parse(s).Some? && 0 <= i < |s| ==> IsDigit(s[i]) || s[i] == '.' || s[i] == '/')
    && parse("0.0.0.0/0") == Some(Net(0, 0))
  }

  function IpToLeaf(parse: string -> Option<Net>, src: string): Option<Leaf> {
    match parse(src) case None => None case Some(n) => FirstZone(ZONES, n)
  }

  /** The leaf a NETCONF push is meant for. */
  function Home(parse: string -> Option<Net>, src: string): Leaf {
    match IpToLeaf(parse, if src == "" then "0.0.0.0/0" else src) case Some(l) => l case None => Leaf1
  }

  lemma Size24()
    ensures Size(24) == 256
  {
    assert Size(29) == 8;
  }

  /** The zones are disjoint, so the lookup does not depend on their order. */
  lemma {:induction false} OneZone(n: Net, i: nat, j: nat)
    requires i < |ZONES| && j < |ZONES| && SubnetOf(n, ZONES[i].net) && SubnetOf(n, ZONES[j].net)
    ensures i == j
  {
    hide Size;
    Size24();
    assert Size(n.prefix) >= 1;
  }

  lemma {:induction false} FirstZoneIff(zones: seq<Zone>, n: Net)
    ensures FirstZone(zones, n).Some? <==> exists i :: 0 <= i < |zones| && SubnetOf(n, zones[i].net)
    ensures FirstZone(zones, n).Some? ==>
              exists i :: 0 <= i < |zones| && SubnetOf(n, zones[i].net) && zones[i].leaf == FirstZone(zones, n).value
  {
    hide SubnetOf;
    if zones != [] {
      FirstZoneIff(zones[1..], n);
      if SubnetOf(n, zones[0].net) {
      } else {
        assert forall i :: 0 <= i < |zones| - 1 ==> zones[1..][i] == zones[i + 1];
        if i :| 0 <= i < |zones| && SubnetOf(n, zones[i].net) {
          assert zones[1..][i - 1] == zones[i];
        }
      }
    }
  }

  /** A source goes to a leaf exactly when its network lies in one of that leaf's zones. */
  lemma {:induction false} LeafIff(n: Net, l: Leaf)
    ensures FirstZone(ZONES, n) == Some(l) <==>
              exists i :: 0 <= i < |ZONES| && SubnetOf(n, ZONES[i].net) && ZONES[i].leaf == l
  {
    hide SubnetOf;
    FirstZoneIff(ZONES, n);
    if i :| 0 <= i < |ZONES| && SubnetOf(n, ZONES[i].net) && ZONES[i].leaf == l {
      var j :| 0 <= j < |ZONES| && SubnetOf(n, ZONES[j].net) && ZONES[j].leaf == FirstZone(ZONES, n).value;
      OneZone(n, i, j);
    }
  }

  function Pow2(k: nat): nat {
    if k == 0 then 1 else 2 * Pow2(k - 1)
  }

  /** The addresses of a network: as many as there are ways to fill in what its prefix leaves open. */
  predicate Holds(n: Net, address: int)
    requires n.prefix <= 32
  {
    n.base <= address < n.base + Pow2(32 - n.prefix)
  }

  lemma {:induction false} SizeIs(prefix: nat)
    requires prefix <= 32
    ensures Size(prefix) == Pow2(32 - prefix)
    decreases 32 - prefix
  {
    if prefix < 32 {
      SizeIs(prefix + 1);
    }
  }

  /** A network lies in another exactly when every one of its addresses does. */
  lemma {:induction false} SubnetIff(n: Net, z: Net)
    requires n.prefix <= 32 && z.prefix <= 32
    ensures SubnetOf(n, z) <==> forall address :: Holds(n, address) ==> Holds(z, address)
  {
    hide Size, Pow2;
    SizeIs(n.prefix);
    SizeIs(z.prefix);
    assert Size(n.prefix) >= 1;
    if forall address :: Holds(n, address) ==> Holds(z, address) {
      assert Holds(n, n.base) && Holds(n, n.base + Size(n.prefix) - 1);
    }
  }

  /** A host goes to the first leaf exactly from 10.1.100.* and 10.1.200.*, to the second exactly from 10.2.100.*
      and 10.2.50.*, and no host elsewhere has a leaf. */
  lemma {:induction false} HostLeafIff(a: nat, b: nat, c: nat, d: nat)
    requires a < 256 && b < 256 && c < 256 && d < 256
    ensures var leaf := FirstZone(ZONES, Net(a * 0x100_0000 + b * 0x1_0000 + c * 0x100 + d, 32));
            && (leaf == Some(Leaf1) <==> a == 10 && b == 1 && (c == 100 || c == 200))
            && (leaf == Some(Leaf2) <==> a == 10 && b == 2 && (c == 100 || c == 50))
  {
    Size24();
    assert Size(32) == 1;
    hide Size;
    var n := Net(a * 0x100_0000 + b * 0x1_0000 + c * 0x100 + d, 32);
    assert SubnetOf(n, ZONES[0].net) <==> a == 10 && b == 1 && c == 100;
    assert SubnetOf(n, ZONES[1].net) <==> a == 10 && b == 1 && c == 200;
    assert SubnetOf(n, ZONES[2].net) <==> a == 10 && b == 2 && c == 100;
    assert SubnetOf(n, ZONES[3].net) <==> a == 10 && b == 2 && c == 50;
    hide SubnetOf;
    LeafIff(n, Leaf1);
    LeafIff(n, Leaf2);
    assert ZONES[0].leaf == Leaf1 && ZONES[1].leaf == Leaf1 && ZONES[2].leaf == Leaf2 && ZONES[3].leaf == Leaf2;
  }

  // ---- Targets ------------------------------------------------------------------------------------------

  /** The connections as one operation finds them: the leaves whose client is connected, the leaf of the
      session's own client if that is connected, and the leaves whose bridge answers with an error. */
  datatype Link = Link(up: set<Leaf>, client: Option<Leaf>, broken: set<Leaf>)

  function NetconfTarget(parse: string -> Option<Net>, k: Link, src: string): Option<Leaf> {
    if Home(parse, src) in k.up then Some(Home(parse, src)) else k.client
  }

  function FirstUp(up: set<Leaf>): Option<Leaf> {
    if Leaf1 in up then Some(Leaf1) else if Leaf2 in up then Some(Leaf2) else None
  }

  function RestTarget(parse: string -> Option<Net>, k: Link, src: string): Option<Leaf> {
    match if src == "" then None else IpToLeaf(parse, src)
    case Some(l) => if l in k.up then Some(l) else None
    case None => FirstUp(k.up)
  }

  /** The two entry points choose the same leaf exactly when the source's home is connected, or the
      session's own client stands where REST would fall back to. */
  lemma SameTargetIff(parse: string -> Option<Net>, k: Link, src: string)
    requires ReadsIpv4(parse)
    ensures RestTarget(parse, k, src) == NetconfTarget(parse, k, src)
       <==> (|| Home(parse, src) in k.up
             || k.client == if src != "" && IpToLeaf(parse, src).Some? then None else FirstUp(k.up))
  {
    WholeRangeHasNoZone(parse);
  }

  lemma WholeRangeHasNoZone(parse: string -> Option<Net>)
    requires ReadsIpv4(parse)
    ensures IpToLeaf(parse, "0.0.0.0/0") == None
  {
    hide Size;
    FirstZoneIff(ZONES, Net(0, 0));
  }

  // ---- One rule -------------------------------------------------------------------------------------------

  datatype Verdict = Fine | Failed(tag: string)

  // The tags are those of the RPC error, or the HTTP status of the REST answer.

  /** A rule element: each text stripped, the empty text for an element that is absent. */
  datatype Elem = Elem(operation: string, id: string, action: string, src: string, dst: string, protocol: string,
                       srcPort: string, dstPort: string, priority: string, source: string, comment: string, ttl: string)

  function Or(text: string, default: string): string {
    if text == "" then default else text
  }

  /** The record of a native rule; a priority or lifetime that is no number raises. */
  function ReadElem(e: Elem): Option<Rule> {
    match (ParseInt(Or(e.priority, "1000")), ParseInt(Or(e.ttl, "0")))
    case (Some(p), Some(t)) =>
      Some(Rule(e.id, Upper(Or(e.action, "DROP")), e.src, e.dst, Lower(Or(e.protocol, "all")), e.srcPort, e.dstPort, p,
                Lower(Or(e.source, "sdnc")), e.comment, t))
    case _ => None
  }

  predicate Acceptable(r: Rule) {
    && r.action in {"ACCEPT", "DROP", "RETURN"} && r.protocol in {"tcp", "udp", "icmp", "all"}
    && r.source in {"manual", "sdnc", "agent"}
  }

  function Stamped(agent: bool, r: Rule): Rule {
    if agent then r.(source := "agent", comment := Or(r.comment, "agent:" + r.id)) else r
  }

  /** What pushing one rule comes to, for a session that is an agent's or not. */
  function Push(parse: string -> Option<Net>, agent: bool, s: Leaves, r: Rule, k: Link): (Leaves, Verdict) {
    if !Acceptable(r) then (s, Failed("invalid-value"))
    else if agent && r.action != "DROP" then (s, Failed("access-denied"))
    else
      match NetconfTarget(parse, k, r.src)
      case None => (s, Failed("operation-failed"))
      case Some(l) =>
        if l in k.broken then (s, Failed("operation-failed")) else (Written(s, l, Stamped(agent, r)), Fine)
  }

  function DeleteTargets(k: Link): set<Leaf> {
    if k.up != {} then k.up else if k.client.Some? then {k.client.value} else {}
  }

  /** A delete goes to every connected leaf and fails if any of them fails. */
  function Delete(s: Leaves, id: string, k: Link): (Leaves, Verdict) {
    var targets := DeleteTargets(k);
    (Erased(s, targets - k.broken, id),
     if targets == {} || targets * k.broken != {} then Failed("operation-failed") else Fine)
  }

  /** A rule sent to the REST interface: only its action is checked. */
  function RestPush(parse: string -> Option<Net>, s: Leaves, r: Rule, k: Link): (Leaves, Verdict) {
    if r.id == "" || r.action !in {"ACCEPT", "DROP", "RETURN"} then (s, Failed("400"))
    else
      match RestTarget(parse, k, r.src)
      case None => (s, Failed("503"))
      case Some(l) => if l in k.broken then (s, Failed("500")) else (Written(s, l, r), Fine)
  }

  /** A REST delete fails only if every connected leaf does; with no leaf connected it reports success. */
  function RestDelete(s: Leaves, id: string, k: Link): (Leaves, Verdict) {
    (Erased(s, k.up - k.broken, id), if k.up != {} && k.up <= k.broken then Failed("500") else Fine)
  }

  // ---- A document --------------------------------------------------------------------------------------------

  /** What one element of a document asks for. */
  datatype Order = Put(rule: Rule) | Remove(id: string) | Broken(tag: string)

  datatype Item = Item(order: Order, link: Link)

  function OrderOf(e: Elem): Order {
    if e.id == "" then Broken("invalid-value")
    else if e.operation == "delete" || e.operation == "remove" then Remove(e.id)
    else match ReadElem(e) case None => Broken("operation-failed") case Some(r) => Put(r)
  }

  function One(parse: string -> Option<Net>, agent: bool, s: Leaves, item: Item): (Leaves, Verdict) {
    match item.order
    case Broken(tag) => (s, Failed(tag))
    case Remove(id) => Delete(s, id, item.link)
    case Put(r) => Push(parse, agent, s, r, item.link)
  }

  /** The state after all of `items`, none of which stops the document. */
  function After(parse: string -> Option<Net>, agent: bool, s: Leaves, items: seq<Item>): Leaves {
    if items == [] then s else One(parse, agent, After(parse, agent, s, items[..|items| - 1]), items[|items| - 1]).0
  }

  function VerdictAt(parse: string -> Option<Net>, agent: bool, s: Leaves, items: seq<Item>, i: nat): Verdict
    requires i < |items|
  {
    One(parse, agent, After(parse, agent, s, items[..i]), items[i]).1
  }

  /** Stop on error: either every element went through and all took effect in document order, or the
      first `n` did, element `n` failed, and nothing else happened but what a failing delete removed
      from the leaves that answered. */
  predicate StopsOnError(parse: string -> Option<Net>, agent: bool, s: Leaves, items: seq<Item>, n: nat,
                         t: Leaves, v: Verdict) {
    && n <= |items|
    && (forall i :: 0 <= i < n ==> VerdictAt(parse, agent, s, items, i) == Fine)
    && (v == Fine <==> n == |items|)
    && (n == |items| ==> t == After(parse, agent, s, items))
    && (n < |items| ==>
          (&& v == VerdictAt(parse, agent, s, items, n)
           && t == match items[n].order
                   case Remove(id) =>
                     Erased(After(parse, agent, s, items[..n]), DeleteTargets(items[n].link) - items[n].link.broken, id)
                   case _ => After(parse, agent, s, items[..n])))
  }

  lemma FailureChangesNothing(parse: string -> Option<Net>, agent: bool, s: Leaves, item: Item)
    requires !item.order.Remove? && One(parse, agent, s, item).1 != Fine
    ensures One(parse, agent, s, item).0 == s
  {
  }

  /** Every document stops somewhere in this way. */
  lemma {:induction false} StopsSomewhere(parse: string -> Option<Net>, agent: bool, s: Leaves, items: seq<Item>,
                                          from: nat)
    returns (n: nat, t: Leaves, v: Verdict)
    requires from <= |items| && forall i :: 0 <= i < from ==> VerdictAt(parse, agent, s, items, i) == Fine
    ensures StopsOnError(parse, agent, s, items, n, t, v)
    decreases |items| - from
  {
    hide VerdictAt, After, One;
    if from == |items| {
      assert items[..from] == items;
      n, t, v := from, After(parse, agent, s, items), Fine;
    } else if VerdictAt(parse, agent, s, items, from) == Fine {
      n, t, v := StopsSomewhere(parse, agent, s, items, from + 1);
    } else {
      Stopped(parse, agent, s, items, from);
      var r := One(parse, agent, After(parse, agent, s, items[..from]), items[from]);
      n, t, v := from, r.0, r.1;
    }
  }

  /** One edit-config has one outcome: two splits of a document that both stop on error agree. */
  lemma {:induction false} StopsOnce(parse: string -> Option<Net>, agent: bool, s: Leaves, items: seq<Item>,
                                     m: nat, t: Leaves, v: Verdict, n: nat, u: Leaves, w: Verdict)
    requires StopsOnError(parse, agent, s, items, m, t, v) && StopsOnError(parse, agent, s, items, n, u, w)
    ensures m == n && t == u && v == w
  {
    hide VerdictAt, After, Erased;
  }

  // ---- OpenConfig ----------------------------------------------------------------------------------------------

  datatype Entry = Entry(sequence: string, action: string, src: string, dst: string, protocol: string,
                         srcPort: string, dstPort: string)

  function AfterColon(s: string): string {
    if s == "" then ""
    else
      var n := |s| - 1;
      if s[n] == ':' then "" else AfterColon(s[..n]) + [s[n]]
  }

  function ProtocolName(raw: string): string {
    if raw in {"IP_TCP", "TCP", "6"} then "tcp"
    else if raw in {"IP_UDP", "UDP", "17"} then "udp"
    else if raw in {"IP_ICMP", "ICMP", "1"} then "icmp"
    else "all"
  }

  predicate AllDigits(s: string) {
    s != "" && forall i :: 0 <= i < |s| ==> IsDigit(s[i])
  }

  /** An OpenConfig entry as a rule of the bridge; an action the bridge does not know becomes DROP. */
  function Translated(table: string, e: Entry): Rule {
    var sequence := Or(e.sequence, "1000");
    var action := Upper(AfterColon(Or(e.action, "DROP")));
    var number := ParseInt(sequence);
    Rule(table + "-" + sequence, if action in {"ACCEPT", "DROP", "RETURN"} then action else "DROP", e.src, e.dst,
         ProtocolName(Upper(Or(e.protocol, "all"))), e.srcPort, e.dstPort,
         if AllDigits(sequence) && number.Some? then number.value else 1000, "sdnc", "oc-acl:" + table, 0)
  }

  /** Every translated entry passes validation: on this path a push fails only by role or connection. */
  lemma TranslatedAcceptable(table: string, e: Entry)
    ensures Acceptable(Translated(table, e))
  {
  }

  // ---- The two entry points ---------------------------------------------------------------------

  function Native(elems: seq<(Elem, Link)>): seq<Item> {
    seq(|elems|, i requires 0 <= i < |elems| => Item(OrderOf(elems[i].0), elems[i].1))
  }

  /** The first ACL set of a document, with the operation it carries and the entries in it. */
  datatype AclSet = AclSet(operation: string, table: string, entries: seq<(Entry, Link)>, link: Link)

  function OpenConfig(acl: AclSet): seq<Item> {
    if acl.operation == "delete" then [Item(Remove(acl.table), acl.link)]
    else
      var n := |acl.entries|;
      seq(n, i requires 0 <= i < n => Item(Put(Translated(acl.table, acl.entries[i].0)), acl.entries[i].1))
  }

  lemma {:induction false} OneMore(parse: string -> Option<Net>, agent: bool, s: Leaves, items: seq<Item>, n: nat)
    requires n < |items|
    ensures After(parse, agent, s, items[..n + 1]) == One(parse, agent, After(parse, agent, s, items[..n]), items[n]).0
  {
    hide One;
    assert items[..n + 1][..n] == items[..n];
  }

  lemma {:induction false} Stopped(parse: string -> Option<Net>, agent: bool, s: Leaves, items: seq<Item>, n: nat)
    requires n < |items| && VerdictAt(parse, agent, s, items, n) != Fine
    requires forall i :: 0 <= i < n ==> VerdictAt(parse, agent, s, items, i) == Fine
    ensures var r := One(parse, agent, After(parse, agent, s, items[..n]), items[n]);
            StopsOnError(parse, agent, s, items, n, r.0, r.1)
  {
    hide After, Push;
    if !items[n].order.Remove? {
      FailureChangesNothing(parse, agent, After(parse, agent, s, items[..n]), items[n]);
    }
  }

  /** The leaves behind both entry points. */
  class Distributor {
    const parse: string -> Option<Net>
    var leaves: Leaves

    constructor (parse: string -> Option<Net>, leaves: Leaves)
      ensures this.parse == parse && this.leaves == leaves
    {
      this.parse, this.leaves := parse, leaves;
    }

    method ValidateAndPush(agent: bool, r: Rule, k: Link) returns (v: Verdict)
      modifies this
      ensures (leaves, v) == Push(parse, agent, old(leaves), r, k)
    {
      hide Home;
      if r.action !in {"ACCEPT", "DROP", "RETURN"} {
        return Failed("invalid-value");
      }
      if r.protocol !in {"tcp", "udp", "icmp", "all"} {
        return Failed("invalid-value");
      }
      if r.source !in {"manual", "sdnc", "agent"} {
        return Failed("invalid-value");
      }
      var data := r;
      if agent {
        if data.action != "DROP" {
          return Failed("access-denied");
        }
        data := data.(source := "agent");
        if data.comment == "" {
          data := data.(comment := "agent:" + r.id);
        }
      }
      var target := if Home(parse, data.src) in k.up then Some(Home(parse, data.src)) else k.client;
      if target == None || target.value in k.broken {
        return Failed("operation-failed");
      }
      leaves := Written(leaves, target.value, data);
      v := Fine;
    }

    /** The clients are tried one by one; the errors are collected. */
    method DeleteRule(id: string, k: Link) returns (v: Verdict)
      modifies this
      ensures (leaves, v) == Delete(old(leaves), id, k)
    {
      hide Erased, Ordered;
      NoneErased(leaves, k.broken, id);
      var clients := Ordered(k.up);
      OrderedIs(k.up);
      if clients == [] && k.client.Some? {
        clients := [k.client.value];
      }
      if clients == [] {
        return Failed("operation-failed");
      }
      assert SetOf(clients) == DeleteTargets(k);
      ghost var s := leaves;
      assert SetOf(clients[..0]) - k.broken == {} && SetOf(clients[..0]) * k.broken == {};
      var errors: seq<Leaf> := [];
      for i := 0 to |clients|
        invariant leaves == Erased(s, SetOf(clients[..i]) - k.broken, id)
        invariant errors == [] <==> SetOf(clients[..i]) * k.broken == {}
      {
        ghost var done := SetOf(clients[..i]);
        assert SetOf(clients[..i + 1]) == done + {clients[i]};
        if clients[i] in k.broken {
          errors := errors + [clients[i]];
          assert done + {clients[i]} - k.broken == done - k.broken;
          assert clients[i] in (done + {clients[i]}) * k.broken;
        } else {
          leaves := Erased(leaves, {clients[i]}, id);
          ErasedTwice(s, done - k.broken, {clients[i]}, id);
          assert done + {clients[i]} - k.broken == done - k.broken + {clients[i]};
          assert (done + {clients[i]}) * k.broken == done * k.broken;
        }
      }
      assert clients[..|clients|] == clients;
      v := if errors != [] then Failed("operation-failed") else Fine;
    }

    method PostRule(r: Rule, k: Link) returns (v: Verdict)
      modifies this
      ensures (leaves, v) == RestPush(parse, old(leaves), r, k)
    {
      hide FirstZone;
      if r.id == "" || r.action !in {"ACCEPT", "DROP", "RETURN"} {
        return Failed("400");
      }
      var home := if r.src == "" then None else IpToLeaf(parse, r.src);
      var clients: seq<Leaf>;
      if home.Some? {
        clients := if home.value in k.up then [home.value] else [];
      } else {
        clients := if Leaf1 in k.up then [Leaf1] else if Leaf2 in k.up then [Leaf2] else [];
      }
      if clients == [] {
        return Failed("503");
      }
      if clients[0] in k.broken {
        return Failed("500");
      }
      leaves := Written(leaves, clients[0], r);
      v := Fine;
    }

    method DeleteByRest(id: string, k: Link) returns (v: Verdict)
      modifies this
      ensures (leaves, v) == RestDelete(old(leaves), id, k)
    {
      hide Erased;
      NoneErased(leaves, k.broken, id);
      ghost var s := leaves;
      var deleted, errors: set<Leaf> := {}, {};
      if Leaf1 in k.up {
        if Leaf1 in k.broken {
          errors := {Leaf1};
        } else {
          leaves := Erased(leaves, {Leaf1}, id);
          deleted := {Leaf1};
        }
      }
      assert leaves == Erased(s, deleted, id);
      if Leaf2 in k.up {
        if Leaf2 in k.broken {
          errors := errors + {Leaf2};
        } else {
          leaves := Erased(leaves, {Leaf2}, id);
          ErasedTwice(s, deleted, {Leaf2}, id);
          deleted := deleted + {Leaf2};
        }
      }
      BothLeaves(deleted, k.up - k.broken);
      BothLeaves(errors, k.up * k.broken);
      AllBroken(k.up, k.broken);
      v := if deleted == {} && errors != {} then Failed("500") else Fine;
    }

    /** A document of native rules, read and applied one by one. */
    method EditNative(agent: bool, elems: seq<(Elem, Link)>) returns (v: Verdict, ghost n: nat)
      modifies this
      ensures StopsOnError(parse, agent, old(leaves), Native(elems), n, leaves, v)
    {
      hide Push, Delete, ReadElem;
      ghost var s, items := leaves, Native(elems);
      for i := 0 to |elems|
        invariant leaves == After(parse, agent, s, items[..i])
        invariant forall j :: 0 <= j < i ==> VerdictAt(parse, agent, s, items, j) == Fine
      {
        var (e, k) := elems[i];
        OneMore(parse, agent, s, items, i);
        var w := Fine;
        if e.id == "" {
          w := Failed("invalid-value");
        } else if e.operation == "delete" || e.operation == "remove" {
          w := DeleteRule(e.id, k);
        } else {
          var r := ReadElem(e);
          if r.Some? {
            w := ValidateAndPush(agent, r.value, k);
          } else {
            w := Failed("operation-failed");
          }
        }
        if w != Fine {
          Stopped(parse, agent, s, items, i);
          return w, i;
        }
      }
      assert items[..|elems|] == items;
      return Fine, |elems|;
    }

    /** The first ACL set of an OpenConfig document: deleted as a whole, or entered one by one. */
    method EditOpenConfig(agent: bool, acl: AclSet) returns (v: Verdict, ghost n: nat)
      modifies this
      ensures StopsOnError(parse, agent, old(leaves), OpenConfig(acl), n, leaves, v)
    {
      hide Push, Translated, Delete;
      ghost var s, items := leaves, OpenConfig(acl);
      assert items[..0] == [];
      if acl.operation == "delete" {
        v := DeleteRule(acl.table, acl.link);
        OneMore(parse, agent, s, items, 0);
        if v != Fine {
          Stopped(parse, agent, s, items, 0);
          return v, 0;
        }
        assert items[..1] == items;
        return v, 1;
      }
      for i := 0 to |acl.entries|
        invariant leaves == After(parse, agent, s, items[..i])
        invariant forall j :: 0 <= j < i ==> VerdictAt(parse, agent, s, items, j) == Fine
      {
        OneMore(parse, agent, s, items, i);
        var w := ValidateAndPush(agent, Translated(acl.table, acl.entries[i].0), acl.entries[i].1);
        if w != Fine {
          Stopped(parse, agent, s, items, i);
          return w, i;
        }
      }
      assert items[..|acl.entries|] == items;
      return Fine, |acl.entries|;
    }
  }

  /** The connected leaves in the order of the pool. */
  function Ordered(up: set<Leaf>): seq<Leaf> {
    (if Leaf1 in up then [Leaf1] else []) + (if Leaf2 in up then [Leaf2] else [])
  }

  lemma OrderedIs(up: set<Leaf>)
    ensures SetOf(Ordered(up)) == up
    ensures Ordered(up) == [] <==> up == {}
  {
    forall l: Leaf ensures l in SetOf(Ordered(up)) <==> l in up {
      assert Ordered(up) == (if Leaf1 in up then [Leaf1] else []) + (if Leaf2 in up then [Leaf2] else []);
      assert l == Leaf1 || l == Leaf2;
    }
  }

  lemma BothLeaves(a: set<Leaf>, b: set<Leaf>)
    ensures (Leaf1 in a <==> Leaf1 in b) && (Leaf2 in a <==> Leaf2 in b) ==> a == b
  {
    if (Leaf1 in a <==> Leaf1 in b) && (Leaf2 in a <==> Leaf2 in b) {
      forall l: Leaf ensures l in a <==> l in b {
        assert l == Leaf1 || l == Leaf2;
      }
    }
  }

  lemma AllBroken(up: set<Leaf>, broken: set<Leaf>)
    ensures up - broken == {} && up * broken != {} <==> up != {} && up <= broken
  {
    if up <= broken {
      assert up * broken == up;
    } else {
      var l :| l in up && l !in broken;
      assert l in up - broken;
    }
  }

  lemma NoneErased(s: Leaves, broken: set<Leaf>, id: string)
    ensures Erased(s, {}, id) == s && Erased(s, {} - broken, id) == s
  {
  }

  lemma ErasedTwice(s: Leaves, a: set<Leaf>, b: set<Leaf>, id: string)
    ensures Erased(Erased(s, a, id), b, id) == Erased(s, a + b, id)
  {
  }

  function SetOf(s: seq<Leaf>): set<Leaf> {
    set l | l in s
  }
}
