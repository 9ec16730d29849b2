/** How sources, operations, records and certificates are read: every case of it, told from the outside. */
module RuleReadings {
  import opened Text
  import opened Policy
  import opened RuleDistribution
  import opened RuleRuns

  // ---- Sources ------------------------------------------------------------------------------------------

  /** The octets of a host in a zone of the first leaf. */
  predicate InLeaf1(a: nat, b: nat, c: nat) {
    a == 10 && b == 1 && (c == 100 || c == 200)
  }

  predicate InLeaf2(a: nat, b: nat, c: nat) {
    a == 10 && b == 2 && (c == 100 || c == 50)
  }

  /** Where a push for a host goes. From a zone: over NETCONF to the zone's leaf, or to the session's own client
      if that leaf is down; over REST to the zone's leaf or nowhere. From elsewhere: over NETCONF to the first
      leaf or to the session's own client; over REST to the first leaf that is up. */
  lemma HostTargets(parse: string -> Option<Net>, k: Link, src: string, a: nat, b: nat, c: nat, d: nat)
    requires a < 256 && b < 256 && c < 256 && d < 256 && src != ""
    requires parse(src) == Some(Net(a * 0x100_0000 + b * 0x1_0000 + c * 0x100 + d, 32))
    ensures var netconf, rest := NetconfTarget(parse, k, src), RestTarget(parse, k, src);
            && (InLeaf1(a, b, c) ==>
                  && netconf == (if Leaf1 in k.up then Some(Leaf1) else k.client)
                  && rest == (if Leaf1 in k.up then Some(Leaf1) else None))
            && (InLeaf2(a, b, c) ==>
                  && netconf == (if Leaf2 in k.up then Some(Leaf2) else k.client)
                  && rest == (if Leaf2 in k.up then Some(Leaf2) else None))
            && (!InLeaf1(a, b, c) && !InLeaf2(a, b, c) ==> Elsewhere(k, netconf, rest))
  {
    hide FirstZone, ZONES;
    HostLeafIff(a, b, c, d);
    var leaf := IpToLeaf(parse, src);
    assert leaf.Some? ==> leaf.value == Leaf1 || leaf.value == Leaf2;
  }

  predicate Elsewhere(k: Link, netconf: Option<Leaf>, rest: Option<Leaf>) {
    && netconf == (if Leaf1 in k.up then Some(Leaf1) else k.client)
    && rest == (if Leaf1 in k.up then Some(Leaf1) else if Leaf2 in k.up then Some(Leaf2) else None)
  }

  /** So does a push without a source, or with one that cannot be read. */
  lemma UnreadTargets(parse: string -> Option<Net>, k: Link, src: string)
    requires ReadsIpv4(parse) && (src == "" || parse(src) == None)
    ensures Elsewhere(k, NetconfTarget(parse, k, src), RestTarget(parse, k, src))
  {
    hide FirstZone, ZONES;
    WholeRangeHasNoZone(parse);
  }

  /** A network goes to a leaf exactly when all its addresses lie in one zone of that leaf. */
  lemma LeafOfAddresses(n: Net, l: Leaf)
    requires n.prefix <= 32
    ensures FirstZone(ZONES, n) == Some(l) <==>
              exists i :: 0 <= i < |ZONES| && ZONES[i].leaf == l && Covered(n, i)
  {
    hide SubnetOf, Holds;
    LeafIff(n, l);
    forall i | 0 <= i < |ZONES| ensures SubnetOf(n, ZONES[i].net) <==> Covered(n, i) {
      SubnetIff(n, ZONES[i].net);
    }
  }

  ghost predicate Covered(n: Net, i: nat)
    requires n.prefix <= 32 && i < |ZONES|
  {
    ZONES[i].net.prefix <= 32 && forall address :: Holds(n, address) ==> Holds(ZONES[i].net, address)
  }

  // ---- Elements -----------------------------------------------------------------------------------------

  /** An element deletes exactly when it has an id and its operation is delete or remove. Without an id it is
      refused as invalid; with an unreadable priority or lifetime it fails; any other is a rule to be put. */
  lemma OrderIs(e: Elem)
    ensures OrderOf(e) == Remove(e.id) <==> e.id != "" && e.operation in {"delete", "remove"}
    ensures OrderOf(e).Remove? ==> OrderOf(e) == Remove(e.id)
    ensures OrderOf(e) == Broken("invalid-value") <==> e.id == ""
    ensures OrderOf(e).Broken? && e.id != "" ==> OrderOf(e) == Broken("operation-failed")
    ensures OrderOf(e).Broken? && e.id != "" <==>
              && e.id != "" && e.operation !in {"delete", "remove"}
              && (ParseInt(if e.priority == "" then "1000" else e.priority).None?
                  || ParseInt(if e.ttl == "" then "0" else e.ttl).None?)
  {
    hide ParseInt, Upper, Lower;
    assert "operation-failed" != "invalid-value";
  }

  /** What stands behind the last colon. */
  lemma {:induction false} AfterColonIs(s: string) returns (front: string)
    ensures ':' !in AfterColon(s)
    ensures (s == AfterColon(s) && front == "") || s == front + ":" + AfterColon(s)
  {
    if s == "" {
      front := "";
    } else {
      var n := |s| - 1;
      if s[n] == ':' {
        front := s[..n];
        assert s == front + ":" + "";
      } else {
        front := AfterColonIs(s[..n]);
        assert s == s[..n] + [s[n]];
        Assoc(front + ":", AfterColon(s[..n]), [s[n]]);
      }
    }
  }

  /** A native document asks for what its elements ask for, one by one; an OpenConfig set for its own deletion, or
      for its entries one by one. */
  lemma ItemsAre(elems: seq<(Elem, Link)>, acl: AclSet)
    ensures |Native(elems)| == |elems|
    ensures forall i :: 0 <= i < |elems| ==> Native(elems)[i] == Item(OrderOf(elems[i].0), elems[i].1)
    ensures acl.operation == "delete" ==> OpenConfig(acl) == [Item(Remove(acl.table), acl.link)]
    ensures acl.operation != "delete" ==> |OpenConfig(acl)| == |acl.entries|
    ensures acl.operation != "delete" ==>
              forall i :: 0 <= i < |acl.entries| ==>
                OpenConfig(acl)[i] == Item(Put(Translated(acl.table, acl.entries[i].0)), acl.entries[i].1)
  {
    hide OrderOf, Translated;
  }

  /** One item went through and left `t` behind. */
  predicate WentThrough(parse: string -> Option<Net>, agent: bool, s: Leaves, item: Item, t: Leaves) {
    match item.order
    case Broken(_) => false
    case Remove(id) => Delete(s, id, item.link) == (t, Fine)
    case Put(r) => Push(parse, agent, s, r, item.link) == (t, Fine)
  }

  /** One item failed and left `t` behind. */
  predicate StoppedAt(parse: string -> Option<Net>, agent: bool, s: Leaves, item: Item, t: Leaves, v: Verdict) {
    && v != Fine
    && match item.order
       case Broken(tag) => v == Failed(tag) && t == s
       case Remove(id) => Delete(s, id, item.link) == (t, v)
       case Put(r) => Push(parse, agent, s, r, item.link) == (t, v) && t == s
  }

  /** A document goes through item by item, each on what the one before it left, up to its end or to the first that
      fails. A rule that fails and an item that cannot be read leave what they found; of a delete that fails what it
      removed stays removed; nothing behind is tried. */
  lemma {:induction false} DocumentIs(parse: string -> Option<Net>, agent: bool, s: Leaves, items: seq<Item>, n: nat,
                                      t: Leaves, v: Verdict)
    returns (ws: seq<Leaves>)
    requires StopsOnError(parse, agent, s, items, n, t, v)
    ensures n <= |items| && |ws| == n + 1 && ws[0] == s
    ensures forall i :: 0 <= i < n ==> WentThrough(parse, agent, ws[i], items[i], ws[i + 1])
    ensures n == |items| ==> v == Fine && t == ws[n]
    ensures n < |items| ==> StoppedAt(parse, agent, ws[n], items[n], t, v)
  {
    hide Push, Erased;
    ws := seq(n + 1, i requires 0 <= i <= n => After(parse, agent, s, items[..i]));
    assert items[..0] == [] && items[..|items|] == items;
    forall i | 0 <= i < n ensures WentThrough(parse, agent, ws[i], items[i], ws[i + 1]) {
      assert VerdictAt(parse, agent, s, items, i) == Fine;
      assert items[..i + 1][..i] == items[..i];
    }
    if n < |items| && !items[n].order.Remove? {
      FailureChangesNothing(parse, agent, ws[n], items[n]);
    }
  }

  // ---- Answers ------------------------------------------------------------------------------------------

  /** A NETCONF push is invalid exactly when its action, protocol or source is not one of the known; else denied
      exactly when an agent sends anything but a drop; else it fails exactly when it has no target or its target
      refuses. */
  lemma PushAnswers(parse: string -> Option<Net>, agent: bool, s: Leaves, r: Rule, k: Link)
    ensures var v, target := Push(parse, agent, s, r, k).1, NetconfTarget(parse, k, r.src);
            var valid := r.action in {"ACCEPT", "DROP", "RETURN"} && r.protocol in {"tcp", "udp", "icmp", "all"}
                         && r.source in {"manual", "sdnc", "agent"};
            && (v == Failed("invalid-value") <==> !valid)
            && (v == Failed("access-denied") <==> valid && agent && r.action != "DROP")
            && (v == Failed("operation-failed") <==>
                  valid && !(agent && r.action != "DROP") && (target.None? || target.value in k.broken))
            && (v == Fine <==> valid && !(agent && r.action != "DROP") && target.Some? && target.value !in k.broken)
  {
    hide NetconfTarget;
    assert "invalid-value"[0] != "access-denied"[0] && "invalid-value"[0] != "operation-failed"[0];
    assert "access-denied"[0] != "operation-failed"[0];
  }

  /** A NETCONF delete is tried on the connected leaves, and with none connected on the session's own client; it
      succeeds exactly when it is tried at all and nobody refuses. */
  lemma DeleteAnswers(s: Leaves, id: string, k: Link)
    ensures forall l :: l in DeleteTargets(k) <==> l in k.up || (k.up == {} && k.client == Some(l))
    ensures Delete(s, id, k).1 == Fine <==>
              (k.up != {} || k.client.Some?) && forall l :: l in DeleteTargets(k) ==> l !in k.broken
  {
    var targets := DeleteTargets(k);
    if targets * k.broken != {} {
      var l :| l in targets * k.broken;
    }
    if l :| l in targets && l in k.broken {
      assert l in targets * k.broken;
    }
    if k.up != {} {
      var l :| l in k.up;
    }
  }

  /** A REST push is answered 400 for a missing id or an unknown action, 503 without a target, 500 for a target
      that refuses. */
  lemma RestAnswers(parse: string -> Option<Net>, s: Leaves, r: Rule, k: Link)
    ensures var v, target := RestPush(parse, s, r, k).1, RestTarget(parse, k, r.src);
            var valid := r.id != "" && r.action in {"ACCEPT", "DROP", "RETURN"};
            && (v == Failed("400") <==> !valid)
            && (v == Failed("503") <==> valid && target.None?)
            && (v == Failed("500") <==> valid && target.Some? && target.value in k.broken)
  {
    hide RestTarget;
    assert "400"[0] != "503"[0] && "400"[0] != "500"[0] && "503"[2] != "500"[2];
  }

  // ---- Certificates -------------------------------------------------------------------------------------

  /** The unit of a certificate, in any case, makes its bearer an administrator, an operator or an agent, and any
      other unit nobody; who has no certificate is an administrator, and so is everybody while security is
      bypassed. */
  lemma RoleIs(bypass: bool, cert: Cert)
    ensures bypass || cert == NoCert ==> RoleOf(bypass, cert) == Some(Admin)
    ensures !bypass && cert.Ou? ==>
              && (RoleOf(bypass, cert) == Some(Admin) <==> Lower(cert.unit) in {"internal", "sdnc"})
              && (RoleOf(bypass, cert) == Some(Operator) <==> Lower(cert.unit) == "aws")
              && (RoleOf(bypass, cert) == Some(Agent) <==> Lower(cert.unit) == "auto")
              && (RoleOf(bypass, cert) == None <==> Lower(cert.unit) !in {"internal", "sdnc", "aws", "auto"})
  {
    hide Lower;
    assert "internal"[0] != "aws"[0] && "sdnc"[0] != "aws"[0] && |"auto"| != |"aws"|;
    assert "internal"[0] != "auto"[0] && "sdnc"[0] != "auto"[0];
  }

  /** The act opens the connection with a certificate that gives a role, or closes it. */
  predicate Settles(bypass: bool, act: Act, conn: nat) {
    || (act.Open? && act.conn == conn && RoleOf(bypass, act.cert).Some?)
    || (act.Close? && act.conn == conn)
  }

  /** A connection has the role that its last opening gave it, unless it was closed since; one never opened has
      none. */
  lemma {:induction false} OwnRoleIs(bypass: bool, acts: seq<Act>, conn: nat, i: nat)
    requires i <= |acts| && forall j :: i < j < |acts| ==> !Settles(bypass, acts[j], conn)
    ensures i < |acts| && Settles(bypass, acts[i], conn) ==>
              OwnRole(bypass, acts, conn) == if acts[i].Open? then RoleOf(bypass, acts[i].cert) else None
    ensures (forall j :: 0 <= j < |acts| ==> !Settles(bypass, acts[j], conn)) ==> OwnRole(bypass, acts, conn) == None
  {
    hide RoleOf;
    if acts != [] {
      var n := |acts| - 1;
      OwnRoleIs(bypass, acts[..n], conn, if i < n then i else n);
    }
  }
}
