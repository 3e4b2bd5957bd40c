/** What a packet meets on its way through a chain of the kernel, the chains it jumps to included. */
module PacketWalk {
  import opened Iptables

  /** Whether the walk of the chain goes on. */
  datatype Stop = Going | Returned | Finished

  /** The mark of the connection, the mark of the packet, and its new source address. */
  datatype Fate = Fate(connMark: bool, mark: bool, source: Source, stop: Stop)

  /** The rules in order. A RETURN ends the chain and goes on behind the jump that led there; DROP and SNAT end the
      whole table. `depth` bounds how far jumps nest. */
  function Walk(chains: Chains, table: string, rules: seq<Rule>, p: Packet, f: Fate, depth: nat): Fate
    decreases depth, |rules|
  {
    if rules == [] || !f.stop.Going? then f
    else Walk(chains, table, rules[1..], p, Meet(chains, table, rules[0], p, f, depth), depth)
  }

  function Meet(chains: Chains, table: string, r: Rule, p: Packet, f: Fate, depth: nat): Fate
    decreases depth, 0
  {
    if !Matches(r, p) then f
    else match r.target
      case Return => f.(stop := Returned)
      case Drop => f.(stop := Finished)
      case Snat(to) => f.(source := Translated(to), stop := Finished)
      case SetMark => f.(connMark := true)
      case RestoreMark => f.(mark := f.connMark)
      case Jump(name) =>
        if depth == 0 || (table, name) !in chains then f else
        var inner := Walk(chains, table, chains[(table, name)], p, f, depth - 1);
        inner.(stop := if inner.stop.Finished? then Finished else Going)
  }

  lemma {:induction false} WalkConcat(chains: Chains, table: string, a: seq<Rule>, b: seq<Rule>, p: Packet, f: Fate,
                                      depth: nat)
    ensures Walk(chains, table, a + b, p, f, depth) ==
            Walk(chains, table, b, p, Walk(chains, table, a, p, f, depth), depth)
    decreases |a|
  {
    if a == [] {
      assert a + b == b;
    } else {
      assert (a + b)[1..] == a[1..] + b;
      if f.stop.Going? { WalkConcat(chains, table, a[1..], b, p, Meet(chains, table, a[0], p, f, depth), depth); }
      else { Stopped(chains, table, b, p, f, depth); }
      hide Matches, Meet;
    }
  }

  /** A connection mark is never taken away, and a packet that carries the mark of a marked connection keeps it. */
  lemma {:induction false} MarksStay(chains: Chains, table: string, rules: seq<Rule>, p: Packet, f: Fate, depth: nat)
    ensures f.connMark ==> Walk(chains, table, rules, p, f, depth).connMark
    ensures f.connMark && f.mark ==> Walk(chains, table, rules, p, f, depth).mark
    decreases depth, |rules|
  {
    if rules != [] && f.stop.Going? {
      hide Matches;
      if rules[0].target.Jump? && depth > 0 && (table, rules[0].target.chain) in chains {
        MarksStay(chains, table, chains[(table, rules[0].target.chain)], p, f, depth - 1);
      }
      MarksStay(chains, table, rules[1..], p, Meet(chains, table, rules[0], p, f, depth), depth);
    }
  }

  /** A chain of returns, translations and marks does what Traverse says. */
  lemma {:induction false} WalkIsTraverse(chains: Chains, table: string, rules: seq<Rule>, p: Packet, f: Fate,
                                          depth: nat)
    requires f.stop.Going? && forall r | r in rules :: r.target.Return? || IsAction(r)
    ensures var g, effect := Walk(chains, table, rules, p, f, depth), Traverse(rules, p);
            && g.connMark == (f.connMark || effect.marked) && g.mark == f.mark
            && g.source == (if effect.source.Kept? then f.source else effect.source)
            && (g.stop.Finished? <==> effect.source.Translated?)
    decreases |rules|
  {
    if rules != [] {
      hide Matches;
      if !Matches(rules[0], p) { WalkIsTraverse(chains, table, rules[1..], p, f, depth); }
      else if rules[0].target.SetMark? {
        WalkIsTraverse(chains, table, rules[1..], p, f.(connMark := true), depth);
      }
    }
  }

  // ---------------------------------------------------------------- leaving the node

  /** The jump of POSTROUTING translates exactly the packets that leave through an interface with a rule of its own, for
      a public address that is not the node's. */
  lemma SnatJump(chains: Chains, p: Packet, f: Fate, depth: nat)
    requires SNAT_CHAIN in chains && Tidy(SNAT_CHAIN, chains[SNAT_CHAIN]) && f.stop.Going? && depth > 0
    ensures var g := Walk(chains, "nat", [SNAT_JUMP], p, f, depth);
            if (exists ip :: SnatRule(ip, p.outIface) in chains[SNAT_CHAIN]) && !IsPrivate(p.dst) && !p.dstLocal
            then exists ip :: SnatRule(ip, p.outIface) in chains[SNAT_CHAIN]
                              && g == f.(source := Translated(ip), stop := Finished)
            else g == f
  {
    var chain := chains[SNAT_CHAIN];
    TidyActs(SNAT_CHAIN, chain);
    WalkIsTraverse(chains, "nat", chain, p, f, depth - 1);
    assert Matches(SNAT_JUMP, p) && [SNAT_JUMP][1..] == [];
    if IsPrivate(p.dst) {
      PrivateIsSpared(SNAT_CHAIN, chain, p);
    } else if p.dstLocal || !exists ip :: SnatRule(ip, p.outIface) in chain {
      NobodyTranslates(chain, p);
    } else {
      var ip :| SnatRule(ip, p.outIface) in chain;
      SnatVerdict(chain, p, ip);
    }
    hide Tidy, IsPrivate, Matches, Traverse;
  }

  lemma TidyActs(id: ChainId, chain: seq<Rule>)
    requires Custom(id) && Tidy(id, chain)
    ensures forall r | r in chain :: r.target.Return? || IsAction(r)
    ensures id == SNAT_CHAIN ==> forall r | r in chain :: !r.target.SetMark?
  {
    forall r | r in chain ensures r.target.Return? || IsAction(r) { OwnActions(id, r); }
    if id == SNAT_CHAIN {
      forall r | r in chain ensures !r.target.SetMark? { assert Own(id, r); }
    }
  }

  lemma NobodyTranslates(chain: seq<Rule>, p: Packet)
    requires Tidy(SNAT_CHAIN, chain) && (p.dstLocal || !exists ip :: SnatRule(ip, p.outIface) in chain)
    ensures Traverse(chain, p) == UNTOUCHED
  {
    TraverseSnats(chain, p);
    if Acted(chain, p) {
      var i :| 0 <= i < |chain| && IsAction(chain[i]) && Matches(chain[i], p);
      var r := chain[i];
      assert Own(SNAT_CHAIN, r);
      GuardsArePrivate(SNAT_CHAIN, p);
      assert r.conditions[0] in r.conditions && r.conditions[2] in r.conditions;
      assert Holds(r.conditions[0], p) && Holds(r.conditions[2], p);
      assert r == SnatRule(r.target.to, p.outIface);
    }
  }

  /** After an update, a packet that leaves through the primary interface for a public address has its source translated
      unless a rule of POSTROUTING before the jump takes it. */
  lemma OutboundIsTranslated(chains: Chains, primaryIP: string, p: Packet, f: Fate, depth: nat)
      returns (k: nat, ip: string)
    requires Safe(chains) && Wired(chains, primaryIP, p.outIface) && f.stop.Going? && depth > 0
    requires !IsPrivate(p.dst) && !p.dstLocal
    ensures k < |chains[POSTROUTING]| && chains[POSTROUTING][k] == SNAT_JUMP
    ensures SnatRule(ip, p.outIface) in chains[SNAT_CHAIN]
    ensures var g := Walk(chains, "nat", chains[POSTROUTING][..k], p, f, depth);
            Walk(chains, "nat", chains[POSTROUTING], p, f, depth) ==
            if g.stop.Going? then g.(source := Translated(ip), stop := Finished) else g
  {
    var s := chains[POSTROUTING];
    hide Tidy, Matches, IsPrivate, Walk;
    k :| 0 <= k < |s| && s[k] == SNAT_JUMP;
    assert s == s[..k] + [SNAT_JUMP] + s[k + 1..];
    var g := Walk(chains, "nat", s[..k], p, f, depth);
    WalkConcat(chains, "nat", s[..k] + [SNAT_JUMP], s[k + 1..], p, f, depth);
    WalkConcat(chains, "nat", s[..k], [SNAT_JUMP], p, f, depth);
    ip := primaryIP;
    if g.stop.Going? {
      SnatJump(chains, p, g, depth);
      ip :| SnatRule(ip, p.outIface) in chains[SNAT_CHAIN]
            && Walk(chains, "nat", [SNAT_JUMP], p, g, depth) == g.(source := Translated(ip), stop := Finished);
    } else {
      Stopped(chains, "nat", [SNAT_JUMP], p, g, depth);
    }
    Stopped(chains, "nat", s[k + 1..], p, Walk(chains, "nat", s[..k] + [SNAT_JUMP], p, f, depth), depth);
  }

  lemma Stopped(chains: Chains, table: string, rules: seq<Rule>, p: Packet, f: Fate, depth: nat)
    ensures !f.stop.Going? ==> Walk(chains, table, rules, p, f, depth) == f
  {
  }

  // ---------------------------------------------------------------- coming in

  /** The two rules of mangle: the first marks the connection exactly when the packet comes in through the interface for
      an address the interface has; the second copies the mark exactly to packets from the pods' interfaces. */
  lemma MangleRules(chains: Chains, iface: string, p: Packet, f: Fate, depth: nat)
    requires f.stop.Going? && (iface != "" ==> iface[|iface| - 1] != '+')
    ensures Walk(chains, "mangle", [PrimaryMark(iface)], p, f, depth) ==
            if p.inIface == iface && p.dstLocalHere then f.(connMark := true) else f
    ensures Walk(chains, "mangle", [VETH_RESTORE], p, f, depth) ==
            if "ucni" <= p.inIface then f.(mark := f.connMark) else f
  {
    var r := PrimaryMark(iface);
    assert Matches(r, p) <==> Holds(r.conditions[1], p) && Holds(r.conditions[2], p);
    assert [r][1..] == [] && [VETH_RESTORE][1..] == [];
    assert "ucni+"[..4] == "ucni";
    assert Matches(VETH_RESTORE, p) <==> Holds(VETH_RESTORE.conditions[1], p);
  }

  /** After an update, a packet that mangle PREROUTING lets through has a marked connection when it came in through the
      primary interface for an address of it, and carries the mark of its marked connection when it comes from a pod. */
  lemma RepliesCarryTheMark(chains: Chains, primaryIP: string, iface: string, p: Packet, f: Fate, depth: nat)
    requires Wired(chains, primaryIP, iface) && f.stop.Going? && (iface != "" ==> iface[|iface| - 1] != '+')
    ensures var g := Walk(chains, "mangle", chains[MANGLE], p, f, depth);
            g.stop.Going? ==>
              && (p.inIface == iface && p.dstLocalHere ==> g.connMark)
              && ("ucni" <= p.inIface && f.connMark ==> g.mark)
  {
    RuleOfMangle(chains, iface, PrimaryMark(iface), p, f, depth);
    RuleOfMangle(chains, iface, VETH_RESTORE, p, f, depth);
    hide Matches, Walk;
  }

  lemma RuleOfMangle(chains: Chains, iface: string, r: Rule, p: Packet, f: Fate, depth: nat)
    requires Has(chains, MANGLE, r) && f.stop.Going? && (iface != "" ==> iface[|iface| - 1] != '+')
    ensures var g := Walk(chains, "mangle", chains[MANGLE], p, f, depth);
            g.stop.Going? ==>
              && (r == PrimaryMark(iface) && p.inIface == iface && p.dstLocalHere ==> g.connMark)
              && (r == VETH_RESTORE && "ucni" <= p.inIface && f.connMark ==> g.mark)
  {
    var s := chains[MANGLE];
    hide Matches, Walk;
    var k :| 0 <= k < |s| && s[k] == r;
    assert s == s[..k] + [r] + s[k + 1..];
    WalkConcat(chains, "mangle", s[..k] + [r], s[k + 1..], p, f, depth);
    WalkConcat(chains, "mangle", s[..k], [r], p, f, depth);
    var g := Walk(chains, "mangle", s[..k], p, f, depth);
    var h := Walk(chains, "mangle", [r], p, g, depth);
    MarksStay(chains, "mangle", s[..k], p, f, depth);
    MarksStay(chains, "mangle", s[k + 1..], p, h, depth);
    Stopped(chains, "mangle", [r], p, g, depth);
    Stopped(chains, "mangle", s[k + 1..], p, h, depth);
    if g.stop.Going? { MangleRules(chains, iface, p, g, depth); }
  }

  /** The pair at the end of PREROUTING: a packet that no earlier rule took leaves with the mark of its connection, and
      it marks the connection exactly when it opens it, comes from a pod and is for the public, unless the pod is left
      to the NAT gateway. */
  lemma OutboundIsMarked(chains: Chains, p: Packet, f: Fate, depth: nat)
    requires Safe(chains) && PREROUTING in chains && EndsInPair(chains[PREROUTING]) && depth > 0
    requires Has(chains, CONNMARK_CHAIN, MARK_RULE)
    ensures var s := chains[PREROUTING];
            var g := Walk(chains, "nat", s[..|s| - 2], p, f, depth);
            var marks := p.isNew && "ucni" <= p.inIface && !IsPrivate(p.dst)
                         && !(BYPASS_RULE in chains[CONNMARK_CHAIN] && "UCLOUD-NATGW-OUTGOING" in p.srcSets);
            Walk(chains, "nat", s, p, f, depth) ==
            if g.stop.Going? then g.(connMark := g.connMark || marks, mark := g.connMark || marks) else g
  {
    var s, chain := chains[PREROUTING], chains[CONNMARK_CHAIN];
    var front, pair := s[..|s| - 2], [JUMP_RULE, RESTORE_RULE];
    assert s == front + pair && pair[1..] == [RESTORE_RULE] && [RESTORE_RULE][1..] == [];
    WalkConcat(chains, "nat", front, pair, p, f, depth);
    var g := Walk(chains, "nat", front, p, f, depth);
    Stopped(chains, "nat", pair, p, g, depth);
    if g.stop.Going? {
      TidyActs(CONNMARK_CHAIN, chain);
      WalkIsTraverse(chains, "nat", chain, p, g, depth - 1);
      ConnmarkVerdict(chain, p);
      JumpMatches(p);
      hide Matches, Tidy, Traverse, IsPrivate;
      var h := Meet(chains, "nat", JUMP_RULE, p, g, depth);
      assert Walk(chains, "nat", pair, p, g, depth) == Walk(chains, "nat", [RESTORE_RULE], p, h, depth);
      assert Walk(chains, "nat", [RESTORE_RULE], p, h, depth) == Meet(chains, "nat", RESTORE_RULE, p, h, depth);
    }
  }

  lemma JumpMatches(p: Packet)
    ensures Matches(JUMP_RULE, p) <==> p.isNew && "ucni" <= p.inIface
    ensures Matches(RESTORE_RULE, p)
  {
    assert "ucni+"[..4] == "ucni";
    assert Matches(JUMP_RULE, p) <==> Holds(JUMP_RULE.conditions[0], p) && Holds(JUMP_RULE.conditions[2], p);
  }
}
