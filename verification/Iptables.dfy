/** The node's NAT rules as data: chains are sequences of rules, a rule is changed by one call that may fail, and a
    packet meets the first rules that match it. */
module Iptables {
  import opened NatOutgoing
  import opened Sequences

  // ---------------------------------------------------------------- rules and packets

  /** An IPv4 range: `size` addresses from `base`. */
  datatype Cidr = Cidr(base: nat, size: nat)

  datatype Condition =
    | DstIn(cidr: Cidr)
    | InIface(pattern: string)      // a pattern ending with '+' is a prefix
    | OutIface(name: string)
    | DstLocal(yes: bool)
    | DstLocalHere                  // --dst-type LOCAL --limit-iface-in
    | StateNew
    | SrcInSet(name: string)
    | Comment(text: string)

  datatype Target = Return | Drop | Snat(to: string) | SetMark | RestoreMark | Jump(chain: string)

  datatype Rule = Rule(conditions: seq<Condition>, target: Target)

  datatype Packet = Packet(dst: nat, inIface: string, outIface: string, dstLocal: bool, dstLocalHere: bool,
    isNew: bool, srcSets: set<string>)

  predicate InCidr(dst: nat, cidr: Cidr) {
    cidr.base <= dst < cidr.base + cidr.size
  }

  predicate Holds(c: Condition, p: Packet) {
    match c
    case DstIn(cidr) => InCidr(p.dst, cidr)
    case InIface(pattern) =>
      if pattern != "" && pattern[|pattern| - 1] == '+' then pattern[..|pattern| - 1] <= p.inIface
                    else p.inIface == pattern
    case OutIface(name) => p.outIface == name
    case DstLocal(yes) => p.dstLocal == yes
    case DstLocalHere => p.dstLocalHere
    case StateNew => p.isNew
    case SrcInSet(name) => name in p.srcSets
    case Comment(_) => true
  }

  predicate Matches(r: Rule, p: Packet) {
    forall c | c in r.conditions :: Holds(c, p)
  }

  datatype Source = Kept | Translated(to: string)

  /** What a custom chain does to a packet. */
  datatype Effect = Effect(marked: bool, source: Source)

  const UNTOUCHED := Effect(false, Kept)

  /** SNAT, DROP and RETURN end the chain; setting the connection mark does not. */
  function Traverse(chain: seq<Rule>, p: Packet): Effect {
    if chain == [] then UNTOUCHED
    else if !Matches(chain[0], p) then Traverse(chain[1..], p)
    else match chain[0].target
      case Return => UNTOUCHED
      case Drop => UNTOUCHED
      case Snat(to) => Effect(false, Translated(to))
      case SetMark => Traverse(chain[1..], p).(marked := true)
      case _ => Traverse(chain[1..], p)
  }

  // ---------------------------------------------------------------- the rules of the node

  type ChainId = (string, string)   // table and chain

  const CONNMARK_NAME := "UCLOUD-CONNMARK-CHAIN-0"
  const SNAT_NAME := "UCLOUD-SNAT-CHAIN-0"
  const SNAT_CHAIN: ChainId := ("nat", SNAT_NAME)
  const CONNMARK_CHAIN: ChainId := ("nat", CONNMARK_NAME)
  const PREROUTING: ChainId := ("nat", "PREROUTING")
  const POSTROUTING: ChainId := ("nat", "POSTROUTING")
  const MANGLE: ChainId := ("mangle", "PREROUTING")

  /** Section 3 of RFC 1918: 10/8, 172.16/12 and 192.168/16. */
  const PRIVATE: seq<Cidr> := [
    Cidr(10 * 0x100_0000, 0x100_0000), Cidr(172 * 0x100_0000 + 16 * 0x1_0000, 0x10_0000),
    Cidr(192 * 0x100_0000 + 168 * 0x1_0000, 0x1_0000)]

  predicate IsPrivate(dst: nat) {
    exists i | 0 <= i < |PRIVATE| :: InCidr(dst, PRIVATE[i])
  }

  /** The three ranges by their leading bits. */
  lemma PrivateRanges(dst: nat)
    ensures IsPrivate(dst) <==> dst / 0x100_0000 == 10 || dst / 0x10_0000 == 0xAC1 || dst / 0x1_0000 == 0xC0A8
  {
    assert InCidr(dst, PRIVATE[0]) <==> dst / 0x100_0000 == 10;
    assert InCidr(dst, PRIVATE[1]) <==> dst / 0x10_0000 == 0xAC1;
    assert InCidr(dst, PRIVATE[2]) <==> dst / 0x1_0000 == 0xC0A8;
  }

  datatype Wish = Wish(name: string, shouldExist: bool, chain: ChainId, rule: Rule)

  function SnatGuard(cidr: Cidr): Rule {
    Rule([DstIn(cidr), Comment("UCLOUD SNAT CHAIN")], Return)
  }

  function ConnmarkGuard(cidr: Cidr): Rule {
    Rule([DstIn(cidr), Comment("UCLOUD CONNMARK CHAIN, VPC CIDR")], Return)
  }

  function SnatRule(primaryIP: string, iface: string): Rule {
    Rule([OutIface(iface), Comment("UCLOUD SNAT"), DstLocal(false)], Snat(primaryIP))
  }

  /** Marks the connections that come in through the primary interface for one of its addresses. */
  function PrimaryMark(iface: string): Rule {
    Rule([Comment("UCLOUD primary UNI"), InIface(iface), DstLocalHere], SetMark)
  }

  const SNAT_JUMP := Rule([Comment("UCLOUD SNAT CHAIN")], Jump(SNAT_NAME))
  const VETH_RESTORE := Rule([Comment("UCLOUD primary UNI"), InIface("ucni+")], RestoreMark)
  const MARK_RULE := Rule([Comment("UCLOUD CONNMARK")], SetMark)
  const JUMP_RULE := Rule([InIface("ucni+"), Comment("UCLOUD outbound connections"), StateNew], Jump(CONNMARK_NAME))
  const RESTORE_RULE := Rule([Comment("UCLOUD CONNMARK")], RestoreMark)
  const BYPASS_RULE := Rule([SrcInSet("UCLOUD-NATGW-OUTGOING"), Comment("UCLOUD NATGW OUTGOING ENABLED")], Return)

  function GuardsOf(id: ChainId): seq<Rule> {
    seq(|PRIVATE|, i requires 0 <= i < |PRIVATE| =>
      if id == SNAT_CHAIN then SnatGuard(PRIVATE[i]) else ConnmarkGuard(PRIVATE[i]))
  }

  function GuardWishes(id: ChainId, name: string): seq<Wish> {
    seq(|PRIVATE|, i requires 0 <= i < |PRIVATE| => Wish(name, true, id, GuardsOf(id)[i]))
  }

  /** buildSNATRules */
  function SnatWishes(primaryIP: string, iface: string): seq<Wish> {
    [POSTROUTING_WISH] + GuardWishes(SNAT_CHAIN, SNAT_NAME) + [SnatWish(primaryIP, iface)] + MangleWishes(iface)
  }

  const POSTROUTING_WISH := Wish("first SNAT rules for non-VPC outbound traffic", true, POSTROUTING, SNAT_JUMP)

  function SnatWish(primaryIP: string, iface: string): Wish {
    Wish("SNAT rule for non-VPC outbound traffic", true, SNAT_CHAIN, SnatRule(primaryIP, iface))
  }

  function MangleWishes(iface: string): seq<Wish> {
    [Wish("connmark for primary interface", true, MANGLE, PrimaryMark(iface)),
     Wish("connmark restore for veth", true, MANGLE, VETH_RESTORE)]
  }

  /** buildConnmarkRules */
  function ConnmarkWishes(): seq<Wish> {
    [] + GuardWishes(CONNMARK_CHAIN, CONNMARK_NAME) + [MARK_WISH] + []
  }

  const MARK_WISH := Wish("connmark rule for external outbound traffic", true, CONNMARK_CHAIN, MARK_RULE)

  /** buildConnmarkPreroutingRules */
  function PreroutingWishes(): seq<Wish> {
    var jump := Wish("connmark rule for non-VPC outbound traffic", true, PREROUTING, JUMP_RULE);
    var restore := Wish("connmark to fwmark copy", true, PREROUTING, RESTORE_RULE);
    [jump.(shouldExist := false), jump, restore.(shouldExist := false), restore]
  }

  const BYPASS_WISH := Wish(CONNMARK_NAME, true, CONNMARK_CHAIN, BYPASS_RULE)

  // ---------------------------------------------------------------- one change

  type Chains = map<ChainId, seq<Rule>>

  /** What one round of the loop makes of a chain when its calls succeed. */
  function Applied(chain: seq<Rule>, w: Wish): seq<Rule> {
    if w.shouldExist && w.rule !in chain then
      if w.name == CONNMARK_NAME || w.name == SNAT_NAME then [w.rule] + chain else chain + [w.rule]
    else if !w.shouldExist && w.rule in chain then RemoveFirst(chain, w.rule)
    else chain
  }

  function Apply(chains: Chains, w: Wish): Chains
  {
    if w.chain in chains then chains[w.chain := Applied(chains[w.chain], w)] else chains
  }

  function ApplyAll(chains: Chains, ws: seq<Wish>): Chains {
    if ws == [] then chains else Apply(ApplyAll(chains, ws[..|ws| - 1]), ws[|ws| - 1])
  }

  // ---------------------------------------------------------------- what protects private destinations

  predicate IsAction(r: Rule) {
    r.target.Snat? || r.target.SetMark?
  }

  predicate Custom(id: ChainId) {
    id == SNAT_CHAIN || id == CONNMARK_CHAIN
  }

  /** The rules these programs put into a custom chain. */
  predicate Own(id: ChainId, r: Rule) {
    || r in GuardsOf(id)
    || (id == CONNMARK_CHAIN && r in {BYPASS_RULE, MARK_RULE})
    || (id == SNAT_CHAIN && r.target.Snat? && r.conditions != [] && r.conditions[0].OutIface?
        && r == SnatRule(r.target.to, r.conditions[0].name))
  }

  /** Returns first, actions last, and no action without the returns for all private ranges. */
  ghost predicate Tidy(id: ChainId, chain: seq<Rule>) {
    && (forall r | r in chain :: Own(id, r))
    && (forall i, j | 0 <= i < j < |chain| && IsAction(chain[i]) :: IsAction(chain[j]))
    && (forall r, g | r in chain && IsAction(r) && g in GuardsOf(id) :: g in chain)
  }

  ghost predicate Safe(chains: Chains) {
    forall id | id in chains && Custom(id) :: Tidy(id, chains[id])
  }

  /** A wish that keeps its chain tidy: returns are inserted in front, actions appended when the returns are there. */
  ghost predicate TidyWish(w: Wish, chain: seq<Rule>) {
    && w.shouldExist && Own(w.chain, w.rule)
    && (IsAction(w.rule) <==> w.name != CONNMARK_NAME && w.name != SNAT_NAME)
    && (IsAction(w.rule) ==> forall g | g in GuardsOf(w.chain) :: g in chain)
  }

  lemma OwnActions(id: ChainId, r: Rule)
    requires Own(id, r)
    ensures IsAction(r) || r.target.Return?
    ensures r in GuardsOf(id) ==> !IsAction(r)
  {
  }

  lemma AppliedIsTidy(w: Wish, chain: seq<Rule>)
    requires Custom(w.chain) && Tidy(w.chain, chain) && TidyWish(w, chain)
    ensures Tidy(w.chain, Applied(chain, w))
  {
    hide Own, GuardsOf;
    OwnActions(w.chain, w.rule) by { hide *; }
  }

  lemma ApplyKeepsSafe(chains: Chains, w: Wish)
    requires Safe(chains)
    requires Custom(w.chain) && w.chain in chains ==> TidyWish(w, chains[w.chain])
    ensures Safe(Apply(chains, w))
  {
    if Custom(w.chain) && w.chain in chains { AppliedIsTidy(w, chains[w.chain]); }
    hide Tidy, Applied, TidyWish;
  }

  // ---------------------------------------------------------------- what a tidy chain does

  /** Something in the chain returns the packet. */
  ghost predicate Returned(chain: seq<Rule>, p: Packet) {
    exists i | 0 <= i < |chain| :: chain[i].target.Return? && Matches(chain[i], p)
  }

  ghost predicate Acted(chain: seq<Rule>, p: Packet) {
    exists i | 0 <= i < |chain| :: IsAction(chain[i]) && Matches(chain[i], p)
  }

  lemma {:induction false} TraverseMarks(chain: seq<Rule>, p: Packet)
    requires forall r | r in chain :: Own(CONNMARK_CHAIN, r)
    requires forall i, j | 0 <= i < j < |chain| && IsAction(chain[i]) :: IsAction(chain[j])
    ensures Traverse(chain, p) == Effect(!Returned(chain, p) && Acted(chain, p), Kept)
  {
    if chain != [] {
      var rest := chain[1..];
      OwnActions(CONNMARK_CHAIN, chain[0]);
      assert Returned(chain, p) <==> (chain[0].target.Return? && Matches(chain[0], p)) || Returned(rest, p);
      assert Acted(chain, p) <==> (IsAction(chain[0]) && Matches(chain[0], p)) || Acted(rest, p);
      TraverseMarks(rest, p);
      hide Matches;
      if IsAction(chain[0]) {
        forall i | 0 <= i < |rest| ensures !rest[i].target.Return? { assert IsAction(chain[i + 1]); }
      }
    }
  }

  lemma {:induction false} TraverseSnats(chain: seq<Rule>, p: Packet)
    requires forall r | r in chain :: Own(SNAT_CHAIN, r)
    requires forall i, j | 0 <= i < j < |chain| && IsAction(chain[i]) :: IsAction(chain[j])
    ensures Returned(chain, p) || !Acted(chain, p) ==> Traverse(chain, p) == UNTOUCHED
    ensures !Returned(chain, p) && Acted(chain, p) ==>
              exists r | r in chain && r.target.Snat? ::
                Matches(r, p) && Traverse(chain, p) == Effect(false, Translated(r.target.to))
  {
    if chain != [] {
      var rest := chain[1..];
      OwnActions(SNAT_CHAIN, chain[0]);
      assert Returned(chain, p) <==> (chain[0].target.Return? && Matches(chain[0], p)) || Returned(rest, p);
      assert Acted(chain, p) <==> (IsAction(chain[0]) && Matches(chain[0], p)) || Acted(rest, p);
      TraverseSnats(rest, p);
      hide Matches;
      if IsAction(chain[0]) {
        forall i | 0 <= i < |rest| ensures !rest[i].target.Return? { assert IsAction(chain[i + 1]); }
      }
    }
  }

  lemma GuardsArePrivate(id: ChainId, p: Packet)
    ensures IsPrivate(p.dst) <==> exists g | g in GuardsOf(id) :: Matches(g, p)
    ensures forall g | g in GuardsOf(id) :: g.target.Return? && !IsAction(g)
  {
    forall i | 0 <= i < |PRIVATE|
      ensures Matches(GuardsOf(id)[i], p) <==> InCidr(p.dst, PRIVATE[i])
    {
      var g := GuardsOf(id)[i];
      assert g.conditions[0] == DstIn(PRIVATE[i]) && g.conditions[0] in g.conditions;
      hide InCidr;
    }
    if IsPrivate(p.dst) {
      var i :| 0 <= i < |PRIVATE| && InCidr(p.dst, PRIVATE[i]);
      assert GuardsOf(id)[i] in GuardsOf(id);
    }
  }

  /** Nothing is ever done to a packet for a private destination. */
  lemma PrivateIsSpared(id: ChainId, chain: seq<Rule>, p: Packet)
    requires Custom(id) && Tidy(id, chain) && IsPrivate(p.dst)
    ensures Traverse(chain, p) == UNTOUCHED
  {
    GuardsArePrivate(id, p);
    hide Matches, IsPrivate, Own, GuardsOf;
    assert Acted(chain, p) ==> Returned(chain, p) by {
      var g :| g in GuardsOf(id) && Matches(g, p);
      if Acted(chain, p) { assert g in chain; }
    }
    if id == SNAT_CHAIN { TraverseSnats(chain, p); } else { TraverseMarks(chain, p); }
  }

  /** What the connmark chain is for: a connection is marked exactly when it leaves the private ranges and its pod is
      not left to the NAT gateway. */
  lemma ConnmarkVerdict(chain: seq<Rule>, p: Packet)
    requires Tidy(CONNMARK_CHAIN, chain)
    ensures Traverse(chain, p).source == Kept
    ensures Traverse(chain, p).marked <==>
              MARK_RULE in chain && !IsPrivate(p.dst) && !(BYPASS_RULE in chain && "UCLOUD-NATGW-OUTGOING" in p.srcSets)
  {
    GuardsArePrivate(CONNMARK_CHAIN, p);
    TraverseMarks(chain, p);
    assert Matches(MARK_RULE, p);
    assert Matches(BYPASS_RULE, p) <==> "UCLOUD-NATGW-OUTGOING" in p.srcSets by {
      assert BYPASS_RULE.conditions[0] in BYPASS_RULE.conditions;
    }
    hide Matches, IsPrivate, GuardsOf, Traverse;
    assert Acted(chain, p) <==> MARK_RULE in chain by {
      forall r | r in chain && IsAction(r) ensures r == MARK_RULE { assert Own(CONNMARK_CHAIN, r); }
    }
    assert Returned(chain, p) ==> IsPrivate(p.dst) || (BYPASS_RULE in chain && Matches(BYPASS_RULE, p)) by {
      forall r | r in chain && r.target.Return? ensures r in GuardsOf(CONNMARK_CHAIN) || r == BYPASS_RULE {
        assert Own(CONNMARK_CHAIN, r);
      }
    }
    if MARK_RULE in chain && IsPrivate(p.dst) {
      var g :| g in GuardsOf(CONNMARK_CHAIN) && Matches(g, p);
      assert g in chain;
    }
  }

  /** What the SNAT chain is for: a packet that leaves the node through the interface for somewhere outside the
      private ranges is translated. */
  lemma SnatVerdict(chain: seq<Rule>, p: Packet, primaryIP: string)
    requires Tidy(SNAT_CHAIN, chain) && SnatRule(primaryIP, p.outIface) in chain
    requires !IsPrivate(p.dst) && !p.dstLocal
    ensures exists ip :: SnatRule(ip, p.outIface) in chain && Traverse(chain, p) == Effect(false, Translated(ip))
  {
    GuardsArePrivate(SNAT_CHAIN, p);
    TraverseSnats(chain, p);
    assert Matches(SnatRule(primaryIP, p.outIface), p);
    hide IsPrivate, GuardsOf, Traverse;
    assert !Returned(chain, p) by {
      forall r | r in chain && r.target.Return? ensures r in GuardsOf(SNAT_CHAIN) { assert Own(SNAT_CHAIN, r); }
      hide Matches;
    }
    var r :| r in chain && r.target.Snat? && Matches(r, p)
      && Traverse(chain, p) == Effect(false, Translated(r.target.to));
    assert Own(SNAT_CHAIN, r) && r.conditions[0] in r.conditions;
    assert SnatRule(r.target.to, p.outIface) == r;
  }

  // ---------------------------------------------------------------- lists of wishes

  /** Every action on a custom chain comes after wishes for all its returns, and nothing is taken out of it. */
  ghost predicate Ordered(ws: seq<Wish>) {
    forall i | 0 <= i < |ws| && Custom(ws[i].chain) ::
      && ws[i].shouldExist && Own(ws[i].chain, ws[i].rule)
      && (IsAction(ws[i].rule) <==> ws[i].name != CONNMARK_NAME && ws[i].name != SNAT_NAME)
      && (IsAction(ws[i].rule) ==> forall g | g in GuardsOf(ws[i].chain) :: WishedBefore(ws, i, ws[i].chain, g))
  }

  ghost predicate WishedBefore(ws: seq<Wish>, i: nat, id: ChainId, r: Rule) {
    exists j | 0 <= j < i && j < |ws| :: ws[j].chain == id && ws[j].rule == r
  }

  /** What is wished for a custom chain is there. */
  ghost predicate Granted(chains: Chains, ws: seq<Wish>) {
    forall j | 0 <= j < |ws| && Custom(ws[j].chain) && ws[j].chain in chains :: ws[j].rule in chains[ws[j].chain]
  }

  lemma OrderedPrefix(ws: seq<Wish>, k: nat)
    requires Ordered(ws) && k <= |ws|
    ensures Ordered(ws[..k])
  {
    hide Own, GuardsOf;
    forall i, g | 0 <= i < k && Custom(ws[i].chain) && IsAction(ws[i].rule) && g in GuardsOf(ws[i].chain)
      ensures WishedBefore(ws[..k], i, ws[i].chain, g)
    {
      assert WishedBefore(ws, i, ws[i].chain, g);
      var j :| 0 <= j < i && ws[j].chain == ws[i].chain && ws[j].rule == g;
      assert ws[..k][j] == ws[j];
    }
  }

  lemma OneGranted(chains: Chains, ws: seq<Wish>, w: Wish)
    requires Granted(chains, ws) && (Custom(w.chain) ==> w.shouldExist)
    ensures Granted(Apply(chains, w), ws + [w])
  {
    var after := Apply(chains, w);
    forall j | 0 <= j < |ws + [w]| && Custom((ws + [w])[j].chain) && (ws + [w])[j].chain in after
      ensures (ws + [w])[j].rule in after[(ws + [w])[j].chain]
    {
      if j < |ws| { assert (ws + [w])[j] == ws[j]; }
    }
  }

  /** An ordered list leaves the chains safe wherever it stops. */
  lemma {:induction false} ApplyAllKeepsSafe(chains: Chains, ws: seq<Wish>)
    requires Safe(chains) && Ordered(ws)
    ensures Safe(ApplyAll(chains, ws)) && Granted(ApplyAll(chains, ws), ws)
    ensures ApplyAll(chains, ws).Keys == chains.Keys
  {
    if ws != [] {
      var front, w := ws[..|ws| - 1], ws[|ws| - 1];
      assert ws == front + [w];
      OrderedPrefix(ws, |ws| - 1);
      ApplyAllKeepsSafe(chains, front);
      var before := ApplyAll(chains, front);
      assert Custom(w.chain) && w.chain in before ==> TidyWish(w, before[w.chain]) by {
        hide Own, GuardsOf, Applied, Tidy;
        if Custom(w.chain) && w.chain in before && IsAction(w.rule) {
          forall g | g in GuardsOf(w.chain) ensures g in before[w.chain] {
            assert WishedBefore(ws, |ws| - 1, w.chain, g);
            var j :| 0 <= j < |ws| - 1 && ws[j].chain == w.chain && ws[j].rule == g;
            assert front[j] == ws[j];
          }
        }
      }
      ApplyKeepsSafe(before, w);
      OneGranted(before, front, w);
    }
  }

  /** The guards of a chain may be followed by one of its actions, and by wishes for other chains. */
  lemma GuardedAction(front: seq<Wish>, id: ChainId, name: string, action: Wish, back: seq<Wish>)
    requires Custom(id) && name in {SNAT_NAME, CONNMARK_NAME}
    requires action.chain == id && action.shouldExist && Own(id, action.rule) && IsAction(action.rule)
    requires action.name != SNAT_NAME && action.name != CONNMARK_NAME
    requires forall w | w in front + back :: !Custom(w.chain)
    ensures Ordered(front + GuardWishes(id, name) + [action] + back)
  {
    var gs := GuardWishes(id, name);
    var ws := front + gs + [action] + back;
    GuardsArePrivate(id, Packet(0, "", "", false, false, false, {}));
    assert forall i | 0 <= i < |gs| :: gs[i].rule in GuardsOf(id);
    var n := |front| + |gs|;
    forall g | g in GuardsOf(id) ensures WishedBefore(ws, n, id, g) {
      var k :| 0 <= k < |PRIVATE| && g == GuardsOf(id)[k];
      assert ws[|front| + k] == gs[k];
    }
    hide GuardsOf, Custom;
    forall i | 0 <= i < |ws| && !(|front| <= i <= n) ensures !Custom(ws[i].chain) { assert ws[i] in front + back; }
  }

  lemma SnatWishesAreOrdered(primaryIP: string, iface: string)
    ensures Ordered(SnatWishes(primaryIP, iface))
  {
    assert forall w | w in [POSTROUTING_WISH] + MangleWishes(iface) :: !Custom(w.chain);
    GuardedAction([POSTROUTING_WISH], SNAT_CHAIN, SNAT_NAME, SnatWish(primaryIP, iface), MangleWishes(iface));
    hide Ordered, MangleWishes, GuardWishes;
  }

  lemma ConnmarkWishesAreOrdered()
    ensures Ordered(ConnmarkWishes())
  {
    GuardedAction([], CONNMARK_CHAIN, CONNMARK_NAME, MARK_WISH, []);
    hide Ordered, GuardWishes;
  }

  lemma OtherWishesAreOrdered()
    ensures Ordered([BYPASS_WISH]) && Ordered(PreroutingWishes())
  {
    hide GuardsOf;
  }

  // ---------------------------------------------------------------- the end of PREROUTING

  function Count(s: seq<Rule>, r: Rule): nat {
    if s == [] then 0 else (if s[0] == r then 1 else 0) + Count(s[1..], r)
  }

  function Without(s: seq<Rule>, r: Rule): seq<Rule> {
    if s == [] then [] else (if s[0] == r then [] else [s[0]]) + Without(s[1..], r)
  }

  lemma {:induction false} RemoveOnly(s: seq<Rule>, r: Rule)
    requires Count(s, r) <= 1
    ensures r in s <==> Count(s, r) == 1
    ensures RemoveFirst(s, r) == Without(s, r) && r !in Without(s, r) && Count(Without(s, r), r) == 0
  {
    if s != [] {
      if s[0] == r { NoneThere(s[1..], r); } else { RemoveOnly(s[1..], r); }
    }
  }

  lemma {:induction false} NoneThere(s: seq<Rule>, r: Rule)
    requires Count(s, r) == 0
    ensures r !in s && Without(s, r) == s && RemoveFirst(s, r) == s
  {
    if s != [] { NoneThere(s[1..], r); }
  }

  lemma {:induction false} WithoutConcat(a: seq<Rule>, b: seq<Rule>, r: Rule)
    ensures Without(a + b, r) == Without(a, r) + Without(b, r)
  {
    if a == [] {
      assert a + b == b;
    } else {
      assert (a + b)[1..] == a[1..] + b;
      WithoutConcat(a[1..], b, r);
    }
  }

  lemma {:induction false} CountConcat(a: seq<Rule>, b: seq<Rule>, r: Rule)
    ensures Count(a + b, r) == Count(a, r) + Count(b, r)
  {
    if a == [] {
      assert a + b == b;
    } else {
      assert (a + b)[1..] == a[1..] + b;
      CountConcat(a[1..], b, r);
    }
  }

  lemma {:induction false} CountWithout(s: seq<Rule>, r: Rule, q: Rule)
    requires r != q
    ensures Count(Without(s, r), q) == Count(s, q)
  {
    if s != [] {
      CountWithout(s[1..], r, q);
      var head: seq<Rule> := if s[0] == r then [] else [s[0]];
      assert Without(s, r) == head + Without(s[1..], r);
      CountConcat(head, Without(s[1..], r), q);
    }
  }

  /** Deleting and appending a rule that is there at most once moves it to the end. */
  lemma MoveToEnd(s: seq<Rule>, w: Wish)
    requires Count(s, w.rule) <= 1 && w.shouldExist && w.name != CONNMARK_NAME && w.name != SNAT_NAME
    ensures Applied(Applied(s, w.(shouldExist := false)), w) == Without(s, w.rule) + [w.rule]
  {
    RemoveOnly(s, w.rule);
    if Count(s, w.rule) == 0 { NoneThere(s, w.rule); }
  }

  lemma FourApplied(chains: Chains, a: Wish, b: Wish, c: Wish, d: Wish)
    requires a.chain == b.chain == c.chain == d.chain && a.chain in chains
    ensures ApplyAll(chains, [a, b, c, d]) ==
            chains[a.chain := Applied(Applied(Applied(Applied(chains[a.chain], a), b), c), d)]
  {
    hide Applied;
    assert [a, b, c, d][..3] == [a, b, c] && [a, b, c][..2] == [a, b] && [a, b][..1] == [a] && [a][..0] == [];
    assert ApplyAll(chains, [a]) == Apply(chains, a);
    assert ApplyAll(chains, [a, b]) == Apply(Apply(chains, a), b);
    assert ApplyAll(chains, [a, b, c]) == Apply(Apply(Apply(chains, a), b), c);
  }

  lemma CountPair(j: Rule, r: Rule)
    requires j != r
    ensures Count([j, r], j) == 1 && Count([j, r], r) == 1 && Count([j], r) == 0
  {
    assert [j, r] == [j] + [r];
    CountConcat([j], [r], j);
    CountConcat([j], [r], r);
  }

  /** Moving two different rules to the end, one after the other. */
  lemma TwoMoved(s: seq<Rule>, j: Rule, r: Rule)
    requires j != r && Count(s, j) <= 1 && Count(s, r) <= 1
    ensures var s1 := Without(s, j) + [j];
            var s2 := Without(s1, r) + [r];
            && Count(s1, r) <= 1
            && s2 == Without(Without(s, j), r) + [j, r] && Count(s2, j) == 1 && Count(s2, r) == 1
  {
    hide Count, RemoveFirst;
    var rest := Without(s, j);
    CountPair(j, r);
    CountWithout(s, j, r);
    CountConcat(rest, [j], r);
    WithoutConcat(rest, [j], r);
    var front := Without(rest, r);
    assert Without(rest + [j], r) + [r] == front + [j, r];
    RemoveOnly(s, j);
    CountWithout(rest, r, j);
    RemoveOnly(rest, r);
    hide Without;
    CountConcat(front, [j, r], j);
    CountConcat(front, [j, r], r);
  }

  /** After the last list of an update PREROUTING is what it was, with the jump and the restore moved to its end,
      when neither was there twice; and then neither is there twice. */
  lemma PreroutingEnds(chains: Chains)
    requires PREROUTING in chains && Count(chains[PREROUTING], JUMP_RULE) <= 1
                  && Count(chains[PREROUTING], RESTORE_RULE) <= 1
    ensures var after := ApplyAll(chains, PreroutingWishes());
            && after.Keys == chains.Keys
            && var chain := after[PREROUTING];
            && chain == Without(Without(chains[PREROUTING], JUMP_RULE), RESTORE_RULE) + [JUMP_RULE, RESTORE_RULE]
            && Count(chain, JUMP_RULE) == 1 && Count(chain, RESTORE_RULE) == 1
  {
    var ws, s := PreroutingWishes(), chains[PREROUTING];
    FourApplied(chains, ws[0], ws[1], ws[2], ws[3]);
    hide ApplyAll, Apply, Applied, Without, Count;
    TwoMoved(s, JUMP_RULE, RESTORE_RULE);
    MoveToEnd(s, ws[1]);
    MoveToEnd(Without(s, JUMP_RULE) + [JUMP_RULE], ws[3]);
  }

  predicate EndsWith(s: seq<Rule>, r: Rule) {
    s != [] && s[|s| - 1] == r
  }

  lemma {:induction false} FirstOfTwo(s: seq<Rule>, j: Rule)
    requires Count(s, j) >= 2
    ensures j in RemoveFirst(s, j) && (EndsWith(RemoveFirst(s, j), j) <==> EndsWith(s, j))
  {
    if s[0] == j {
      CountPositive(s[1..], j);
    } else {
      FirstOfTwo(s[1..], j);
    }
  }

  lemma {:induction false} CountPositive(s: seq<Rule>, j: Rule)
    requires Count(s, j) >= 1
    ensures j in s
  {
    if s[0] != j { CountPositive(s[1..], j); }
  }

  lemma {:induction false} RemovalsCommute(s: seq<Rule>, j: Rule, r: Rule)
    requires j != r
    ensures Without(RemoveFirst(s, j), r) == RemoveFirst(Without(s, r), j)
    ensures Count(RemoveFirst(s, j), r) == Count(s, r)
  {
    if s != [] && s[0] != j {
      RemovalsCommute(s[1..], j, r);
      assert ([s[0]] + RemoveFirst(s[1..], j))[1..] == RemoveFirst(s[1..], j);
      if s[0] == r {
        assert [] + Without(s[1..], r) == Without(s[1..], r);
      } else {
        assert ([s[0]] + Without(s[1..], r))[1..] == Without(s[1..], r);
      }
    } else if s != [] {
      assert ([s[0]] + Without(s[1..], r))[1..] == Without(s[1..], r);
    }
  }

  predicate EndsInPair(s: seq<Rule>) {
    |s| >= 2 && s[|s| - 2] == JUMP_RULE && s[|s| - 1] == RESTORE_RULE
  }

  lemma {:induction false} RemoveFirstCommutes(s: seq<Rule>, j: Rule, r: Rule)
    requires j != r
    ensures RemoveFirst(RemoveFirst(s, j), r) == RemoveFirst(RemoveFirst(s, r), j)
  {
    if s != [] && s[0] != j && s[0] != r {
      RemoveFirstCommutes(s[1..], j, r);
      assert forall q | q != s[0] :: ([s[0]] + RemoveFirst(s[1..], q))[1..] == RemoveFirst(s[1..], q);
    } else if s != [] {
      assert forall q | q != s[0] :: ([s[0]] + RemoveFirst(s[1..], q))[1..] == RemoveFirst(s[1..], q);
    }
  }

  /** Taking the first of two jumps out does not touch the end. */
  lemma {:induction false} FirstJumpOut(s: seq<Rule>)
    requires Count(s, JUMP_RULE) >= 2
    ensures EndsInPair(RemoveFirst(s, JUMP_RULE)) <==> EndsInPair(s)
  {
    if s[0] != JUMP_RULE {
      FirstJumpOut(s[1..]);
    } else {
      CountPositive(s[1..], JUMP_RULE);
    }
  }

  /** When an update closes PREROUTING with the jump and the restore. A deleted rule that has a twin is not appended
      again, so a doubled rule is taken out once, and the others have to be in the right place already. */
  predicate Closable(s: seq<Rule>) {
    if Count(s, JUMP_RULE) <= 1 then Count(s, RESTORE_RULE) <= 1
    else if Count(s, RESTORE_RULE) <= 1 then EndsWith(RemoveFirst(s, RESTORE_RULE), JUMP_RULE)
    else EndsInPair(RemoveFirst(s, RESTORE_RULE))
  }

  lemma FourMoves(chains: Chains)
    requires PREROUTING in chains
    ensures var ws, s := PreroutingWishes(), chains[PREROUTING];
            ApplyAll(chains, ws) ==
            chains[PREROUTING := Applied(Applied(Applied(Applied(s, ws[0]), ws[1]), ws[2]), ws[3])]
  {
    var ws := PreroutingWishes();
    FourApplied(chains, ws[0], ws[1], ws[2], ws[3]);
  }

  lemma OnlyJumpDoubled(s: seq<Rule>)
    requires Count(s, JUMP_RULE) >= 2 && Count(s, RESTORE_RULE) <= 1
    ensures var s1 := RemoveFirst(s, JUMP_RULE);
            && JUMP_RULE in s && JUMP_RULE in s1 && Count(s1, RESTORE_RULE) <= 1
            && (EndsInPair(Without(s1, RESTORE_RULE) + [RESTORE_RULE]) <==>
                EndsWith(RemoveFirst(s, RESTORE_RULE), JUMP_RULE))
  {
    FirstOfTwo(s, JUMP_RULE);
    CountPositive(s, JUMP_RULE);
    RemovalsCommute(s, JUMP_RULE, RESTORE_RULE);
    CountWithout(s, RESTORE_RULE, JUMP_RULE);
    FirstOfTwo(Without(s, RESTORE_RULE), JUMP_RULE);
    RemoveOnly(s, RESTORE_RULE);
  }

  lemma BothDoubled(s: seq<Rule>)
    requires Count(s, JUMP_RULE) >= 2 && Count(s, RESTORE_RULE) >= 2
    ensures var s1 := RemoveFirst(s, JUMP_RULE);
            && JUMP_RULE in s && JUMP_RULE in s1 && RESTORE_RULE in s1 && RESTORE_RULE in RemoveFirst(s1, RESTORE_RULE)
            && (EndsInPair(RemoveFirst(s1, RESTORE_RULE)) <==> EndsInPair(RemoveFirst(s, RESTORE_RULE)))
  {
    FirstOfTwo(s, JUMP_RULE);
    CountPositive(s, JUMP_RULE);
    RemovalsCommute(s, JUMP_RULE, RESTORE_RULE);
    RemovalsCommute(s, RESTORE_RULE, JUMP_RULE);
    CountPositive(RemoveFirst(s, JUMP_RULE), RESTORE_RULE);
    FirstOfTwo(RemoveFirst(s, JUMP_RULE), RESTORE_RULE);
    RemoveFirstCommutes(s, JUMP_RULE, RESTORE_RULE);
    FirstJumpOut(RemoveFirst(s, RESTORE_RULE));
  }

  lemma OnlyRestoreDoubled(s: seq<Rule>)
    requires Count(s, JUMP_RULE) <= 1 && Count(s, RESTORE_RULE) >= 2
    ensures var s1 := Without(s, JUMP_RULE) + [JUMP_RULE];
            && RESTORE_RULE in s1 && RESTORE_RULE in RemoveFirst(s1, RESTORE_RULE)
            && !EndsInPair(RemoveFirst(s1, RESTORE_RULE))
  {
    var s1 := Without(s, JUMP_RULE) + [JUMP_RULE];
    CountPair(JUMP_RULE, RESTORE_RULE);
    CountWithout(s, JUMP_RULE, RESTORE_RULE);
    CountConcat(Without(s, JUMP_RULE), [JUMP_RULE], RESTORE_RULE);
    CountPositive(s1, RESTORE_RULE);
    FirstOfTwo(s1, RESTORE_RULE);
  }

  /** Two failing inputs: a restore that is there twice ends before the jump, and a jump that is there twice stays
      where its second copy was. */
  lemma TwinsStayOpen(chains: Chains, other: Rule)
    requires PREROUTING in chains && other !in {JUMP_RULE, RESTORE_RULE}
    ensures var after := ApplyAll(chains, PreroutingWishes());
            && PREROUTING in after
            && (chains[PREROUTING] == [RESTORE_RULE, RESTORE_RULE] ==> after[PREROUTING] == [RESTORE_RULE, JUMP_RULE])
            && (chains[PREROUTING] == [JUMP_RULE, JUMP_RULE, other] ==>
                  after[PREROUTING] == [JUMP_RULE, other, RESTORE_RULE])
  {
    FourMoves(chains);
    assert [RESTORE_RULE, RESTORE_RULE, JUMP_RULE][1..] == [RESTORE_RULE, JUMP_RULE];
    assert [JUMP_RULE, JUMP_RULE, other][1..] == [JUMP_RULE, other];
  }

  /** After the last list of an update PREROUTING ends with the jump and the restore exactly when it could be closed:
      for every number of copies of both rules. */
  lemma PairEndsIff(chains: Chains)
    requires PREROUTING in chains
    ensures var after := ApplyAll(chains, PreroutingWishes());
            PREROUTING in after && (EndsInPair(after[PREROUTING]) <==> Closable(chains[PREROUTING]))
  {
    var ws, s := PreroutingWishes(), chains[PREROUTING];
    FourMoves(chains);
    if Count(s, JUMP_RULE) <= 1 {
      MoveToEnd(s, ws[1]);
      if Count(s, RESTORE_RULE) <= 1 { PreroutingEnds(chains); } else { OnlyRestoreDoubled(s); }
    } else if Count(s, RESTORE_RULE) <= 1 {
      OnlyJumpDoubled(s);
      MoveToEnd(RemoveFirst(s, JUMP_RULE), ws[3]);
    } else {
      BothDoubled(s);
    }
    hide Count, Without, RemoveFirst, ApplyAll;
  }

  // ---------------------------------------------------------------- the kernel's tables

  /** Neither the jump nor the restore is in PREROUTING twice. */
  ghost predicate Once(chains: Chains) {
    PREROUTING in chains && Count(chains[PREROUTING], JUMP_RULE) <= 1 && Count(chains[PREROUTING], RESTORE_RULE) <= 1
  }

  lemma AppliedKeepsOnce(s: seq<Rule>, w: Wish, r: Rule)
    requires Count(s, r) <= 1
    ensures Count(Applied(s, w), r) <= 1
  {
    RemoveOnly(s, r);
    if w.shouldExist && w.rule !in s {
      CountConcat([w.rule], s, r);
      CountConcat(s, [w.rule], r);
      assert Count([w.rule], r) <= 1 && (Count([w.rule], r) == 1 ==> w.rule == r) by { CountConcat([w.rule], [], r); }
    } else if w.rule == r {
      RemoveOnly(s, r);
    } else {
      RemovalsCommute(s, w.rule, r);
    }
  }

  lemma ApplyKeepsOnce(chains: Chains, w: Wish)
    requires Once(chains)
    ensures Once(Apply(chains, w))
  {
    hide Count;
    if w.chain == PREROUTING {
      AppliedKeepsOnce(chains[PREROUTING], w, JUMP_RULE);
      AppliedKeepsOnce(chains[PREROUTING], w, RESTORE_RULE);
    }
  }

  lemma PrefixStaysSafe(chains: Chains, ws: seq<Wish>, i: nat)
    requires Safe(chains) && Ordered(ws) && i < |ws|
    ensures Safe(Apply(ApplyAll(chains, ws[..i]), ws[i]))
  {
    OrderedPrefix(ws, i + 1);
    ApplyAllKeepsSafe(chains, ws[..i + 1]);
    hide Safe, Ordered, Apply;
    assert ws[..i + 1][..i] == ws[..i];
  }

  lemma EmptyChainIsSafe(chains: Chains, id: ChainId)
    requires Safe(chains) && id !in chains
    ensures Safe(chains[id := []]) && (Once(chains) ==> Once(chains[id := []]))
  {
    hide GuardsOf, Own;
  }

  /** What Apply says, case by case. */
  lemma ApplyIs(chains: Chains, w: Wish)
    ensures w.chain !in chains ==> Apply(chains, w) == chains
    ensures w.chain in chains && w.shouldExist && w.rule !in chains[w.chain] ==>
              Apply(chains, w) == chains[w.chain := if w.name == CONNMARK_NAME || w.name == SNAT_NAME
                                                    then [w.rule] + chains[w.chain] else chains[w.chain] + [w.rule]]
    ensures w.chain in chains && !w.shouldExist && w.rule in chains[w.chain] ==>
              Apply(chains, w) == chains[w.chain := RemoveFirst(chains[w.chain], w.rule)]
    ensures w.chain in chains && w.shouldExist == (w.rule in chains[w.chain]) ==> Apply(chains, w) == chains
  {
  }

  /** The chains every kernel has. */
  predicate Builtin(chains: Chains) {
    {("nat", "PREROUTING"), ("nat", "POSTROUTING"), ("mangle", "PREROUTING")} <= chains.Keys
  }

  class Tables {
    var chains: Chains
    var faults: seq<bool>               // which of the coming calls fail
    ghost var history: seq<Chains>      // the tables after every change

    ghost predicate Valid()
      reads this
    {
      && history != [] && history[|history| - 1] == chains && (forall h | h in history :: Safe(h))
      && Builtin(chains)
    }

    /** Other rules may be there, but no custom chain with rules of somebody else. */
    constructor (chains: Chains, faults: seq<bool>)
      requires Builtin(chains) && forall id | id in chains && Custom(id) :: chains[id] == []
      ensures Valid() && this.chains == chains && this.faults == faults
    {
      this.chains, this.faults, history := chains, faults, [chains];
    }

    method Fault() returns (failed: bool)
      modifies `faults
      ensures Failures(faults) + (if failed then 1 else 0) == Failures(old(faults))
    {
      if faults == [] { return false; }
      failed := faults[0];
      faults := faults[1..];
    }

    /** NewChain, whose "already exists" is no error. */
    method EnsureChain(id: ChainId) returns (failed: bool)
      requires Valid()
      modifies this
      ensures Valid() && old(history) <= history
      ensures failed ==> chains == old(chains) && Failures(faults) < Failures(old(faults))
      ensures Failures(faults) <= Failures(old(faults))
      ensures !failed ==> chains == if id in old(chains) then old(chains) else old(chains)[id := []]
      ensures Once(old(chains)) ==> Once(chains)
    {
      hide Count, Safe, Once;
      failed := Fault();
      if !failed && id !in chains {
        EmptyChainIsSafe(chains, id);
        chains := chains[id := []];
        history := history + [chains];
      }
    }

    /** updateIptablesRules: one rule after the other, until a call fails. */
    method UpdateIptablesRules(ws: seq<Wish>) returns (failed: bool, ghost done: nat)
      requires Valid() && Ordered(ws)
      modifies this
      ensures Valid() && old(history) <= history
      ensures done <= |ws| && chains == ApplyAll(old(chains), ws[..done]) && (Once(old(chains)) ==> Once(chains))
      ensures !failed ==> done == |ws| && forall w | w in ws && w.shouldExist :: w.chain in chains
      ensures failed ==>
                || Failures(faults) < Failures(old(faults))
                || exists w | w in ws && w.shouldExist :: w.chain !in old(chains)
      ensures Failures(faults) <= Failures(old(faults))
    {
      hide Count, Safe, Once, Ordered, Applied, Apply;
      done := 0;
      for i := 0 to |ws|
        invariant done == i && Valid() && old(history) <= history && chains == ApplyAll(old(chains), ws[..i])
        invariant forall j | 0 <= j < i && ws[j].shouldExist :: ws[j].chain in chains
        invariant chains.Keys == old(chains).Keys && Failures(faults) <= Failures(old(faults))
        invariant Once(old(chains)) ==> Once(chains)
      {
        assert ws[..i + 1][..i] == ws[..i];
        PrefixStaysSafe(old(chains), ws, i);
        failed := Update(ws[i]);
        if failed { return; }
        assert chains == ApplyAll(old(chains), ws[..i + 1]);
        done := i + 1;
      }
      failed := false;
    }

    /** One round of the loop. */
    method Update(w: Wish) returns (failed: bool)
      requires Valid() && Safe(Apply(chains, w))
      modifies this
      ensures Valid() && old(history) <= history && chains.Keys == old(chains).Keys
      ensures if failed then chains == old(chains)
        && (Failures(faults) < Failures(old(faults)) || (w.shouldExist && w.chain !in chains))
              else chains == Apply(old(chains), w) && (w.shouldExist ==> w.chain in chains)
      ensures Once(old(chains)) ==> Once(chains)
      ensures Failures(faults) <= Failures(old(faults))
    {
      hide Count, Safe, Once, Applied, Apply, RemoveFirst;
      if Once(chains) { ApplyKeepsOnce(chains, w); }
      ApplyIs(chains, w);
      failed := Fault();                                        // Exists; a chain that is not there has no rules
      if failed { return; }
      var there := w.chain in chains && w.rule in chains[w.chain];
      if !there && w.shouldExist {
        failed := Fault();
        if failed || w.chain !in chains { return true; }
        if w.name == CONNMARK_NAME || w.name == SNAT_NAME {
          chains := chains[w.chain := [w.rule] + chains[w.chain]];
        } else {
          chains := chains[w.chain := chains[w.chain] + [w.rule]];
        }
        history := history + [chains];
      } else if there && !w.shouldExist {
        failed := Fault();
        if failed { return; }
        chains := chains[w.chain := RemoveFirst(chains[w.chain], w.rule)];
        history := history + [chains];
      }
    }
  }

  // ---------------------------------------------------------------- one update of the node

  /** The set the pods of the node ask for, unless something it is read from is unavailable. */
  datatype Plan = Known(desired: set<Addr>) | Unknown

  predicate Has(chains: Chains, id: ChainId, r: Rule) {
    id in chains && r in chains[id]
  }

  lemma {:induction false} RuleStays(chains: Chains, ws: seq<Wish>, id: ChainId, r: Rule)
    requires Has(chains, id, r) && forall w | w in ws && w.chain == id :: w.shouldExist
    ensures Has(ApplyAll(chains, ws), id, r)
  {
    if ws != [] {
      RuleStays(chains, ws[..|ws| - 1], id, r);
      assert ws[|ws| - 1] in ws;
    }
  }

  lemma {:induction false} OtherChainStays(chains: Chains, ws: seq<Wish>, id: ChainId)
    requires id in chains && forall w | w in ws :: w.chain != id
    ensures id in ApplyAll(chains, ws) && ApplyAll(chains, ws)[id] == chains[id]
  {
    if ws != [] {
      OtherChainStays(chains, ws[..|ws| - 1], id);
      assert ws[|ws| - 1] in ws;
    }
  }

  lemma {:induction false} OtherRulesStay(chains: Chains, ws: seq<Wish>, id: ChainId, r: Rule)
    requires Has(ApplyAll(chains, ws), id, r) && forall w | w in ws && w.chain == id :: w.rule != r
    ensures Has(chains, id, r)
  {
    if ws != [] {
      var front, w := ws[..|ws| - 1], ws[|ws| - 1];
      var before := ApplyAll(chains, front);
      assert w in ws;
      if w.chain == id && id in before && r !in before[id] { RemoveSome(before[id], w.rule); }
      OtherRulesStay(chains, front, id, r);
    }
  }

  /** tryEnableNATGWOutgoing: the bypass is inserted only when the set holds what it should. */
  method TryEnableNATGWOutgoing(t: Tables, ipset: IpSet, plan: Plan) returns (failed: bool)
    requires t.Valid() && ipset.Valid() && (plan.Known? ==> forall a | a in plan.desired :: a.V4?)
    modifies t, ipset
    ensures t.Valid() && ipset.Valid() && old(t.history) <= t.history && (Once(old(t.chains)) ==> Once(t.chains))
    ensures t.chains[PREROUTING] == old(t.chains)[PREROUTING]
    ensures Has(t.chains, CONNMARK_CHAIN, BYPASS_RULE) && !Has(old(t.chains), CONNMARK_CHAIN, BYPASS_RULE) ==>
              plan.Known? && V4Only(ipset.members) == plan.desired
    ensures forall c, r | Has(old(t.chains), c, r) :: Has(t.chains, c, r)
    ensures !failed ==> Has(t.chains, CONNMARK_CHAIN, BYPASS_RULE)
    ensures failed ==>
            || Failures(t.faults) < Failures(old(t.faults)) || Failures(ipset.faults) < Failures(old(ipset.faults))
            || plan.Unknown? || CONNMARK_CHAIN !in old(t.chains)
    ensures Failures(t.faults) <= Failures(old(t.faults))
  {
    hide Safe, Once, Count, Ordered, Closing;
    failed := ipset.Fault();                        // ensureNATGWOutgoingIPSet
    if failed { return; }
    failed := t.Fault();                            // ChainExists
    if failed { return; }
    if CONNMARK_CHAIN in t.chains {
      failed := t.Fault();                          // Exists
      if failed { return; }
      if BYPASS_RULE in t.chains[CONNMARK_CHAIN] { return false; }
    }
    if plan.Unknown? { return true; }
    failed := ipset.Migrate(plan.desired);
    if failed { return; }
    OtherWishesAreOrdered();
    ghost var done;
    failed, done := t.UpdateIptablesRules([BYPASS_WISH]);
    ghost var part := [BYPASS_WISH][..done];
    OtherChainStays(old(t.chains), part, PREROUTING);
    forall c, r | Has(old(t.chains), c, r) ensures Has(t.chains, c, r) { RuleStays(old(t.chains), part, c, r); }
    if !failed { assert part == [BYPASS_WISH] && BYPASS_WISH in [BYPASS_WISH]; }
  }

  /** The rules that have to be there besides the returns for the private ranges and the end of PREROUTING. */
  predicate Wired(chains: Chains, primaryIP: string, iface: string) {
    && Has(chains, POSTROUTING, SNAT_JUMP) && Has(chains, SNAT_CHAIN, SnatRule(primaryIP, iface))
    && Has(chains, MANGLE, PrimaryMark(iface)) && Has(chains, MANGLE, VETH_RESTORE)
    && Has(chains, CONNMARK_CHAIN, MARK_RULE)
  }

  /** The list deletes no rule and leaves the bypass alone. */
  predicate Adds(ws: seq<Wish>) {
    forall w | w in ws :: w.shouldExist && w.rule != BYPASS_RULE
  }

  lemma ListsAdd(primaryIP: string, iface: string)
    ensures Adds(SnatWishes(primaryIP, iface)) && Adds(ConnmarkWishes())
    ensures POSTROUTING_WISH in SnatWishes(primaryIP, iface)
      && SnatWish(primaryIP, iface) in SnatWishes(primaryIP, iface)
    ensures forall w | w in MangleWishes(iface) :: w in SnatWishes(primaryIP, iface)
    ensures MARK_WISH in ConnmarkWishes()
    ensures forall w | w in SnatWishes(primaryIP, iface) :: w.chain in {SNAT_CHAIN, POSTROUTING, MANGLE}
    ensures forall w | w in ConnmarkWishes() :: w.chain == CONNMARK_CHAIN
  {
    assert forall id, name, w | w in GuardWishes(id, name) :: w.shouldExist && w.chain == id && w.rule in GuardsOf(id);
    var ws := SnatWishes(primaryIP, iface);
    assert ws[0] == POSTROUTING_WISH && ws[4] == SnatWish(primaryIP, iface);
    assert ws[5] == MangleWishes(iface)[0] && ws[6] == MangleWishes(iface)[1];
    assert ConnmarkWishes()[3] == MARK_WISH;
  }

  ghost predicate AllThere(chains: Chains, ws: seq<Wish>) {
    forall w | w in ws :: Has(chains, w.chain, w.rule)
  }

  /** A list that adds rules other than the bypass to a chain that is made sure of first. */
  method Install(t: Tables, id: ChainId, ws: seq<Wish>) returns (failed: bool)
    requires t.Valid() && Ordered(ws) && Adds(ws) && Custom(id)
    requires forall w | w in ws :: w.chain in {id, POSTROUTING, MANGLE}
    modifies t
    ensures t.Valid() && old(t.history) <= t.history && (Once(old(t.chains)) ==> Once(t.chains))
    ensures t.chains[PREROUTING] == old(t.chains)[PREROUTING]
    ensures Has(t.chains, CONNMARK_CHAIN, BYPASS_RULE) ==> Has(old(t.chains), CONNMARK_CHAIN, BYPASS_RULE)
    ensures forall c, r | Has(old(t.chains), c, r) :: Has(t.chains, c, r)
    ensures !failed ==> AllThere(t.chains, ws)
    ensures failed ==> Failures(t.faults) < Failures(old(t.faults))
    ensures Failures(t.faults) <= Failures(old(t.faults))
  {
    hide Count, Safe, Once, Ordered, Granted, ApplyAll;
    failed := t.EnsureChain(id);
    if failed { return; }
    ghost var before, done := t.chains, 0;
    failed, done := t.UpdateIptablesRules(ws);
    ghost var part := ws[..done];
    OtherChainStays(before, part, PREROUTING);
    forall c, r | Has(before, c, r) ensures Has(t.chains, c, r) { RuleStays(before, part, c, r); }
    if Has(t.chains, CONNMARK_CHAIN, BYPASS_RULE) { OtherRulesStay(before, part, CONNMARK_CHAIN, BYPASS_RULE); }
    if !failed {
      assert part == ws;
      InstalledIsThere(before, ws);
    }
  }

  lemma {:induction false} InstalledIsThere(chains: Chains, ws: seq<Wish>)
    requires Adds(ws) && forall w | w in ws :: w.chain in chains
    ensures AllThere(ApplyAll(chains, ws), ws)
  {
    if ws != [] {
      var front, last := ws[..|ws| - 1], ws[|ws| - 1];
      assert ws == front + [last];
      InstalledIsThere(chains, front);
      var before := ApplyAll(chains, front);
      KeysStay(chains, front);
      forall w | w in ws ensures Has(Apply(before, last), w.chain, w.rule) {
        if w in front { assert Has(before, w.chain, w.rule); }
      }
    }
  }

  lemma {:induction false} KeysStay(chains: Chains, ws: seq<Wish>)
    ensures ApplyAll(chains, ws).Keys == chains.Keys
  {
    if ws != [] { KeysStay(chains, ws[..|ws| - 1]); }
  }

  lemma BothAreWired(first: Chains, chains: Chains, primaryIP: string, iface: string)
    requires AllThere(first, SnatWishes(primaryIP, iface)) && AllThere(chains, ConnmarkWishes())
    requires forall c, r | Has(first, c, r) :: Has(chains, c, r)
    ensures Wired(chains, primaryIP, iface) && CONNMARK_CHAIN in chains
  {
    ListsAdd(primaryIP, iface);
    assert forall w | w in SnatWishes(primaryIP, iface) :: Has(first, w.chain, w.rule);
    assert MangleWishes(iface)[0].rule == PrimaryMark(iface) && MangleWishes(iface)[1].rule == VETH_RESTORE;
    hide SnatWishes, ConnmarkWishes;
  }

  lemma WiredStays(a: Chains, b: Chains, primaryIP: string, iface: string)
    requires Wired(a, primaryIP, iface) && forall c, r | c != PREROUTING && Has(a, c, r) :: Has(b, c, r)
    ensures Wired(b, primaryIP, iface)
  {
  }

  lemma OnceIsClosable(chains: Chains)
    ensures Once(chains) ==> Closable(chains[PREROUTING])
  {
  }

  /** The last list of the update touches nothing but PREROUTING. */
  method Attach(t: Tables) returns (failed: bool)
    requires t.Valid()
    modifies t
    ensures t.Valid() && old(t.history) <= t.history && (Once(old(t.chains)) ==> Once(t.chains))
    ensures forall c, r | c != PREROUTING :: Has(old(t.chains), c, r) <==> Has(t.chains, c, r)
    ensures !failed ==> (EndsInPair(t.chains[PREROUTING]) <==> Closable(old(t.chains)[PREROUTING]))
    ensures Failures(t.faults) <= Failures(old(t.faults)) - if failed then 1 else 0
  {
    hide Count, Safe, Once, Ordered, ApplyAll, Without, Closable, EndsInPair, Failures;
    OtherWishesAreOrdered();
    ghost var done;
    failed, done := t.UpdateIptablesRules(PreroutingWishes());
    ghost var before, part := old(t.chains), PreroutingWishes()[..done];
    forall c, r | c != PREROUTING ensures Has(before, c, r) <==> Has(t.chains, c, r) {
      if Has(before, c, r) { RuleStays(before, part, c, r); }
      if Has(t.chains, c, r) { OtherRulesStay(before, part, c, r); }
    }
    if !failed {
      assert part == PreroutingWishes();
      PairEndsIff(before);
    }
  }

  /** The lists of the two custom chains, and what leads to them outside PREROUTING. */
  method InstallBoth(t: Tables, primaryIP: string, iface: string) returns (failed: bool)
    requires t.Valid()
    modifies t
    ensures t.Valid() && old(t.history) <= t.history && (Once(old(t.chains)) ==> Once(t.chains))
    ensures t.chains[PREROUTING] == old(t.chains)[PREROUTING]
    ensures Has(t.chains, CONNMARK_CHAIN, BYPASS_RULE) ==> Has(old(t.chains), CONNMARK_CHAIN, BYPASS_RULE)
    ensures !failed ==> Wired(t.chains, primaryIP, iface) && CONNMARK_CHAIN in t.chains
    ensures Failures(t.faults) <= Failures(old(t.faults)) - if failed then 1 else 0
  {
    hide Count, Safe, Once, Ordered, ApplyAll, SnatWishes, ConnmarkWishes, Adds, Failures, Wired;
    ListsAdd(primaryIP, iface);
    SnatWishesAreOrdered(primaryIP, iface);
    failed := Install(t, SNAT_CHAIN, SnatWishes(primaryIP, iface));
    if failed { return; }
    ConnmarkWishesAreOrdered();
    ghost var first := t.chains;
    failed := Install(t, CONNMARK_CHAIN, ConnmarkWishes());
    if failed { return; }
    BothAreWired(first, t.chains, primaryIP, iface);
  }

  /** updateRules. Whether it succeeds or not, the tables stay safe at every step, so private destinations are spared;
      the bypass appears only with a migrated set; a success ends with the actions in place, and PREROUTING ends with
      the jump and the restore exactly when it could be closed. Tables that have neither rule twice are closable, and no
      update, complete or aborted, doubles one. */
  method UpdateRules(t: Tables, ipset: IpSet, primaryIP: string, iface: string, natGW: bool,
                     plan: Plan) returns (failed: bool)
    requires t.Valid() && ipset.Valid() && (plan.Known? ==> forall a | a in plan.desired :: a.V4?)
    modifies t, ipset
    ensures t.Valid() && ipset.Valid() && old(t.history) <= t.history && (Once(old(t.chains)) ==> Once(t.chains))
    ensures Has(t.chains, CONNMARK_CHAIN, BYPASS_RULE) && !Has(old(t.chains), CONNMARK_CHAIN, BYPASS_RULE) ==>
              natGW && plan.Known? && V4Only(ipset.members) == plan.desired
    ensures !failed ==> Wired(t.chains, primaryIP, iface)
    ensures !failed ==> (EndsInPair(t.chains[PREROUTING]) <==> Closable(old(t.chains)[PREROUTING]))
    ensures !failed && Once(old(t.chains)) ==> EndsInPair(t.chains[PREROUTING])
    ensures failed ==> Failures(t.faults) < Failures(old(t.faults))
    ensures natGW && plan.Known? && Failures(t.faults) == Failures(old(t.faults))
            && Failures(ipset.faults) == Failures(old(ipset.faults)) ==>
              Has(t.chains, CONNMARK_CHAIN, BYPASS_RULE)
  {
    hide Count, Safe, Once, EndsInPair, Failures, Wired, Closable, Has;
    failed := InstallBoth(t, primaryIP, iface);
    if failed { return; }
    ghost var wired := t.chains;
    if natGW {
      var unavailable := TryEnableNATGWOutgoing(t, ipset, plan);      // a failure falls back to node SNAT
    }
    failed := Attach(t);
    WiredStays(wired, t.chains, primaryIP, iface);
    OnceIsClosable(old(t.chains));
  }
}
