/** Host ports of one container: the generated DNAT rules, and what they do to a packet. */
module PortMap {
  import Bolt
  import opened PortChain
  import opened Sequences

  datatype Mapping = Mapping(hostPort: int, containerPort: int, protocol: string, hostIP: HostIP)

  /** Absent and empty conditions are the same. */
  datatype Config = Config(mappings: seq<Mapping>, snat: bool, externalSetMarkChain: Bolt.Option<string>,
                           conditionsV4: seq<string>, conditionsV6: seq<string>)
  {
    function MarkChain(): string {
      if externalSetMarkChain.Some? then externalSetMarkChain.value else MARK_CHAIN
    }
  }

  /** Where the ports are forwarded to, as this ADD was given it: the address of the container and its network. */
  datatype Container = Container(addr: HostIP, net: set<HostIP>)

  predicate OfV6(pod: Container) {
    !pod.addr.V4?
  }

  const LOCALHOST := {V4(0x7F00_0001)}

  const TOP_LEVEL := "CNI-HOSTPORT-DNAT"
  const MAX_PORTS: nat := 15

  // ---------------------------------------------------------------- packets

  datatype Packet = Packet(proto: string, dport: int, dst: HostIP, src: HostIP, conditions: set<string>)

  predicate Matches(r: Rule, p: Packet) {
    && (r.proto.AnyProtocol? || r.proto.name == p.proto)
    && (r.ports == [] || p.dport in r.ports)
    && (r.dst.AnyHost? || r.dst == p.dst)
    && (r.src.AnySource? || p.src in r.src.net)
    && (forall c | c in r.conditions :: c in p.conditions)
  }

  datatype Verdict = Passed(marked: bool) | Redirected(addr: HostIP, port: int, marked: bool)

  /** A second list of rules goes on where the first let the packet pass. */
  function Then(v: Verdict, w: Verdict): Verdict {
    if v.Redirected? then v else w.(marked := v.marked || w.marked)
  }

  /** One rule of the container's chain; the chain it may jump to marks the packet for masquerading and returns. */
  function EvalRule(r: Rule, setMark: string, p: Packet): Verdict {
    if !Matches(r, p) then Passed(false)
    else match r.target
      case Jump(name) => Passed(name == setMark)
      case Dnat(addr, port) => Redirected(addr, port, false)
      case _ => Passed(false)
  }

  function Eval(rs: seq<Rule>, setMark: string, p: Packet): Verdict {
    if rs == [] then Passed(false) else Then(Eval(rs[..|rs| - 1], setMark, p), EvalRule(rs[|rs| - 1], setMark, p))
  }

  /** The top-level chain, as far as it enters the chain of this name. */
  function EvalTop(top: seq<Rule>, name: string, rs: seq<Rule>, setMark: string, p: Packet): Verdict {
    if top == [] then Passed(false) else
      var r := top[|top| - 1];
      Then(EvalTop(top[..|top| - 1], name, rs, setMark, p),
           if Jumps(r, name) && Matches(r, p) then Eval(rs, setMark, p) else Passed(false))
  }

  // ---------------------------------------------------------------- grouping and splitting

  function PortsOf(ms: seq<Mapping>, proto: string): seq<int> {
    if ms == [] then [] else
      var m := ms[|ms| - 1];
      PortsOf(ms[..|ms| - 1], proto) + if m.protocol == proto then [m.hostPort] else []
  }

  lemma {:induction false} PortsOfAll(ms: seq<Mapping>, proto: string)
    ensures forall n :: n in PortsOf(ms, proto) <==> exists m | m in ms :: m.protocol == proto && m.hostPort == n
  {
    if ms != [] {
      PortsOfAll(ms[..|ms| - 1], proto);
      assert ms == ms[..|ms| - 1] + [ms[|ms| - 1]];
    }
  }

  /** groupByProto: the host ports of every protocol, in the order of the list. */
  method GroupByProto(ms: seq<Mapping>) returns (out: map<string, seq<int>>)
    ensures forall proto :: PortsOf(ms, proto) == if proto in out then out[proto] else []
    ensures forall proto | proto in out :: out[proto] != []
  {
    out := map[];
    for i := 0 to |ms|
      invariant forall proto :: PortsOf(ms[..i], proto) == if proto in out then out[proto] else []
      invariant forall proto | proto in out :: out[proto] != []
    {
      var m := ms[i];
      assert ms[..i + 1][..i] == ms[..i];
      if m.protocol in out {
        out := out[m.protocol := out[m.protocol] + [m.hostPort]];
      } else {
        out := out[m.protocol := [m.hostPort]];
      }
    }
    assert ms[..|ms|] == ms;
  }

  /** splitPortList: at most fifteen ports each, none lost, repeated or moved. */
  method SplitPortList(l: seq<int>) returns (out: seq<seq<int>>)
    ensures Flatten(out) == l
    ensures forall i | 0 <= i < |out| :: 0 < |out[i]| <= 15
    ensures forall i | 0 <= i < |out| - 1 :: |out[i]| == 15
  {
    out := [];
    var acc: seq<int> := [];
    ghost var done: seq<int> := [];
    for i := 0 to |l|
      invariant Flatten(out) == done && done + acc == l[..i] && |acc| < MAX_PORTS
      invariant forall i | 0 <= i < |out| :: |out[i]| == MAX_PORTS
    {
      hide Flatten;
      assert l[..i + 1] == done + (acc + [l[i]]);
      acc := acc + [l[i]];
      if |acc| == MAX_PORTS {
        FlattenSnoc(out, acc);
        done := done + acc;
        out, acc := out + [acc], [];
      }
    }
    if |acc| > 0 {
      FlattenSnoc(out, acc);
      out := out + [acc];
    }
  }

  // ---------------------------------------------------------------- the generated rules

  function Conditions(cfg: Config, pod: Container): seq<string> {
    if OfV6(pod) then cfg.conditionsV6 else cfg.conditionsV4
  }

  function EntryRule(cfg: Config, pod: Container, name: string, proto: string, ports: seq<int>): Rule {
    Rule(Proto(proto), ports, AnyHost, AnySource, Conditions(cfg, pod), Jump(name))
  }

  predicate Unspecified(ip: HostIP) {
    ip == V4(0) || ip == V6(0)
  }

  /** An address that cannot be read counts as an IPv6 one. */
  predicate IsV6(ip: HostIP) {
    !ip.V4?
  }

  predicate Skipped(m: Mapping, pod: Container) {
    !m.hostIP.AnyHost? && IsV6(m.hostIP) != OfV6(pod)
  }

  function BaseRule(m: Mapping, src: Source, target: Target): Rule {
    Rule(Proto(m.protocol), [m.hostPort], if Unspecified(m.hostIP) then AnyHost else m.hostIP, src, [], target)
  }

  /** The rules of one mapping: mark hairpin traffic, mark traffic from localhost for IPv4, redirect. */
  function RulesOf(m: Mapping, cfg: Config, pod: Container): seq<Rule> {
    if Skipped(m, pod) then [] else
      (if cfg.snat then [BaseRule(m, Within(pod.net), Jump(cfg.MarkChain()))] else [])
      + (if cfg.snat && !OfV6(pod) then [BaseRule(m, Within(LOCALHOST), Jump(cfg.MarkChain()))] else [])
      + [BaseRule(m, AnySource, Dnat(pod.addr, m.containerPort))]
  }

  function ChainRules(ms: seq<Mapping>, cfg: Config, pod: Container): seq<Rule> {
    if ms == [] then [] else ChainRules(ms[..|ms| - 1], cfg, pod) + RulesOf(ms[|ms| - 1], cfg, pod)
  }

  /** A packet for one of these protocols and ports that meets the conditions. */
  ghost predicate Enters(entries: seq<Rule>, p: Packet) {
    exists i | 0 <= i < |entries| :: Matches(entries[i], p)
  }

  predicate Meets(cfg: Config, pod: Container, p: Packet) {
    if pod.addr.V4? then forall c | c in cfg.conditionsV4 :: c in p.conditions
    else forall c | c in cfg.conditionsV6 :: c in p.conditions
  }

  lemma EntersMore(a: seq<Rule>, r: Rule, p: Packet)
    ensures Enters(a + [r], p) <==> Enters(a, p) || Matches(r, p)
  {
    assert forall i | 0 <= i < |a| :: (a + [r])[i] == a[i];
    assert (a + [r])[|a|] == r;
    hide Matches;
  }

  /** The entry rules let in what meets the conditions and is for a port of a protocol that is not left. */
  ghost predicate Covers(entries: seq<Rule>, cfg: Config, pod: Container, groups: map<string, seq<int>>,
                         left: map<string, seq<int>>) {
    forall p: Packet :: Enters(entries, p) <==>
      Meets(cfg, pod, p) && p.proto in groups && p.proto !in left && p.dport in groups[p.proto]
  }

  lemma NothingCovered(cfg: Config, pod: Container, groups: map<string, seq<int>>)
    ensures Covers([], cfg, pod, groups, groups)
  {
  }

  lemma CoverOne(before: seq<Rule>, entries: seq<Rule>, cfg: Config, pod: Container, groups: map<string, seq<int>>,
                 left: map<string, seq<int>>, proto: string)
    requires Covers(before, cfg, pod, groups, left) && proto in left && proto in groups
    requires forall p: Packet :: Enters(entries, p) <==>
               Enters(before, p) || (Meets(cfg, pod, p) && p.proto == proto && p.dport in groups[proto])
    ensures Covers(entries, cfg, pod, groups, left - {proto})
  {
    hide Enters, Meets;
    forall p: Packet ensures Enters(entries, p) <==>
      Meets(cfg, pod, p) && p.proto in groups && p.proto !in left - {proto} && p.dport in groups[p.proto]
    {
      assert Enters(before, p) <==>
             Meets(cfg, pod, p) && p.proto in groups && p.proto !in left && p.dport in groups[p.proto];
    }
  }

  /** Every entry rule jumps to the chain and asks for one to fifteen ports. */
  ghost predicate EntryShape(entries: seq<Rule>, name: string) {
    forall i | 0 <= i < |entries| ::
      Jumps(entries[i], name) && Acceptable(entries[i]) && 0 < |entries[i].ports| <= 15
  }

  /** fillDnatRules: protocols in their order, the ports of each in pieces, then the rules of every mapping. Whatever
      the pieces, the entry rules let in exactly the packets for a listed protocol and port. */
  method FillDnatRules(cfg: Config, pod: Container, name: string) returns (c: Chain)
    ensures c.name == name && c.entryChains == [TOP_LEVEL] && !c.prependEntry
    ensures c.rules == ChainRules(cfg.mappings, cfg, pod)
    ensures EntryShape(c.entryRules, name)
    ensures forall p: Packet :: Enters(c.entryRules, p) <==>
              Meets(cfg, pod, p) && p.dport in PortsOf(cfg.mappings, p.proto)
  {
    var groups := GroupByProto(cfg.mappings);
    var entryRules: seq<Rule> := [];
    var left := groups;
    var least := Seek(left);
    NothingCovered(cfg, pod, groups);
    hide Covers, Enters, Meets, Bolt.IsLeast;
    while least.Some?
      invariant least.None? <==> left == map[]
      invariant least.Some? ==> least.value.key in left && left[least.value.key] == least.value.value
      invariant forall k | k in left :: k in groups && left[k] == groups[k]
      invariant EntryShape(entryRules, name) && Covers(entryRules, cfg, pod, groups, left)
      decreases |left|
    {
      var proto, ports := least.value.key, least.value.value;
      ghost var before := entryRules;
      entryRules := EnterPorts(cfg, pod, name, proto, ports, entryRules);
      CoverOne(before, entryRules, cfg, pod, groups, left, proto);
      assert left.Keys == (left - {proto}).Keys + {proto};
      left := left - {proto};
      least := Seek(left);
    }
    AllCovered(entryRules, cfg, pod, groups);
    var rules := FillRules(cfg, pod);
    return Chain(name, [TOP_LEVEL], entryRules, rules, false);
  }

  lemma AllCovered(entries: seq<Rule>, cfg: Config, pod: Container, groups: map<string, seq<int>>)
    requires Covers(entries, cfg, pod, groups, map[])
    requires forall proto :: PortsOf(cfg.mappings, proto) == if proto in groups then groups[proto] else []
    ensures forall p: Packet :: Enters(entries, p) <==> Meets(cfg, pod, p) && p.dport in PortsOf(cfg.mappings, p.proto)
  {
    hide Enters, Meets, PortsOf;
  }

  /** The next protocol in the order of the names. */
  method Seek(left: map<string, seq<int>>) returns (least: Bolt.Option<Bolt.KeyValue<seq<int>>>)
    ensures least.None? <==> left == map[]
    ensures least.Some? ==> Bolt.IsLeast(left.Keys, least.value.key)
    ensures least.Some? ==> least.value.key in left && left[least.value.key] == least.value.value
  {
    least := Bolt.Seek(left);
  }

  /** The entry rules for the ports of one protocol. */
  method EnterPorts(cfg: Config, pod: Container, name: string, proto: string, ports: seq<int>, before: seq<Rule>)
      returns (entryRules: seq<Rule>)
    requires EntryShape(before, name)
    ensures EntryShape(entryRules, name)
    ensures forall p: Packet :: Enters(entryRules, p) <==>
              Enters(before, p) || (Meets(cfg, pod, p) && p.proto == proto && p.dport in ports)
  {
    entryRules := before;
    var specs := SplitPortList(ports);
    for i := 0 to |specs|
      invariant EntryShape(entryRules, name)
      invariant forall p: Packet :: Enters(entryRules, p) <==>
                  Enters(before, p) || (Meets(cfg, pod, p) && p.proto == proto && p.dport in Flatten(specs[..i]))
    {
      var r := EntryRule(cfg, pod, name, proto, specs[i]);
      FlattenSnoc(specs[..i], specs[i]);
      assert specs[..i + 1] == specs[..i] + [specs[i]];
      forall p: Packet
        ensures Enters(entryRules + [r], p) <==>
                  Enters(before, p) || (Meets(cfg, pod, p) && p.proto == proto && p.dport in Flatten(specs[..i + 1]))
      {
        EntersMore(entryRules, r, p);
      }
      entryRules := entryRules + [r];
    }
    assert specs[..|specs|] == specs;
  }

  method FillRules(cfg: Config, pod: Container) returns (rules: seq<Rule>)
    ensures rules == ChainRules(cfg.mappings, cfg, pod)
  {
    hide RulesOf;
    rules := [];
    for i := 0 to |cfg.mappings|
      invariant rules == ChainRules(cfg.mappings[..i], cfg, pod)
    {
      assert cfg.mappings[..i + 1][..i] == cfg.mappings[..i];
      rules := AddRulesOf(cfg.mappings[i], cfg, pod, rules);
    }
    assert cfg.mappings[..|cfg.mappings|] == cfg.mappings;
  }

  /** One round of the loop. */
  method AddRulesOf(m: Mapping, cfg: Config, pod: Container, before: seq<Rule>) returns (rules: seq<Rule>)
    ensures rules == before + RulesOf(m, cfg, pod)
  {
    rules := before;
    var isV6 := !pod.addr.V4?;
    var addRuleBaseDst := false;
    if !m.hostIP.AnyHost? {
      var isHostV6 := !m.hostIP.V4?;
      if isV6 != isHostV6 { return; }
      if !Unspecified(m.hostIP) { addRuleBaseDst := true; }
    }
    var dst := if addRuleBaseDst then m.hostIP else AnyHost;
    var base := Rule(Proto(m.protocol), [m.hostPort], dst, AnySource, [], AnyTarget);
    assert base == BaseRule(m, AnySource, AnyTarget);
    if cfg.snat {
      rules := rules + [base.(src := Within(pod.net), target := Jump(cfg.MarkChain()))];
      if !isV6 { rules := rules + [base.(src := Within(LOCALHOST), target := Jump(cfg.MarkChain()))]; }
    }
    rules := rules + [base.(target := Dnat(pod.addr, m.containerPort))];
  }

  // ---------------------------------------------------------------- what the rules do

  /** The mapping is for this packet: its host address, if it has one, is of the container's family, and it is the
      packet's destination or stands for all. */
  predicate Applies(m: Mapping, pod: Container, p: Packet) {
    && m.protocol == p.proto && m.hostPort == p.dport
    && (m.hostIP.AnyHost?
        || ((m.hostIP.V4? <==> pod.addr.V4?) && (m.hostIP in {V4(0), V6(0)} || m.hostIP == p.dst)))
  }

  /** The first mapping of the list that is for the packet decides; none lets it pass. */
  function Decide(ms: seq<Mapping>, cfg: Config, pod: Container, p: Packet): Verdict {
    if ms == [] then Passed(false)
    else if Applies(ms[0], pod, p) then
      Redirected(pod.addr, ms[0].containerPort,
                 cfg.snat && (p.src in pod.net || (pod.addr.V4? && p.src == V4(0x7F00_0001))))
    else Decide(ms[1..], cfg, pod, p)
  }

  function Expected(cfg: Config, pod: Container, p: Packet): Verdict {
    if Meets(cfg, pod, p) then Decide(cfg.mappings, cfg, pod, p) else Passed(false)
  }

  lemma ThenIsAssociative(u: Verdict, v: Verdict, w: Verdict)
    ensures Then(Then(u, v), w) == Then(u, Then(v, w))
  {
  }

  lemma {:induction false} EvalConcat(a: seq<Rule>, b: seq<Rule>, setMark: string, p: Packet)
    ensures Eval(a + b, setMark, p) == Then(Eval(a, setMark, p), Eval(b, setMark, p))
  {
    if b == [] {
      assert a + b == a;
    } else {
      var b', r := b[..|b| - 1], b[|b| - 1];
      assert (a + b)[..|a + b| - 1] == a + b' && (a + b)[|a + b| - 1] == r;
      EvalConcat(a, b', setMark, p);
      ThenIsAssociative(Eval(a, setMark, p), Eval(b', setMark, p), EvalRule(r, setMark, p));
    }
  }

  /** A rule that is met a second time changes nothing. */
  lemma {:induction false} Again(rs: seq<Rule>, r: Rule, setMark: string, p: Packet)
    requires r in rs
    ensures Then(Eval(rs, setMark, p), EvalRule(r, setMark, p)) == Eval(rs, setMark, p)
  {
    if rs[|rs| - 1] != r {
      assert r in rs[..|rs| - 1];
      Again(rs[..|rs| - 1], r, setMark, p);
    }
    hide Matches;
  }

  /** Rules added once each, to whatever the chain holds, decide after it: leaving out those that are there already
      changes no verdict. */
  lemma {:induction false} AddEachKeepsVerdict(had: seq<Rule>, rs: seq<Rule>, setMark: string, p: Packet)
    ensures Eval(AddEach(had, false, rs), setMark, p) == Then(Eval(had, setMark, p), Eval(rs, setMark, p))
  {
    if rs != [] {
      var front, r := AddEach(had, false, rs[..|rs| - 1]), rs[|rs| - 1];
      AddEachKeepsVerdict(had, rs[..|rs| - 1], setMark, p);
      ThenIsAssociative(Eval(had, setMark, p), Eval(rs[..|rs| - 1], setMark, p), EvalRule(r, setMark, p));
      if r in front {
        Again(front, r, setMark, p);
      } else {
        assert (front + [r])[..|front|] == front;
      }
    }
  }

  lemma EvalRulesOf(m: Mapping, cfg: Config, pod: Container, p: Packet)
    ensures Eval(RulesOf(m, cfg, pod), cfg.MarkChain(), p) == Decide([m], cfg, pod, p)
  {
    var mark := Jump(cfg.MarkChain());
    var hairpin, local := BaseRule(m, Within(pod.net), mark), BaseRule(m, Within(LOCALHOST), mark);
    var dnat := BaseRule(m, AnySource, Dnat(pod.addr, m.containerPort));
    EvalThree(hairpin, local, dnat, cfg.MarkChain(), p);
    assert Decide([m][1..], cfg, pod, p) == Passed(false);
    var rules := RulesOf(m, cfg, pod);
    if Skipped(m, pod) {
      assert rules == [];
    } else {
      assert rules == if !cfg.snat then [dnat] else if OfV6(pod) then [hairpin, dnat] else [hairpin, local, dnat];
      assert Matches(dnat, p) <==> Applies(m, pod, p);
    }
  }

  lemma EvalThree(a: Rule, b: Rule, c: Rule, setMark: string, p: Packet)
    ensures Eval([], setMark, p) == Passed(false) && Eval([c], setMark, p) == EvalRule(c, setMark, p)
    ensures Eval([a, c], setMark, p) == Then(EvalRule(a, setMark, p), EvalRule(c, setMark, p))
    ensures Eval([a, b, c], setMark, p) ==
            Then(EvalRule(a, setMark, p), Then(EvalRule(b, setMark, p), EvalRule(c, setMark, p)))
  {
    hide EvalRule;
    assert [c][..0] == [] && [a, c][..1] == [a] && [a, b, c][..2] == [a, b] && [a, b][..1] == [a] && [a][..0] == [];
  }

  lemma {:induction false} DecideConcat(a: seq<Mapping>, b: seq<Mapping>, cfg: Config, pod: Container, p: Packet)
    ensures Decide(a + b, cfg, pod, p) == Then(Decide(a, cfg, pod, p), Decide(b, cfg, pod, p))
    ensures Decide(a, cfg, pod, p).Passed? ==> !Decide(a, cfg, pod, p).marked
  {
    if a == [] {
      assert a + b == b;
      PassedUnmarked(b, cfg, pod, p);
    } else {
      assert (a + b)[1..] == a[1..] + b;
      DecideConcat(a[1..], b, cfg, pod, p);
    }
  }

  lemma {:induction false} PassedUnmarked(a: seq<Mapping>, cfg: Config, pod: Container, p: Packet)
    ensures Decide(a, cfg, pod, p).Passed? ==> !Decide(a, cfg, pod, p).marked
  {
    if a != [] { PassedUnmarked(a[1..], cfg, pod, p); }
  }

  lemma {:induction false} EvalChainRules(ms: seq<Mapping>, cfg: Config, pod: Container, p: Packet)
    ensures Eval(ChainRules(ms, cfg, pod), cfg.MarkChain(), p) == Decide(ms, cfg, pod, p)
  {
    if ms != [] {
      var front, m := ms[..|ms| - 1], ms[|ms| - 1];
      assert ms == front + [m];
      EvalChainRules(front, cfg, pod, p);
      EvalRulesOf(m, cfg, pod, p);
      EvalConcat(ChainRules(front, cfg, pod), RulesOf(m, cfg, pod), cfg.MarkChain(), p);
      DecideConcat(front, [m], cfg, pod, p);
      hide Eval, Decide, RulesOf;
    }
  }

  // ---------------------------------------------------------------- the whole path of a packet

  lemma {:induction false} TopVerdict(top: seq<Rule>, name: string, rs: seq<Rule>, setMark: string, p: Packet)
    ensures EvalTop(top, name, rs, setMark, p) ==
            if (exists i | 0 <= i < |top| :: Jumps(top[i], name) && Matches(top[i], p))
                          then Eval(rs, setMark, p) else Passed(false)
  {
    if top != [] {
      var front := top[..|top| - 1];
      assert forall i | 0 <= i < |front| :: top[i] == front[i];
      TopVerdict(front, name, rs, setMark, p);
      hide Matches, Eval;
    }
  }

  lemma EntriesAreThemselves(c: Chain)
    requires EntryShape(c.entryRules, c.name)
    ensures Entries(c) == c.entryRules
  {
    forall i | 0 <= i < |c.entryRules| ensures Entries(c)[i] == c.entryRules[i] {
      assert Jumps(c.entryRules[i], c.name);
    }
  }

  /** A mapping for a packet is for one of the grouped ports. */
  lemma NobodyAsks(ms: seq<Mapping>, cfg: Config, pod: Container, p: Packet)
    requires p.dport !in PortsOf(ms, p.proto)
    ensures Decide(ms, cfg, pod, p) == Passed(false)
  {
    PortsOfAll(ms, p.proto);
    NoneApplies(ms, cfg, pod, p);
  }

  lemma {:induction false} NoneApplies(ms: seq<Mapping>, cfg: Config, pod: Container, p: Packet)
    requires forall m | m in ms :: !(m.protocol == p.proto && m.hostPort == p.dport)
    ensures Decide(ms, cfg, pod, p) == Passed(false)
  {
    if ms != [] { assert ms[0] in ms; NoneApplies(ms[1..], cfg, pod, p); }
  }

  /** A packet that meets the conditions and is for a listed port of its protocol. */
  predicate Asked(cfg: Config, pod: Container, p: Packet) {
    Meets(cfg, pod, p) && p.dport in PortsOf(cfg.mappings, p.proto)
  }

  /** The top-level chain sends the packet to the chain of this name. */
  ghost predicate Entered(t: Tables, name: string, p: Packet) {
    exists r | r in PortChain.RulesOf(t, TOP_LEVEL) :: Jumps(r, name) && Matches(r, p)
  }

  /** What happens to a packet on its way through the top-level chain and the container's chain. */
  function VerdictOn(t: Tables, name: string, setMark: string, p: Packet): Verdict {
    EvalTop(PortChain.RulesOf(t, TOP_LEVEL), name, PortChain.RulesOf(t, name), setMark, p)
  }

  lemma VerdictIs(t: Tables, name: string, setMark: string, p: Packet)
    ensures VerdictOn(t, name, setMark, p) ==
            if Entered(t, name, p) then Eval(PortChain.RulesOf(t, name), setMark, p) else Passed(false)
  {
    var top := PortChain.RulesOf(t, TOP_LEVEL);
    TopVerdict(top, name, PortChain.RulesOf(t, name), setMark, p);
    hide Matches, Eval, EvalTop;
    if Entered(t, name, p) {
      var r :| r in top && Jumps(r, name) && Matches(r, p);
      var i :| 0 <= i < |top| && top[i] == r;
    }
  }

  /** What a setup makes of a packet, whatever the tables held: the rules that were there decide first, and entries that
      were there still enter. */
  function Installed(t: Tables, name: string, cfg: Config, entered: bool, p: Packet, pod: Container): Verdict {
    if entered || Asked(cfg, pod, p)
    then Then(Eval(PortChain.RulesOf(t, name), cfg.MarkChain(), p), Decide(cfg.mappings, cfg, pod, p))
    else Passed(false)
  }

  /** What was there for this packet agrees with the port map: it decides alike, or not at all. */
  predicate Harmless(t: Tables, name: string, cfg: Config, entered: bool, p: Packet, pod: Container) {
    var had, wanted := Eval(PortChain.RulesOf(t, name), cfg.MarkChain(), p), Decide(cfg.mappings, cfg, pod, p);
    if Asked(cfg, pod, p) then had == wanted || (had.Passed? && (had.marked ==> wanted.marked))
    else entered ==> had == Passed(false) && wanted == Passed(false)
  }

  /** A setup gives a packet its meaning exactly when what was there is harmless to it. */
  lemma InstalledIsExpectedIff(t: Tables, name: string, cfg: Config, entered: bool, p: Packet, pod: Container)
    ensures Installed(t, name, cfg, entered, p, pod) == Expected(cfg, pod, p)
       <==> Harmless(t, name, cfg, entered, p, pod)
  {
    if p.dport !in PortsOf(cfg.mappings, p.proto) { NobodyAsks(cfg.mappings, cfg, pod, p); }
    hide Eval, Decide, Meets, PortsOf;
  }

  // ---------------------------------------------------------------- one setup after the other

  /** What one ADD asks for: a list of mappings to its container, whose address may be another one the next time. */
  datatype Order = Order(cfg: Config, pod: Container)

  function OrderedRules(os: seq<Order>): seq<Rule> {
    if os == [] then [] else
      var o := os[|os| - 1];
      OrderedRules(os[..|os| - 1]) + ChainRules(o.cfg.mappings, o.cfg, o.pod)
  }

  predicate OrderedFor(os: seq<Order>, p: Packet) {
    exists o | o in os :: Asked(o.cfg, o.pod, p)
  }

  /** The first order that has a mapping for the packet decides. */
  function DecideOrders(os: seq<Order>, p: Packet): Verdict {
    if os == [] then Passed(false) else
      var o := os[|os| - 1];
      Then(DecideOrders(os[..|os| - 1], p), Decide(o.cfg.mappings, o.cfg, o.pod, p))
  }

  /** What a packet meets after these orders. */
  function Meaning(os: seq<Order>, p: Packet): Verdict {
    if OrderedFor(os, p) then DecideOrders(os, p) else Passed(false)
  }

  /** All orders mark through the same chain, an external one or the port maps' own. */
  predicate MarkedBy(os: seq<Order>, setMark: string) {
    forall o | o in os ::
      o.cfg.externalSetMarkChain == Bolt.Some(setMark)
      || (o.cfg.externalSetMarkChain.None? && setMark == "CNI-HOSTPORT-SETMARK")
  }

  lemma {:induction false} EvalOrderedRules(os: seq<Order>, setMark: string, p: Packet)
    requires MarkedBy(os, setMark)
    ensures Eval(OrderedRules(os), setMark, p) == DecideOrders(os, p)
  {
    if os != [] {
      var front, o := os[..|os| - 1], os[|os| - 1];
      EvalOrderedRules(front, setMark, p);
      EvalChainRules(o.cfg.mappings, o.cfg, o.pod, p);
      EvalConcat(OrderedRules(front), ChainRules(o.cfg.mappings, o.cfg, o.pod), setMark, p);
      hide Eval, Decide, ChainRules;
    }
  }

  lemma {:induction false} OrdersPassUnmarked(os: seq<Order>, p: Packet)
    ensures DecideOrders(os, p).Passed? ==> !DecideOrders(os, p).marked
  {
    if os != [] {
      var o := os[|os| - 1];
      OrdersPassUnmarked(os[..|os| - 1], p);
      PassedUnmarked(o.cfg.mappings, o.cfg, o.pod, p);
      hide Decide;
    }
  }

  /** The tables hold, for this name, the port maps of these orders and nothing else. */
  ghost predicate LeftBy(t: Tables, name: string, os: seq<Order>) {
    && PortChain.RulesOf(t, name) == AddEach([], false, OrderedRules(os))
    && forall p: Packet :: Entered(t, name, p) <==> OrderedFor(os, p)
  }

  /** The tables are on their way from the port maps of these orders to one order more: its setup failed. */
  ghost predicate OnTheWay(t: Tables, name: string, os: seq<Order>, cfg: Config, pod: Container) {
    && PartAdded(AddEach([], false, OrderedRules(os)), PortChain.RulesOf(t, name), false,
                 ChainRules(cfg.mappings, cfg, pod))
    && (forall p: Packet | Entered(t, name, p) :: OrderedFor(os, p) || Asked(cfg, pod, p))
    && (forall p: Packet | OrderedFor(os, p) :: Entered(t, name, p))
  }

  /** MEANING OF A PORT MAP. The top-level chain and the container's chain together redirect a packet to the address and
      port that the first mapping for it names, marked for masquerading exactly for hairpin and IPv4 localhost traffic,
      and let every other packet pass: pieces of fifteen ports, grouping and rules left out as duplicates make no
      difference. After several orders under one name the first that has a mapping for the packet decides. */
  lemma PortMapMeansExpected(t: Tables, name: string, os: seq<Order>, setMark: string, p: Packet)
    requires LeftBy(t, name, os) && MarkedBy(os, setMark)
    ensures VerdictOn(t, name, setMark, p) == Meaning(os, p)
    ensures |os| == 1 ==> Meaning(os, p) == Expected(os[0].cfg, os[0].pod, p)
  {
    VerdictIs(t, name, setMark, p);
    AddEachKeepsVerdict([], OrderedRules(os), setMark, p);
    EvalOrderedRules(os, setMark, p);
    if |os| == 1 { OneOrder(os[0], p); assert os == [os[0]]; }
    hide Matches, Decide, Meets, AddEach, ChainRules, Eval, Asked, DecideOrders, OrderedFor;
  }

  lemma OneOrder(o: Order, p: Packet)
    ensures Meaning([o], p) == Expected(o.cfg, o.pod, p)
  {
    assert [] + [o] == [o] && DecideOrders([], p) == Passed(false);
    OneMoreOrder([], o, p);
    PassedUnmarked(o.cfg.mappings, o.cfg, o.pod, p);
    if p.dport !in PortsOf(o.cfg.mappings, p.proto) { NobodyAsks(o.cfg.mappings, o.cfg, o.pod, p); }
    hide Decide, DecideOrders, Meets, PortsOf;
  }

  /** The orders that were there leave this one in force: none of them has another redirection for the packet, and none
      lets in a packet that this one keeps out. */
  predicate Yields(os: seq<Order>, o: Order, p: Packet) {
    var had, wanted := DecideOrders(os, p), Decide(o.cfg.mappings, o.cfg, o.pod, p);
    if Asked(o.cfg, o.pod, p) then had.Redirected? ==> had == wanted
    else OrderedFor(os, p) ==> had.Passed? && wanted.Passed?
  }

  /** One more order under the same name leaves the earlier ones in force: a packet meets the meaning of the new order
      exactly when they yield. */
  lemma EarlierListMattersIff(os: seq<Order>, o: Order, p: Packet)
    ensures Meaning(os + [o], p) == Expected(o.cfg, o.pod, p) <==> Yields(os, o, p)
  {
    OneMoreOrder(os, o, p);
    OrdersPassUnmarked(os, p);
    PassedUnmarked(o.cfg.mappings, o.cfg, o.pod, p);
    if p.dport !in PortsOf(o.cfg.mappings, p.proto) { NobodyAsks(o.cfg.mappings, o.cfg, o.pod, p); }
    hide Decide, DecideOrders, Meets, PortsOf, OrderedFor;
  }

  lemma OneMoreOrder(os: seq<Order>, o: Order, p: Packet)
    ensures DecideOrders(os + [o], p) == Then(DecideOrders(os, p), Decide(o.cfg.mappings, o.cfg, o.pod, p))
    ensures OrderedFor(os + [o], p) <==> OrderedFor(os, p) || Asked(o.cfg, o.pod, p)
    ensures OrderedRules(os + [o]) == OrderedRules(os) + ChainRules(o.cfg.mappings, o.cfg, o.pod)
  {
    assert (os + [o])[..|os|] == os;
    assert forall q :: q in os + [o] <==> q in os || q == o;
    hide Decide, Asked, ChainRules;
  }

  /** The address of a redirection is the container's. */
  lemma {:induction false} RedirectedToPod(ms: seq<Mapping>, cfg: Config, pod: Container, p: Packet)
    ensures Decide(ms, cfg, pod, p).Redirected? ==> Decide(ms, cfg, pod, p).addr == pod.addr
  {
    if ms != [] { RedirectedToPod(ms[1..], cfg, pod, p); }
  }

  lemma {:induction false} SameFamilyDecides(ms: seq<Mapping>, cfg: Config, pod: Container, gone: Container, p: Packet)
    requires OfV6(pod) == OfV6(gone)
    ensures Decide(ms, cfg, pod, p).Redirected? <==> Decide(ms, cfg, gone, p).Redirected?
  {
    if ms != [] { SameFamilyDecides(ms[1..], cfg, pod, gone, p); }
  }

  /** A CONTAINER THAT GOT ANOTHER ADDRESS. The same list again, to another address: every packet the list is for goes
      on to the address that the container had before, and only the others meet the meaning of the list. */
  lemma MovedContainerIsMissed(cfg: Config, gone: Container, pod: Container, p: Packet)
    requires gone.addr != pod.addr && OfV6(gone) == OfV6(pod)
    ensures Meaning([Order(cfg, gone), Order(cfg, pod)], p) == Expected(cfg, gone, p)
    ensures Meaning([Order(cfg, gone), Order(cfg, pod)], p) == Expected(cfg, pod, p) <==> Expected(cfg, pod, p).Passed?
  {
    var was, o := Order(cfg, gone), Order(cfg, pod);
    assert [was] + [o] == [was, o];
    OneMoreOrder([was], o, p);
    OneMoreOrder([], was, p);
    assert [] + [was] == [was] && DecideOrders([], p) == Passed(false);
    OneOrder(was, p);
    RedirectedToPod(cfg.mappings, cfg, gone, p);
    RedirectedToPod(cfg.mappings, cfg, pod, p);
    SameFamilyDecides(cfg.mappings, cfg, pod, gone, p);
    PassedUnmarked(cfg.mappings, cfg, pod, p);
    PassedUnmarked(cfg.mappings, cfg, gone, p);
    if p.dport !in PortsOf(cfg.mappings, p.proto) { NobodyAsks(cfg.mappings, cfg, pod, p); }
    hide Decide, DecideOrders, PortsOf;
  }

  /** The same order again, for the same address, changes nothing for anybody, and it is harmless. */
  lemma SameAddressIsKept(os: seq<Order>, o: Order, p: Packet)
    requires o in os
    ensures Meaning(os + [o], p) == Meaning(os, p)
  {
    OneMoreOrder(os, o, p);
    DecidedAlready(os, o, p);
    hide Decide, DecideOrders;
  }

  lemma {:induction false} DecidedAlready(os: seq<Order>, o: Order, p: Packet)
    requires o in os
    ensures Then(DecideOrders(os, p), Decide(o.cfg.mappings, o.cfg, o.pod, p)) == DecideOrders(os, p)
  {
    var front := os[..|os| - 1];
    OrdersPassUnmarked(os, p);
    PassedUnmarked(o.cfg.mappings, o.cfg, o.pod, p);
    if os[|os| - 1] != o {
      assert o in front;
      DecidedAlready(front, o, p);
    }
    hide Decide;
  }

  /** Two inputs that an announced teardown would have mattered for: the port is still redirected to the container port
      of an earlier list, or to the address that the container had before. */
  lemma StaleRedirectionWins(t: Tables, name: string, cfg: Config, pod: Container, m: Mapping, was: Container,
                             port: int, p: Packet)
    requires m.hostIP.AnyHost? && OfV6(was) == OfV6(pod) && Conditions(cfg, pod) == []
    requires LeftBy(t, name, [Order(cfg.(mappings := [m.(containerPort := port)]), was),
                              Order(cfg.(mappings := [m]), pod)])
    requires p.proto == m.protocol && p.dport == m.hostPort
    ensures var v, wanted := VerdictOn(t, name, cfg.MarkChain(), p), Expected(cfg.(mappings := [m]), pod, p);
            && v.Redirected? && v.addr == was.addr && v.port == port
            && wanted.Redirected? && wanted.addr == pod.addr && wanted.port == m.containerPort
  {
    hide EvalTop, Matches, AddEach, ChainRules, Entered;
    var a, b := Order(cfg.(mappings := [m.(containerPort := port)]), was), Order(cfg.(mappings := [m]), pod);
    PortMapMeansExpected(t, name, [a, b], cfg.MarkChain(), p);
    assert [a] + [b] == [a, b] && [] + [a] == [a];
    OneMoreOrder([a], b, p);
    OneMoreOrder([], a, p);
    assert PortsOf([m.(containerPort := port)], p.proto) == [m.hostPort];
    assert Asked(a.cfg, was, p) && a in [a, b];
  }

  /** The generated rules can be installed exactly when no unreadable host address meets an IPv6 container. */
  lemma {:induction false} AcceptableIff(ms: seq<Mapping>, cfg: Config, pod: Container)
    ensures (forall r | r in ChainRules(ms, cfg, pod) :: Acceptable(r)) <==> !OfV6(pod) || forall m | m in ms ::
                  !m.hostIP.Invalid?
  {
    if ms != [] {
      var front, m := ms[..|ms| - 1], ms[|ms| - 1];
      AcceptableIff(front, cfg, pod);
      assert ms == front + [m];
      var dnat := BaseRule(m, AnySource, Dnat(pod.addr, m.containerPort));
      if !Skipped(m, pod) { assert dnat in RulesOf(m, cfg, pod); }
      assert Acceptable(dnat) <==> !m.hostIP.Invalid?;
      forall r | r in RulesOf(m, cfg, pod) ensures Acceptable(r) <==> !m.hostIP.Invalid? {}
    }
  }

  // ---------------------------------------------------------------- forwardPorts

  const MARK_CHAIN := "CNI-HOSTPORT-SETMARK"
  const MASQ_CHAIN := "CNI-HOSTPORT-MASQ"

  /** A rule that matches every packet. */
  function Anything(target: Target): Rule {
    Rule(AnyProtocol, [], AnyHost, AnySource, [], target)
  }

  /** What leads packets for local addresses to the port maps of all containers. */
  const TOP_ENTRY :=
    Rule(AnyProtocol, [], AnyHost, AnySource, ["dst-type LOCAL"], Jump("CNI-HOSTPORT-DNAT"))

  /** Packets that come in and packets of the node itself enter the port maps. */
  predicate TopEntered(t0: Tables, t: Tables) {
    EnteredLast(t0, t, "PREROUTING") && EnteredLast(t0, t, "OUTPUT")
  }

  /** The entry comes after the rules that were there, unless it was one of them. */
  predicate EnteredLast(t0: Tables, t: Tables, id: string) {
    var before := PortChain.RulesOf(t0, id);
    PortChain.RulesOf(t, id) == if TOP_ENTRY in before then before else before + [TOP_ENTRY]
  }

  /** Marking sets this bit, and what carries the bit is masqueraded: the entry from POSTROUTING comes before the rules
      that were there, unless it was one of them. */
  predicate Masquerades(t0: Tables, t: Tables, bit: nat) {
    && Gained(t0, t, "CNI-HOSTPORT-SETMARK", Anything(SetMark(bit)))
    && Gained(t0, t, "CNI-HOSTPORT-MASQ", Anything(Masquerade(bit)))
    && var entry, before := Anything(Jump("CNI-HOSTPORT-MASQ")), PortChain.RulesOf(t0, "POSTROUTING");
       PortChain.RulesOf(t, "POSTROUTING") == if entry in before then before else [entry] + before
  }

  /** The chain holds this rule and what it held before. */
  predicate Gained(t0: Tables, t: Tables, id: string, r: Rule) {
    && r in PortChain.RulesOf(t, id)
    && forall q | q in PortChain.RulesOf(t, id) :: q == r || q in PortChain.RulesOf(t0, id)
  }

  const NO_MATCH := Rule(AnyProtocol, [], AnyHost, AnySource, [], AnyTarget)

  function GenToplevelDnatChain(): Chain {
    Chain(TOP_LEVEL, ["PREROUTING", "OUTPUT"], [NO_MATCH.(conditions := ["dst-type LOCAL"])], [], false)
  }

  function GenSetMarkChain(bit: nat): Chain {
    Chain(MARK_CHAIN, [], [], [NO_MATCH.(target := SetMark(bit))], false)
  }

  /** The only chain whose entry goes before the rules that are there. */
  function GenMarkMasqChain(bit: nat): Chain {
    Chain(MASQ_CHAIN, ["POSTROUTING"], [NO_MATCH], [NO_MATCH.(target := Masquerade(bit))], true)
  }

  /** No chain of this name, and no jump to it from the top level. */
  predicate New(t: Tables, name: string) {
    name !in t && forall r | r in PortChain.RulesOf(t, TOP_LEVEL) :: !Jumps(r, name)
  }

  predicate Builtin(t: Tables) {
    "PREROUTING" in t && "OUTPUT" in t && "POSTROUTING" in t
  }

  const RESERVED := {TOP_LEVEL, MARK_CHAIN, MASQ_CHAIN, "PREROUTING", "OUTPUT", "POSTROUTING"}

  /** Nothing was ordered for a new container. */
  lemma NewHasNothing(t: Tables, name: string)
    requires New(t, name)
    ensures LeftBy(t, name, [])
  {
  }

  /** The container's chain and the entries to it are the same. */
  ghost predicate SameContainer(t: Tables, s: Tables, name: string) {
    && PortChain.RulesOf(s, name) == PortChain.RulesOf(t, name)
    && forall p: Packet :: Entered(s, name, p) <==> Entered(t, name, p)
  }

  lemma SharedKeepContainer(t: Tables, c: Chain, s: Tables, failed: bool, name: string)
    requires if failed then SetUpPart(t, c, s) else SetUp(t, c, s)
    requires c.name != name && name !in c.entryChains && TOP_LEVEL !in c.entryChains
    requires c.name == TOP_LEVEL ==> c.rules == []
    ensures SameContainer(t, s, name)
  {
    assert c.entryChains[..|c.entryChains|] == c.entryChains;
    assert PortChain.RulesOf(s, name) == PortChain.RulesOf(t, name);
    assert PortChain.RulesOf(s, TOP_LEVEL) == PortChain.RulesOf(t, TOP_LEVEL);
  }

  lemma SameTwice(a: Tables, b: Tables, c: Tables, name: string)
    requires SameContainer(a, b, name) && SameContainer(b, c, name)
    ensures SameContainer(a, c, name)
  {
    hide Entered;
  }

  /** The top-level chain after the entries of `c`, or some of them, were added. */
  lemma EntriesEnter(before: seq<Rule>, after: seq<Rule>, c: Chain, t: Tables, s: Tables, cfg: Config, pod: Container,
      p: Packet)
    requires before == PortChain.RulesOf(t, TOP_LEVEL) && after == PortChain.RulesOf(s, TOP_LEVEL)
    requires (forall r | r in before :: r in after) && (forall r | r in after :: r in before || r in c.entryRules)
    requires EntryShape(c.entryRules, c.name) && (Enters(c.entryRules, p) <==> Asked(cfg, pod, p))
    ensures Entered(t, c.name, p) ==> Entered(s, c.name, p)
    ensures Entered(s, c.name, p) ==> Entered(t, c.name, p) || Asked(cfg, pod, p)
    ensures (forall r | r in c.entryRules :: r in after) && Asked(cfg, pod, p) ==> Entered(s, c.name, p)
  {
    hide Matches, Asked;
    if Entered(s, c.name, p) {
      var r :| r in after && Jumps(r, c.name) && Matches(r, p);
      if r !in before { var i :| 0 <= i < |c.entryRules| && c.entryRules[i] == r; }
    }
    if Enters(c.entryRules, p) {
      var i :| 0 <= i < |c.entryRules| && Matches(c.entryRules[i], p);
      assert Jumps(c.entryRules[i], c.name) && c.entryRules[i] in c.entryRules;
    }
  }

  /** The rules of the container's own chain, as fillDnatRules makes them. */
  ghost predicate Filled(c: Chain, cfg: Config, pod: Container) {
    && c.entryChains == [TOP_LEVEL] && !c.prependEntry && c.rules == ChainRules(cfg.mappings, cfg, pod)
    && EntryShape(c.entryRules, c.name)
    && forall p: Packet :: Enters(c.entryRules, p) <==> Asked(cfg, pod, p)
  }

  /** A setup of the container's chain adds its rules and its entries, or a part of them. */
  lemma ContainerSetUp(t: Tables, c: Chain, cfg: Config, pod: Container, s: Tables, failed: bool)
    requires Filled(c, cfg, pod) && TOP_LEVEL in t && c.name != TOP_LEVEL
    requires if failed then SetUpPart(t, c, s) else SetUp(t, c, s)
    ensures PartAdded(PortChain.RulesOf(t, c.name), PortChain.RulesOf(s, c.name), false, c.rules)
    ensures !failed ==> PortChain.RulesOf(s, c.name) == AddEach(PortChain.RulesOf(t, c.name), false, c.rules)
    ensures forall p: Packet | Entered(t, c.name, p) :: Entered(s, c.name, p)
    ensures forall p: Packet | Entered(s, c.name, p) :: Entered(t, c.name, p) || Asked(cfg, pod, p)
    ensures !failed ==> forall p: Packet | Asked(cfg, pod, p) :: Entered(s, c.name, p)
  {
    assert c.entryChains[..1] == [TOP_LEVEL];
    EntriesAreThemselves(c);
    WholeAdded(PortChain.RulesOf(t, c.name), false, c.rules);
    WholeAdded(t[TOP_LEVEL], false, c.entryRules);
    PartHolds(t[TOP_LEVEL], s[TOP_LEVEL], false, c.entryRules);
    AllAdded(t[TOP_LEVEL], false, c.entryRules);
    hide AddEach, PartAdded, Entered, Asked, Enters, Matches;
    forall p: Packet
      ensures Entered(t, c.name, p) ==> Entered(s, c.name, p)
      ensures Entered(s, c.name, p) ==> Entered(t, c.name, p) || Asked(cfg, pod, p)
      ensures !failed && Asked(cfg, pod, p) ==> Entered(s, c.name, p)
    {
      EntriesEnter(t[TOP_LEVEL], s[TOP_LEVEL], c, t, s, cfg, pod, p);
    }
  }

  /** A setup goes on from wherever an earlier one of the same order stopped, and completes it when it succeeds. */
  lemma SetUpGoesOn(t: Tables, c: Chain, os: seq<Order>, cfg: Config, pod: Container, s: Tables, failed: bool)
    requires Filled(c, cfg, pod) && TOP_LEVEL in t && c.name != TOP_LEVEL
    requires if failed then SetUpPart(t, c, s) else SetUp(t, c, s)
    requires OnTheWay(t, c.name, os, cfg, pod)
    ensures OnTheWay(s, c.name, os, cfg, pod) && (!failed ==> LeftBy(s, c.name, os + [Order(cfg, pod)]))
  {
    ContainerSetUp(t, c, cfg, pod, s, failed);
    var first := AddEach([], false, OrderedRules(os));
    AddAgain(first, PortChain.RulesOf(t, c.name), false, c.rules);
    AddEachConcat([], false, OrderedRules(os), c.rules);
    hide AddEach, PartAdded, Entered, Asked, ChainRules, SetUp, SetUpPart, OrderedRules, OrderedFor;
    forall p: Packet
      ensures OrderedFor(os + [Order(cfg, pod)], p) <==> OrderedFor(os, p) || Asked(cfg, pod, p)
      ensures OrderedRules(os + [Order(cfg, pod)]) == OrderedRules(os) + c.rules
    {
      OneMoreOrder(os, Order(cfg, pod), p);
    }
    var p: Packet :| true;
    assert OrderedFor(os + [Order(cfg, pod)], p) <==> OrderedFor(os, p) || Asked(cfg, pod, p);
  }

  /** Before a setup begins it is on its way. */
  lemma NotYetOnTheWay(t: Tables, name: string, os: seq<Order>, cfg: Config, pod: Container)
    requires LeftBy(t, name, os)
    ensures OnTheWay(t, name, os, cfg, pod)
  {
    NoneAdded(PortChain.RulesOf(t, name), false, ChainRules(cfg.mappings, cfg, pod));
    hide AddEach, PartAdded, Entered, Asked, ChainRules, OrderedRules, OrderedFor;
  }

  lemma ContainerMoves(t: Tables, s: Tables, name: string, os: seq<Order>, cfg: Config, pod: Container)
    requires SameContainer(t, s, name)
    ensures OnTheWay(s, name, os, cfg, pod) <==> OnTheWay(t, name, os, cfg, pod)
  {
    hide PartAdded, Entered, Asked, AddEach, OrderedRules, OrderedFor;
  }

  /** forwardPorts: every chain is set up, in this order. Whatever the tables hold for the container, a success makes of
      every packet what was there before and then the list; when earlier `orders` were there, complete or on the way to
      this one, all of them and this one. A failure leaves it on its way, so that any later success of the same order
      completes it. The calls that open iptables and let localhost be routed may fail as well. */
  method ForwardPorts(table: Nat, cfg: Config, pod: Container, bit: nat, name: string,
                      ghost orders: seq<Order>) returns (failed: bool)
    requires Builtin(table.chains) && name !in RESERVED
    modifies table
    ensures Builtin(table.chains)
    ensures !failed ==> forall p: Packet ::
                          VerdictOn(table.chains, name, cfg.MarkChain(), p) ==
                          Installed(old(table.chains), name, cfg, Entered(old(table.chains), name, p), p, pod)
    ensures OnTheWay(old(table.chains), name, orders, cfg, pod) ==> OnTheWay(table.chains, name, orders, cfg, pod)
    ensures OnTheWay(old(table.chains), name, orders, cfg, pod) && !failed ==>
              LeftBy(table.chains, name, orders + [Order(cfg, pod)])
    ensures LeftBy(old(table.chains), name, orders) ==> OnTheWay(old(table.chains), name, orders, cfg, pod)
    ensures New(old(table.chains), name) && !failed ==> LeftBy(table.chains, name, [Order(cfg, pod)])
    ensures !failed ==> TopEntered(old(table.chains), table.chains)
    ensures !failed && cfg.snat && cfg.externalSetMarkChain.None? ==> Masquerades(old(table.chains), table.chains, bit)
    ensures failed ==>
              || Failures(table.faults) < Failures(old(table.faults))
              || (OfV6(pod) && exists m | m in cfg.mappings :: m.hostIP.Invalid?)
  {
    hide AddEach, Matches, Eval, EvalTop, Expected, Enters, PortsOf, Meets, Entered, Asked, OnTheWay, LeftBy, SetUp,
      SetUpPart, PartAdded, Installed, VerdictOn, ChainRules, EntryShape, New, SameContainer, Acceptable;
    ghost var t0 := table.chains;
    if LeftBy(t0, name, orders) { NotYetOnTheWay(t0, name, orders, cfg, pod); }
    failed := SetUpShared(table, cfg, pod, bit, name);
    ghost var t1 := table.chains;
    ContainerMoves(t0, t1, name, orders, cfg, pod);
    if failed { return; }
    var c := FillDnatRules(cfg, pod, name);
    assert Filled(c, cfg, pod) by { hide *; FilledIs(c, cfg, pod); }
    EntriesFit(c, cfg, pod);
    failed := table.Setup(c);
    ghost var t2 := table.chains;
    if OnTheWay(t0, name, orders, cfg, pod) { SetUpGoesOn(t1, c, orders, cfg, pod, t2, failed); }
    if failed { return; }
    OthersStay(t1, c, t2) by { hide *; }
    if New(t0, name) {
      NewHasNothing(t0, name);
      NotYetOnTheWay(t0, name, [], cfg, pod);
      ContainerMoves(t0, t1, name, [], cfg, pod);
      SetUpGoesOn(t1, c, [], cfg, pod, t2, failed);
      assert [] + [Order(cfg, pod)] == [Order(cfg, pod)];
    }
    forall p: Packet
      ensures VerdictOn(t2, name, cfg.MarkChain(), p) == Installed(t0, name, cfg, Entered(t0, name, p), p, pod)
    {
      SetUpIsInstalled(t0, t1, c, cfg, pod, t2, p);
    }
  }

  lemma FilledIs(c: Chain, cfg: Config, pod: Container)
    requires c.entryChains == [TOP_LEVEL] && !c.prependEntry
    requires c.rules == ChainRules(cfg.mappings, cfg, pod) && EntryShape(c.entryRules, c.name)
    requires forall p: Packet :: Enters(c.entryRules, p) <==>
               Meets(cfg, pod, p) && p.dport in PortsOf(cfg.mappings, p.proto)
    ensures Filled(c, cfg, pod)
  {
  }

  lemma EntriesFit(c: Chain, cfg: Config, pod: Container)
    requires Filled(c, cfg, pod)
    ensures AllAcceptable(Entries(c))
    ensures AllAcceptable(c.rules) <==> !OfV6(pod) || forall m | m in cfg.mappings :: !m.hostIP.Invalid?
  {
    EntriesAreThemselves(c);
    AcceptableIff(cfg.mappings, cfg, pod);
    hide Acceptable, ChainRules, Enters;
  }

  lemma SetUpIsInstalled(t0: Tables, t1: Tables, c: Chain, cfg: Config, pod: Container, t2: Tables, p: Packet)
    requires SameContainer(t0, t1, c.name) && Filled(c, cfg, pod) && TOP_LEVEL in t1 && c.name != TOP_LEVEL
    requires SetUp(t1, c, t2)
    ensures VerdictOn(t2, c.name, cfg.MarkChain(), p) == Installed(t0, c.name, cfg, Entered(t0, c.name, p), p, pod)
  {
    ContainerSetUp(t1, c, cfg, pod, t2, false);
    VerdictIs(t2, c.name, cfg.MarkChain(), p);
    AddEachKeepsVerdict(PortChain.RulesOf(t1, c.name), c.rules, cfg.MarkChain(), p);
    EvalChainRules(cfg.mappings, cfg, pod, p);
    hide AddEach, PartAdded, Entered, Asked, ChainRules, SetUp, Eval, Decide;
  }

  /** The chains all containers share, and what comes before them. */
  method SetUpShared(table: Nat, cfg: Config, pod: Container, bit: nat, name: string)
    returns (failed: bool)
    requires Builtin(table.chains) && name !in RESERVED
    modifies table
    ensures Builtin(table.chains) && SameContainer(old(table.chains), table.chains, name)
    ensures !failed ==> TOP_LEVEL in table.chains && TopEntered(old(table.chains), table.chains)
    ensures !failed && cfg.snat && cfg.externalSetMarkChain.None? ==> Masquerades(old(table.chains), table.chains, bit)
    ensures Failures(table.faults) + (if failed then 1 else 0) <= Failures(old(table.faults))
  {
    hide AddEach, SameContainer, SetUp, SetUpPart, PartAdded, TopEntered, Masquerades, Gained;
    assert SameContainer(table.chains, table.chains, name) by { hide *; SameItself(table.chains, name); }
    failed := table.Fault();                              // NewWithProtocol
    if failed { return; }
    if cfg.snat && cfg.externalSetMarkChain.None? {
      failed := SetUpOne(table, GenSetMarkChain(bit), name);
      if failed { return; }
      ghost var t := table.chains;
      failed := SetUpOne(table, GenMarkMasqChain(bit), name);
      SameTwice(old(table.chains), t, table.chains, name);
      if failed { return; }
      MasqueradeSetUp(old(table.chains), t, table.chains, bit);
    }
    if cfg.snat && !OfV6(pod) {
      failed := table.Fault();                            // enableLocalnetRouting
      if failed { return; }
    }
    ghost var t := table.chains;
    failed := SetUpOne(table, GenToplevelDnatChain(), name);
    SameTwice(old(table.chains), t, table.chains, name);
    if !failed { TopSetUp(old(table.chains), t, table.chains, bit); }
  }

  lemma OneAdded(chain: seq<Rule>, prepend: bool, r: Rule)
    ensures AddEach(chain, prepend, [r]) == if r in chain then chain else if prepend then [r] + chain else chain + [r]
  {
    assert [r][..0] == [] && AddEach(chain, prepend, []) == chain;
  }

  lemma MasqueradeSetUp(t0: Tables, t1: Tables, t2: Tables, bit: nat)
    requires SetUp(t0, GenSetMarkChain(bit), t1) && SetUp(t1, GenMarkMasqChain(bit), t2) && "POSTROUTING" in t0
    ensures Masquerades(t0, t2, bit) && SameEntries(t0, t2)
  {
    MarkSetUp(t0, bit, t1);
    MasqSetUp(t1, bit, t2);
    hide AddEach, SetUp;
  }

  predicate SameEntries(t0: Tables, t: Tables) {
    forall id | id in {"PREROUTING", "OUTPUT"} :: PortChain.RulesOf(t, id) == PortChain.RulesOf(t0, id)
  }

  lemma MarkSetUp(t: Tables, bit: nat, s: Tables)
    requires SetUp(t, GenSetMarkChain(bit), s)
    ensures Gained(t, s, "CNI-HOSTPORT-SETMARK", Anything(SetMark(bit)))
    ensures forall id | id != MARK_CHAIN :: PortChain.RulesOf(s, id) == PortChain.RulesOf(t, id)
  {
    OneAdded(PortChain.RulesOf(t, MARK_CHAIN), false, Anything(SetMark(bit)));
    assert GenSetMarkChain(bit).rules == [Anything(SetMark(bit))];
    hide AddEach;
  }

  lemma MasqSetUp(t: Tables, bit: nat, s: Tables)
    requires SetUp(t, GenMarkMasqChain(bit), s) && "POSTROUTING" in t
    ensures Gained(t, s, "CNI-HOSTPORT-MASQ", Anything(Masquerade(bit)))
    ensures var entry, before := Anything(Jump("CNI-HOSTPORT-MASQ")), PortChain.RulesOf(t, "POSTROUTING");
            PortChain.RulesOf(s, "POSTROUTING") == if entry in before then before else [entry] + before
    ensures forall id | id !in {MASQ_CHAIN, "POSTROUTING"} :: PortChain.RulesOf(s, id) == PortChain.RulesOf(t, id)
  {
    var c := GenMarkMasqChain(bit);
    OneAdded(PortChain.RulesOf(t, MASQ_CHAIN), false, Anything(Masquerade(bit)));
    OneAdded(t["POSTROUTING"], true, Anything(Jump(MASQ_CHAIN)));
    assert c.rules == [Anything(Masquerade(bit))] && Entries(c) == [Anything(Jump(MASQ_CHAIN))];
    assert c.entryChains[..1] == ["POSTROUTING"];
    hide AddEach;
  }

  lemma TopSetUp(t0: Tables, t1: Tables, t2: Tables, bit: nat)
    requires SetUp(t1, GenToplevelDnatChain(), t2) && "PREROUTING" in t1 && "OUTPUT" in t1
    requires SameEntries(t0, t1)
    ensures TopEntered(t0, t2) && (Masquerades(t0, t1, bit) ==> Masquerades(t0, t2, bit))
  {
    var c := GenToplevelDnatChain();
    OneAdded(t1["PREROUTING"], false, TOP_ENTRY);
    OneAdded(t1["OUTPUT"], false, TOP_ENTRY);
    assert Entries(c) == [TOP_ENTRY];
    assert c.entryChains[..2] == ["PREROUTING", "OUTPUT"];
    hide AddEach;
  }

  /** A setup leaves every other chain alone. */
  lemma OthersStay(t: Tables, c: Chain, s: Tables)
    requires SetUp(t, c, s)
    ensures forall id | id != c.name && id !in c.entryChains :: PortChain.RulesOf(s, id) == PortChain.RulesOf(t, id)
  {
    assert c.entryChains[..|c.entryChains|] == c.entryChains;
  }

  lemma SameItself(t: Tables, name: string)
    ensures SameContainer(t, t, name)
  {
  }

  method SetUpOne(table: Nat, c: Chain, name: string) returns (failed: bool)
    requires Builtin(table.chains) && name !in RESERVED && c.name in RESERVED
    requires PortChain.WellFormed(c) && forall e | e in c.entryChains :: e in table.chains && e in RESERVED
    requires TOP_LEVEL !in c.entryChains && (c.name == TOP_LEVEL ==> c.rules == [])
    requires AllAcceptable(c.rules) && AllAcceptable(Entries(c))
    modifies table
    ensures Builtin(table.chains) && SameContainer(old(table.chains), table.chains, name)
    ensures !failed ==> c.name in table.chains && SetUp(old(table.chains), c, table.chains)
    ensures Failures(table.faults) + (if failed then 1 else 0) <= Failures(old(table.faults))
  {
    hide AddEach, SameContainer, PartAdded;
    failed := table.Setup(c);
    SharedKeepContainer(old(table.chains), c, table.chains, failed, name);
  }
}
