/** The way of a packet through the chains of the nat table that are there before and after a port map is made. */
module PortWalk {
  import opened PortChain
  import opened PortMap

  datatype Redirection = Nowhere | To(addr: HostIP, port: int)

  /** The bits of the packet's mark, where it is redirected to, and whether its source is masqueraded. A redirection and
      a masquerading end the way through the table. */
  datatype Fate = Fate(bits: set<nat>, to: Redirection, masqueraded: bool) {
    predicate Done() { to.To? || masqueraded }
  }

  const UNTOUCHED := Fate({}, Nowhere, false)

  /** The rules in order, the chains they jump to included; `depth` bounds how far jumps nest. */
  function Walk(t: Tables, rs: seq<Rule>, p: Packet, f: Fate, depth: nat): Fate
    decreases depth, |rs|
  {
    if rs == [] || f.Done() then f else Walk(t, rs[1..], p, Meet(t, rs[0], p, f, depth), depth)
  }

  function Meet(t: Tables, r: Rule, p: Packet, f: Fate, depth: nat): Fate
    decreases depth, 0
  {
    if !Matches(r, p) then f
    else match r.target
      case Jump(name) => if depth == 0 then f else Walk(t, PortChain.RulesOf(t, name), p, f, depth - 1)
      case Dnat(addr, port) => f.(to := To(addr, port))
      case SetMark(bit) => f.(bits := f.bits + {bit})
      case Masquerade(bit) => f.(masqueraded := bit in f.bits)
      case AnyTarget => f
  }

  lemma Stopped(t: Tables, rs: seq<Rule>, p: Packet, f: Fate, depth: nat)
    ensures f.Done() ==> Walk(t, rs, p, f, depth) == f
  {
  }

  lemma {:induction false} WalkConcat(t: Tables, a: seq<Rule>, b: seq<Rule>, p: Packet, f: Fate, depth: nat)
    ensures Walk(t, a + b, p, f, depth) == Walk(t, b, p, Walk(t, a, p, f, depth), depth)
    decreases |a|
  {
    if a == [] {
      assert a + b == b;
    } else {
      assert (a + b)[1..] == a[1..] + b;
      if f.Done() { Stopped(t, b, p, f, depth); }
      else { WalkConcat(t, a[1..], b, p, Meet(t, a[0], p, f, depth), depth); }
      hide Meet;
    }
  }

  // ---------------------------------------------------------------- the container's chain

  /** The bits that a chain of marking rules sets. */
  function Bits(rs: seq<Rule>): set<nat> {
    set r | r in rs && r.target.SetMark? :: r.target.bit
  }

  /** The chain for marking does nothing else. */
  predicate OnlySetsMarks(t: Tables, setMark: string) {
    forall r | r in PortChain.RulesOf(t, setMark) :: r.target.SetMark? && r == Anything(r.target)
  }

  lemma {:induction false} WalkMarks(t: Tables, rs: seq<Rule>, p: Packet, f: Fate, depth: nat)
    requires !f.Done() && forall r | r in rs :: r.target.SetMark? && r == Anything(r.target)
    ensures Walk(t, rs, p, f, depth) == f.(bits := f.bits + Bits(rs))
    decreases |rs|
  {
    if rs == [] {
      assert f.bits + Bits(rs) == f.bits;
    } else {
      var r := rs[0];
      assert Matches(r, p);
      WalkMarks(t, rs[1..], p, f.(bits := f.bits + {r.target.bit}), depth);
      assert rs == [r] + rs[1..];
      assert Bits(rs) == {r.target.bit} + Bits(rs[1..]);
      assert f.bits + {r.target.bit} + Bits(rs[1..]) == f.bits + Bits(rs);
    }
  }

  /** What a verdict makes of a packet. */
  function Outcome(f: Fate, v: Verdict, bits: set<nat>): Fate {
    Fate(if v.marked then f.bits + bits else f.bits, if v.Redirected? then To(v.addr, v.port) else f.to, f.masqueraded)
  }

  /** The rules of a container's chain mark and redirect. */
  predicate Forwards(rs: seq<Rule>, setMark: string) {
    forall r | r in rs :: Jumps(r, setMark) || r.target.Dnat?
  }

  lemma WalkOne(t: Tables, r: Rule, setMark: string, p: Packet, f: Fate, depth: nat)
    requires !f.Done() && (Jumps(r, setMark) || r.target.Dnat?) && OnlySetsMarks(t, setMark) && depth > 0
    ensures Meet(t, r, p, f, depth) == Outcome(f, EvalRule(r, setMark, p), Bits(PortChain.RulesOf(t, setMark)))
  {
    WalkMarks(t, PortChain.RulesOf(t, setMark), p, f, depth - 1);
    hide Matches, Bits;
  }

  lemma OutcomeThen(f: Fate, v: Verdict, w: Verdict, bits: set<nat>)
    requires !v.Redirected?
    ensures Outcome(Outcome(f, v, bits), w, bits) == Outcome(f, Then(v, w), bits)
  {
    assert f.bits + bits + bits == f.bits + bits;
  }

  lemma EvalFirst(rs: seq<Rule>, setMark: string, p: Packet)
    requires rs != []
    ensures Eval(rs, setMark, p) == Then(EvalRule(rs[0], setMark, p), Eval(rs[1..], setMark, p))
  {
    assert rs == [rs[0]] + rs[1..];
    EvalConcat([rs[0]], rs[1..], setMark, p);
    assert [rs[0]][..0] == [] && Eval([], setMark, p) == Passed(false);
    assert Eval([rs[0]], setMark, p) == Then(Passed(false), EvalRule(rs[0], setMark, p));
  }

  lemma {:induction false} WalkIsEval(t: Tables, rs: seq<Rule>, setMark: string, p: Packet, f: Fate, depth: nat)
    requires !f.Done() && Forwards(rs, setMark) && OnlySetsMarks(t, setMark) && depth > 0
    ensures Walk(t, rs, p, f, depth) == Outcome(f, Eval(rs, setMark, p), Bits(PortChain.RulesOf(t, setMark)))
    decreases |rs|
  {
    var bits := Bits(PortChain.RulesOf(t, setMark));
    hide Bits, Meet, OnlySetsMarks, EvalRule;
    if rs != [] {
      var v := EvalRule(rs[0], setMark, p);
      WalkOne(t, rs[0], setMark, p, f, depth);
      EvalFirst(rs, setMark, p);
      var g := Outcome(f, v, bits);
      if v.Redirected? {
        Stopped(t, rs[1..], p, g, depth);
      } else {
        assert !g.Done();
        WalkIsEval(t, rs[1..], setMark, p, g, depth);
        OutcomeThen(f, v, Eval(rs[1..], setMark, p), bits);
      }
    }
  }

  // ---------------------------------------------------------------- the way to it

  /** Among the entries of all containers only those to this one are for the packet. */
  predicate Alone(top: seq<Rule>, name: string, p: Packet) {
    forall r | r in top && Matches(r, p) :: Jumps(r, name)
  }

  lemma {:induction false} WalkTop(t: Tables, top: seq<Rule>, name: string, setMark: string, p: Packet, f: Fate,
                                   depth: nat)
    requires !f.Done() && Alone(top, name, p) && depth > 1
    requires Forwards(PortChain.RulesOf(t, name), setMark) && OnlySetsMarks(t, setMark)
    ensures var v := if exists r | r in top :: Matches(r, p)
                     then Eval(PortChain.RulesOf(t, name), setMark, p) else Passed(false);
            Walk(t, top, p, f, depth) == Outcome(f, v, Bits(PortChain.RulesOf(t, setMark)))
    decreases |top|
  {
    var v, bits := Eval(PortChain.RulesOf(t, name), setMark, p), Bits(PortChain.RulesOf(t, setMark));
    hide Bits, Matches, Eval, OnlySetsMarks, Forwards;
    if top != [] {
      assert top == [top[0]] + top[1..];
      if Matches(top[0], p) {
        WalkIsEval(t, PortChain.RulesOf(t, name), setMark, p, f, depth - 1);
        var g := Outcome(f, v, bits);
        assert Meet(t, top[0], p, f, depth) == g;
        if v.Redirected? {
          Stopped(t, top[1..], p, g, depth);
        } else {
          WalkTop(t, top[1..], name, setMark, p, g, depth);
          OutcomeThen(f, v, v, bits);
          OutcomeThen(f, v, Passed(false), bits);
        }
      } else {
        WalkTop(t, top[1..], name, setMark, p, f, depth);
      }
    }
  }

  /** A jump to the top level takes exactly the packets for local addresses. */
  lemma EntryTakes(p: Packet)
    ensures Matches(TOP_ENTRY, p) <==> "dst-type LOCAL" in p.conditions
  {
    assert TOP_ENTRY.conditions[0] == "dst-type LOCAL";
  }

  lemma {:induction false} OrderedForwards(os: seq<Order>, setMark: string)
    requires MarkedBy(os, setMark)
    ensures Forwards(OrderedRules(os), setMark)
  {
    if os != [] {
      OrderedForwards(os[..|os| - 1], setMark);
      var o := os[|os| - 1];
      ListForwards(o.cfg.mappings, o.cfg, o.pod);
    }
  }

  lemma {:induction false} ListForwards(ms: seq<Mapping>, cfg: Config, pod: Container)
    ensures Forwards(ChainRules(ms, cfg, pod), cfg.MarkChain())
  {
    if ms != [] { ListForwards(ms[..|ms| - 1], cfg, pod); }
  }

  /** FROM OUTSIDE TO THE CONTAINER. Where the orders of this name are in force, a packet for a local address that no
      rule of the entry chain before the jump redirects is redirected as they mean it, and with their mark on it; any
      other packet passes the jump as it was. `chain` is PREROUTING for packets that come in, OUTPUT for the node's. */
  lemma PortIsForwarded(t: Tables, chain: string, name: string, os: seq<Order>, setMark: string, p: Packet, depth: nat)
      returns (k: nat)
    requires chain in {"PREROUTING", "OUTPUT"} && TOP_ENTRY in PortChain.RulesOf(t, chain) && depth > 2
    requires LeftBy(t, name, os) && MarkedBy(os, setMark) && OnlySetsMarks(t, setMark)
    requires Alone(PortChain.RulesOf(t, "CNI-HOSTPORT-DNAT"), name, p)
    ensures k < |PortChain.RulesOf(t, chain)|
    ensures var rs := PortChain.RulesOf(t, chain);
            var f, bits := Walk(t, rs[..k], p, UNTOUCHED, depth), Bits(PortChain.RulesOf(t, setMark));
            var g := if "dst-type LOCAL" in p.conditions && !f.Done() then Outcome(f, Meaning(os, p), bits) else f;
            Walk(t, rs, p, UNTOUCHED, depth) == Walk(t, rs[k + 1..], p, g, depth)
  {
    var rs, top := PortChain.RulesOf(t, chain), PortChain.RulesOf(t, TOP_LEVEL);
    EntryTakes(p);
    PortMapMeansExpected(t, name, os, setMark, p);
    VerdictIs(t, name, setMark, p);
    OrderedForwards(os, setMark);
    AllAdded([], false, OrderedRules(os));
    hide Matches, Eval, EvalTop, Bits, OnlySetsMarks, Walk, Meaning, OrderedRules, AddEach, MarkedBy, OrderedFor;
    k :| 0 <= k < |rs| && rs[k] == TOP_ENTRY;
    assert rs == rs[..k] + ([TOP_ENTRY] + rs[k + 1..]);
    var f := Walk(t, rs[..k], p, UNTOUCHED, depth);
    WalkConcat(t, rs[..k], [TOP_ENTRY] + rs[k + 1..], p, UNTOUCHED, depth);
    WalkConcat(t, [TOP_ENTRY], rs[k + 1..], p, f, depth);
    if f.Done() {
      Stopped(t, [TOP_ENTRY], p, f, depth);
    } else {
      WalkSingle(t, TOP_ENTRY, p, f, depth);
      WalkTop(t, top, name, setMark, p, f, depth - 1);
    }
  }

  lemma WalkSingle(t: Tables, r: Rule, p: Packet, f: Fate, depth: nat)
    requires !f.Done()
    ensures Walk(t, [r], p, f, depth) == Meet(t, r, p, f, depth)
  {
    assert [r][1..] == [];
    hide Matches, Meet;
    var g := Meet(t, r, p, f, depth);
    assert Walk(t, [], p, g, depth) == g;
  }

  // ---------------------------------------------------------------- masquerading

  /** Where port maps were only made with this bit, marking sets exactly the bit, and a packet is masqueraded by the
      first rule of POSTROUTING exactly when it carries the bit. On the first setup that rule is a new one. */
  lemma MarkedIsMasqueraded(t0: Tables, t: Tables, bit: nat, p: Packet, f: Fate, depth: nat)
    requires Masquerades(t0, t, bit) && !f.Done() && depth > 0
    requires forall r | r in PortChain.RulesOf(t0, "CNI-HOSTPORT-SETMARK") :: r == Anything(SetMark(bit))
    requires forall r | r in PortChain.RulesOf(t0, "CNI-HOSTPORT-MASQ") :: r == Anything(Masquerade(bit))
    requires var entry, before := Anything(Jump("CNI-HOSTPORT-MASQ")), PortChain.RulesOf(t0, "POSTROUTING");
             entry in before ==> entry == before[0]
    ensures OnlySetsMarks(t, "CNI-HOSTPORT-SETMARK") && Bits(PortChain.RulesOf(t, "CNI-HOSTPORT-SETMARK")) == {bit}
    ensures var post := PortChain.RulesOf(t, "POSTROUTING");
            && post != []
            && Walk(t, post, p, f, depth) ==
               if bit in f.bits then f.(masqueraded := true) else Walk(t, post[1..], p, f, depth)
  {
    var mark, masq := PortChain.RulesOf(t, MARK_CHAIN), PortChain.RulesOf(t, MASQ_CHAIN);
    var entry, post := Anything(Jump(MASQ_CHAIN)), PortChain.RulesOf(t, "POSTROUTING");
    assert Anything(SetMark(bit)) in mark && forall q | q in mark :: q == Anything(SetMark(bit));
    assert Bits(mark) == {bit};
    assert post[0] == entry && Matches(entry, p);
    WalkMasquerade(t, masq, bit, p, f, depth - 1);
    var g := Meet(t, entry, p, f, depth);
    if bit in f.bits { Stopped(t, post[1..], p, g, depth); } else { assert g == f; }
    hide Matches, Bits;
  }

  lemma {:induction false} WalkMasquerade(t: Tables, rs: seq<Rule>, bit: nat, p: Packet, f: Fate, depth: nat)
    requires !f.Done() && forall q | q in rs :: q == Anything(Masquerade(bit))
    ensures Walk(t, rs, p, f, depth) == f.(masqueraded := rs != [] && bit in f.bits)
    decreases |rs|
  {
    if rs != [] {
      assert rs[0] in rs && Matches(Anything(Masquerade(bit)), p);
      assert forall q | q in rs[1..] :: q in rs;
      var g := Meet(t, rs[0], p, f, depth);
      if bit in f.bits { Stopped(t, rs[1..], p, g, depth); } else { WalkMasquerade(t, rs[1..], bit, p, f, depth); }
    }
  }
}
