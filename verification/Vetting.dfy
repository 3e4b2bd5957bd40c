/** Conflict-check coverage: who may skip the RFC 5227 probe. */
module Vetting {
  import opened PodNetworks
  import opened Protocol
  import opened Exclusivity
  import opened AllocatorRuns
  import opened Footprints

  /** The address went through the cooldown set of `node` since it last arrived on a node. */
  predicate Cooled(s: State, ip: string, node: string) {
    ip in s.cooledOn && s.cooledOn[ip] == node
  }

  /** The flag Recycled means that the address cooled on the node that trusts it: nobody has it who did not earn it, and
      nobody loses it who did. A released address gets it on its way into the cooldown set. */
  predicate Vouched(s: State, p: Place)
    requires p in s.held
  {
    var pn := s.held[p].pn;
    match p
    case Pool(node, _, _) => pn.recycled <==> Cooled(s, pn.vpcIp, node)
    case Cooling(_, _) => pn.recycled
    case Hand(t) =>
      t in s.threads && !PhaseOf(s, t).Dropping? ==>
        if PhaseOf(s, t).Retiring? then pn.recycled else pn.recycled <==> Cooled(s, pn.vpcIp, s.threads[t].node)
    case _ => true
  }

  predicate ThreadVouched(s: State, t: nat)
    requires t in s.threads
  {
    match PhaseOf(s, t)
    case Ready(_, checked) => Hand(t) in s.held && (checked <==> !InHand(s, t).recycled)
    case Attaching(_, _, pn, checked, ready) =>
      (pn.recycled ==> Cooled(s, pn.vpcIp, s.threads[t].node)) && (checked <==> ready && !pn.recycled)
    case _ => true
  }

  ghost predicate AllVouched(s: State) {
    && (forall p | p in s.held :: Vouched(s, p))
    && (forall t | t in s.threads :: ThreadVouched(s, t))
  }

  /** The address whose arrival or thawing an event records. */
  function Noted(s: State, e: Event): set<string>
    requires Enabled(s, e)
  {
    match e
    case Allocate(_, _, _, _, pn) => {pn.vpcIp}
    case Reply(t, _, _, _) => {InHand(s, t).vpcIp}
    case Thaw(_, node, key) => {s.held[Cooling(node, key)].pn.vpcIp}
    case _ => {}
  }

  lemma NotedIsInFootprint(s: State, e: Event, p: Place)
    requires Inv(s) && Enabled(s, e) && p in s.held && s.held[p].pn.vpcIp in Noted(s, e)
    ensures p in Footprint(s, e) && !p.Claim?
  {
  }

  lemma CooledNext(s: State, e: Event, ip: string, node: string)
    requires Enabled(s, e) && ip !in Noted(s, e)
    ensures Cooled(Next(s, e), ip, node) == Cooled(s, ip, node)
  {
    if OfClaim(e) { ClaimCools(s, e); }
    else if OfHandOut(e) { HandOutCools(s, e, ip); }
    hide Enabled;
  }

  lemma ClaimCools(s: State, e: Event)
    requires OfClaim(e) && Enabled(s, e)
    ensures Next(s, e).cooledOn == s.cooledOn
  {
    hide NextOfHandOut, NextOfMove, WellFormed;
  }

  lemma HandOutCools(s: State, e: Event, ip: string)
    requires OfHandOut(e) && Enabled(s, e) && ip !in Noted(s, e)
    ensures ip in Next(s, e).cooledOn <==> ip in s.cooledOn
    ensures ip in s.cooledOn ==> Next(s, e).cooledOn[ip] == s.cooledOn[ip]
  {
    hide NextOfClaim, NextOfMove, WellFormed;
  }

  lemma PlaceStaysVouched(s: State, e: Event, p: Place)
    requires Inv(s) && AllVouched(s) && Enabled(s, e) && p in Next(s, e).held && p !in Footprint(s, e)
    requires p.Hand? ==> !Acts(e, p.thread)
    ensures Vouched(Next(s, e), p)
  {
    Frame(s, e, p);
    assert Vouched(s, p);
    if s.held[p].pn.vpcIp in Noted(s, e) { NotedIsInFootprint(s, e, p); }
    else {
      CooledNext(s, e, s.held[p].pn.vpcIp, if p.Pool? then p.node else if p.Hand? && p.thread in s.threads
                    then s.threads[p.thread].node else "");
    }
    if p.Hand? { ThreadFrame(s, e, p.thread); }
    hide Inv, Next, Enabled;
  }

  // ---------------------------------------------------------------- the acting goroutine

  /** `t` and its hand, when it has one, are vouched for. */
  predicate HandVouched(s: State, t: nat) {
    && (Hand(t) in s.held ==> Vouched(s, Hand(t)))
    && (t in s.threads ==> ThreadVouched(s, t))
  }

  /** The events that put the address in hand into a pool or into the cooldown set. */
  predicate PutsDown(e: Event) {
    e.PutBack? || e.PushBack? || e.Retire?
  }

  lemma PopVouched(s: State, t: nat)
    requires Enabled(s, PopDelete(t)) && PopCurrent(s, PopDelete(t)) && Vouched(s, PopPlace(s, t))
    ensures HandVouched(Next(s, PopDelete(t)), t)
  {
  }

  lemma HandOutVouched(s: State, e: Event)
    requires OfHandOut(e) && !e.PopDelete? && !e.Reply? && Enabled(s, e)
    requires HandVouched(s, e.t) && (e.t !in s.threads ==> Hand(e.t) !in s.held)
    requires e.PopFail? ==> Hand(e.t) !in s.held
    ensures HandVouched(Next(s, e), e.t)
  {
  }

  lemma ReplyVouched(s: State, e: Event)
    requires e.Reply? && Enabled(s, e)
    ensures HandVouched(Next(s, e), e.t) && HandVouched(Next(s, e), e.borrower)
  {
  }

  lemma MoveVouched(s: State, e: Event)
    requires !OfClaim(e) && !OfHandOut(e) && Enabled(s, e)
    requires !Threadless(e) && (e.Thaw? ==> Vouched(s, Cooling(e.node, e.key)))
    requires HandVouched(s, e.t) && (e.t !in s.threads ==> Hand(e.t) !in s.held)
    ensures HandVouched(Next(s, e), e.t)
    ensures PutsDown(e) && e.ok ==> Target(s, e.t) in Next(s, e).held && Vouched(Next(s, e), Target(s, e.t))
  {
  }

  lemma ClaimVouched(s: State, e: Event)
    requires OfClaim(e) && Enabled(s, e) && Faithful(e)
    requires HandVouched(s, e.t) && (e.t !in s.threads ==> Hand(e.t) !in s.held)
    requires !e.CreateClaim? ==> Hand(e.t) !in s.held
    ensures HandVouched(Next(s, e), e.t)
  {
  }

  lemma HandOf(s: State, t: nat)
    requires Inv(s) && AllVouched(s)
    ensures HandVouched(s, t)
    ensures if t in s.threads then ThreadOk(s, t) else Hand(t) !in s.held
  {
  }

  lemma ActingVouched(s: State, e: Event)
    requires Enabled(s, e) && Faithful(e) && !Threadless(e)
    requires HandVouched(s, e.t)
    requires if e.t in s.threads then ThreadOk(s, e.t) else Hand(e.t) !in s.held
    requires e.PopDelete? ==> PopCurrent(s, e) && Vouched(s, PopPlace(s, e.t))
    requires e.Thaw? ==> Vouched(s, Cooling(e.node, e.key))
    ensures HandVouched(Next(s, e), e.t) && (e.Reply? ==> HandVouched(Next(s, e), e.borrower))
  {
    hide Next, HandVouched, Vouched;
    if e.PopDelete? { PopVouched(s, e.t); }
    else if e.Reply? { ReplyVouched(s, e); }
    else if OfHandOut(e) { HandOutVouched(s, e); }
    else if OfClaim(e) { ClaimVouched(s, e); }
    else { MoveVouched(s, e); }
  }

  lemma HandOutMakesNoPool(s: State, e: Event, p: Place)
    requires OfHandOut(e) && Enabled(s, e) && p in Footprint(s, e) && !p.Hand?
    ensures p !in Next(s, e).held
  {
  }

  lemma ClaimMakesNoPool(s: State, e: Event, p: Place)
    requires OfClaim(e) && Enabled(s, e) && p in Footprint(s, e) && !p.Hand?
    ensures p.Claim?
  {
  }

  lemma MoveMakesPool(s: State, e: Event, p: Place)
    requires !OfClaim(e) && !OfHandOut(e) && Enabled(s, e) && p in Footprint(s, e) && p in Next(s, e).held
    requires p.Pool? || p.Cooling?
    ensures if PutsDown(e) then e.ok && p == Target(s, e.t) else p.Cooling? && Vouched(Next(s, e), p)
  {
  }

  lemma FootprintVouched(s: State, e: Event, p: Place)
    requires Enabled(s, e) && p in Footprint(s, e) && !p.Hand? && p in Next(s, e).held
    requires PutsDown(e) ==> HandVouched(s, e.t) && e.t in s.threads
    ensures Vouched(Next(s, e), p)
  {
    if OfClaim(e) { ClaimMakesNoPool(s, e, p); }
    else if OfHandOut(e) { HandOutMakesNoPool(s, e, p); }
    else if p.Pool? || p.Cooling? {
      MoveMakesPool(s, e, p);
      if PutsDown(e) { MoveVouched(s, e); }
    }
    hide Next, Enabled;
  }

  lemma HandNotTouched(s: State, e: Event, t: nat)
    requires Enabled(s, e) && !Acts(e, t)
    ensures Hand(t) !in Footprint(s, e)
  {
  }

  lemma AttachingStaysVouched(s: State, e: Event, t: nat)
    requires Inv(s) && Enabled(s, e) && !Acts(e, t) && t in s.threads && PhaseOf(s, t).Attaching?
    requires ThreadOk(s, t) && ThreadVouched(s, t)
    requires t in Next(s, e).threads && Next(s, e).threads[t] == s.threads[t]
    ensures ThreadVouched(Next(s, e), t)
  {
    hide Inv, Enabled, Next;
    var Attaching(ns, name, pn, _, _) := PhaseOf(s, t);
    if pn.vpcIp in Noted(s, e) { NotedIsInFootprint(s, e, Claim(ns, name)); }
    CooledNext(s, e, pn.vpcIp, s.threads[t].node);
  }

  lemma ThreadStaysVouched(s: State, e: Event, t: nat)
    requires Inv(s) && AllVouched(s) && Enabled(s, e) && t in Next(s, e).threads && !Acts(e, t)
    ensures ThreadVouched(Next(s, e), t)
  {
    hide Inv, AllVouched, Enabled, Next;
    ThreadFrame(s, e, t);
    HandOf(s, t);
    if PhaseOf(s, t).Attaching? { AttachingStaysVouched(s, e, t); }
    else if PhaseOf(s, t).Ready? {
      HandNotTouched(s, e, t);
      Frame(s, e, Hand(t));
    }
  }

  lemma PoppedVouched(s: State, t: nat)
    requires AllVouched(s) && Enabled(s, PopDelete(t)) && PopCurrent(s, PopDelete(t))
    ensures t in s.threads && PhaseOf(s, t).Popping? && PopPlace(s, t) in s.held && Vouched(s, PopPlace(s, t))
  {
  }

  lemma ThawedVouched(s: State, e: Event)
    requires AllVouched(s) && Enabled(s, e) && e.Thaw?
    ensures Cooling(e.node, e.key) in s.held && Vouched(s, Cooling(e.node, e.key))
  {
  }

  lemma ActorExists(s: State, e: Event)
    requires Enabled(s, e) && PutsDown(e)
    ensures e.t in s.threads
  {
  }

  lemma ActorVouched(s: State, e: Event)
    requires Inv(s) && AllVouched(s) && Enabled(s, e) && Faithful(e) && PopCurrent(s, e)
    requires !Threadless(e)
    ensures HandVouched(s, e.t)
    ensures HandVouched(Next(s, e), e.t) && (e.Reply? ==> HandVouched(Next(s, e), e.borrower))
  {
    hide Inv, AllVouched, Enabled, Next, HandVouched, ThreadOk;
    HandOf(s, e.t);
    if e.PopDelete? { PoppedVouched(s, e.t); }
    if e.Thaw? { ThawedVouched(s, e); }
    ActingVouched(s, e);
  }

  lemma {:induction false} StepKeepsVouched(s: State, e: Event)
    requires Inv(s) && AllVouched(s) && Enabled(s, e) && Faithful(e) && PopCurrent(s, e)
    ensures AllVouched(Next(s, e))
  {
    hide Inv, Enabled, Next, Vouched, ThreadVouched;
    var s' := Next(s, e);
    if !Threadless(e) { ActorVouched(s, e); }
    if PutsDown(e) { ActorExists(s, e); }
    forall p | p in s'.held ensures Vouched(s', p) {
      if p.Hand? && Acts(e, p.thread) {
      } else if p in Footprint(s, e) {
        if p.Hand? { HandNotTouched(s, e, p.thread); }
        FootprintVouched(s, e, p);
      } else { PlaceStaysVouched(s, e, p); }
    }
    forall t | t in s'.threads ensures ThreadVouched(s', t) {
      if !Acts(e, t) { ThreadStaysVouched(s, e, t); }
    }
  }

  lemma {:induction false} RunKeepsVouched(init: State, run: seq<Event>)
    requires Inv(init) && AllVouched(init) && IsRun(init, run) && Disciplined(init, run)
    ensures AllVouched(After(init, run))
  {
    if |run| > 0 {
      var past := run[..|run| - 1];
      RunKeepsVouched(init, past);
      RunKeepsInv(init, past);
      StepKeepsVouched(After(init, past), run[|run| - 1]);
    }
  }

  /** CONFLICT-CHECK COVERAGE. An address that getPodIp returns passed the conflict check in this very hand-out exactly
      when it did not go through the cooldown of this node since it last arrived by allocation or borrowing: nobody gets
      an unchecked one, and the check is spared exactly where this node's cooldown vouches for the address. For a static
      pod it is checked exactly unless its record is recycled, which is earned in the same way. */
  lemma EveryHandOutIsVouched(init: State, run: seq<Event>, s: State, t: nat)
    requires Reaches(init, run, s) && t in s.threads
    ensures match PhaseOf(s, t)
            case Ready(_, checked) =>
              Hand(t) in s.held && (checked <==> !Cooled(s, InHand(s, t).vpcIp, s.threads[t].node))
            case Attaching(_, _, pn, checked, ready) =>
              && (checked <==> ready && !pn.recycled)
              && (pn.recycled ==> Cooled(s, pn.vpcIp, s.threads[t].node))
            case _ => true
  {
    RunKeepsInv(init, run);
    RunKeepsVouched(init, run);
    assert ThreadOk(s, t) && ThreadVouched(s, t);
    if Hand(t) in s.held { assert Vouched(s, Hand(t)); }
  }
}
