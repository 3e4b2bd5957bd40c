/** What each event does to the databases of the node it happens on, and to the goroutine it happens to. */
module NodeSteps {
  import opened PodNetworks
  import opened Protocol
  import opened Exclusivity
  import opened AllocatorRuns
  import opened Footprints
  import opened Coupling

  /** Goroutine `t` of `node` has `pn` in hand and is in the given phase. */
  predicate Has(s: State, t: nat, node: string, pn: PodNetwork, phase: Phase) {
    t in s.threads && s.threads[t] == Thread(node, phase) && Hand(t) in s.held && s.held[Hand(t)].pn == pn
  }

  predicate Done(s: State, t: nat) {
    t !in s.threads
  }

  /** Goroutine `t` of `node` works on a claim; the address stays at the claim. */
  predicate Works(s: State, t: nat, node: string, phase: Phase) {
    t in s.threads && s.threads[t] == Thread(node, phase)
  }

  // ---------------------------------------------------------------- where an event happens

  /** An event of this node: of one of its goroutines, or about one of its pods. */
  predicate AtNode(s: State, e: Event, node: string) {
    match e
    case PopRead(_, n, _, _, _) => n == node
    case Allocate(_, n, _, _, _) => n == node
    case Reply(_, _, n, _) => n == node
    case Release(_, n, _) => n == node
    case ReleaseSkipped(n, _) => n == node
    case ReleaseAgain(n, _, _, _) => n == node
    case Thaw(_, n, _) => n == node
    case Attach(_, n, _, _) => n == node
    case ReleaseStatic(_, n, _, _, _) => n == node
    case AssignDirect(n, _) => n == node
    case ReleaseDirect(n, _, _) => n == node
    case UnleaseClaim(_, _, _) => true
    case ReleaseStray(n, _, _, _, _) => n == node
    case Tick(_) => true
    case _ => e.t in s.threads && s.threads[e.t].node == node
  }

  /** It touches no database of another node. */
  predicate OnlyAt(s: State, e: Event, node: string)
    requires Enabled(s, e)
  {
    forall p | p in Footprint(s, e) && (p.Pool? || p.Cooling?) :: p.node == node
  }

  lemma AtNodeIsLocal(s: State, e: Event, node: string)
    requires Enabled(s, e) && AtNode(s, e, node)
    ensures OnlyAt(s, e, node)
  {
    hide ReservedKey, WellFormed, Find;
  }

  /** A disciplined event that touches no database of these nodes, but for `node`. */
  predicate Proper(s: State, e: Event, node: string, servers: set<string>, honest: bool)
    requires Enabled(s, e)
  {
    && PopCurrent(s, e) && (honest ==> Faithful(e))
    && forall p | p in Footprint(s, e) && (p.Pool? || p.Cooling?) :: p.node == node || p.node !in servers
  }

  /** From its event `from` on the run is proper. */
  ghost predicate Properly(init: State, run: seq<Event>, from: nat, node: string, servers: set<string>, honest: bool)
    requires IsRun(init, run)
  {
    |run| <= from || (Properly(init, run[..|run| - 1], from, node, servers, honest)
                      && Proper(After(init, run[..|run| - 1]), run[|run| - 1], node, servers, honest))
  }

  lemma {:induction false} ProperlyOn(init: State, mid: seq<Event>, run: seq<Event>, from: nat, node: string,
                                      servers: set<string>, honest: bool)
    requires IsRun(init, mid) && IsRun(init, run) && from <= |mid| && mid <= run
    requires Properly(init, mid, from, node, servers, honest) && Properly(init, run, |mid|, node, servers, honest)
    ensures Properly(init, run, from, node, servers, honest)
  {
    if |mid| < |run| {
      ProperlyOn(init, mid, run[..|run| - 1], from, node, servers, honest);
    } else {
      assert run == mid;
    }
  }

  /** A disciplined run goes on disciplined. */
  lemma {:induction false} ProperlyIsDisciplined(init: State, run: seq<Event>, from: nat, node: string,
      servers: set<string>)
    requires IsRun(init, run) && from <= |run| && IsRun(init, run[..from]) && Disciplined(init, run[..from])
    requires Properly(init, run, from, node, servers, true)
    ensures Disciplined(init, run)
  {
    if from < |run| {
      var past := run[..|run| - 1];
      assert past[..from] == run[..from];
      ProperlyIsDisciplined(init, past, from, node, servers);
    } else {
      assert run[..from] == run;
    }
  }

  /** The databases of a server stay what they are while another node's server acts. */
  lemma {:induction false} ProperlyKeepsCoupled(init: State, run: seq<Event>, from: nat, node: string,
      servers: set<string>, honest: bool, own: string, pools: Pools, cooling: CooldownSet)
    requires IsRun(init, run) && from <= |run| && IsRun(init, run[..from])
    requires Coupled(own, pools, cooling, After(init, run[..from]))
    requires Properly(init, run, from, node, servers, honest) && own in servers && own != node
    ensures Coupled(own, pools, cooling, After(init, run))
  {
    if from < |run| {
      var past := run[..|run| - 1];
      assert past[..from] == run[..from];
      ProperlyKeepsCoupled(init, past, from, node, servers, honest, own, pools, cooling);
      ElsewhereCoupled(own, pools, cooling, After(init, past), run[|run| - 1]);
    } else {
      assert run[..from] == run;
    }
  }

  /** The steps lead on properly. */
  ghost predicate ProperPath(s: State, steps: seq<Event>, s': State, node: string, servers: set<string>, honest: bool)
    decreases |steps|
  {
    if steps == [] then s == s'
    else Enabled(s, steps[0]) && Proper(s, steps[0], node, servers, honest)
         && ProperPath(Next(s, steps[0]), steps[1..], s', node, servers, honest)
  }

  /** A statement of goroutine `t` of this node, or a single step for one of its pods; it pops nothing. */
  predicate Belongs(e: Event, t: nat, node: string) {
    match e
    case PopDelete(_) => false
    case Reply(_, _, _, _) => false
    case Release(u, n, _) => u == t && n == node
    case ReleaseStatic(u, n, _, _, _) => u == t && n == node
    case Retire(u, _) => u == t
    case Drop(u, _) => u == t
    case ReleaseSkipped(n, _) => n == node
    case ReleaseAgain(n, _, _, _) => n == node
    case AssignDirect(n, _) => n == node
    case ReleaseDirect(n, _, _) => n == node
    case UnleaseClaim(_, _, _) => true
    case ReleaseStray(n, _, _, _, _) => n == node
    case _ => false
  }

  lemma BelongsAtNode(s: State, e: Event, t: nat, node: string)
    requires Enabled(s, e) && Belongs(e, t, node) && (t in s.threads ==> s.threads[t].node == node)
    ensures AtNode(s, e, node) && PopCurrent(s, e)
    ensures t in Next(s, e).threads ==> Next(s, e).threads[t].node == node
  {
    hide NextOfHandOut, MayHandOut, ReservedKey, WellFormed, Find;
  }

  /** A path of such steps is proper. */
  lemma {:induction false} PathIsProper(s: State, steps: seq<Event>, s': State, t: nat, node: string,
      servers: set<string>, honest: bool)
    requires Path(s, steps, s') && (t in s.threads ==> s.threads[t].node == node)
    requires forall e | e in steps :: Belongs(e, t, node) && (honest ==> Faithful(e))
    ensures ProperPath(s, steps, s', node, servers, honest)
    decreases |steps|
  {
    hide Enabled, Next, Belongs, AtNode, PopCurrent, Faithful;
    if steps != [] {
      BelongsAtNode(s, steps[0], t, node);
      AtNodeIsLocal(s, steps[0], node);
      PathIsProper(Next(s, steps[0]), steps[1..], s', t, node, servers, honest);
    }
  }

  // ---------------------------------------------------------------- the two transactions of a pop

  lemma PopStep(node: string, pools: Pools, cooling: CooldownSet, s: State, t: nat, subnet: string,
                key: string, job: Job)
    requires Coupled(node, pools, cooling, s) && t !in s.threads && InPool(pools, subnet, key)
    requires !job.Trim? ==> job.want == subnet
    ensures var e := PopRead(t, node, subnet, key, job);
            && Enabled(s, e) && Enabled(Next(s, e), PopDelete(t)) && Enabled(Next(s, e), PopFail(t))
            && OnlyAt(s, e, node) && OnlyAt(Next(s, e), PopDelete(t), node)
            && PopCurrent(s, e) && PopCurrent(Next(s, e), PopDelete(t))
            && SameClaims(s, Next(Next(s, e), PopDelete(t)))
            && var s1, s2 := Next(Next(s, e), PopFail(t)), Next(Next(s, e), PopDelete(t));
               && Done(s1, t) && Coupled(node, pools, cooling, s1)
               && Has(s2, t, node, pools[PoolName(subnet)][key], Fetched(job))
               && Coupled(node, pools[PoolName(subnet) := pools[PoolName(subnet)] - {key}], cooling, s2)
  {
    var e := PopRead(t, node, subnet, key, job);
    assert Pool(node, subnet, key) in s.held;
    assert PopCurrent(s, e);
    hide Enabled, Next, Footprint, AtNode, PopCurrent;
    PopEffect(s, t, node, subnet, key, job);
    AtNodeIsLocal(s, e, node);
    AtNodeIsLocal(Next(s, e), PopDelete(t), node);
    HandOutKeepsClaims(s, e);
    HandOutKeepsClaims(Next(s, e), PopDelete(t));
    ElsewhereCoupled(node, pools, cooling, s, e);
    var s1 := Next(s, e);
    ElsewhereCoupled(node, pools, cooling, s1, PopFail(t));
    RestOfNode(s1, PopDelete(t), node, Pool(node, subnet, key));
    PoolCoupled(node, pools, cooling, s1, Next(s1, PopDelete(t)), subnet, key, pools[PoolName(subnet)] - {key});
  }

  lemma PopEffect(s: State, t: nat, node: string, subnet: string, key: string, job: Job)
    requires t !in s.threads && Pool(node, subnet, key) in s.held && (!job.Trim? ==> job.want == subnet)
    ensures var e := PopRead(t, node, subnet, key, job);
            && Enabled(s, e) && Footprint(s, e) == {Hand(t)}
            && var s1 := Next(s, e);
               && Enabled(s1, PopDelete(t)) && Enabled(s1, PopFail(t)) && Footprint(s1, PopFail(t)) == {Hand(t)}
               && Footprint(s1, PopDelete(t)) == {Hand(t), Pool(node, subnet, key)} && PopCurrent(s1, PopDelete(t))
               && AtNode(s, e, node) && AtNode(s1, PopDelete(t), node)
               && Done(Next(s1, PopFail(t)), t)
               && Has(Next(s1, PopDelete(t)), t, node, s.held[Pool(node, subnet, key)].pn, Fetched(job))
               && Pool(node, subnet, key) !in Next(s1, PopDelete(t)).held
  {
  }

  /** An event inside a goroutine's hand leaves the databases of every node alone. */
  lemma QuietStep(node: string, pools: Pools, cooling: CooldownSet, s: State, t: nat, e: Event)
    requires Coupled(node, pools, cooling, s) && Enabled(s, e) && Footprint(s, e) <= {Hand(t)}
    ensures Coupled(node, pools, cooling, Next(s, e))
  {
    hide Enabled, Next, Coupled;
    ElsewhereCoupled(node, pools, cooling, s, e);
  }

  // ---------------------------------------------------------------- an address in hand

  /** What an event leaves in the hand of its goroutine, and the phase it goes to. */
  datatype Grip = Keeps(pn: PodNetwork, phase: Phase) | LetsGo

  /** The events that change nothing but the goroutine's hand, and the phase each belongs to. */
  predicate InHandEvent(e: Event, pn: PodNetwork, phase: Phase) {
    match e
    case See(_, _) => phase.Fetched? && phase.job.Add? && !phase.job.fixed
    case Vet(_, _) => phase.Seen? && !pn.recycled
    case SkipVet(_) => phase.Seen? && pn.recycled
    case LendMove(_, _) => phase.Fetched? && phase.job.Lend?
    case Deliver(_, ok) => phase.Ready? && !ok
    case PutBack(_, ok) => phase.Returning? && !ok
    case PushBack(_, ok) => phase.PushingBack? && !ok
    case Drop(_, _) => phase.Dropping?
    case TrimDelete(_, _) => phase.Fetched? && phase.job.Trim?
    case _ => false
  }

  function Grasp(e: Event, pn: PodNetwork, phase: Phase): Grip
    requires InHandEvent(e, pn, phase)
  {
    match e
    case See(_, sight) =>
      if sight.Present? then Keeps(pn, Seen(phase.job.want))
      else if sight.Missing? then LetsGo
      else Keeps(pn, Returning)
    case Vet(_, ok) => Keeps(pn, if ok then Ready(phase.want, true) else Dropping)
    case SkipVet(_) => Keeps(pn, Ready(phase.want, false))
    case LendMove(_, ok) =>
      if ok then Keeps(pn.(mac := phase.job.mac), Lent(phase.job.want)) else Keeps(pn, Returning)
    case PushBack(_, _) => LetsGo
    case Drop(_, _) => LetsGo
    case TrimDelete(_, outcome) => if outcome.Failed? then Keeps(pn, PushingBack) else LetsGo
    case _ => Keeps(pn, Dropping)
  }

  predicate Left(s: State, t: nat, node: string, grip: Grip) {
    match grip
    case Keeps(pn, phase) => Has(s, t, node, pn, phase)
    case LetsGo => Done(s, t)
  }

  lemma InHandEffect(s: State, t: nat, node: string, pn: PodNetwork, phase: Phase, e: Event)
    requires Has(s, t, node, pn, phase) && InHandEvent(e, pn, phase) && e.t == t
    ensures Enabled(s, e) && Footprint(s, e) <= {Hand(t)} && AtNode(s, e, node) && Faithful(e) && PopCurrent(s, e)
    ensures Left(Next(s, e), t, node, Grasp(e, pn, phase)) && Next(s, e).clock == s.clock
  {
    if OfHandOut(e) { HandOutEffect(s, t, node, pn, phase, e); } else { InHandMoveEffect(s, t, node, pn, phase, e); }
    hide Enabled, Next;
  }

  lemma HandOutEffect(s: State, t: nat, node: string, pn: PodNetwork, phase: Phase, e: Event)
    requires Has(s, t, node, pn, phase) && InHandEvent(e, pn, phase) && e.t == t && OfHandOut(e)
    ensures Enabled(s, e) && Footprint(s, e) <= {Hand(t)}
    ensures Left(Next(s, e), t, node, Grasp(e, pn, phase)) && Next(s, e).clock == s.clock
  {
    hide NextOfClaim, NextOfMove, NextOfPlugin, MayClaim, MayMove, MayPlugin;
  }

  lemma InHandMoveEffect(s: State, t: nat, node: string, pn: PodNetwork, phase: Phase, e: Event)
    requires Has(s, t, node, pn, phase) && InHandEvent(e, pn, phase) && e.t == t && !OfHandOut(e)
    ensures Enabled(s, e) && Footprint(s, e) <= {Hand(t)}
    ensures Left(Next(s, e), t, node, Grasp(e, pn, phase)) && Next(s, e).clock == s.clock
  {
    hide NextOfClaim, NextOfHandOut, NextOfPlugin, MayClaim, MayHandOut, MayPlugin;
  }

  // ---------------------------------------------------------------- writes and pick-ups

  /** A write that puts the address in hand down: to the pod, or into its pool. */
  lemma PutDownEffect(s: State, t: nat, node: string, pn: PodNetwork, phase: Phase, e: Event)
    requires Has(s, t, node, pn, phase) && (e.Deliver? || e.PutBack? || e.PushBack?) && e.t == t && e.ok
    requires if e.Deliver? then phase.Ready? else if e.PutBack? then phase.Returning? else phase.PushingBack?
    ensures var q := if e.Deliver? then Given(node, ReservedKey(pn)) else PoolOf(node, pn);
            && Enabled(s, e) && Footprint(s, e) == {Hand(t), q} && AtNode(s, e, node)
            && Done(Next(s, e), t) && Next(s, e).clock == s.clock
            && q in Next(s, e).held && Next(s, e).held[q].pn == pn
  {
    hide NextOfClaim, NextOfHandOut, NextOfPlugin, MayClaim, MayHandOut, MayPlugin;
  }

  lemma PutStep(node: string, pools: Pools, cooling: CooldownSet, s: State, t: nat, pn: PodNetwork, phase: Phase,
      e: Event)
    requires Coupled(node, pools, cooling, s) && PoolName(pn.subnetId) in pools && Has(s, t, node, pn, phase)
    requires (e == PutBack(t, true) && phase.Returning?) || (e == PushBack(t, true) && phase.PushingBack?)
    ensures Enabled(s, e) && AtNode(s, e, node) && Done(Next(s, e), t) && Next(s, e).clock == s.clock
    ensures var name := PoolName(pn.subnetId);
            Coupled(node, pools[name := pools[name][ReservedKey(pn) := pn]], cooling, Next(s, e))
  {
    PutDownEffect(s, t, node, pn, phase, e);
    hide Enabled, Next, Footprint, Has;
    RestOfNode(s, e, node, PoolOf(node, pn));
    var name := PoolName(pn.subnetId);
    PoolCoupled(node, pools, cooling, s, Next(s, e), pn.subnetId, ReservedKey(pn), pools[name][ReservedKey(pn) := pn]);
  }

  /** An event that puts an address into the hand of a new goroutine: from the VPC, or out of a lending reply. */
  lemma TakeInHandEffect(s: State, t: nat, node: string, e: Event)
    requires Enabled(s, e)
    requires (e.Allocate? && e.t == t && e.node == node) || (e.Reply? && e.borrower == t && e.node == node)
    ensures Footprint(s, e) <= if e.Allocate? then {Hand(t)} else {Hand(e.t), Hand(t)}
    ensures AtNode(s, e, node) && Next(s, e).clock == s.clock
    ensures if e.Allocate? then Has(Next(s, e), t, node, e.pn, Fetched(Add(e.want, e.fixed))) && WellFormed(e.pn)
            else e.t in s.threads && PhaseOf(s, e.t).Lent? && Hand(e.t) in s.held
                 && Has(Next(s, e), t, node, InHand(s, e.t).(recycled := false),
                        Fetched(Add(PhaseOf(s, e.t).want, e.fixed)))
  {
    hide NextOfClaim, NextOfMove, NextOfPlugin, MayClaim, MayMove, MayPlugin, ReservedKey;
  }

  lemma ReplyMay(s: State, lender: nat, from: string, t: nat, node: string, pn: PodNetwork, want: string, fixed: bool)
    requires Has(s, lender, from, pn, Lent(want)) && t !in s.threads
    ensures Enabled(s, Reply(lender, t, node, fixed))
  {
  }

  lemma ThawEffect(s: State, t: nat, node: string, key: string)
    requires t !in s.threads && Cooling(node, key) in s.held && s.clock >= s.held[Cooling(node, key)].over
    ensures var e := Thaw(t, node, key);
            && Enabled(s, e) && Footprint(s, e) == {Hand(t), Cooling(node, key)}
            && Has(Next(s, e), t, node, s.held[Cooling(node, key)].pn, Returning)
            && Cooling(node, key) !in Next(s, e).held && Next(s, e).clock == s.clock
  {
    hide NextOfClaim, NextOfHandOut, NextOfPlugin, MayClaim, MayHandOut, MayPlugin;
  }

  lemma ThawStep(node: string, pools: Pools, cooling: CooldownSet, s: State, t: nat, key: string)
    requires Coupled(node, pools, cooling, s) && t !in s.threads && key in cooling
    requires s.clock >= cooling[key].cooldownOver
    ensures Enabled(s, Thaw(t, node, key)) && Has(Next(s, Thaw(t, node, key)), t, node, cooling[key].network, Returning)
    ensures Coupled(node, pools, cooling - {key}, Next(s, Thaw(t, node, key)))
    ensures Next(s, Thaw(t, node, key)).clock == s.clock
  {
    var e := Thaw(t, node, key);
    assert Cooling(node, key) in s.held && s.held[Cooling(node, key)] ==
           Slot(cooling[key].network, cooling[key].cooldownOver);
    ThawEffect(s, t, node, key);
    RestOfNode(s, e, node, Cooling(node, key));
    CoolingCoupled(node, pools, cooling, s, Next(s, e), key, cooling - {key});
  }

  lemma CoolingPlace(node: string, pools: Pools, cooling: CooldownSet, s: State, key: string)
    requires Coupled(node, pools, cooling, s)
    ensures Cooling(node, key) in s.held <==> key in cooling
    ensures key in cooling ==> s.held[Cooling(node, key)] == Slot(cooling[key].network, cooling[key].cooldownOver)
  {
    assert Cooling(node, key) in s.held <==> key in cooling;
  }

  // ---------------------------------------------------------------- static pods

  lemma CreateClaimEffect(s: State, t: nat, node: string, pn: PodNetwork, want: string, ns: string,
                          name: string, result: Creation)
    requires Has(s, t, node, pn, Fetched(Add(want, true)))
    requires result.Created? || result.Committed? ==> ClaimFree(s, ns, name)
    ensures var e := CreateClaim(t, ns, name, result);
            && Enabled(s, e) && Footprint(s, e) == {Hand(t), Claim(ns, name)}
            && AtNode(s, e, node) && Faithful(e)
            && (result.Created? || result.Committed? ==>
                  Claim(ns, name) in Next(s, e).held && Next(s, e).held[Claim(ns, name)].pn == pn)
            && match result
               case Created => Works(Next(s, e), t, node, Attaching(ns, name, pn, false, false))
               case Rejected => Has(Next(s, e), t, node, pn, Returning)
               case _ => Done(Next(s, e), t)
  {
    hide NextOfMove, NextOfHandOut, NextOfPlugin, MayMove, MayHandOut, MayPlugin;
  }

  /** Creating a claim: the address is at the claim, back in hand, or lost to this goroutine. */
  lemma CreateClaimStep(node: string, pools: Pools, cooling: CooldownSet, s: State, t: nat, pn: PodNetwork,
                        want: string, ns: string, name: string, result: Creation)
    requires Coupled(node, pools, cooling, s) && Has(s, t, node, pn, Fetched(Add(want, true)))
    requires result.Created? || result.Committed? ==> ClaimFree(s, ns, name)
    ensures var e := CreateClaim(t, ns, name, result);
            && Enabled(s, e) && AtNode(s, e, node) && Coupled(node, pools, cooling, Next(s, e))
            && (result.Created? || result.Committed? ==>
                  Claim(ns, name) in Next(s, e).held && Next(s, e).held[Claim(ns, name)].pn == pn)
            && match result
               case Created => Works(Next(s, e), t, node, Attaching(ns, name, pn, false, false))
               case Rejected => Has(Next(s, e), t, node, pn, Returning)
               case _ => Done(Next(s, e), t)
  {
    hide Enabled, Next, Coupled;
    CreateClaimEffect(s, t, node, pn, want, ns, name, result);
    ElsewhereCoupled(node, pools, cooling, s, CreateClaim(t, ns, name, result));
  }

  lemma AttachEffect(s: State, t: nat, node: string, ns: string, name: string)
    requires t !in s.threads && Claim(ns, name) in s.held
    ensures var e := Attach(t, node, ns, name);
            && Enabled(s, e) && Footprint(s, e) == {Hand(t)} && AtNode(s, e, node) && Next(s, e).leased == s.leased
            && Works(Next(s, e), t, node,
                     Attaching(ns, name, s.held[Claim(ns, name)].pn.(recycled := false), false, false))
  {
    hide NextOfMove, NextOfHandOut, NextOfPlugin, MayMove, MayHandOut, MayPlugin;
  }

  /** The events of a goroutine that works on a claim, and the phase each belongs to. */
  predicate WorkEvent(e: Event, phase: Phase)
    requires phase.Attaching?
  {
    match e
    case Reallocate(_) => true
    case AttachVet(_, _, _) => !phase.ready && !phase.pn.recycled
    case AttachSkipVet(_) => !phase.ready && phase.pn.recycled
    case AttachDeliver(_, _, _) => phase.ready
    case Abandon(_) => true
    case _ => false
  }

  /** The work goes on in this phase, or it ends. */
  function Toil(e: Event, phase: Phase): (rest: seq<Phase>)
    requires phase.Attaching?
    ensures forall p | p in rest :: p.Attaching?
  {
    match e
    case Reallocate(_) => [phase]
    case AttachVet(_, ok, _) => if ok then [phase.(checked := true, ready := true)] else []
    case AttachSkipVet(_) => [phase.(ready := true)]
    case _ => []
  }

  lemma WorkEffect(s: State, t: nat, node: string, phase: Phase, e: Event)
    requires Works(s, t, node, phase) && phase.Attaching? && WorkEvent(e, phase) && e.t == t
    ensures Enabled(s, e) && Footprint(s, e) == {Hand(t)} && AtNode(s, e, node) && Faithful(e) && PopCurrent(s, e)
    ensures if Toil(e, phase) == [] then Done(Next(s, e), t) else Works(Next(s, e), t, node, Toil(e, phase)[0])
    ensures Next(s, e).held == s.held
  {
    hide NextOfMove, NextOfHandOut, NextOfPlugin, MayMove, MayHandOut, MayPlugin;
  }

  /** Handing out does not touch the claims. */
  ghost predicate SameClaims(s: State, s': State) {
    forall ns, name :: ClaimFree(s, ns, name) <==> ClaimFree(s', ns, name)
  }

  lemma HandOutKeepsClaims(s: State, e: Event)
    requires OfHandOut(e) && Enabled(s, e)
    ensures SameClaims(s, Next(s, e))
  {
    forall ns, name ensures ClaimFree(s, ns, name) <==> ClaimFree(Next(s, e), ns, name) {
      NoClaimInFootprint(s, e, ns, name);
      HandOutFrame(s, e, Claim(ns, name));
    }
    hide Enabled, Next;
  }

  lemma NoClaimInFootprint(s: State, e: Event, ns: string, name: string)
    requires OfHandOut(e) && Enabled(s, e)
    ensures Claim(ns, name) !in Footprint(s, e)
  {
  }
}
