/** Exclusivity and conservation of the allocator, over every run of any number of nodes. */
module Exclusivity {
  import opened PodNetworks
  import opened Protocol

  // ---------------------------------------------------------------- the invariant

  /** Database keys are the reserved keys of their records, and a pool holds its own subnet only. */
  predicate WellPlaced(p: Place, pn: PodNetwork) {
    && WellFormed(pn)
    && match p
       case Pool(_, subnet, key) => key == ReservedKey(pn) && subnet == pn.subnetId
       case Cooling(_, key) => key == ReservedKey(pn)
       case Given(_, key) => key == ReservedKey(pn)
       case _ => true
  }

  /** No address is in two places. */
  ghost predicate Exclusive(held: map<Place, Slot>) {
    forall p, q | p in held && q in held && held[p].pn.vpcIp == held[q].pn.vpcIp :: p == q
  }

  /** What the VPC has leased and what the places hold are the same, up to leaked addresses
      and claims whose address was deleted. */
  ghost predicate Conserved(s: State) {
    && (forall p | p in s.held && !p.Claim? :: s.held[p].pn.vpcIp in s.leased)
    && (forall p | p in s.held :: s.held[p].pn.vpcIp !in s.leaked)
    && s.leaked <= s.leased <= Ips(s.held) + s.leaked
  }

  ghost predicate Core(s: State) {
    && Exclusive(s.held)
    && Conserved(s)
    && forall p | p in s.held :: WellPlaced(p, s.held[p].pn)
  }

  /** Phases in which a goroutine holds an address in a local variable. */
  predicate Holds(phase: Phase) {
    !phase.Popping? && !phase.Attaching?
  }

  predicate PhaseOk(s: State, t: nat)
    requires t in s.threads && (Holds(PhaseOf(s, t)) ==> Hand(t) in s.held)
  {
    match PhaseOf(s, t)
    case Popping(job, subnet, key, pn) =>
      && WellFormed(pn) && key == ReservedKey(pn) && subnet == pn.subnetId
      && (!job.Trim? ==> job.want == subnet)
    case Fetched(job) => !job.Trim? ==> InHand(s, t).subnetId == job.want
    case Seen(want) => InHand(s, t).subnetId == want
    case Ready(want, _) => InHand(s, t).subnetId == want
    case Lent(want) => InHand(s, t).subnetId == want
    case Attaching(ns, name, pn, _, _) =>
      Claim(ns, name) in s.held && s.held[Claim(ns, name)].pn.vpcIp == pn.vpcIp
    case _ => true
  }

  predicate ThreadOk(s: State, t: nat)
    requires t in s.threads
  {
    (Holds(PhaseOf(s, t)) <==> Hand(t) in s.held) && PhaseOk(s, t)
  }

  ghost predicate Threads(s: State) {
    && (forall t | Hand(t) in s.held :: t in s.threads)
    && (forall t | t in s.threads :: ThreadOk(s, t))
  }

  ghost predicate Inv(s: State) {
    Core(s) && Threads(s)
  }

  // ---------------------------------------------------------------- the discipline

  /** The entry a goroutine between the two transactions of a Pop has read. */
  function PopPlace(s: State, t: nat): Place
    requires t in s.threads && PhaseOf(s, t).Popping?
  {
    Pool(s.threads[t].node, PhaseOf(s, t).subnet, PhaseOf(s, t).key)
  }

  /** The second transaction of a Pop finds an entry under the key that the first one read. */
  predicate PopFinds(s: State, e: Event)
    requires Enabled(s, e)
  {
    e.PopDelete? ==> PopPlace(s, e.t) in s.held
  }

  /** It finds the record that the first one read. */
  predicate PopCurrent(s: State, e: Event)
    requires Enabled(s, e)
  {
    PopFinds(s, e) && (e.PopDelete? ==> s.held[PopPlace(s, e.t)].pn == PhaseOf(s, e.t).pn)
  }

  /** The answers from outside that the code mistakes for "this IP is free": a claim lookup that fails while a static
      pod is released; a cooldown write that fails while a repeated release is answered by deleting the address; and a
      release, written or answered by the delete, of an address that the pod lost before and that did not just
      leak. */
  predicate Faithful(e: Event) {
    && (e.ReleaseStatic? ==> e.found)
    && (e.ReleaseAgain? ==> e.ok || !e.outcome.Deleted?)
    && (e.ReleaseStray? ==> e.at.Forgotten? || (!e.ok && (e.outcome.Deleted? ==> e.at.Gone?)))
  }

  // ---------------------------------------------------------------- elementary moves

  lemma Occupant(s: State, p: Place, q: Place)
    requires Core(s) && p in s.held && q in s.held
    requires WellPlaced(q, s.held[p].pn) && (q.Pool? || q.Cooling? || q.Given?)
    ensures p == q
  {
    ReservedKeyInjective(s.held[p].pn, s.held[q].pn);
  }

  /** An address goes from one place to another. */
  lemma MoveKeepsCore(s: State, p: Place, q: Place, slot: Slot)
    requires Core(s) && p in s.held && !p.Claim?
    requires slot.pn.vpcIp == s.held[p].pn.vpcIp && WellPlaced(q, slot.pn)
    requires q == p || q !in s.held
    ensures Core(Move(s, p, q, slot))
  {
    var s' := Move(s, p, q, slot);
    forall ip | ip in Ips(s.held) ensures ip in Ips(s'.held) {
      var r :| r in s.held && s.held[r].pn.vpcIp == ip;
      assert s'.held[if r == p then q else r].pn.vpcIp == ip;
    }
  }

  lemma LeakKeepsCore(s: State, p: Place)
    requires Core(s) && p in s.held && !p.Claim?
    ensures Core(Leak(s, p))
  {
    RestOfIps(s, p);
  }

  lemma DiscardKeepsCore(s: State, p: Place, outcome: Outcome)
    requires Core(s) && p in s.held && !p.Claim?
    ensures Core(Discard(s, p, outcome))
  {
    RestOfIps(s, p);
  }

  lemma RestOfIps(s: State, p: Place)
    requires p in s.held
    ensures Ips(s.held) <= Ips(s.held - {p}) + {s.held[p].pn.vpcIp}
  {
    forall ip | ip in Ips(s.held) && ip != s.held[p].pn.vpcIp ensures ip in Ips(s.held - {p}) {
      var r :| r in s.held && s.held[r].pn.vpcIp == ip;
      assert (s.held - {p})[r].pn.vpcIp == ip;
    }
  }

  // ---------------------------------------------------------------- goroutines and their hands

  /** A goroutine whose hand and claim are left alone stays as it was. */
  predicate Untouched(s: State, s': State, t: nat)
    requires t in s.threads
  {
    && t in s'.threads && s'.threads[t] == s.threads[t]
    && (Hand(t) in s.held <==> Hand(t) in s'.held)
    && (Hand(t) in s.held ==> s'.held[Hand(t)] == s.held[Hand(t)])
    && (PhaseOf(s, t).Attaching? ==>
          var p := Claim(PhaseOf(s, t).ns, PhaseOf(s, t).name);
          p in s.held ==> p in s'.held && s'.held[p] == s.held[p])
  }

  lemma UntouchedStaysOk(s: State, s': State, t: nat)
    requires t in s.threads && ThreadOk(s, t) && Untouched(s, s', t)
    ensures ThreadOk(s', t)
  {
  }

  /** One goroutine moves on; at most one place `p`, not a claim and not another hand, loses its slot, and no occupied
      place is overwritten. */
  lemma OthersUntouched(s: State, s': State, t: nat, p: Place)
    requires Threads(s)
    requires s'.threads - {t} == s.threads - {t}
    requires forall q | q in s.held && q != p && q != Hand(t) :: q in s'.held && s'.held[q] == s.held[q]
    requires forall q | q in s'.held && q !in s.held && q.Hand? :: q == Hand(t)
    requires !p.Claim? && (p.Hand? ==> p == Hand(t))
    requires t in s'.threads ==> ThreadOk(s', t)
    requires Hand(t) in s'.held ==> t in s'.threads
    ensures Threads(s')
  {
    forall u | u in s'.threads ensures ThreadOk(s', u) {
      if u != t {
        assert u in s'.threads - {t};
        assert u in s.threads - {t};
        UntouchedStaysOk(s, s', u);
      }
    }
    forall u | Hand(u) in s'.held ensures u in s'.threads {
      if u != t {
        assert u in s.threads - {t};
        assert u in s'.threads - {t};
      }
    }
  }

  /** No database write of the allocator overwrites an entry. */
  lemma TargetIsFree(s: State, t: nat)
    requires Core(s) && At(s, t)
    ensures Target(s, t) !in s.held
  {
    if Target(s, t) in s.held { Occupant(s, Hand(t), Target(s, t)); }
  }

  // ---------------------------------------------------------------- elementary steps

  lemma PhaseStep(s: State, t: nat, phase: Phase)
    requires Threads(s) && t in s.threads && (Holds(phase) <==> Holds(PhaseOf(s, t)))
    requires PhaseOk(To(s, t, phase), t)
    ensures Threads(To(s, t, phase))
  {
    OthersUntouched(s, To(s, t, phase), t, Hand(t));
  }

  lemma PutDownThreads(s: State, t: nat, q: Place, slot: Slot)
    requires Threads(s) && At(s, t) && !q.Hand? && q !in s.held
    ensures Threads(End(Move(s, Hand(t), q, slot), t))
  {
    OthersUntouched(s, End(Move(s, Hand(t), q, slot), t), t, Hand(t));
  }

  lemma TakeThreads(s: State, t: nat, p: Place, slot: Slot, node: string, phase: Phase)
    requires Threads(s) && t !in s.threads && p in s.held && (p.Cooling? || p.Given?)
    requires phase.Retiring? || phase.Returning?
    ensures Threads(Start(Move(s, p, Hand(t), slot), t, node, phase))
  {
    OthersUntouched(s, Start(Move(s, p, Hand(t), slot), t, node, phase), t, p);
  }

  lemma LoseThreads(s: State, t: nat, outcome: Outcome)
    requires Threads(s) && At(s, t)
    ensures Threads(End(Discard(s, Hand(t), outcome), t))
  {
    OthersUntouched(s, End(Discard(s, Hand(t), outcome), t), t, Hand(t));
  }

  lemma PopDeleteThreads(s: State, t: nat)
    requires Threads(s) && Enabled(s, PopDelete(t))
    ensures Threads(Next(s, PopDelete(t)))
  {
    hide NextOfClaim, MayClaim, NextOfPlugin, MayPlugin, NextOfMove, MayMove;
    assert ThreadOk(s, t);
    OthersUntouched(s, Next(s, PopDelete(t)), t, PopPlace(s, t));
  }

  lemma AllocateThreads(s: State, e: Event)
    requires Threads(s) && e.Allocate? && Enabled(s, e)
    ensures Threads(Next(s, e))
  {
    hide NextOfClaim, MayClaim, NextOfPlugin, MayPlugin, NextOfMove, MayMove;
    OthersUntouched(s, Next(s, e), e.t, Hand(e.t));
  }

  lemma ReplyThreads(s: State, e: Event)
    requires Threads(s) && e.Reply? && Enabled(s, e)
    ensures Threads(Next(s, e))
  {
    hide NextOfClaim, MayClaim, NextOfPlugin, MayPlugin, NextOfMove, MayMove;
    var lent := End(Leak(s, Hand(e.t)), e.t);
    LoseThreads(s, e.t, Failed);
    OthersUntouched(lent, Next(s, e), e.borrower, Hand(e.borrower));
  }

  lemma PutDown(s: State, t: nat, q: Place, over: int)
    requires Inv(s) && At(s, t) && (q == Target(s, t) || (q.Claim? && q !in s.held))
    ensures Inv(End(Move(s, Hand(t), q, s.held[Hand(t)].(over := over)), t))
  {
    var slot := s.held[Hand(t)].(over := over);
    TargetIsFree(s, t);
    MoveKeepsCore(s, Hand(t), q, slot);
    PutDownThreads(s, t, q, slot);
  }

  lemma PickUp(s: State, t: nat, p: Place, slot: Slot, node: string, phase: Phase)
    requires Inv(s) && t !in s.threads && p in s.held && (p.Cooling? || p.Given?)
    requires slot.pn.vpcIp == s.held[p].pn.vpcIp && slot.pn.subnetId == s.held[p].pn.subnetId
    requires phase.Retiring? || phase.Returning?
    ensures Inv(Start(Move(s, p, Hand(t), slot), t, node, phase))
  {
    MoveKeepsCore(s, p, Hand(t), slot);
    TakeThreads(s, t, p, slot, node, phase);
  }

  lemma Lose(s: State, t: nat, outcome: Outcome)
    requires Inv(s) && At(s, t)
    ensures Inv(End(Discard(s, Hand(t), outcome), t))
  {
    DiscardKeepsCore(s, Hand(t), outcome);
    LoseThreads(s, t, outcome);
  }

  lemma GoOn(s: State, t: nat, phase: Phase)
    requires Inv(s) && t in s.threads && (Holds(phase) <==> Holds(PhaseOf(s, t)))
    requires PhaseOk(s, t) ==> PhaseOk(To(s, t, phase), t)
    ensures Inv(To(s, t, phase))
  {
    assert ThreadOk(s, t);
    PhaseStep(s, t, phase);
  }

  lemma CoreOfSameBooks(s: State, s': State)
    requires s'.held == s.held && s'.leased == s.leased && s'.leaked == s.leaked
    ensures Core(s') == Core(s)
  {
  }

  /** The invariant does not depend on the clock or on the history. */
  lemma SameBooks(s: State, s': State)
    requires Inv(s) && s'.held == s.held && s'.threads == s.threads && s'.leased == s.leased && s'.leaked == s.leaked
    ensures Inv(s')
  {
    forall t | t in s'.threads ensures ThreadOk(s', t) { assert ThreadOk(s, t); }
  }

  // ---------------------------------------------------------------- one event at a time

  lemma PopDeleteKeepsInv(s: State, t: nat)
    requires Inv(s) && Enabled(s, PopDelete(t)) && PopPlace(s, t) in s.held
    ensures Inv(Next(s, PopDelete(t)))
  {
    var Thread(node, Popping(job, subnet, key, pn)) := s.threads[t];
    assert ThreadOk(s, t);
    PopDeleteThreads(s, t);
    ReservedKeyInjective(pn, s.held[PopPlace(s, t)].pn);
    MoveKeepsCore(s, PopPlace(s, t), Hand(t), Slot(pn, 0));
  }

  lemma PopReadKeepsInv(s: State, e: Event)
    requires Inv(s) && Enabled(s, e) && e.PopRead?
    ensures Inv(Next(s, e))
  {
    hide NextOfClaim, MayClaim, NextOfPlugin, MayPlugin, NextOfMove, MayMove;
    OthersUntouched(s, Next(s, e), e.t, Hand(e.t));
  }

  /** A goroutine without an address in hand ends. */
  lemma EndKeepsInv(s: State, t: nat)
    requires Inv(s) && t in s.threads && Hand(t) !in s.held
    ensures Inv(End(s, t))
  {
    OthersUntouched(s, End(s, t), t, Hand(t));
  }

  /** A newly leased address comes to an empty place. */
  lemma NewPlaceKeepsCore(s: State, p: Place, pn: PodNetwork)
    requires Core(s) && p !in s.held && WellPlaced(p, pn) && pn.vpcIp !in s.leased
    requires forall q | q in s.held && q.Claim? :: s.held[q].pn.vpcIp != pn.vpcIp
    ensures Core(s.(held := s.held[p := Slot(pn, 0)], leased := s.leased + {pn.vpcIp}))
  {
    var held := s.held[p := Slot(pn, 0)];
    forall ip | ip in Ips(s.held) ensures ip in Ips(held) {
      var r :| r in s.held && s.held[r].pn.vpcIp == ip;
      assert held[r].pn.vpcIp == ip;
    }
    assert held[p].pn == pn;
  }

  lemma AllocateKeepsInv(s: State, e: Event)
    requires Inv(s) && e.Allocate? && Enabled(s, e)
    ensures Inv(Next(s, e))
  {
    hide NextOfClaim, MayClaim, NextOfPlugin, MayPlugin, NextOfMove, MayMove;
    AllocateThreads(s, e);
    NewPlaceKeepsCore(s, Hand(e.t), e.pn);
    CoreOfSameBooks(s.(held := s.held[Hand(e.t) := Slot(e.pn, 0)], leased := s.leased + {e.pn.vpcIp}), Next(s, e));
  }

  lemma ReplyKeepsInv(s: State, e: Event)
    requires Inv(s) && e.Reply? && Enabled(s, e)
    ensures Inv(Next(s, e))
  {
    MoveKeepsCore(s, Hand(e.t), Hand(e.borrower), Slot(InHand(s, e.t).(recycled := false), 0));
    ReplyThreads(s, e);
  }

  lemma MacMovedThreads(s: State, t: nat)
    requires Threads(s) && Enabled(s, LendMove(t, true))
    ensures Threads(Next(s, LendMove(t, true)))
  {
    assert ThreadOk(s, t);
    OthersUntouched(s, Next(s, LendMove(t, true)), t, Hand(t));
  }

  lemma MacMovedKeepsInv(s: State, t: nat)
    requires Inv(s) && Enabled(s, LendMove(t, true))
    ensures Inv(Next(s, LendMove(t, true)))
  {
    MoveKeepsCore(s, Hand(t), Hand(t), Slot(InHand(s, t).(mac := PhaseOf(s, t).job.mac), 0));
    MacMovedThreads(s, t);
  }

  lemma ReleaseSkippedKeepsInv(s: State, node: string, key: string)
    requires Inv(s) && Given(node, key) in s.held
    ensures Inv(Leak(s, Given(node, key)))
  {
    LeakKeepsCore(s, Given(node, key));
    KeepThreads(s, Leak(s, Given(node, key)), Given(node, key));
  }

  lemma ReleaseAgainKeepsInv(s: State, node: string, key: string)
    requires Inv(s) && Cooling(node, key) in s.held
    ensures var slot := Slot(Stamp(s.held[Cooling(node, key)].pn, s.clock), s.clock + s.period);
            Inv(Move(s, Cooling(node, key), Cooling(node, key), slot))
  {
    var q, slot := Cooling(node, key), Slot(Stamp(s.held[Cooling(node, key)].pn, s.clock), s.clock + s.period);
    assert WellPlaced(q, slot.pn);
    hide Core, WellPlaced;
    MoveKeepsCore(s, q, q, slot);
    KeepThreads(s, Move(s, q, q, slot), q);
  }

  lemma AssignDirectNext(s: State, e: Event)
    requires e.AssignDirect? && Enabled(s, e)
    ensures WellFormed(e.pn) && e.pn.vpcIp !in s.leased
    ensures forall p | p in s.held && p.Claim? :: s.held[p].pn.vpcIp != e.pn.vpcIp
    ensures Next(s, e) == s.(held := s.held[Given(e.node, ReservedKey(e.pn)) := Slot(e.pn, 0)],
                             leased := s.leased + {e.pn.vpcIp})
  {
    hide NextOfClaim, MayClaim, NextOfHandOut, MayHandOut, NextOfMove, MayMove, WellFormed;
  }

  lemma ReleaseDirectNext(s: State, e: Event)
    requires e.ReleaseDirect? && Enabled(s, e)
    ensures Given(e.node, e.key) in s.held
    ensures Next(s, e) == if e.outcome.Failed? then s else Discard(s, Given(e.node, e.key), e.outcome)
  {
    hide NextOfClaim, MayClaim, NextOfHandOut, MayHandOut, NextOfMove, MayMove, WellFormed;
  }

  lemma StrayNext(s: State, e: Event)
    requires e.ReleaseStray? && Enabled(s, e)
    ensures WellFormed(e.pn) && e.at == Find(s, e.pn.vpcIp)
    ensures Given(e.node, ReservedKey(e.pn)) !in s.held && Cooling(e.node, ReservedKey(e.pn)) !in s.held
    ensures var s' := Next(s, e);
            && s'.threads == s.threads
            && s'.leased == (if !e.ok && e.outcome.Deleted? then s.leased - {e.pn.vpcIp} else s.leased)
            && s'.leaked == (if e.ok || e.outcome.Deleted? then s.leaked - {e.pn.vpcIp} else s.leaked)
            && s'.held == (if !e.ok then s.held else
                 s.held[Cooling(e.node, ReservedKey(e.pn)) := Slot(Stamp(e.pn, s.clock), s.clock + s.period)])
  {
    hide NextOfClaim, MayClaim, NextOfHandOut, MayHandOut, NextOfMove, MayMove, WellFormed, Find;
  }

  lemma ReleaseAgainNext(s: State, e: Event)
    requires e.ReleaseAgain? && Enabled(s, e)
    ensures Cooling(e.node, e.key) in s.held
    ensures var p := Cooling(e.node, e.key);
            var slot := Slot(Stamp(s.held[p].pn, s.clock), s.clock + s.period);
            Next(s, e) == if !e.ok then Unlease(s, s.held[p].pn.vpcIp, e.outcome)
                          else Move(s, p, p, slot).(notBefore := s.notBefore[s.held[p].pn.vpcIp := s.clock + s.period])
  {
    hide NextOfClaim, MayClaim, NextOfHandOut, MayHandOut, NextOfPlugin, MayPlugin;
  }

  /** The plugin allocates an address without ipamd. */
  lemma AssignDirectKeepsCore(s: State, e: Event)
    requires Core(s) && e.AssignDirect? && Enabled(s, e)
    ensures Core(Next(s, e)) && Given(e.node, ReservedKey(e.pn)) !in s.held
  {
    AssignDirectNext(s, e);
    hide Enabled, Next;
    var s', p := Next(s, e), Given(e.node, ReservedKey(e.pn));
    if p in s.held { ReservedKeyInjective(e.pn, s.held[p].pn); }
    NewPlaceKeepsCore(s, p, e.pn);
    CoreOfSameBooks(s.(held := s.held[p := Slot(e.pn, 0)], leased := s.leased + {e.pn.vpcIp}), s');
  }

  lemma AssignDirectKeepsInv(s: State, e: Event)
    requires Inv(s) && e.AssignDirect? && Enabled(s, e)
    ensures Inv(Next(s, e))
  {
    AssignDirectKeepsCore(s, e);
    AssignDirectNext(s, e);
    hide Enabled, Next, Core;
    KeepThreads(s, Next(s, e), Given(e.node, ReservedKey(e.pn)));
  }

  lemma ReleaseDirectKeepsInv(s: State, e: Event)
    requires Inv(s) && e.ReleaseDirect? && Enabled(s, e)
    ensures Inv(Next(s, e))
  {
    ReleaseDirectNext(s, e);
    hide Enabled, Next;
    if !e.outcome.Failed? {
      DiscardKeepsCore(s, Given(e.node, e.key), e.outcome);
      KeepThreads(s, Next(s, e), Given(e.node, e.key));
    }
  }

  lemma UnleaseClaimKeepsInv(s: State, e: Event)
    requires Inv(s) && e.UnleaseClaim? && Enabled(s, e)
    ensures Inv(Next(s, e))
  {
    hide NextOfClaim, MayClaim, NextOfHandOut, MayHandOut, NextOfMove, MayMove;
    UnleaseKeepsCore(s, Claim(e.ns, e.name), e.outcome);
    KeepThreads(s, Next(s, e), Cooling("", ""));
  }

  /** An address comes back that had leaked, or it is known to nobody and stays so. */
  lemma StrayKeepsCore(s: State, e: Event)
    requires Core(s) && e.ReleaseStray? && Enabled(s, e) && Faithful(e)
    ensures Core(Next(s, e))
  {
    StrayNext(s, e);
    assert WellFormed(Stamp(e.pn, s.clock)) && ReservedKey(Stamp(e.pn, s.clock)) == ReservedKey(e.pn);
    hide Enabled, Next, Core, ReservedKey, WellFormed;
    if e.ok {
      RecoveredKeepsCore(s, Next(s, e), Cooling(e.node, ReservedKey(e.pn)));
    } else {
      LostKeepsCore(s, Next(s, e), e.pn.vpcIp);
    }
  }

  /** A leaked address enters a cooldown set. */
  lemma RecoveredKeepsCore(s: State, s': State, p: Place)
    requires Core(s) && p !in s.held && p.Cooling? && p in s'.held && s'.held == s.held[p := s'.held[p]]
    requires WellFormed(s'.held[p].pn) && p.key == ReservedKey(s'.held[p].pn)
    requires s'.held[p].pn.vpcIp in s.leaked && s'.leased == s.leased
    requires s'.leaked == s.leaked - {s'.held[p].pn.vpcIp}
    ensures Core(s')
  {
    hide ReservedKey, WellFormed;
    forall ip | ip in Ips(s.held) ensures ip in Ips(s'.held) {
      var r :| r in s.held && s.held[r].pn.vpcIp == ip;
      assert s'.held[r].pn.vpcIp == ip;
    }
  }

  /** An address that nobody holds, or that had leaked, is deleted; or nothing happens. */
  lemma LostKeepsCore(s: State, s': State, ip: string)
    requires Core(s) && s'.held == s.held
    requires (s'.leased == s.leased && s'.leaked == s.leaked)
          || (s'.leased == s.leased - {ip} && s'.leaked == s.leaked - {ip} && !Find(s, ip).Elsewhere?)
    ensures Core(s')
  {
    hide ReservedKey, WellFormed;
  }

  lemma StrayKeepsInv(s: State, e: Event)
    requires Inv(s) && e.ReleaseStray? && Enabled(s, e) && Faithful(e)
    ensures Inv(Next(s, e))
  {
    StrayKeepsCore(s, e);
    StrayNext(s, e);
    hide Enabled, Next, Core;
    KeepThreads(s, Next(s, e), Cooling(e.node, ReservedKey(e.pn)));
  }

  /** Events outside any goroutine's hand. */
  lemma KeepThreads(s: State, s': State, p: Place)
    requires Threads(s) && s'.threads == s.threads && (p.Given? || p.Cooling?)
    requires forall q | q in s.held && q != p :: q in s'.held && s'.held[q] == s.held[q]
    requires forall q | q in s'.held && q != p :: q in s.held
    ensures Threads(s')
  {
    forall t | t in s'.threads ensures ThreadOk(s', t) { UntouchedStaysOk(s, s', t); }
  }

  lemma ClaimMadeThreads(s: State, t: nat, ns: string, name: string)
    requires Threads(s) && Enabled(s, CreateClaim(t, ns, name, Created))
    ensures Threads(Next(s, CreateClaim(t, ns, name, Created)))
  {
    OthersUntouched(s, Next(s, CreateClaim(t, ns, name, Created)), t, Hand(t));
  }

  lemma ClaimMade(s: State, t: nat, ns: string, name: string)
    requires Inv(s) && Enabled(s, CreateClaim(t, ns, name, Created))
    ensures Inv(Next(s, CreateClaim(t, ns, name, Created)))
  {
    MoveKeepsCore(s, Hand(t), Claim(ns, name), s.held[Hand(t)]);
    ClaimMadeThreads(s, t, ns, name);
  }

  lemma AttachKeepsInv(s: State, e: Event)
    requires Inv(s) && e.Attach? && Enabled(s, e)
    ensures Inv(Next(s, e))
  {
    assert Core(Next(s, e));
    AttachThreads(s, e);
  }

  lemma AttachThreads(s: State, e: Event)
    requires Threads(s) && e.Attach? && Enabled(s, e)
    ensures Threads(Next(s, e))
  {
    OthersUntouched(s, Next(s, e), e.t, Hand(e.t));
  }

  lemma ReallocateKeepsInv(s: State, t: nat)
    requires Inv(s) && Enabled(s, Reallocate(t))
    ensures Inv(Next(s, Reallocate(t)))
  {
    assert ThreadOk(s, t);
    KeepThreads(s, Next(s, Reallocate(t)), Cooling("", ""));
  }

  /** The address of a claim is deleted in the VPC; the claim keeps its name on it. */
  lemma UnleaseKeepsInv(s: State, t: nat, outcome: Outcome)
    requires Inv(s) && t in s.threads && PhaseOf(s, t).Attaching?
    ensures Inv(End(Unlease(s, PhaseOf(s, t).pn.vpcIp, outcome), t))
  {
    assert ThreadOk(s, t);
    var s' := Unlease(s, PhaseOf(s, t).pn.vpcIp, outcome);
    UnleaseKeepsCore(s, Claim(PhaseOf(s, t).ns, PhaseOf(s, t).name), outcome);
    KeepThreads(s, s', Cooling("", ""));
    EndKeepsInv(s', t);
  }

  lemma UnleaseKeepsCore(s: State, p: Place, outcome: Outcome)
    requires Core(s) && p in s.held && p.Claim?
    ensures Core(Unlease(s, s.held[p].pn.vpcIp, outcome))
  {
  }

  // ---------------------------------------------------------------- every event

  lemma EmptyHand(s: State, t: nat)
    requires Inv(s) && t in s.threads && !Holds(PhaseOf(s, t))
    ensures Hand(t) !in s.held
  {
    assert ThreadOk(s, t);
  }

  lemma {:induction false} CreateClaimKeepsInv(s: State, e: Event)
    requires Inv(s) && e.CreateClaim? && Enabled(s, e)
    ensures Inv(Next(s, e))
  {
    hide Inv;
    match e.result
    case Created => ClaimMade(s, e.t, e.ns, e.name);
    case Rejected => GoOn(s, e.t, Returning);
    case Committed => PutDown(s, e.t, Claim(e.ns, e.name), s.held[Hand(e.t)].over);
    case Lost => Lose(s, e.t, Failed);
  }

  lemma {:induction false} StayAttachedKeepsInv(s: State, e: Event)
    requires Inv(s) && Enabled(s, e) && (e.Reallocate? || e.AttachSkipVet? || (e.AttachVet? && e.ok))
    ensures Inv(Next(s, e))
  {
    hide Inv;
    match e
    case Reallocate(t) => ReallocateKeepsInv(s, t);
    case AttachVet(t, _, _) => GoOn(s, t, PhaseOf(s, t).(checked := true, ready := true));
    case AttachSkipVet(t) => GoOn(s, t, PhaseOf(s, t).(ready := true));
  }

  lemma DetachNext(s: State, e: Event)
    requires Enabled(s, e) && (e.Abandon? || e.AttachDeliver? || (e.AttachVet? && !e.ok))
    ensures e.t in s.threads && PhaseOf(s, e.t).Attaching?
    ensures Next(s, e) == if e.Abandon? || (e.AttachDeliver? && e.ok) then End(s, e.t)
                          else End(Unlease(s, PhaseOf(s, e.t).pn.vpcIp, e.outcome), e.t)
  {
    hide NextOfMove, NextOfHandOut;
  }

  lemma {:induction false} DetachKeepsInv(s: State, e: Event)
    requires Inv(s) && Enabled(s, e) && (e.Abandon? || e.AttachDeliver? || (e.AttachVet? && !e.ok))
    ensures Inv(Next(s, e))
  {
    DetachNext(s, e);
    EmptyHand(s, e.t);
    hide Inv, Next, Enabled;
    if e.Abandon? || (e.AttachDeliver? && e.ok) { EndKeepsInv(s, e.t); } else { UnleaseKeepsInv(s, e.t, e.outcome); }
  }

  lemma {:induction false} CheckKeepsInv(s: State, e: Event)
    requires Inv(s) && Enabled(s, e) && (e.See? || e.Vet? || e.SkipVet? || e.ReplyLost?)
    ensures Inv(Next(s, e))
  {
    hide Inv;
    match e
    case See(t, sight) =>
      if sight.Missing? { Lose(s, t, Failed); }
      else { GoOn(s, t, if sight.Present? then Seen(PhaseOf(s, t).job.want) else Returning); }
    case Vet(t, ok) => GoOn(s, t, if ok then Ready(PhaseOf(s, t).want, true) else Dropping);
    case SkipVet(t) => GoOn(s, t, Ready(PhaseOf(s, t).want, false));
    case ReplyLost(t) => Lose(s, t, Failed);
  }

  lemma {:induction false} DeleteKeepsInv(s: State, e: Event)
    requires Inv(s) && Enabled(s, e) && (e.Drop? || e.TrimDelete?)
    ensures Inv(Next(s, e))
  {
    hide Inv;
    if e.TrimDelete? && e.outcome.Failed? { GoOn(s, e.t, PushingBack); } else { Lose(s, e.t, e.outcome); }
  }

  lemma {:induction false} WriteKeepsInv(s: State, e: Event)
    requires Inv(s) && Enabled(s, e) && (e.Deliver? || e.PutBack? || e.PushBack? || e.Retire?)
    ensures Inv(Next(s, e))
  {
    hide Inv;
    if e.ok {
      PutDown(s, e.t, Target(s, e.t), if e.Retire? then PhaseOf(s, e.t).over else s.held[Hand(e.t)].over);
    } else if e.PushBack? { Lose(s, e.t, Failed); }
    else { GoOn(s, e.t, Dropping); }
  }

  lemma {:induction false} CooldownKeepsInv(s: State, e: Event)
    requires Inv(s) && Enabled(s, e) && Faithful(e)
    requires e.Release? || e.ReleaseSkipped? || e.ReleaseAgain? || e.Thaw?
    ensures Inv(Next(s, e))
  {
    hide NextOfClaim, MayClaim, NextOfHandOut, MayHandOut, NextOfPlugin, MayPlugin, Inv;
    match e
    case Release(t, node, key) =>
      var slot := Slot(Stamp(s.held[Given(node, key)].pn, s.clock), 0);
      PickUp(s, t, Given(node, key), slot, node, Retiring(s.clock + s.period));
      SameBooks(Start(Move(s, Given(node, key), Hand(t), slot), t, node, Retiring(s.clock + s.period)), Next(s, e));
    case ReleaseSkipped(node, key) => ReleaseSkippedKeepsInv(s, node, key);
    case ReleaseAgain(node, key, ok, outcome) =>
      if ok {
        ReleaseAgainKeepsInv(s, node, key);
        SameBooks(Move(s, Cooling(node, key), Cooling(node, key),
                       Slot(Stamp(s.held[Cooling(node, key)].pn, s.clock), s.clock + s.period)), Next(s, e));
      }
    case Thaw(t, node, key) =>
      PickUp(s, t, Cooling(node, key), s.held[Cooling(node, key)], node, Returning);
      SameBooks(Start(Move(s, Cooling(node, key), Hand(t), s.held[Cooling(node, key)]), t, node, Returning),
        Next(s, e));
  }

  lemma {:induction false} PluginKeepsInv(s: State, e: Event)
    requires Inv(s) && OfPlugin(e) && Enabled(s, e) && Faithful(e)
    ensures Inv(Next(s, e))
  {
    hide Inv, Enabled, Next;
    match e
    case AssignDirect(_, _) => AssignDirectKeepsInv(s, e);
    case ReleaseDirect(_, _, _) => ReleaseDirectKeepsInv(s, e);
    case UnleaseClaim(_, _, _) => UnleaseClaimKeepsInv(s, e);
    case ReleaseStray(_, _, _, _, _) => StrayKeepsInv(s, e);
  }

  lemma {:induction false} CrashKeepsInv(s: State, e: Event)
    requires Inv(s) && Enabled(s, e) && (e.Crash? || e.Tick?)
    ensures Inv(Next(s, e))
  {
    hide Inv;
    match e
    case Crash(t) => if Hand(t) in s.held { Lose(s, t, Failed); } else { EndKeepsInv(s, t); }
    case Tick(now) => SameBooks(s, Next(s, e));
  }

  lemma {:induction false} PopFailKeepsInv(s: State, e: Event)
    requires Inv(s) && Enabled(s, e) && (e.PopFail? || (e.LendMove? && !e.ok))
    ensures Inv(Next(s, e))
  {
    if e.PopFail? { EmptyHand(s, e.t); }
    hide Inv;
    if e.PopFail? { EndKeepsInv(s, e.t); } else { GoOn(s, e.t, Returning); }
  }

  lemma FoundKeepsInv(s: State, e: Event)
    requires Inv(s) && Enabled(s, e) && e.ReleaseStatic? && e.found
    ensures Inv(Next(s, e))
  {
  }

  lemma {:induction false} ClaimKeepsInv(s: State, e: Event)
    requires Inv(s) && OfClaim(e) && Enabled(s, e) && (e.ReleaseStatic? ==> e.found)
    ensures Inv(Next(s, e))
  {
    hide Inv, Enabled, Next;
    match e
    case CreateClaim(_, _, _, _) => CreateClaimKeepsInv(s, e);
    case Attach(_, _, _, _) => AttachKeepsInv(s, e);
    case Reallocate(_) | AttachSkipVet(_) => StayAttachedKeepsInv(s, e);
    case AttachVet(_, ok, _) => if ok { StayAttachedKeepsInv(s, e); } else { DetachKeepsInv(s, e); }
    case ReleaseStatic(_, _, _, _, _) => FoundKeepsInv(s, e);
    case _ => DetachKeepsInv(s, e);
  }

  lemma {:induction false} HandOutKeepsInv(s: State, e: Event)
    requires Inv(s) && OfHandOut(e) && Enabled(s, e) && PopFinds(s, e)
    ensures Inv(Next(s, e))
  {
    hide Inv, Enabled, Next;
    match e
    case PopRead(_, _, _, _, _) => PopReadKeepsInv(s, e);
    case PopDelete(t) => PopDeleteKeepsInv(s, t);
    case Allocate(_, _, _, _, _) => AllocateKeepsInv(s, e);
    case Reply(_, _, _, _) => ReplyKeepsInv(s, e);
    case PopFail(_) => PopFailKeepsInv(s, e);
    case LendMove(t, ok) => if ok { MacMovedKeepsInv(s, t); } else { PopFailKeepsInv(s, e); }
    case _ => CheckKeepsInv(s, e);
  }

  lemma {:induction false} MovingKeepsInv(s: State, e: Event)
    requires Inv(s) && !OfClaim(e) && !OfHandOut(e) && !OfPlugin(e) && Enabled(s, e) && Faithful(e)
    ensures Inv(Next(s, e))
  {
    hide Inv, Enabled, Next;
    match e
    case Drop(_, _) | TrimDelete(_, _) => DeleteKeepsInv(s, e);
    case Deliver(_, _) | PutBack(_, _) | PushBack(_, _) | Retire(_, _) => WriteKeepsInv(s, e);
    case Crash(_) | Tick(_) => CrashKeepsInv(s, e);
    case _ => CooldownKeepsInv(s, e);
  }

  /** Every event of a disciplined cluster keeps the invariant. */
  lemma {:induction false} StepKeepsInv(s: State, e: Event)
    requires Inv(s) && Enabled(s, e) && Faithful(e) && PopFinds(s, e)
    ensures Inv(Next(s, e))
  {
    assert e.ReleaseStatic? ==> e.found;
    hide *;
    if OfClaim(e) { ClaimKeepsInv(s, e); }
    else if OfHandOut(e) { HandOutKeepsInv(s, e); }
    else if OfPlugin(e) { PluginKeepsInv(s, e); }
    else { MovingKeepsInv(s, e); }
  }
}
