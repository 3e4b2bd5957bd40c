/** Timing of the allocator: a released address rests until its CooldownOver. */
module Cooldown {
  import opened PodNetworks
  import opened Protocol
  import opened Exclusivity
  import opened AllocatorRuns
  import opened Footprints

  /** `p` keeps its address out of circulation up to `until`: it is in a cooldown set, or in the
      hand of a goroutine that is about to put it there or to delete the address. */
  predicate Shelters(s: State, p: Place, until: int) {
    p in s.held &&
    match p
    case Cooling(_, _) => s.held[p].over >= until
    case Hand(t) =>
      t in s.threads && (PhaseOf(s, t).Dropping? || (PhaseOf(s, t).Retiring? && PhaseOf(s, t).over >= until))
    case _ => false
  }

  ghost predicate Sheltered(s: State, ip: string, until: int) {
    ip in s.leaked || exists p :: p in s.held && s.held[p].pn.vpcIp == ip && Shelters(s, p, until)
  }

  /** Every address whose last release asks for more rest is resting. */
  ghost predicate Timed(s: State) {
    forall ip | Resting(s, ip) :: Sheltered(s, ip, s.notBefore[ip])
  }

  /** The address is resting. */
  predicate Resting(s: State, ip: string) {
    ip in s.notBefore && s.notBefore[ip] > s.clock
  }

  /** The VPC takes back an address that is resting: its cooldown write had failed, and the fallback delete, at once or
      when the pod releases it again, goes through before its time. */
  predicate CutsRest(s: State, e: Event)
    requires Enabled(s, e)
  {
    || (e.Drop? && e.outcome.Deleted? && Resting(s, InHand(s, e.t).vpcIp))
    || (e.ReleaseStray? && !e.ok && e.outcome.Deleted? && e.at.Forgotten? && Resting(s, e.pn.vpcIp))
  }

  /** When an event asks for rest, and for which address. */
  predicate AsksRest(e: Event) {
    e.Release? || ((e.ReleaseAgain? || e.ReleaseStray?) && e.ok) || (e.ReleaseStatic? && !e.found)
  }

  lemma ClaimHistory(s: State, e: Event)
    requires OfClaim(e) && Enabled(s, e) && !AsksRest(e)
    ensures Next(s, e).notBefore == s.notBefore && Next(s, e).clock == s.clock && s.leaked <= Next(s, e).leaked
  {
    hide NextOfHandOut, MayHandOut, NextOfPlugin, MayPlugin, NextOfMove, MayMove;
  }

  lemma HandOutHistory(s: State, e: Event)
    requires OfHandOut(e) && Enabled(s, e)
    ensures Next(s, e).notBefore == s.notBefore && Next(s, e).clock == s.clock && s.leaked <= Next(s, e).leaked
  {
    hide NextOfClaim, MayClaim, NextOfPlugin, MayPlugin, NextOfMove, MayMove, WellFormed;
  }

  lemma PluginHistory(s: State, e: Event)
    requires OfPlugin(e) && Enabled(s, e)
    ensures !AsksRest(e) ==> Next(s, e).notBefore == s.notBefore
    ensures AsksRest(e) ==> Next(s, e).notBefore == s.notBefore[e.pn.vpcIp := s.clock + s.period]
    ensures Next(s, e).clock == s.clock
    ensures if e.ReleaseStray? then s.leaked - {e.pn.vpcIp} <= Next(s, e).leaked else s.leaked <= Next(s, e).leaked
    ensures e.ReleaseStray? && !Recovers(e) && Faithful(e) ==> s.leaked <= Next(s, e).leaked
  {
    hide NextOfClaim, MayClaim, NextOfHandOut, MayHandOut, NextOfMove, MayMove, WellFormed;
  }

  lemma MoveHistory(s: State, e: Event)
    requires !OfClaim(e) && !OfHandOut(e) && !OfPlugin(e) && Enabled(s, e)
    ensures !AsksRest(e) ==> Next(s, e).notBefore == s.notBefore
    ensures s.clock <= Next(s, e).clock && s.leaked <= Next(s, e).leaked
  {
    hide NextOfClaim, MayClaim, NextOfHandOut, MayHandOut, NextOfPlugin, MayPlugin;
  }

  lemma StrayRests(s: State, e: Event)
    requires Enabled(s, e) && e.ReleaseStray? && e.ok
    ensures var s', q := Next(s, e), Cooling(e.node, ReservedKey(e.pn));
            && s'.notBefore == s.notBefore[e.pn.vpcIp := s.clock + s.period]
            && q in s'.held && s'.held[q].pn.vpcIp == e.pn.vpcIp && Shelters(s', q, s.clock + s.period)
  {
    hide NextOfClaim, MayClaim, NextOfHandOut, MayHandOut, NextOfMove, MayMove, WellFormed, Find;
  }

  lemma ReleaseRests(s: State, e: Event)
    requires Enabled(s, e) && (e.Release? || (e.ReleaseAgain? && e.ok))
    ensures var s' := Next(s, e);
            var p := if e.Release? then Given(e.node, e.key) else Cooling(e.node, e.key);
            var q := if e.Release? then Hand(e.t) else p;
            var ip := s.held[p].pn.vpcIp;
            && s'.notBefore == s.notBefore[ip := s.clock + s.period]
            && q in s'.held && s'.held[q].pn.vpcIp == ip && Shelters(s', q, s.clock + s.period)
  {
  }

  lemma FailedRetireShelters(s: State, t: nat)
    requires Enabled(s, Retire(t, false))
    ensures var s' := Next(s, Retire(t, false));
            Hand(t) in s'.held && s'.held[Hand(t)] == s.held[Hand(t)] && t in s'.threads && PhaseOf(s', t).Dropping?
  {
  }

  lemma DropLeaks(s: State, t: nat, outcome: Outcome)
    requires Enabled(s, Drop(t, outcome)) && !outcome.Deleted?
    ensures InHand(s, t).vpcIp in Next(s, Drop(t, outcome)).leaked
  {
  }

  lemma RetireShelters(s: State, t: nat)
    requires Enabled(s, Retire(t, true))
    ensures var s', q := Next(s, Retire(t, true)), Target(s, t);
            q.Cooling? && q in s'.held && s'.held[q].pn == InHand(s, t) && s'.held[q].over == PhaseOf(s, t).over
  {
  }

  lemma CrashLeaks(s: State, t: nat)
    requires Enabled(s, Crash(t)) && Hand(t) in s.held
    ensures InHand(s, t).vpcIp in Next(s, Crash(t)).leaked
  {
  }

  /** No event but thawing or releasing it again touches a cooling entry. */
  lemma CoolingStays(s: State, e: Event, p: Place)
    requires Inv(s) && Enabled(s, e) && p in s.held && p.Cooling?
    requires e.Thaw? || (e.ReleaseAgain? && e.ok) ==> Cooling(e.node, e.key) != p
    ensures p !in Footprint(s, e)
  {
    if e.Retire? { RetireSpares(s, e.t, e.ok, p); } else { OthersSpare(s, e, p); }
    hide Inv, Enabled, Footprint;
  }

  lemma RetireSpares(s: State, t: nat, ok: bool, p: Place)
    requires Inv(s) && Enabled(s, Retire(t, ok)) && p in s.held && p.Cooling?
    ensures p !in Footprint(s, Retire(t, ok))
  {
    hide Core, Threads, Target, Footprint;
    TargetIsFree(s, t);
    RetireFootprint(s, t, ok);
  }

  lemma RetireFootprint(s: State, t: nat, ok: bool)
    requires Enabled(s, Retire(t, ok))
    ensures At(s, t) && Footprint(s, Retire(t, ok)) <= {Hand(t), Target(s, t)}
  {
    hide Target;
  }

  lemma OthersSpare(s: State, e: Event, p: Place)
    requires Enabled(s, e) && p in s.held && p.Cooling? && !e.Retire?
    requires e.Thaw? || (e.ReleaseAgain? && e.ok) ==> Cooling(e.node, e.key) != p
    ensures p !in Footprint(s, e)
  {
    hide ReservedKey, WellFormed, InHand;
  }

  lemma RetiringStays(s: State, e: Event, t: nat)
    requires Enabled(s, e) && At(s, t) && (PhaseOf(s, t).Retiring? || PhaseOf(s, t).Dropping?)
    requires e.Retire? || e.Drop? || e.Crash? ==> e.t != t
    ensures Hand(t) !in Footprint(s, e) && !Acts(e, t)
  {
  }

  /** A resting address still rests after the next event. */
  lemma StillSheltered(s: State, e: Event, p: Place, until: int)
    requires Inv(s) && Enabled(s, e) && !(e.Drop? && e.outcome.Deleted? && Hand(e.t) == p)
    requires Shelters(s, p, until) && until > s.clock && !(e.ReleaseAgain? && e.ok && Cooling(e.node, e.key) == p)
    ensures Sheltered(Next(s, e), s.held[p].pn.vpcIp, until)
  {
    var ip, s' := s.held[p].pn.vpcIp, Next(s, e);
    if p.Cooling? {
      assert e.Thaw? ==> Cooling(e.node, e.key) != p;
      CoolingStays(s, e, p);
      Frame(s, e, p);
      hide Inv, Enabled, Next;
      assert Shelters(s', p, until) && s'.held[p].pn.vpcIp == ip;
    } else if e.Retire? && e.t == p.thread && !e.ok {
      FailedRetireShelters(s, e.t);
      hide Inv, Enabled, Next;
      assert Shelters(s', p, until) && s'.held[p].pn.vpcIp == ip;
    } else if e.Drop? && e.t == p.thread {
      DropLeaks(s, e.t, e.outcome);
      hide Inv, Enabled, Next;
    } else if e.Retire? && e.t == p.thread {
      RetireShelters(s, e.t);
      hide Inv, Enabled, Next;
      assert Shelters(s', Target(s, e.t), until) && s'.held[Target(s, e.t)].pn.vpcIp == ip;
    } else if e.Crash? && e.t == p.thread {
      CrashLeaks(s, e.t);
      hide Inv, Enabled, Next;
    } else {
      RetiringStays(s, e, p.thread);
      Frame(s, e, p);
      ThreadFrame(s, e, p.thread);
      hide Inv, Enabled, Next;
      assert Shelters(s', p, until) && s'.held[p].pn.vpcIp == ip;
    }
  }

  lemma History(s: State, e: Event)
    requires Enabled(s, e) && Faithful(e)
    ensures !AsksRest(e) ==> Next(s, e).notBefore == s.notBefore
    ensures s.clock <= Next(s, e).clock
    ensures forall ip | ip in s.leaked && !(Recovers(e) && e.pn.vpcIp == ip) :: ip in Next(s, e).leaked
  {
    if OfClaim(e) { ClaimHistory(s, e); }
    else if OfHandOut(e) { HandOutHistory(s, e); }
    else if OfPlugin(e) { PluginHistory(s, e); }
    else { MoveHistory(s, e); }
    hide Enabled, Next;
  }

  /** The address an event asks rest for. */
  function Rester(s: State, e: Event): string
    requires Enabled(s, e) && (e.Release? || e.ReleaseAgain? || e.ReleaseStray?)
  {
    if e.Release? then s.held[Given(e.node, e.key)].pn.vpcIp
    else if e.ReleaseStray? then e.pn.vpcIp
    else s.held[Cooling(e.node, e.key)].pn.vpcIp
  }

  lemma StaysSheltered(s: State, e: Event, ip: string, until: int)
    requires Inv(s) && Enabled(s, e) && Sheltered(s, ip, until) && until > s.clock
    requires e.Drop? && e.outcome.Deleted? ==> InHand(s, e.t).vpcIp != ip
    requires e.ReleaseAgain? && e.ok ==> Rester(s, e) != ip
    requires ip in s.leaked ==> ip in Next(s, e).leaked
    ensures Sheltered(Next(s, e), ip, until)
  {
    hide Inv, Next, Shelters;
    if ip !in s.leaked {
      var p :| p in s.held && s.held[p].pn.vpcIp == ip && Shelters(s, p, until);
      StillSheltered(s, e, p, until);
    }
  }

  /** An event keeps every resting address out of circulation exactly when it does not cut a rest short. */
  lemma {:induction false} StepKeepsTimedIff(s: State, e: Event)
    requires Inv(s) && Timed(s) && Enabled(s, e) && Faithful(e)
    ensures Timed(Next(s, e)) <==> !CutsRest(s, e)
  {
    if CutsRest(s, e) { CutIsExposed(s, e); } else { UncutStaysTimed(s, e); }
  }

  lemma {:induction false} UncutStaysTimed(s: State, e: Event)
    requires Inv(s) && Timed(s) && Enabled(s, e) && Faithful(e) && !CutsRest(s, e)
    ensures Timed(Next(s, e))
  {
    assert !(e.ReleaseStatic? && !e.found);
    History(s, e);
    if e.ReleaseStray? && e.ok { StrayRests(s, e); } else if AsksRest(e) { ReleaseRests(s, e); }
    if e.Drop? { assert Hand(e.t) in s.held; }
    hide Enabled, Next, Inv, Shelters;
    var s' := Next(s, e);
    forall ip | Resting(s', ip) ensures Sheltered(s', ip, s'.notBefore[ip]) {
      if !(AsksRest(e) && ip == Rester(s, e)) { StaysSheltered(s, e, ip, s.notBefore[ip]); }
    }
  }

  /** The record whose address loses its rest. */
  function CutRecord(s: State, e: Event): PodNetwork
    requires Enabled(s, e) && CutsRest(s, e)
  {
    if e.Drop? then InHand(s, e.t) else e.pn
  }

  lemma CutIsExposed(s: State, e: Event)
    requires Inv(s) && Enabled(s, e) && CutsRest(s, e)
    ensures var ip, s' := CutRecord(s, e).vpcIp, Next(s, e);
            Resting(s', ip) && !Sheltered(s', ip, s'.notBefore[ip]) && ip !in s'.leased
            && WellFormed(CutRecord(s, e)) && forall p | p in s'.held :: s'.held[p].pn.vpcIp != ip
  {
    hide NextOfClaim, MayClaim, NextOfHandOut, MayHandOut;
    if e.Drop? { assert s.held[Hand(e.t)].pn == InHand(s, e.t); }
  }

  /** Nothing keeps an address whose rest was cut short from being allocated to any node at once. */
  lemma CutAddressCanBeReissued(s: State, e: Event, node: string) returns (e': Event)
    requires Inv(s) && Enabled(s, e) && CutsRest(s, e)
    ensures Enabled(Next(s, e), e') && e'.Allocate? && e'.node == node && Faithful(e')
    ensures var ip, s' := CutRecord(s, e).vpcIp, Next(Next(s, e), e');
            Hand(e'.t) in s'.held && InHand(s', e'.t).vpcIp == ip && Resting(s', ip)
  {
    CutIsExposed(s, e);
    var s', pn := Next(s, e), CutRecord(s, e).(recycled := false);
    assert WellFormed(pn);
    var t := FreshThread(s');
    e' := Allocate(t, node, pn.subnetId, false, pn);
    hide CutsRest, CutRecord, NextOfMove, MayMove;
  }

  /** After a failed cooldown write the fallback delete decides: the address goes on resting, or is lost for everybody,
      exactly when the delete does not succeed. */
  lemma FailedWriteRestsIff(s: State, t: nat, outcome: Outcome)
    requires Inv(s) && Enabled(s, Retire(t, false))
    ensures var s1 := Next(s, Retire(t, false));
            && Enabled(s1, Drop(t, outcome))
            && (Sheltered(Next(s1, Drop(t, outcome)), InHand(s, t).vpcIp, PhaseOf(s, t).over) <==> !outcome.Deleted?)
  {
    var s1 := Next(s, Retire(t, false));
    WriteKeepsInv(s, Retire(t, false));
    FailedRetireShelters(s, t);
    if outcome.Deleted? { DropExposes(s1, t); } else { DropLeaks(s1, t, outcome); }
  }

  lemma DropExposes(s: State, t: nat)
    requires Inv(s) && Enabled(s, Drop(t, Deleted))
    ensures var ip, s' := InHand(s, t).vpcIp, Next(s, Drop(t, Deleted));
            ip !in s'.leaked && forall p | p in s'.held :: s'.held[p].pn.vpcIp != ip
  {
  }

  // ---------------------------------------------------------------- whole runs

  /** No event of the run cuts a rest short. */
  ghost predicate RestsKept(init: State, run: seq<Event>)
    requires IsRun(init, run)
  {
    |run| == 0 || (RestsKept(init, run[..|run| - 1]) && !CutsRest(After(init, run[..|run| - 1]), run[|run| - 1]))
  }

  /** In every state of the run the resting addresses are out of circulation. */
  ghost predicate AlwaysTimed(init: State, run: seq<Event>)
    requires IsRun(init, run)
  {
    Timed(After(init, run)) && (|run| == 0 || AlwaysTimed(init, run[..|run| - 1]))
  }

  lemma {:induction false} RunKeepsTimedIff(init: State, run: seq<Event>)
    requires Inv(init) && Timed(init) && IsRun(init, run) && Disciplined(init, run)
    ensures AlwaysTimed(init, run) <==> RestsKept(init, run)
  {
    if |run| > 0 {
      var past := run[..|run| - 1];
      RunKeepsTimedIff(init, past);
      RunKeepsInv(init, past);
      if AlwaysTimed(init, past) { StepKeepsTimedIff(After(init, past), run[|run| - 1]); }
    }
  }

  /** COOLDOWN. An address in any pool, pod or hand, other than the hand that is about to put it into the cooldown set
      or to delete it, is past the CooldownOver of its last release: nobody is given an address, locally or by lending,
      before that time. */
  lemma NobodyGetsARestingAddress(init: State, run: seq<Event>, s: State, p: Place)
    requires Reaches(init, run, s) && RestsKept(init, run)
    requires p in s.held && !p.Cooling?
    ensures (p.Hand? ==>
              p.thread in s.threads && !PhaseOf(s, p.thread).Retiring? && !PhaseOf(s, p.thread).Dropping?) ==>
              !Resting(s, s.held[p].pn.vpcIp)
  {
    RunKeepsInv(init, run);
    RunKeepsTimedIff(init, run);
    var ip := s.held[p].pn.vpcIp;
    if Resting(s, ip) {
      assert Sheltered(s, ip, s.notBefore[ip]);
      var q :| q in s.held && s.held[q].pn.vpcIp == ip && Shelters(s, q, s.notBefore[ip]);
      assert q == p;
    }
  }
}
