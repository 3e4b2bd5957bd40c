/** Safety of the allocator over whole runs, and the exact conditions it needs. */
module AllocatorRuns {
  import opened PodNetworks
  import opened Protocol
  import opened Exclusivity
  import opened Footprints

  /** Every answer is faithful, and every Pop deletes the record it has read. */
  ghost predicate Disciplined(init: State, run: seq<Event>)
    requires IsRun(init, run)
  {
    |run| == 0 || (Disciplined(init, run[..|run| - 1])
                   && PopCurrent(After(init, run[..|run| - 1]), run[|run| - 1])
                   && Faithful(run[|run| - 1]))
  }

  lemma {:induction false} RunKeepsInv(init: State, run: seq<Event>)
    requires Inv(init) && IsRun(init, run) && Disciplined(init, run)
    ensures Inv(After(init, run))
  {
    if |run| > 0 {
      RunKeepsInv(init, run[..|run| - 1]);
      StepKeepsInv(After(init, run[..|run| - 1]), run[|run| - 1]);
    }
  }

  /** The run leads from an empty cluster to `s`. */
  ghost predicate Reaches(init: State, run: seq<Event>, s: State) {
    && init == Empty(init.clock, init.period)
    && IsRun(init, run) && Disciplined(init, run)
    && s == After(init, run)
  }

  /** EXCLUSIVITY. In every reachable state of any number of nodes no address is in two of all
      pools, cooldown sets, hands (lending replies included), dynamic pods and claims. */
  lemma NoAddressInTwoPlaces(init: State, run: seq<Event>, s: State)
    requires Reaches(init, run, s)
    ensures forall p, q | p in s.held && q in s.held && p != q :: s.held[p].pn.vpcIp != s.held[q].pn.vpcIp
  {
    RunKeepsInv(init, run);
  }

  /** HOMOGENEITY. A pool only ever holds addresses of its own subnet, whoever put them there;
      so an address popped, borrowed or allocated for a request is of the requested subnet. */
  lemma PoolsAreHomogeneous(init: State, run: seq<Event>, s: State, p: Place, t: nat)
    requires Reaches(init, run, s)
    ensures p.Pool? && p in s.held ==> s.held[p].pn.subnetId == p.subnet && p.key == ReservedKey(s.held[p].pn)
    ensures t in s.threads && (PhaseOf(s, t).Ready? || PhaseOf(s, t).Lent?) ==>
              Hand(t) in s.held && InHand(s, t).subnetId == PhaseOf(s, t).want
  {
    RunKeepsInv(init, run);
    if t in s.threads { assert ThreadOk(s, t); }
  }

  // ---------------------------------------------------------------- conservation

  /** The exits through which an address is forgotten while the VPC still leases it. */
  predicate LeakExit(s: State, e: Event) {
    || e.ReplyLost?
    || (e.See? && e.sight.Missing?)
    || (e.PushBack? && !e.ok)
    || (e.Drop? && !e.outcome.Deleted?)
    || (e.TrimDelete? && e.outcome.Absent?)
    || (e.CreateClaim? && e.result.Lost?)
    || e.ReleaseSkipped?
    || (e.ReleaseDirect? && e.outcome.Absent?)
    || (e.Crash? && Hand(e.t) in s.held)
  }

  function LeakPlace(e: Event): Place
    requires !Threadless(e) || e.ReleaseSkipped? || e.ReleaseDirect?
  {
    if e.ReleaseSkipped? || e.ReleaseDirect? then Given(e.node, e.key) else Hand(e.t)
  }

  /** A pod gives an address back that had leaked: it starts its cooldown, or it is deleted. */
  predicate Recovers(e: Event) {
    e.ReleaseStray? && e.at.Forgotten? && (e.ok || e.outcome.Deleted?)
  }

  lemma LeakPlaceHeld(s: State, e: Event)
    requires Enabled(s, e) && LeakExit(s, e)
    ensures (!Threadless(e) || e.ReleaseSkipped? || e.ReleaseDirect?) && LeakPlace(e) in s.held
  {
  }

  lemma LeakedByClaim(s: State, e: Event)
    requires OfClaim(e) && Enabled(s, e)
    ensures Next(s, e).leaked == if LeakExit(s, e) then s.leaked + {InHand(s, e.t).vpcIp} else s.leaked
  {
  }

  lemma LeakedByPlugin(s: State, e: Event)
    requires OfPlugin(e) && Enabled(s, e) && Faithful(e)
    ensures LeakExit(s, e) ==> e.ReleaseDirect? && Given(e.node, e.key) in s.held
    ensures Next(s, e).leaked ==
              if LeakExit(s, e) then s.leaked + {s.held[Given(e.node, e.key)].pn.vpcIp}
              else if Recovers(e) then s.leaked - {e.pn.vpcIp} else s.leaked
  {
  }

  /** What an event adds to the leaked addresses, and takes from them. */
  lemma LeakedNext(s: State, e: Event)
    requires Enabled(s, e) && Faithful(e)
    requires LeakExit(s, e) ==> (!Threadless(e) || e.ReleaseSkipped? || e.ReleaseDirect?) && LeakPlace(e) in s.held
    ensures Next(s, e).leaked ==
              if LeakExit(s, e) then s.leaked + {s.held[LeakPlace(e)].pn.vpcIp}
              else if Recovers(e) then s.leaked - {e.pn.vpcIp} else s.leaked
  {
    if OfClaim(e) { LeakedByClaim(s, e); } else if OfPlugin(e) { LeakedByPlugin(s, e); }
  }

  /** An event leaks an address exactly when it is one of the named exits, and a leaked address comes back exactly when
      its pod gives it back a second time. */
  lemma LeaksAreNamed(s: State, e: Event)
    requires Inv(s) && Enabled(s, e) && Faithful(e)
    ensures !(Next(s, e).leaked <= s.leaked) <==> LeakExit(s, e)
    ensures !(s.leaked <= Next(s, e).leaked) <==> Recovers(e)
  {
    if LeakExit(s, e) { LeakPlaceHeld(s, e); }
    if Recovers(e) { assert e.pn.vpcIp in s.leaked; }
    assert forall p | p in s.held :: s.held[p].pn.vpcIp !in s.leaked;
    hide *;
    LeakedNext(s, e);
    if LeakExit(s, e) { assert s.held[LeakPlace(e)].pn.vpcIp in Next(s, e).leaked; }
  }

  /** Claims whose address was deleted in the VPC after a failed conflict check or annotation. */
  function Unbacked(s: State): set<Place> {
    set p | p in s.held && p.Claim? && s.held[p].pn.vpcIp !in s.leased
  }

  lemma IpsOfRest(held: map<Place, Slot>, p: Place)
    requires p in held
    ensures Ips(held) == Ips(held - {p}) + {held[p].pn.vpcIp}
  {
    var rest := held - {p};
    forall ip | ip in Ips(held) ensures ip in Ips(rest) + {held[p].pn.vpcIp} {
      var q :| q in held && held[q].pn.vpcIp == ip;
      assert q != p ==> q in rest && rest[q].pn.vpcIp == ip;
    }
    forall ip | ip in Ips(rest) ensures ip in Ips(held) {
      var q :| q in rest && rest[q].pn.vpcIp == ip;
      assert held[q].pn.vpcIp == ip;
    }
  }

  lemma {:induction false} IpsCount(held: map<Place, Slot>)
    requires Exclusive(held)
    ensures |Ips(held)| == |held|
  {
    if held == map[] {
      assert Ips(held) == {};
    } else {
      var p :| p in held;
      var rest := held - {p};
      assert held.Keys == rest.Keys + {p};
      assert held[p].pn.vpcIp !in Ips(rest);
      IpsCount(rest);
      IpsOfRest(held, p);
      hide Ips, Exclusive;
    }
  }

  lemma LeasedByPlaces(s: State, loose: map<Place, Slot>)
    requires Exclusive(s.held) && Conserved(s)
    requires loose == map p | p in Unbacked(s) :: s.held[p]
    ensures s.leased == (Ips(s.held) - Ips(loose)) + s.leaked
  {
    assert forall ip | ip in Ips(loose) :: ip !in s.leased;
    forall ip | ip in Ips(s.held) && ip !in s.leased ensures ip in Ips(loose) {
      var p :| p in s.held && s.held[p].pn.vpcIp == ip;
      assert loose[p].pn.vpcIp == ip;
    }
  }

  lemma SubmapIps(held: map<Place, Slot>, part: map<Place, Slot>)
    requires part.Keys <= held.Keys && forall p | p in part :: part[p] == held[p]
    ensures Ips(part) <= Ips(held)
  {
    forall ip | ip in Ips(part) ensures ip in Ips(held) {
      var p :| p in part && part[p].pn.vpcIp == ip;
      assert held[p].pn.vpcIp == ip;
    }
  }

  lemma StateCounts(s: State)
    requires Exclusive(s.held) && Conserved(s)
    ensures |s.leased| + |Unbacked(s)| == |s.held| + |s.leaked|
  {
    var loose := map p | p in Unbacked(s) :: s.held[p];
    assert loose.Keys == Unbacked(s);
    assert Ips(s.held) !! s.leaked;
    IpsCount(s.held);
    IpsCount(loose);
    SubmapIps(s.held, loose);
    LeasedByPlaces(s, loose);
    hide *;
    assert |Ips(s.held) - Ips(loose)| == |Ips(s.held)| - |Ips(loose)|;
  }

  /** CONSERVATION. Leased addresses and places match one to one, up to leaked addresses and
      unbacked claims. */
  lemma CountsAddUp(init: State, run: seq<Event>, s: State)
    requires Reaches(init, run, s)
    ensures |s.leased| + |Unbacked(s)| == |s.held| + |s.leaked|
  {
    RunKeepsInv(init, run);
    StateCounts(s);
  }

  /** The run takes none of the leaking exits. */
  ghost predicate LeakFree(init: State, run: seq<Event>)
    requires IsRun(init, run)
  {
    |run| == 0 || (LeakFree(init, run[..|run| - 1]) && !LeakExit(After(init, run[..|run| - 1]), run[|run| - 1]))
  }

  /** The last leaking exit of the address was not made good. */
  ghost predicate Mislaid(init: State, run: seq<Event>, ip: string)
    requires IsRun(init, run)
  {
    |run| > 0 &&
    var past, e := run[..|run| - 1], run[|run| - 1];
    var s := After(init, past);
    if LeakExit(s, e) && Leaks(s, e, ip) then true
    else Mislaid(init, past, ip) && !(Recovers(e) && e.pn.vpcIp == ip)
  }

  predicate Leaks(s: State, e: Event, ip: string)
    requires Enabled(s, e) && LeakExit(s, e)
  {
    LeakPlaceHeld(s, e);
    s.held[LeakPlace(e)].pn.vpcIp == ip
  }

  /** An address is leaked exactly when its last leaking exit was not made good; so a run without such an exit leaks
      nothing, and one without a second release leaks nothing only then. */
  lemma {:induction false} LeakedIffMislaid(init: State, run: seq<Event>, s: State, ip: string)
    requires Reaches(init, run, s)
    ensures ip in s.leaked <==> Mislaid(init, run, ip)
  {
    if |run| > 0 {
      var past, e := run[..|run| - 1], run[|run| - 1];
      LeakedIffMislaid(init, past, After(init, past), ip);
      if LeakExit(After(init, past), e) { LeakPlaceHeld(After(init, past), e); }
      LeakedNext(After(init, past), e);
      hide Next, Enabled, LeakExit;
    }
  }

  /** Without a leaking exit the VPC leases exactly what the places hold, over the whole run; with one, something has
      leaked, for good unless a pod gives its address back a second time. */
  lemma {:induction false} NothingLeaksIffNoExit(init: State, run: seq<Event>, s: State)
    requires Reaches(init, run, s)
    ensures LeakFree(init, run) ==> s.leaked == {}
    ensures s.leaked == {} && (forall e | e in run :: !Recovers(e)) ==> LeakFree(init, run)
  {
    if |run| > 0 {
      var past, e := run[..|run| - 1], run[|run| - 1];
      NothingLeaksIffNoExit(init, past, After(init, past));
      RunKeepsInv(init, past);
      LeaksAreNamed(After(init, past), e);
      assert e in run && forall d | d in past :: d in run;
      hide Next, Enabled, LeakExit;
    }
  }

  // ---------------------------------------------------------------- the discipline is needed

  /** Popping an entry that is gone puts a second copy in hand, or an address nobody leases. */
  lemma StalePopBreaksCore(s: State, s': State, t: nat, pn: PodNetwork)
    requires Conserved(s) && Hand(t) !in s.held
    requires s'.held == s.held[Hand(t) := Slot(pn, 0)] && s'.leased == s.leased && s'.leaked == s.leaked
    ensures !Core(s')
  {
    assert s'.held[Hand(t)].pn == pn;
    if pn.vpcIp in Ips(s.held) {
      var r :| r in s.held && s.held[r].pn.vpcIp == pn.vpcIp;
      assert s'.held[r].pn.vpcIp == s'.held[Hand(t)].pn.vpcIp;
    }
  }

  /** A pop keeps exclusivity and conservation exactly when an entry is still under the key it read, at its second
      transaction. */
  lemma PopIsSafeIffEntryStillThere(s: State, t: nat)
    requires Core(s) && Enabled(s, PopDelete(t)) && Hand(t) !in s.held
    requires WellFormed(PhaseOf(s, t).pn) && PhaseOf(s, t).key == ReservedKey(PhaseOf(s, t).pn)
    ensures Core(Next(s, PopDelete(t))) <==> PopFinds(s, PopDelete(t))
  {
    var Thread(node, Popping(job, subnet, key, pn)) := s.threads[t];
    var p, s' := Pool(node, subnet, key), Next(s, PopDelete(t));
    if p in s.held { ReservedKeyInjective(pn, s.held[p].pn); }
    assert p !in s.held ==> s.held - {p} == s.held;
    hide Core;
    if p in s.held {
      MoveKeepsCore(s, p, Hand(t), Slot(pn, 0));
      CoreOfSameBooks(Move(s, p, Hand(t), Slot(pn, 0)), s');
    } else {
      CoreIsConserved(s);
      StalePopBreaksCore(s, s', t, pn);
    }
  }

  /** Every answer of the run is faithful. */
  predicate AllFaithful(run: seq<Event>) {
    |run| == 0 || (AllFaithful(run[..|run| - 1]) && Faithful(run[|run| - 1]))
  }

  /** Every Pop of the run finds an entry under the key it read. */
  ghost predicate PopsFind(init: State, run: seq<Event>)
    requires IsRun(init, run)
  {
    |run| == 0 || (PopsFind(init, run[..|run| - 1]) && PopFinds(After(init, run[..|run| - 1]), run[|run| - 1]))
  }

  /** Exclusivity and conservation hold in every state of the run. */
  ghost predicate AlwaysCore(init: State, run: seq<Event>)
    requires IsRun(init, run)
  {
    Core(After(init, run)) && (|run| == 0 || AlwaysCore(init, run[..|run| - 1]))
  }

  /** THE EXACT DISCIPLINE OF POPS. With faithful answers a run keeps exclusivity and conservation in every state
      exactly when every Pop finds an entry under the key it read. */
  lemma {:induction false} AlwaysCoreIffPopsFind(init: State, run: seq<Event>)
    requires Inv(init) && IsRun(init, run) && AllFaithful(run)
    ensures AlwaysCore(init, run) <==> PopsFind(init, run)
    ensures PopsFind(init, run) ==> Inv(After(init, run))
  {
    if |run| > 0 {
      var past, e := run[..|run| - 1], run[|run| - 1];
      AlwaysCoreIffPopsFind(init, past);
      var s := After(init, past);
      if PopsFind(init, past) {
        if PopFinds(s, e) {
          StepKeepsInv(s, e);
        } else {
          assert ThreadOk(s, e.t);
          PopIsSafeIffEntryStillThere(s, e.t);
        }
      }
    }
  }

  // ---------------------------------------------------------------- keeping pops apart

  /** No two goroutines are between the two transactions of a Pop of the same pool. */
  ghost predicate PopsApart(s: State) {
    forall t, u | t in s.threads && u in s.threads && t != u
                  && PhaseOf(s, t).Popping? && PhaseOf(s, u).Popping? ::
      s.threads[t].node != s.threads[u].node || PhaseOf(s, t).subnet != PhaseOf(s, u).subnet
  }

  /** What every goroutine between the transactions of a Pop has read is still there. */
  ghost predicate ReadsCurrent(s: State) {
    forall t | t in s.threads && PhaseOf(s, t).Popping? ::
      PopPlace(s, t) in s.held && s.held[PopPlace(s, t)].pn == PhaseOf(s, t).pn
  }

  lemma WritesFootprint(s: State, e: Event)
    requires Enabled(s, e) && (e.Deliver? || e.PutBack? || e.PushBack? || e.Retire?)
    ensures At(s, e.t) && Footprint(s, e) <= {Hand(e.t), Target(s, e.t)}
  {
    hide Target, NextOfClaim, MayClaim, NextOfHandOut, MayHandOut, NextOfPlugin, MayPlugin;
  }

  lemma WritesSpareEntries(s: State, e: Event, p: Place)
    requires Inv(s) && Enabled(s, e) && p in s.held && p.Pool? && (e.Deliver? || e.PutBack? || e.PushBack? || e.Retire?)
    ensures p !in Footprint(s, e)
  {
    WritesFootprint(s, e);
    TargetIsFree(s, e.t);
    hide Inv, Target, Enabled, Footprint;
  }

  lemma OthersSpareEntries(s: State, e: Event, p: Place)
    requires Enabled(s, e) && p.Pool? && !(e.Deliver? || e.PutBack? || e.PushBack? || e.Retire?)
    requires !(e.PopDelete? && PopPlace(s, e.t) == p)
    ensures p !in Footprint(s, e)
  {
    hide Target, ReservedKey, WellFormed, Find;
  }

  /** Nothing but the second transaction of a Pop takes an entry out of a pool or changes it. */
  lemma PoolEntryStays(s: State, e: Event, p: Place)
    requires Inv(s) && Enabled(s, e) && p in s.held && p.Pool? && !(e.PopDelete? && PopPlace(s, e.t) == p)
    ensures p !in Footprint(s, e)
  {
    hide *;
    if e.Deliver? || e.PutBack? || e.PushBack? || e.Retire? { WritesSpareEntries(s, e, p); }
    else { OthersSpareEntries(s, e, p); }
  }

  lemma ApartStaysCurrent(s: State, e: Event)
    requires Inv(s) && Enabled(s, e) && ReadsCurrent(s) && PopsApart(s)
    ensures ReadsCurrent(Next(s, e)) && PopCurrent(s, e)
  {
    hide Next, Inv, Footprint;
    if e.PopDelete? { assert e.t in s.threads && PhaseOf(s, e.t).Popping?; }
    hide Enabled;
    var s' := Next(s, e);
    forall t | t in s'.threads && PhaseOf(s', t).Popping?
      ensures PopPlace(s', t) in s'.held && s'.held[PopPlace(s', t)].pn == PhaseOf(s', t).pn
    {
      if Acts(e, t) {
        OnlyReadsPop(s, e, t);
      } else {
        ThreadFrame(s, e, t);
        if e.PopDelete? { assert PopPlace(s, e.t) != PopPlace(s, t); }
        PoolEntryStays(s, e, PopPlace(s, t));
        Frame(s, e, PopPlace(s, t));
      }
    }
  }

  lemma OnlyReadsPop(s: State, e: Event, t: nat)
    requires Enabled(s, e) && Acts(e, t) && t in Next(s, e).threads && PhaseOf(Next(s, e), t).Popping?
    ensures var s' := Next(s, e);
            PopPlace(s', t) in s'.held && s'.held[PopPlace(s', t)].pn == PhaseOf(s', t).pn
  {
    if OfClaim(e) { ClaimsDoNotPop(s, e, t); }
    else if OfHandOut(e) { HandOutsPop(s, e, t); }
    else { MovesDoNotPop(s, e, t); }
    hide Enabled, Next;
  }

  lemma ClaimsDoNotPop(s: State, e: Event, t: nat)
    requires OfClaim(e) && Enabled(s, e) && Acts(e, t) && t in Next(s, e).threads
    ensures !PhaseOf(Next(s, e), t).Popping?
  {
    hide NextOfHandOut, MayHandOut, NextOfPlugin, MayPlugin, NextOfMove, MayMove;
  }

  lemma MovesDoNotPop(s: State, e: Event, t: nat)
    requires !OfClaim(e) && !OfHandOut(e) && Enabled(s, e) && Acts(e, t) && t in Next(s, e).threads
    ensures !PhaseOf(Next(s, e), t).Popping?
  {
    hide NextOfClaim, MayClaim, NextOfHandOut, MayHandOut, NextOfPlugin, MayPlugin;
  }

  lemma HandOutsPop(s: State, e: Event, t: nat)
    requires OfHandOut(e) && Enabled(s, e) && Acts(e, t) && t in Next(s, e).threads
    ensures var s' := Next(s, e);
            PhaseOf(s', t).Popping? ==> PopPlace(s', t) in s'.held && s'.held[PopPlace(s', t)].pn == PhaseOf(s', t).pn
  {
    hide NextOfClaim, MayClaim, NextOfPlugin, MayPlugin, NextOfMove, MayMove, WellFormed;
  }

  ghost predicate AlwaysApart(init: State, run: seq<Event>)
    requires IsRun(init, run)
  {
    |run| == 0 || (AlwaysApart(init, run[..|run| - 1]) && PopsApart(After(init, run[..|run| - 1])))
  }

  /** Whoever keeps the pops of one pool apart, as a manager loop alone would, is disciplined. */
  lemma {:induction false} ApartIsDisciplined(init: State, run: seq<Event>)
    requires Inv(init) && ReadsCurrent(init) && IsRun(init, run) && AllFaithful(run) && AlwaysApart(init, run)
    ensures Disciplined(init, run) && ReadsCurrent(After(init, run))
  {
    if |run| > 0 {
      var past := run[..|run| - 1];
      ApartIsDisciplined(init, past);
      RunKeepsInv(init, past);
      ApartStaysCurrent(After(init, past), run[|run| - 1]);
    }
  }

  lemma CoreIsConserved(s: State)
    requires Core(s)
    ensures Conserved(s)
  {
  }

  /** Releasing a static pod keeps them exactly when the claim lookup finds the claim:
      any lookup error makes the code treat the pod as a dynamic one. */
  lemma StaticReleaseIsSafeIffClaimFound(s: State, e: Event)
    requires Core(s) && e.ReleaseStatic? && Enabled(s, e) && Hand(e.t) !in s.held
    ensures Core(Next(s, e)) <==> e.found
  {
    hide NextOfPlugin, MayPlugin, NextOfHandOut, MayHandOut, NextOfMove, MayMove;
    if !e.found {
      var s' := Next(s, e);
      assert s'.held[Claim(e.ns, e.name)].pn.vpcIp == s'.held[Hand(e.t)].pn.vpcIp;
    }
  }

  /** A repeated release of a cooling address keeps them exactly when its cooldown write succeeds
      or the fallback delete does not. */
  lemma RepeatedReleaseIsSafeIffWritten(s: State, e: Event)
    requires Core(s) && e.ReleaseAgain? && Enabled(s, e)
    ensures Core(Next(s, e)) <==> e.ok || !e.outcome.Deleted?
  {
    ReleaseAgainNext(s, e);
    hide Enabled, Next;
    var p, s' := Cooling(e.node, e.key), Next(s, e);
    if e.ok {
      var slot := Slot(Stamp(s.held[p].pn, s.clock), s.clock + s.period);
      MoveKeepsCore(s, p, p, slot);
      CoreOfSameBooks(Move(s, p, p, slot), s');
    } else if e.outcome.Deleted? {
      assert s'.held[p].pn.vpcIp !in s'.leased;
    }
  }

  /** Releasing an address that the pod lost before keeps them exactly when the address had leaked, or the write fails
      and no delete hits an address at a place other than a claim, which stays when its address goes. */
  lemma StrayReleaseIsSafeIff(s: State, e: Event)
    requires Core(s) && e.ReleaseStray? && Enabled(s, e)
    ensures Core(Next(s, e)) <==> Faithful(e)
  {
    StrayNext(s, e);
    hide Enabled, Next;
    var s', p := Next(s, e), Cooling(e.node, ReservedKey(e.pn));
    if Faithful(e) {
      StrayKeepsCore(s, e);
    } else if e.ok {
      assert s'.held[p].pn.vpcIp == e.pn.vpcIp;
      if e.at.Elsewhere? {
        var r :| r in s.held && !r.Claim? && s.held[r].pn.vpcIp == e.pn.vpcIp;
        assert s'.held[r].pn.vpcIp == s'.held[p].pn.vpcIp;
      } else if e.pn.vpcIp in s.leased {
        assert e.pn.vpcIp in Ips(s.held);
        var r :| r in s.held && s.held[r].pn.vpcIp == e.pn.vpcIp;
        assert s'.held[r].pn.vpcIp == s'.held[p].pn.vpcIp;
      }
    } else {
      var r :| r in s.held && !r.Claim? && s.held[r].pn.vpcIp == e.pn.vpcIp;
      assert s'.held[r].pn.vpcIp !in s'.leased;
    }
  }
}
