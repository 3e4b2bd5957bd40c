/** A release that arrives late: after a first one, and after anything that others did in between. */
module LateReleases {
  import opened PodNetworks
  import opened Protocol
  import opened Exclusivity
  import opened AllocatorRuns
  import opened Footprints
  import opened NodeSteps
  import opened Releases

  // ---------------------------------------------------------------- one release, wherever the address is

  /** Where a release finds the address: with the pod of this node that has it under its key; in the cooldown set of the
      node; at the claim with the pod's name, with a lease in the VPC to back it or without; at another claim that has
      the lease; or at none of these. */
  datatype Finding = WithPod | Resting | Named(backed: bool) | OtherClaim | Astray(at: Whereabouts)

  /** A claim names the address, and the VPC leases it: a static pod has it, or will have it again. */
  predicate Backed(s: State, ip: string) {
    ip in s.leased && exists p | p in s.held && p.Claim? :: s.held[p].pn.vpcIp == ip
  }

  function Locate(s: State, node: string, pn: PodNetwork, ns: string, name: string): Finding {
    if Given(node, ReservedKey(pn)) in s.held then WithPod
    else if Cooling(node, ReservedKey(pn)) in s.held then Resting
    else if Claims(s, ns, name, pn.vpcIp) then Named(pn.vpcIp in s.leased)
    else if Backed(s, pn.vpcIp) then OtherClaim
    else Astray(Find(s, pn.vpcIp))
  }

  /** A release that breaks neither exclusivity nor conservation there. */
  predicate SafeThere(f: Finding, v: Via) {
    match f
    case WithPod => true
    case Resting => !Deletes(v)
    case Named(_) => !Mistakes(v)
    case OtherClaim => !Written(v)
    case Astray(Forgotten) => true
    case Astray(Gone) => !Written(v)
    case Astray(Elsewhere) => !Written(v) && !Deletes(v)
  }

  /** A release that takes no address from anybody there. */
  predicate SparesThere(f: Finding, v: Via) {
    match f
    case WithPod => Idle(v)
    case Resting => !Deletes(v)
    case Named(backed) => !(backed && Deletes(v))
    case OtherClaim => !Deletes(v)
    case Astray(at) => !(at.Elsewhere? && Deletes(v))
  }

  /** An address at a claim is at no other place. */
  lemma BackedIsGone(s: State, ip: string)
    requires Core(s)
    ensures Backed(s, ip) ==> Find(s, ip).Gone?
  {
    hide ReservedKey, WellFormed;
  }

  lemma AstrayIsSafeIff(s: State, node: string, pn: PodNetwork, v: Via)
    requires Core(s) && WellFormed(pn)
    requires Given(node, ReservedKey(pn)) !in s.held && Cooling(node, ReservedKey(pn)) !in s.held
    ensures Core(FromNobody(s, node, pn, v)) <==> SafeThere(Astray(Find(s, pn.vpcIp)), v)
    ensures Backed(s, pn.vpcIp) ==> Find(s, pn.vpcIp).Gone?
  {
    BackedIsGone(s, pn.vpcIp);
    hide Core, ReservedKey, WellFormed, Find, Backed;
    if Written(v) || Deletes(v) {
      var e := ReleaseStray(node, pn, Find(s, pn.vpcIp), Written(v), Deleted);
      StrayMay(s, node, pn, Written(v), Deleted);
      hide Enabled, Next;
      assert Next(s, e) == FromNobody(s, node, pn, v);
      StrayReleaseIsSafeIff(s, e);
    } else {
      NobodyIdles(s, node, pn, v);
    }
  }

  /** ANY RELEASE. In every state a release keeps exclusivity and conservation exactly as the place of the address and
      the answers say. */
  lemma ReleaseIsSafeIff(s: State, node: string, pn: PodNetwork, ns: string, name: string, v: Via)
    requires Core(s) && WellFormed(pn)
    ensures Core(Released(s, node, pn, ns, name, v)) <==> SafeThere(Locate(s, node, pn, ns, name), v)
  {
    hide Core, FromHolder, FromCooling, FromClaim, FromNobody, ReservedKey, WellFormed, Find, Backed, Written,
         Deletes, Mistakes;
    match Locate(s, node, pn, ns, name)
    case WithPod => HolderReleaseIsSafe(s, node, pn, v);
    case Resting => CoolingReleaseIsSafeIff(s, node, pn, v);
    case Named(_) => StaticReleaseIsSafeIff(s, node, pn, ns, name, v);
    case _ => AstrayIsSafeIff(s, node, pn, v);
  }

  /** Every place keeps its address, claims included, and the VPC goes on leasing what it leased for them. */
  ghost predicate Spares(s: State, s': State) {
    forall p | p in s.held ::
      && p in s'.held && s'.held[p].pn.vpcIp == s.held[p].pn.vpcIp
      && (s.held[p].pn.vpcIp in s.leased ==> s.held[p].pn.vpcIp in s'.leased)
  }

  lemma NothingCoolsForClaim(s: State, node: string, ns: string, name: string)
    requires Core(s) && Claim(ns, name) in s.held
    ensures Cooling(node, ReservedKey(s.held[Claim(ns, name)].pn)) !in s.held
  {
    var pn := s.held[Claim(ns, name)].pn;
    if Cooling(node, ReservedKey(pn)) in s.held { KeyTells(s, Cooling(node, ReservedKey(pn)), pn); }
  }

  /** WHOM A RELEASE ROBS. In every state a release takes an address from somebody, be it an entry of a database, a pod,
      a hand or the lease of a claim, exactly as the place of the address and the answers say. */
  lemma ReleaseSparesIff(s: State, node: string, pn: PodNetwork, ns: string, name: string, v: Via)
    requires Core(s) && WellFormed(pn)
    ensures Spares(s, Released(s, node, pn, ns, name, v)) <==> SparesThere(Locate(s, node, pn, ns, name), v)
  {
    if Claims(s, ns, name, pn.vpcIp) { NothingCoolsForClaim(s, node, ns, name); }
    hide ReservedKey, WellFormed, Core, Find, Backed, FromHolder, FromCooling, FromClaim, FromNobody, Spares, Idle,
         Deletes;
    match Locate(s, node, pn, ns, name)
    case WithPod => HolderSparesIff(s, node, pn, v);
    case Resting => CoolingSparesIff(s, node, pn, v);
    case Named(_) => ClaimSparesIff(s, node, ns, name, v);
    case _ => NobodySparesIff(s, node, pn, v);
  }

  lemma HolderSparesIff(s: State, node: string, pn: PodNetwork, v: Via)
    requires Given(node, ReservedKey(pn)) in s.held
    ensures Spares(s, FromHolder(s, node, pn, v)) <==> Idle(v)
  {
    hide ReservedKey;
    if !Idle(v) { assert Given(node, ReservedKey(pn)) !in FromHolder(s, node, pn, v).held; }
  }

  lemma CoolingSparesIff(s: State, node: string, pn: PodNetwork, v: Via)
    requires Core(s) && Cooling(node, ReservedKey(pn)) in s.held
    ensures Spares(s, FromCooling(s, node, pn, v)) <==> !Deletes(v)
  {
    hide ReservedKey, WellFormed, Exclusive;
    var q := Cooling(node, ReservedKey(pn));
    assert s.held[q].pn.vpcIp in s.leased;
    if Deletes(v) { assert s.held[q].pn.vpcIp !in FromCooling(s, node, pn, v).leased; }
  }

  lemma ClaimSparesIff(s: State, node: string, ns: string, name: string, v: Via)
    requires Claim(ns, name) in s.held && Cooling(node, ReservedKey(s.held[Claim(ns, name)].pn)) !in s.held
    ensures Spares(s, FromClaim(s, node, ns, name, v)) <==>
            !(s.held[Claim(ns, name)].pn.vpcIp in s.leased && Deletes(v))
  {
    hide ReservedKey;
    var ip := s.held[Claim(ns, name)].pn.vpcIp;
    if ip in s.leased && Deletes(v) { assert ip !in FromClaim(s, node, ns, name, v).leased; }
  }

  lemma NobodySparesIff(s: State, node: string, pn: PodNetwork, v: Via)
    requires Core(s) && Cooling(node, ReservedKey(pn)) !in s.held
    ensures Spares(s, FromNobody(s, node, pn, v)) <==>
            !(Deletes(v) && (Backed(s, pn.vpcIp) || Find(s, pn.vpcIp).Elsewhere?))
  {
    hide ReservedKey, WellFormed, Exclusive;
    var ip, s' := pn.vpcIp, FromNobody(s, node, pn, v);
    if Deletes(v) {
      assert s'.held == s.held && s'.leased == s.leased - {ip};
      if Backed(s, ip) {
        var p :| p in s.held && p.Claim? && s.held[p].pn.vpcIp == ip;
      } else if Find(s, ip).Elsewhere? {
        var p :| p in s.held && !p.Claim? && s.held[p].pn.vpcIp == ip;
        assert ip in s.leased;
      } else {
        forall p | p in s.held && s.held[p].pn.vpcIp in s.leased ensures s.held[p].pn.vpcIp != ip {}
      }
    }
  }

  // ---------------------------------------------------------------- after a first release

  lemma {:induction false} PathKeepsInv(s: State, steps: seq<Event>, s': State)
    requires Inv(s) && Path(s, steps, s') && forall e | e in steps :: Faithful(e) && !e.PopDelete?
    ensures Inv(s')
    decreases |steps|
  {
    hide Inv, Enabled, Next, Faithful;
    if steps != [] {
      assert steps[0] in steps;
      StepKeepsInv(s, steps[0]);
      PathKeepsInv(Next(s, steps[0]), steps[1..], s');
    }
  }

  /** The invariants survive a release by the holder, whatever the answers. */
  lemma HolderReleaseKeepsInv(s: State, node: string, pn: PodNetwork, ns: string, name: string, v: Via)
    requires Inv(s) && WellFormed(pn) && Given(node, ReservedKey(pn)) in s.held
    ensures Inv(Released(s, node, pn, ns, name, v))
  {
    assert KeyFits(s, node, pn);
    var t := FreshIdler(s);
    StepsLeadToReleased(s, node, t, pn, ns, name, v);
    assert forall e | e in Steps(s, node, t, pn, ns, name, v) :: Faithful(e) && !e.PopDelete?;
    hide Inv, Path, Released, Steps, ReservedKey, WellFormed, Faithful;
    PathKeepsInv(s, Steps(s, node, t, pn, ns, name, v), Released(s, node, pn, ns, name, v));
  }

  /** THE LATE RELEASE. A pod gives its address back; then the rest of the cluster does whatever it does, with faithful
      answers; then the same pod's address is released once more. Exclusivity and conservation survive, and nobody else
      loses an address by it, each exactly as the place where the address is by then and the answers say: a pod of the
      node that was given it meanwhile loses it to every release that gets through, and a claim, of whatever name, loses
      its lease to every delete. */
  lemma LateReleaseIsSafeIff(s: State, node: string, pn: PodNetwork, ns: string, name: string, v1: Via,
                             others: seq<Event>, v2: Via)
    requires Inv(s) && WellFormed(pn) && Given(node, ReservedKey(pn)) in s.held && !Idle(v1)
    requires var s1 := Released(s, node, pn, ns, name, v1); IsRun(s1, others) && Disciplined(s1, others)
    ensures var s1 := Released(s, node, pn, ns, name, v1);
            var s2 := After(s1, others);
            var s3, f := Released(s2, node, pn, ns, name, v2), Locate(s2, node, pn, ns, name);
            && Inv(s2) && Given(node, ReservedKey(pn)) !in s1.held
            && (Core(s3) <==> SafeThere(f, v2))
            && (Spares(s2, s3) <==> SparesThere(f, v2))
  {
    HolderReleaseKeepsInv(s, node, pn, ns, name, v1);
    AfterFirst(s, node, pn, ns, name, v1);
    var s1 := Released(s, node, pn, ns, name, v1);
    RunKeepsInv(s1, others);
    var s2 := After(s1, others);
    assert Core(s2);
    hide Inv, Core, Released, Locate, ReservedKey, WellFormed, Spares, IsRun, After, Disciplined;
    ReleaseIsSafeIff(s2, node, pn, ns, name, v2);
    ReleaseSparesIff(s2, node, pn, ns, name, v2);
  }

  /** The event hands the address under this key to a pod of the node. */
  predicate HandsOut(s: State, e: Event, node: string, key: string)
    requires Enabled(s, e)
  {
    (e.Deliver? && e.ok && At(s, e.t) && Target(s, e.t) == Given(node, key))
    || (e.AssignDirect? && e.node == node && ReservedKey(e.pn) == key)
  }

  ghost predicate HandedOutIn(init: State, run: seq<Event>, node: string, key: string)
    requires IsRun(init, run)
  {
    |run| > 0 && (HandedOutIn(init, run[..|run| - 1], node, key)
                  || HandsOut(After(init, run[..|run| - 1]), run[|run| - 1], node, key))
  }

  /** When the late release finds a pod with the address, it was handed out again in the meantime. */
  lemma {:induction false} FoundWithAnotherPod(init: State, run: seq<Event>, node: string, key: string)
    requires IsRun(init, run) && Given(node, key) !in init.held && Given(node, key) in After(init, run).held
    ensures HandedOutIn(init, run, node, key)
  {
    if |run| > 0 {
      var before, e := run[..|run| - 1], run[|run| - 1];
      if Given(node, key) in After(init, before).held {
        FoundWithAnotherPod(init, before, node, key);
      } else {
        OnlyHandOutsGive(After(init, before), e, node, key);
      }
    }
  }

  lemma PutDownElsewhere(s: State, e: Event)
    requires Enabled(s, e) && (e.PutBack? || e.PushBack? || e.Retire?)
    ensures At(s, e.t) && !Target(s, e.t).Given?
  {
  }

  lemma OnlyHandOutsGive(s: State, e: Event, node: string, key: string)
    requires Enabled(s, e) && Given(node, key) !in s.held && Given(node, key) in Next(s, e).held
    ensures HandsOut(s, e, node, key)
  {
    var p := Given(node, key);
    if p !in Footprint(s, e) { Frame(s, e, p); }
    hide Next, ReservedKey, WellFormed, Find, Target;
    if e.PutBack? || e.PushBack? || e.Retire? { PutDownElsewhere(s, e); }
  }

  // ---------------------------------------------------------------- a run in which it robs another pod

  /** An event that may be next in a disciplined run. */
  lemma GoesOn(init: State, run: seq<Event>, e: Event)
    requires IsRun(init, run) && Disciplined(init, run) && Enabled(After(init, run), e) && Faithful(e)
    requires PopCurrent(After(init, run), e)
    ensures IsRun(init, run + [e]) && Disciplined(init, run + [e])
    ensures After(init, run + [e]) == Next(After(init, run), e)
  {
    assert (run + [e])[..|run|] == run;
    hide Enabled, Next, Faithful;
  }

  /** The same claims are there. */
  lemma ClaimsStay(s: State, e: Event)
    requires Enabled(s, e) && (e.Tick? || e.Thaw? || e.PutBack?)
    ensures SameClaims(s, Next(s, e))
  {
    hide Next;
    forall ns, name ensures ClaimFree(s, ns, name) <==> ClaimFree(Next(s, e), ns, name) {
      NoClaimWritten(s, e, ns, name);
      Frame(s, e, Claim(ns, name));
    }
  }

  lemma NoClaimWritten(s: State, e: Event, ns: string, name: string)
    requires Enabled(s, e) && (e.Tick? || e.Thaw? || e.PutBack?)
    ensures Claim(ns, name) !in Footprint(s, e)
  {
    hide ReservedKey;
  }

  /** The rest of a cooldown and the way of the address into its pool. */
  lemma Cools(s: State, node: string, key: string, t: nat) returns (run: seq<Event>, s': State)
    requires Cooling(node, key) in s.held && Idler(s, t) && key == ReservedKey(s.held[Cooling(node, key)].pn)
    ensures IsRun(s, run) && Disciplined(s, run) && s' == After(s, run) && t !in s'.threads && SameClaims(s, s')
    ensures var pn := s.held[Cooling(node, key)].pn;
            Pool(node, pn.subnetId, key) in s'.held && s'.held[Pool(node, pn.subnetId, key)].pn == pn
  {
    var slot := s.held[Cooling(node, key)];
    var late := if s.clock <= slot.over then slot.over else s.clock;
    TickEffect(s, late);
    var s1 := Next(s, Tick(late));
    var e1, e2, e3 := Tick(late), Thaw(t, node, key), PutBack(t, true);
    assert IsRun(s, []) && Disciplined(s, []) && After(s, []) == s;
    hide Enabled, Next, IsRun, After, Disciplined, ReservedKey, Has;
    GoesOn(s, [], e1);
    ThawEffect(s1, t, node, key);
    GoesOn(s, [e1], e2);
    var s2 := Next(s1, e2);
    PutDownEffect(s2, t, node, slot.pn, Returning, e3);
    GoesOn(s, [e1, e2], e3);
    assert [] + [e1] == [e1] && [e1] + [e2] == [e1, e2];
    ClaimsStay(s, e1);
    ClaimsStay(s1, e2);
    ClaimsStay(s2, e3);
    run, s' := [e1, e2] + [e3], Next(s2, e3);
  }

  lemma TickEffect(s: State, now: int)
    requires s.clock <= now
    ensures Enabled(s, Tick(now)) && Next(s, Tick(now)) == s.(clock := now)
  {
  }

  /** The hand-out of the address in a pool to a pod, without a probe because it cooled on this node. */
  lemma GoesToAnotherPod(s: State, run: seq<Event>, node: string, key: string, pn: PodNetwork, t: nat)
      returns (more: seq<Event>)
    requires IsRun(s, run) && Disciplined(s, run) && t !in After(s, run).threads
    requires var p := Pool(node, pn.subnetId, key); p in After(s, run).held && After(s, run).held[p].pn == pn
    requires pn.recycled && key == ReservedKey(pn)
    ensures IsRun(s, more) && Disciplined(s, more) && Given(node, key) in After(s, more).held
  {
    var want := pn.subnetId;
    var job, ready := Add(want, false), Ready(want, false);
    hide Enabled, Next, IsRun, After, Disciplined, ReservedKey, Has;
    var s0 := After(s, run);
    PopEffect(s0, t, node, want, key, job);
    GoesOn(s, run, PopRead(t, node, want, key, job));
    more := run + [PopRead(t, node, want, key, job)];
    GoesOn(s, more, PopDelete(t));
    more := more + [PopDelete(t)];
    InHandEffect(After(s, more), t, node, pn, Fetched(job), See(t, Present));
    GoesOn(s, more, See(t, Present));
    more := more + [See(t, Present)];
    InHandEffect(After(s, more), t, node, pn, Seen(want), SkipVet(t));
    GoesOn(s, more, SkipVet(t));
    more := more + [SkipVet(t)];
    PutDownEffect(After(s, more), t, node, pn, ready, Deliver(t, true));
    GoesOn(s, more, Deliver(t, true));
    more := more + [Deliver(t, true)];
  }

  /** A LATE RELEASE ROBS ANOTHER POD. From every state in which a pod has the address there is a run with faithful
      answers in which the pod's first release is followed by the cooldown, and the address goes to the next pod of the
      node: a second release, repeated because the reply of the first was lost, then puts the next pod's address into
      the cooldown set, and neither exclusivity nor conservation shows it. */
  lemma LateReleaseRobsAnotherPod(s: State, node: string, pn: PodNetwork, ns: string, name: string, v1: Via, v2: Via)
      returns (others: seq<Event>)
    requires Inv(s) && WellFormed(pn) && Given(node, ReservedKey(pn)) in s.held && Written(v1) && Written(v2)
    ensures var s1 := Released(s, node, pn, ns, name, v1);
            && IsRun(s1, others) && Disciplined(s1, others) && HandedOutIn(s1, others, node, ReservedKey(pn))
            && var s2 := After(s1, others);
               var s3 := Released(s2, node, pn, ns, name, v2);
               && Given(node, ReservedKey(pn)) in s2.held && Given(node, ReservedKey(pn)) !in s3.held
               && Cooling(node, ReservedKey(pn)) in s3.held && Core(s3)
  {
    var key, s1 := ReservedKey(pn), Released(s, node, pn, ns, name, v1);
    AfterFirst(s, node, pn, ns, name, v1);
    HolderReleaseKeepsInv(s, node, pn, ns, name, v1);
    var q := Cooling(node, key);
    var record := s1.held[q].pn;
    assert key == ReservedKey(record) && record.recycled;
    var t := FreshIdler(s1);
    hide Inv, Core, Released, Enabled, Next, IsRun, After, Disciplined, ReservedKey, WellFormed;
    var run, s' := Cools(s1, node, key, t);
    others := GoesToAnotherPod(s1, run, node, key, record, t);
    FoundWithAnotherPod(s1, others, node, key);
    LateReleaseIsSafeIff(s, node, pn, ns, name, v1, others, v2);
    WrittenTakes(After(s1, others), node, pn, ns, name, v2);
  }

  lemma WrittenTakes(s: State, node: string, pn: PodNetwork, ns: string, name: string, v: Via)
    requires Given(node, ReservedKey(pn)) in s.held && Written(v)
    ensures var s' := Released(s, node, pn, ns, name, v);
            Given(node, ReservedKey(pn)) !in s'.held && Cooling(node, ReservedKey(pn)) in s'.held
    ensures Locate(s, node, pn, ns, name).WithPod?
  {
    hide ReservedKey;
  }

  /** The address in a pool is taken for a static pod, and a claim created for it. */
  lemma GoesToAClaim(s: State, run: seq<Event>, node: string, key: string, pn: PodNetwork, t: nat, ns: string,
                     name: string) returns (more: seq<Event>)
    requires Inv(s) && IsRun(s, run) && Disciplined(s, run) && t !in After(s, run).threads
    requires var p := Pool(node, pn.subnetId, key); p in After(s, run).held && After(s, run).held[p].pn == pn
    requires ClaimFree(After(s, run), ns, name)
    ensures IsRun(s, more) && Disciplined(s, more) && Claims(After(s, more), ns, name, pn.vpcIp)
    ensures pn.vpcIp in After(s, more).leased
  {
    var want := pn.subnetId;
    var job, created := Add(want, true), CreateClaim(t, ns, name, Created);
    hide Enabled, Next, IsRun, After, Disciplined, ReservedKey, Inv;
    var s0 := After(s, run);
    PopEffect(s0, t, node, want, key, job);
    GoesOn(s, run, PopRead(t, node, want, key, job));
    HandOutKeepsClaims(s0, PopRead(t, node, want, key, job));
    more := run + [PopRead(t, node, want, key, job)];
    var s1 := After(s, more);
    GoesOn(s, more, PopDelete(t));
    HandOutKeepsClaims(s1, PopDelete(t));
    more := more + [PopDelete(t)];
    var s2 := After(s, more);
    RunKeepsInv(s, more);
    HeldIsLeased(s2, Hand(t));
    CreateClaimEffect(s2, t, node, pn, want, ns, name, Created);
    GoesOn(s, more, created);
    CreationKeepsLeases(s2, created);
    more := more + [created];
  }

  lemma HeldIsLeased(s: State, p: Place)
    requires Inv(s) && p in s.held && !p.Claim?
    ensures s.held[p].pn.vpcIp in s.leased
  {
  }

  lemma CreationKeepsLeases(s: State, e: Event)
    requires Enabled(s, e) && e.CreateClaim?
    ensures Next(s, e).leased == s.leased
  {
  }

  /** A LATE RELEASE UNLEASES A CLAIM. From every state in which a pod has the address, and for every claim that is not
      there yet, of the same name or of another, there is a run with faithful answers after which a second release that
      deletes the address takes the lease of that claim: the claim goes on naming an address that its pod has not. */
  lemma LateReleaseUnleasesAClaim(s: State, node: string, pn: PodNetwork, ns: string, name: string, v1: Via, v2: Via,
                                  ns': string, name': string) returns (others: seq<Event>)
    requires Inv(s) && WellFormed(pn) && Given(node, ReservedKey(pn)) in s.held && Written(v1) && Deletes(v2)
    requires ClaimFree(s, ns', name')
    ensures var s1 := Released(s, node, pn, ns, name, v1);
            && IsRun(s1, others) && Disciplined(s1, others)
            && var s2 := After(s1, others);
               var s3 := Released(s2, node, pn, ns, name, v2);
               && Claims(s2, ns', name', pn.vpcIp) && pn.vpcIp in s2.leased
               && Claims(s3, ns', name', pn.vpcIp) && pn.vpcIp !in s3.leased && Core(s3)
  {
    var key, s1 := ReservedKey(pn), Released(s, node, pn, ns, name, v1);
    AfterFirst(s, node, pn, ns, name, v1);
    HolderReleaseKeepsInv(s, node, pn, ns, name, v1);
    var q := Cooling(node, key);
    var record := s1.held[q].pn;
    assert key == ReservedKey(record) && ClaimFree(s1, ns', name');
    KeyTells(s1, q, pn);
    var t := FreshIdler(s1);
    hide Inv, Core, Released, Enabled, Next, IsRun, After, Disciplined, ReservedKey, WellFormed, Claims;
    var run, s' := Cools(s1, node, key, t);
    others := GoesToAClaim(s1, run, node, key, record, t, ns', name');
    LateReleaseIsSafeIff(s, node, pn, ns, name, v1, others, v2);
    DeleteUnleases(After(s1, others), node, pn, ns, name, v2, ns', name');
  }

  lemma DeleteUnleases(s: State, node: string, pn: PodNetwork, ns: string, name: string, v: Via, ns': string,
                       name': string)
    requires Inv(s) && WellFormed(pn) && Deletes(v) && Claims(s, ns', name', pn.vpcIp) && pn.vpcIp in s.leased
    ensures Locate(s, node, pn, ns, name) == if Claims(s, ns, name, pn.vpcIp) then Named(true) else OtherClaim
    ensures SafeThere(Locate(s, node, pn, ns, name), v)
    ensures var s' := Released(s, node, pn, ns, name, v);
            Claims(s', ns', name', pn.vpcIp) && pn.vpcIp !in s'.leased
  {
    NoGivenOfClaim(s, node, pn, ns', name');
    hide Inv, Core, ReservedKey, WellFormed;
    assert s.held[Claim(ns', name')].pn.vpcIp == pn.vpcIp;
  }
}
