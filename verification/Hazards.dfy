/** Runs of the allocator that break its properties when the discipline is dropped. */
module Hazards {
  import opened PodNetworks
  import opened Protocol
  import opened Exclusivity
  import opened AllocatorRuns
  import opened Cooldown

  /** One address, leased and at one place, and nothing else. */
  predicate Single(s: State, p: Place, pn: PodNetwork) {
    && WellFormed(pn) && s.held == map[p := Slot(pn, 0)] && s.threads == map[]
    && s.leased == {pn.vpcIp} && s.leaked == {} && s.notBefore == map[]
  }

  lemma Extend(init: State, run: seq<Event>, e: Event)
    requires IsRun(init, run) && Enabled(After(init, run), e)
    ensures IsRun(init, run + [e]) && After(init, run + [e]) == Next(After(init, run), e)
  {
    assert (run + [e])[..|run|] == run;
  }

  predicate Step(s: State, e: Event, s': State) {
    Enabled(s, e) && Next(s, e) == s' && Faithful(e)
  }

  /** Four enabled events in a row are a run. */
  lemma FourSteps(s0: State, e1: Event, s1: State, e2: Event, s2: State, e3: Event, s3: State, e4: Event, s4: State)
    requires Step(s0, e1, s1) && Step(s1, e2, s2) && Step(s2, e3, s3) && Step(s3, e4, s4)
    ensures IsRun(s0, [e1, e2, e3, e4]) && After(s0, [e1, e2, e3, e4]) == s4
    ensures forall e | e in [e1, e2, e3, e4] :: Faithful(e)
  {
    hide Enabled, Next, Faithful;
    assert IsRun(s0, []) && After(s0, []) == s0;
    Extend(s0, [], e1);
    Extend(s0, [e1], e2);
    Extend(s0, [e1, e2], e3);
    Extend(s0, [e1, e2, e3], e4);
    assert [] + [e1] == [e1] && [e1] + [e2] == [e1, e2] && [e1, e2] + [e3] == [e1, e2, e3];
    assert [e1, e2, e3] + [e4] == [e1, e2, e3, e4];
  }

  // ---------------------------------------------------------------- overlapping pops

  function Reader(pn: PodNetwork, job: Job): Thread {
    Thread("node-a", Popping(job, pn.subnetId, ReservedKey(pn), pn))
  }

  lemma ReadOnce(s: State, pn: PodNetwork, t: nat, job: Job)
    requires PoolOf("node-a", pn) in s.held && s.held[PoolOf("node-a", pn)].pn == pn && t !in s.threads
    requires !job.Trim? ==> job.want == pn.subnetId
    ensures var e := PopRead(t, "node-a", pn.subnetId, ReservedKey(pn), job);
            Step(s, e, s.(threads := s.threads[t := Reader(pn, job)]))
  {
  }

  lemma DeleteOnce(s: State, pn: PodNetwork, t: nat, job: Job) returns (s': State)
    requires t in s.threads && s.threads[t] == Reader(pn, job)
    ensures Step(s, PopDelete(t), s')
    ensures s'.held == (s.held - {PoolOf("node-a", pn)})[Hand(t) := Slot(pn, 0)]
    ensures s'.threads == s.threads[t := Thread("node-a", Fetched(job))]
  {
    s' := Next(s, PopDelete(t));
  }

  /** Bolt.Pop reads and deletes in two transactions, and lendIP does not go through the manager loop:
      when the read of one falls between the halves of the other, both get the same address, although
      every answer from outside is faithful. */
  lemma OverlappingPopsHandOutTwice(s: State, pn: PodNetwork)
    requires Single(s, PoolOf("node-a", pn), pn)
    ensures var run := [PopRead(1, "node-a", pn.subnetId, ReservedKey(pn), Add(pn.subnetId, false)),
                        PopRead(2, "node-a", pn.subnetId, ReservedKey(pn), Lend(pn.subnetId, "52:54:00:00:00:02")),
                        PopDelete(1), PopDelete(2)];
            Inv(s) && IsRun(s, run) && (forall e | e in run :: Faithful(e)) && !Exclusive(After(s, run).held)
  {
    SingleIsFine(s, PoolOf("node-a", pn), pn);
    var job1, job2 := Add(pn.subnetId, false), Lend(pn.subnetId, "52:54:00:00:00:02");
    var s1 := s.(threads := s.threads[1 := Reader(pn, job1)]);
    var s2 := s1.(threads := s1.threads[2 := Reader(pn, job2)]);
    PoolIsNoHand(pn);
    hide Inv, Enabled, Next, IsRun, After, PoolOf, Exclusive, Reader, Step, Faithful;
    ReadOnce(s, pn, 1, job1);
    ReadOnce(s1, pn, 2, job2);
    var s3 := DeleteOnce(s2, pn, 1, job1);
    var s4 := DeleteOnce(s3, pn, 2, job2);
    FourSteps(s, PopRead(1, "node-a", pn.subnetId, ReservedKey(pn), job1), s1,
              PopRead(2, "node-a", pn.subnetId, ReservedKey(pn), job2), s2, PopDelete(1), s3, PopDelete(2), s4);
    TwoCopies(s4.held, pn);
  }

  lemma PoolIsNoHand(pn: PodNetwork)
    ensures PoolOf("node-a", pn).Pool?
  {
  }

  lemma TwoCopies(held: map<Place, Slot>, pn: PodNetwork)
    requires Hand(1) in held && Hand(2) in held && held[Hand(1)].pn == pn && held[Hand(2)].pn == pn
    ensures !Exclusive(held)
  {
    assert held[Hand(1)].pn.vpcIp == held[Hand(2)].pn.vpcIp;
  }

  lemma SingleIsFine(s: State, p: Place, pn: PodNetwork)
    requires Single(s, p, pn) && WellPlaced(p, pn) && (p.Pool? || p.Given?)
    ensures Inv(s)
  {
    assert s.held[p].pn.vpcIp in Ips(s.held);
  }

  // ---------------------------------------------------------------- a cooldown write that fails

  lemma ReleaseOnce(s: State, pn: PodNetwork) returns (s1: State, s2: State)
    requires Single(s, Given("node-a", ReservedKey(pn)), pn)
    ensures Step(s, Release(0, "node-a", ReservedKey(pn)), s1) && Step(s1, Retire(0, false), s2)
    ensures s2.held == map[Hand(0) := Slot(Stamp(pn, s.clock), 0)]
    ensures s2.threads == map[0 := Thread("node-a", Dropping)]
    ensures s2.leased == {pn.vpcIp} && s2.clock == s.clock && s2.notBefore == map[pn.vpcIp := s.clock + s.period]
  {
    hide NextOfClaim, NextOfHandOut, ReservedKey;
    s1 := Next(s, Release(0, "node-a", ReservedKey(pn)));
    s2 := Next(s1, Retire(0, false));
  }

  lemma DropAndReissue(s: State, pn: PodNetwork, again: PodNetwork) returns (s1: State, s2: State)
    requires WellFormed(again) && !again.recycled && again.vpcIp == pn.vpcIp
    requires s.held == map[Hand(0) := Slot(pn, 0)] && s.threads == map[0 := Thread("node-a", Dropping)]
    requires s.leased == {pn.vpcIp}
    ensures Step(s, Drop(0, Deleted), s1) && Step(s1, Allocate(1, "node-b", again.subnetId, false, again), s2)
    ensures s2.held == map[Hand(1) := Slot(again, 0)] && s2.clock == s.clock && s2.notBefore == s.notBefore
    ensures s2.threads == map[1 := Thread("node-b", Fetched(Add(again.subnetId, false)))]
  {
    s1 := Next(s, Drop(0, Deleted));
    s2 := Next(s1, Allocate(1, "node-b", again.subnetId, false, again));
  }

  /** When the cooldown write of a release fails, the address is deleted in the VPC at once; the VPC may give it
      out again, and another pod's request has it in hand before its cooldown is over. */
  lemma FailedCooldownWriteCutsTheRest(s: State, pn: PodNetwork)
    requires Single(s, Given("node-a", ReservedKey(pn)), pn) && s.period > 0 && !pn.recycled
    ensures var run := [Release(0, "node-a", ReservedKey(pn)), Retire(0, false), Drop(0, Deleted),
                        Allocate(1, "node-b", pn.subnetId, false, pn)];
            && Inv(s) && Timed(s) && IsRun(s, run) && (forall e | e in run :: Faithful(e))
            && var s' := After(s, run);
               && Hand(1) in s'.held && 1 in s'.threads && PhaseOf(s', 1).Fetched?
               && InHand(s', 1).vpcIp in s'.notBefore && s'.notBefore[InHand(s', 1).vpcIp] > s'.clock
  {
    SingleIsFine(s, Given("node-a", ReservedKey(pn)), pn);
    hide Inv, Enabled, Next, IsRun, After, Step, Faithful;
    var s1, s2 := ReleaseOnce(s, pn);
    var s3, s4 := DropAndReissue(s2, Stamp(pn, s.clock), pn);
    FourSteps(s, Release(0, "node-a", ReservedKey(pn)), s1, Retire(0, false), s2, Drop(0, Deleted), s3,
              Allocate(1, "node-b", pn.subnetId, false, pn), s4);
  }
}
