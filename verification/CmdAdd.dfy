/** The CNI plugin as a client of ipamd: an ADD that fails gives back what it took. */
module CmdAdd {
  import opened PodNetworks
  import opened Protocol
  import opened Exclusivity
  import opened Footprints
  import opened Releases
  import opened ClusterRuns
  import opened ServerSteps
  import opened IpamServer
  import opened NatOutgoing
  import opened Sequences

  datatype Exit = Early | NoInterface | NoProxyArp | CheckFailed | InConflict | NoVeth | NoPortRange | NoRecord
    | NoPortMap | Done

  /** How DEL gets the record: from ipamd, from the database itself, or not at all. */
  datatype Reading = ByIpamd | Locally | Unreadable

  predicate BeforeRecord(e: Exit) {
    e.NoInterface? || e.NoProxyArp? || e.CheckFailed? || e.InConflict? || e.NoVeth? || e.NoPortRange?
  }

  /** What the plugin keeps of one pod: the record of its address, that address in the ipset, and the pod's name. */
  datatype Lease = Lease(pn: PodNetwork, ip: Addr, ns: string, name: string)

  /** Where assignPodIp got the address: from ipamd for a dynamic or a static pod, or from the VPC. */
  datatype Origin = Dynamic | Static | Direct

  /** What goes wrong during one ADD: the step that fails, whether a failing veth setup releases the address itself,
      whether the record fails because the local database cannot be opened, which releases the address too, how the
      releases go, and how much time passes between them. */
  datatype World = World(stop: Exit, vethReleases: bool, noDatabase: bool, first: Via, last: Via, passed: nat)

  /** The exits on which a step has released the address before the rollback does. */
  predicate Repeats(e: Exit, w: World) {
    e.NoPortRange? || (e.NoVeth? && w.vethReleases)
  }

  /** The exits on which the address is given back. */
  predicate GivesBack(e: Exit, w: World) {
    BeforeRecord(e) || (e.NoRecord? && w.noDatabase)
  }

  /** The state after a failing exit that gives the address back. */
  function GivenBack(s: State, node: string, l: Lease, twice: bool, w: World): State {
    if twice then Twice(s, node, l.pn, l.ns, l.name, w.first, s.clock + w.passed, w.last)
    else Released(s.(clock := s.clock + w.passed), node, l.pn, l.ns, l.name, w.last)
  }

  /** The pod holds the address, or its claim does. */
  predicate Provides(s: State, node: string, l: Lease, origin: Origin) {
    match origin
    case Dynamic => Given(node, ReservedKey(l.pn)) in s.held
    case Static => Claims(s, l.ns, l.name, l.pn.vpcIp)
    case Direct => Enabled(s, AssignDirect(node, l.pn))
  }

  function Assigned(s: State, node: string, l: Lease, origin: Origin): State
    requires Provides(s, node, l, origin)
  {
    if origin.Direct? then Next(s, AssignDirect(node, l.pn)) else s
  }

  lemma AssignedGives(s: State, node: string, l: Lease, origin: Origin)
    requires Core(s) && Provides(s, node, l, origin) && !origin.Static?
    ensures Core(Assigned(s, node, l, origin)) && Given(node, ReservedKey(l.pn)) in Assigned(s, node, l, origin).held
  {
    hide Core, ReservedKey, WellFormed, Enabled, Next;
    if origin.Direct? {
      AssignDirectKeepsCore(s, AssignDirect(node, l.pn));
      AssignDirectNext(s, AssignDirect(node, l.pn));
    }
  }

  lemma ReleasedOnceIff(s: State, node: string, l: Lease, v: Via, now: int)
    requires Core(s) && WellFormed(l.pn) && Given(node, ReservedKey(l.pn)) in s.held
    ensures var s' := Released(s.(clock := now), node, l.pn, l.ns, l.name, v);
            Core(s') && (Given(node, ReservedKey(l.pn)) in s'.held <==> Idle(v))
  {
    hide Core, Released, FromHolder, ReservedKey, WellFormed;
    var s1 := s.(clock := now);
    CoreOfSameBooks(s, s1);
    HolderReleaseIsSafe(s1, node, l.pn, v);
    AfterFirst(s1, node, l.pn, l.ns, l.name, v);
  }

  lemma TwiceGivenIff(s: State, node: string, l: Lease, w: World, now: int)
    requires Core(s) && WellFormed(l.pn) && Given(node, ReservedKey(l.pn)) in s.held
    ensures Given(node, ReservedKey(l.pn)) in Twice(s, node, l.pn, l.ns, l.name, w.first, now, w.last).held <==>
            Idle(w.first) && Idle(w.last)
  {
    AfterFirst(s, node, l.pn, l.ns, l.name, w.first);
    HolderReleaseIsSafe(s, node, l.pn, w.first);
    hide Core, Released, FromHolder, ReservedKey, WellFormed;
    var s1 := Released(s, node, l.pn, l.ns, l.name, w.first);
    if Idle(w.first) { ReleasedOnceIff(s1, node, l, w.last, now); }
    else { GivenStaysGone(s1.(clock := now), node, l.pn, l.ns, l.name, w.last); }
  }

  lemma DynamicGivenBackIff(s: State, node: string, l: Lease, origin: Origin, twice: bool, w: World)
    requires Core(s) && WellFormed(l.pn) && Provides(s, node, l, origin) && !origin.Static?
    ensures var s' := GivenBack(Assigned(s, node, l, origin), node, l, twice, w);
            && (Given(node, ReservedKey(l.pn)) in s'.held <==> Idle(w.last) && (twice ==> Idle(w.first)))
            && (Core(s') <==>
                !(twice && ((Written(w.first) && Deletes(w.last)) || (Deletes(w.first) && Written(w.last)))))
  {
    hide Core, Released, ReservedKey, WellFormed, Enabled, Next, Twice, Provides, Assigned;
    AssignedGives(s, node, l, origin);
    var s1 := Assigned(s, node, l, origin);
    if twice {
      DoubleReleaseIsSafeIff(s1, node, l.pn, l.ns, l.name, w.first, s1.clock + w.passed, w.last);
      TwiceGivenIff(s1, node, l, w, s1.clock + w.passed);
    } else {
      ReleasedOnceIff(s1, node, l, w.last, s1.clock + w.passed);
    }
  }

  lemma StaticReleasedOnceIff(s: State, node: string, l: Lease, v: Via, now: int)
    requires Core(s) && WellFormed(l.pn) && Claims(s, l.ns, l.name, l.pn.vpcIp)
    ensures var s' := Released(s.(clock := now), node, l.pn, l.ns, l.name, v);
            && Given(node, ReservedKey(l.pn)) !in s'.held && Claims(s', l.ns, l.name, l.pn.vpcIp)
            && (l.pn.vpcIp in s'.leased <==> l.pn.vpcIp in s.leased && !Deletes(v))
            && (Core(s') <==> !Mistakes(v))
  {
    var s1 := s.(clock := now);
    CoreOfSameBooks(s, s1);
    assert Claims(s1, l.ns, l.name, l.pn.vpcIp);
    hide Core, FromHolder, FromCooling, FromClaim, FromNobody, ReservedKey, WellFormed, Claims;
    NoGivenOfClaim(s1, node, l.pn, l.ns, l.name);
    StaticReleaseIsSafeIff(s1, node, l.pn, l.ns, l.name, v);
    ClaimStaysNamed(s1, node, l.pn, l.ns, l.name, v);
    ClaimLease(s1, node, l.pn, l.ns, l.name, v);
  }

  lemma StaticGivenBackIff(s: State, node: string, l: Lease, twice: bool, w: World)
    requires Core(s) && WellFormed(l.pn) && Claims(s, l.ns, l.name, l.pn.vpcIp)
    ensures var s' := GivenBack(s, node, l, twice, w);
            && Given(node, ReservedKey(l.pn)) !in s'.held && Claims(s', l.ns, l.name, l.pn.vpcIp)
            && (l.pn.vpcIp in s'.leased <==>
                l.pn.vpcIp in s.leased && !Deletes(w.last) && (twice ==> !Deletes(w.first)))
            && (Core(s') <==> !Mistakes(w.last) && (twice ==> !Mistakes(w.first)))
  {
    hide Core, Released, ReservedKey, WellFormed, Claims, Twice;
    if twice {
      DoubleStaticReleaseIsSafeIff(s, node, l.pn, l.ns, l.name, w.first, s.clock + w.passed, w.last);
    } else {
      StaticReleasedOnceIff(s, node, l, w.last, s.clock + w.passed);
    }
  }

  /** THE ROLLBACK. On an exit that gives the address back: the address of a dynamic pod, or of one served by the VPC,
      is with the pod still exactly when no release did anything; and exclusivity and conservation hold exactly unless
      an entry of the cooldown set lost its address to the second release, or a deleted address entered the set by it.
      The claim of a static pod goes on naming its address, which stays leased exactly until a release deletes it; there
      they hold exactly unless a release does not find the claim and does not delete the address either. */
  lemma GivenBackIff(s: State, node: string, l: Lease, origin: Origin, twice: bool, w: World)
    requires Core(s) && WellFormed(l.pn) && Provides(s, node, l, origin)
    ensures var s' := GivenBack(Assigned(s, node, l, origin), node, l, twice, w);
            && (Given(node, ReservedKey(l.pn)) in s'.held <==>
                !origin.Static? && Idle(w.last) && (twice ==> Idle(w.first)))
            && (origin.Static? ==>
                  && Claims(s', l.ns, l.name, l.pn.vpcIp)
                  && (l.pn.vpcIp in s'.leased <==>
                      l.pn.vpcIp in s.leased && !Deletes(w.last) && (twice ==> !Deletes(w.first))))
            && (Core(s') <==>
                if origin.Static? then !Mistakes(w.last) && (twice ==> !Mistakes(w.first))
                else !(twice && ((Written(w.first) && Deletes(w.last)) || (Deletes(w.first) && Written(w.last)))))
  {
    hide Core, ReservedKey, WellFormed, Enabled, Next, GivenBack, Claims, Mistakes, Written, Deletes, Idle;
    if origin.Static? {
      StaticGivenBackIff(s, node, l, twice, w);
    } else {
      DynamicGivenBackIff(s, node, l, origin, twice, w);
    }
  }

  lemma GivenStaysGone(s: State, node: string, pn: PodNetwork, ns: string, name: string, v: Via)
    requires Given(node, ReservedKey(pn)) !in s.held
    ensures Given(node, ReservedKey(pn)) !in Released(s, node, pn, ns, name, v).held
  {
    hide ReservedKey;
  }

  /** A pod that has its address after a release was told of an error. */
  lemma OnlyErrorsLeaveIt(s: State, node: string, l: Lease, v: Via)
    ensures Given(node, ReservedKey(l.pn)) in Released(s, node, l.pn, l.ns, l.name, v).held ==>
              v.Unreachable? || v == Vpc(Failed)
  {
    if Given(node, ReservedKey(l.pn)) !in s.held { GivenStaysGone(s, node, l.pn, l.ns, l.name, v); }
    hide ReservedKey;
  }

  class Host {
    const ipset: IpSet
    const server: Server
    const period: int                   // CooldownPeriodSeconds
    var records: map<string, Lease>     // by sandbox
    var clock: int

    ghost predicate Valid()
      reads this, ipset, server, server.Repr()
    {
      && ipset.Valid() && server.Valid() && ipset !in server.Repr() && this !in server.Repr()
      && server.cluster.Valid() && server.cluster.Now().clock == clock && server.cluster.Now().period == period
    }

    ghost function Now(): State
      requires Valid()
      reads this, ipset, server, server.Repr()
    {
      server.cluster.Now()
    }

    constructor (ipset: IpSet, server: Server, clock: int, period: int)
      requires ipset.Valid() && server.Valid() && ipset !in server.Repr()
      requires server.cluster.Now().clock == clock && server.cluster.Now().period == period
      ensures Valid() && this.ipset == ipset && this.server == server && records == map[]
    {
      this.ipset, this.server, this.clock, this.period, records := ipset, server, clock, period, map[];
    }

    /** releasePodIp: to ipamd, or in the VPC when there is no ipamd. */
    method Release(l: Lease, v: Via) returns (failed: bool, ghost t: nat)
      requires Valid() && WellFormed(l.pn) && Recorded(Now(), server.nodeName, l.pn, l.ns, l.name)
      modifies server.cluster, server.cooldownDB
      ensures Valid()
      ensures failed <==> v.Unreachable? || (v.Ipamd? && !v.replied) || v == Vpc(Failed)
      ensures Now() == Released(old(Now()), server.nodeName, l.pn, l.ns, l.name, v)
      ensures Recorded(Now(), server.nodeName, l.pn, l.ns, l.name)
      ensures server.cluster.run == old(server.cluster.run) +
        Steps(old(Now()), server.nodeName, t, l.pn, l.ns, l.name, v)
    {
      hide Released, Recorded, WellFormed, Steps, Cluster.Went, Cluster.Sound;
      ReleasedKeepsRecord(Now(), server.nodeName, l.pn, l.ns, l.name, v);
      t := FreshIdler(Now());
      failed := Fails(v);
      match v
      case Unreachable => ReleasedUnreached(Now(), server.nodeName, t, l.pn, l.ns, l.name);
      case Vpc(_) => server.ReleaseUnwritten(l.pn, l.ns, l.name, v, t);
      case Ipamd(found, ok, outcome, _) =>
        server.DelPodNetwork(l.pn, l.ns, l.name, if found then ClaimFound else ClaimMissing, clock, period,
                             Answers(true, true, true, ok, true, outcome), t);
        SameWithoutReply(old(Now()), server.nodeName, t, l.pn, l.ns, l.name, v);
    }

    /** Time passes. */
    method Wait(passed: nat)
      requires Valid()
      modifies server.cluster, `clock
      ensures Valid() && clock == old(clock) + passed && Now() == old(Now()).(clock := clock)
      ensures server.cluster.run == old(server.cluster.run) + [Tick(clock)]
    {
      server.Elapse(clock + passed);
      clock := clock + passed;
    }

    /** rollbackNATGWOutgoingIP: only what this ADD inserted is deleted, and only once. */
    method RollbackNATGWOutgoingIP(ip: Addr, added: bool) returns (stillAdded: bool)
      requires Valid() && (added ==> ip.V4?)
      modifies ipset
      ensures Valid() && Now() == old(Now())
      ensures ipset.members == if added && !stillAdded then old(ipset.members) - {ip} else old(ipset.members)
      ensures stillAdded ==> added && Failures(ipset.faults) < Failures(old(ipset.faults))
      ensures Failures(ipset.faults) <= Failures(old(ipset.faults))
    {
      if !added { return false; }
      stillAdded := ipset.Delete(ip);
    }

    /** A failing exit between the assignment and the record. Some steps release the address themselves; then comes
        rollbackReleaseIP, which releases it (again), and at the end the deferred rollback tries the set again. */
    method GiveBack(l: Lease, added: bool, twice: bool, w: World) returns (dirty: bool)
      requires Valid() && (added ==> l.ip.V4?)
      requires WellFormed(l.pn) && Recorded(Now(), server.nodeName, l.pn, l.ns, l.name)
      modifies ipset, `clock, server.cluster, server.cooldownDB
      ensures Valid() && Now() == GivenBack(old(Now()), server.nodeName, l, twice, w)
      ensures ipset.members == if added && !dirty then old(ipset.members) - {l.ip} else old(ipset.members)
      ensures dirty ==> added && Failures(ipset.faults) + 2 <= Failures(old(ipset.faults))
    {
      hide Released, Recorded, WellFormed, Steps, Server.Valid, Server.Repr, Server.Contents;
      var failed;
      ghost var t;
      if twice { failed, t := Release(l, w.first); }
      WaitKeepsRecord(Now(), server.nodeName, l.pn, l.ns, l.name, clock + w.passed);
      Wait(w.passed);
      dirty := RollbackNATGWOutgoingIP(l.ip, added);
      failed, t := Release(l, w.last);
      dirty := RollbackNATGWOutgoingIP(l.ip, dirty);
    }

    /** addPodNetworkRecordLocal without a database. */
    method ReleaseUnrecorded(l: Lease, w: World)
      requires Valid() && WellFormed(l.pn) && Recorded(Now(), server.nodeName, l.pn, l.ns, l.name)
      modifies `clock, server.cluster, server.cooldownDB
      ensures Valid() && Now() == GivenBack(old(Now()), server.nodeName, l, false, w)
    {
      hide Released, Recorded, WellFormed, Steps, Server.Valid, Server.Repr, Server.Contents;
      WaitKeepsRecord(Now(), server.nodeName, l.pn, l.ns, l.name, clock + w.passed);
      Wait(w.passed);
      ghost var t;
      var failed;
      failed, t := Release(l, w.last);
    }

    /** What a failing exit undoes: before the record both the address and the insertion, afterwards the insertion. */
    method Undo(l: Lease, exit: Exit, added: bool, w: World) returns (dirty: bool)
      requires Valid() && (added ==> l.ip.V4?)
      requires WellFormed(l.pn) && Recorded(Now(), server.nodeName, l.pn, l.ns, l.name)
      modifies ipset, `clock, server.cluster, server.cooldownDB
      ensures Valid()
      ensures Now() == if GivesBack(exit, w) then GivenBack(old(Now()), server.nodeName, l, Repeats(exit, w), w)
                       else old(Now())
      ensures ipset.members == if added && !dirty then old(ipset.members) - {l.ip} else old(ipset.members)
      ensures dirty ==> added
      ensures dirty ==> Failures(ipset.faults) + (if BeforeRecord(exit) then 2 else 1) <= Failures(old(ipset.faults))
    {
      hide Recorded, WellFormed, GivenBack, Server.Valid, Server.Repr, Server.Contents;
      if BeforeRecord(exit) {
        dirty := GiveBack(l, added, Repeats(exit, w), w);
      } else {
        if exit.NoRecord? && w.noDatabase { ReleaseUnrecorded(l, w); }
        dirty := RollbackNATGWOutgoingIP(l.ip, added);
      }
    }

    /** cmdAdd for an address that ipamd has just handed out, or that the VPC hands out itself. A failing exit before
        the record gives the address back as `GivenBack` says, and leaves the ipset as it was, unless its deletion fails
        twice (`dirty`). A failure to write the record keeps the address, unless the local database could not even be
        opened, which gives it back. Only what this ADD inserted into the set is taken out. */
    method CmdAdd(sandbox: string, l: Lease, natGW: bool, origin: Origin, w: World) returns (exit: Exit, dirty: bool)
      requires Valid() && WellFormed(l.pn)
      requires !w.stop.Early? ==> Provides(Now(), server.nodeName, l, origin)
                                  && Recorded(Assigned(Now(), server.nodeName, l, origin),
                                              server.nodeName, l.pn, l.ns, l.name)
      modifies this, ipset, server.cluster, server.cooldownDB
      ensures Valid()
      ensures exit == if !origin.Direct? && w.stop in {NoProxyArp, CheckFailed, InConflict} then Done else w.stop
      ensures exit.Early? ==> Now() == old(Now()) && records == old(records) && ipset.members == old(ipset.members)
      ensures exit in {NoInterface, NoProxyArp, CheckFailed, InConflict} ==>
                Now() == GivenBack(Assigned(old(Now()), server.nodeName, l, origin), server.nodeName, l, false, w)
      ensures exit.NoVeth? ==>
                Now() == GivenBack(Assigned(old(Now()), server.nodeName, l, origin), server.nodeName, l,
                                   w.vethReleases, w)
      ensures exit.NoPortRange? ==>
                Now() == GivenBack(Assigned(old(Now()), server.nodeName, l, origin), server.nodeName, l, true, w)
      ensures exit.NoRecord? ==>
                var s := Assigned(old(Now()), server.nodeName, l, origin);
                Now() == if w.noDatabase then GivenBack(s, server.nodeName, l, false, w) else s
      ensures exit.NoPortMap? || exit.Done? ==> Now() == Assigned(old(Now()), server.nodeName, l, origin)
      ensures !exit.Done? && !dirty ==> ipset.members == old(ipset.members)
      ensures dirty ==>
              !exit.Done? && natGW && l.ip !in old(ipset.members) && ipset.members == old(ipset.members) + {l.ip}
      ensures dirty ==>
                Failures(ipset.faults) + (if exit.NoRecord? || exit.NoPortMap? then 1 else 2)
                <= Failures(old(ipset.faults))
      ensures exit.Done? ==>
              ipset.members == old(ipset.members) || (natGW && ipset.members == old(ipset.members) + {l.ip})
      ensures exit.Done? && natGW && l.ip.V4? && Failures(ipset.faults) == Failures(old(ipset.faults)) ==>
                l.ip in ipset.members
      ensures records == if exit.NoPortMap? || exit.Done? then old(records)[sandbox := l] else old(records)
    {
      hide Recorded, WellFormed, GivenBack, Assigned, Provides, Server.Valid, Server.Repr, Server.Contents;
      dirty := false;
      if w.stop.Early? { return Early, false; }
      Assign(l, origin);                                      // assignPodIp
      if w.stop.NoInterface? || (origin.Direct? && (w.stop.NoProxyArp? || w.stop.CheckFailed? || w.stop.InConflict?)) {
        dirty := Undo(l, w.stop, false, w);
        return w.stop, dirty;
      }
      var added, unavailable := ipset.Sync(l.ip, natGW);      // a failure falls back to node SNAT
      if w.stop.NoVeth? || w.stop.NoPortRange? || w.stop.NoRecord? {
        dirty := Undo(l, w.stop, added, w);
        return w.stop, dirty;
      }
      records := records[sandbox := l];
      if w.stop.NoPortMap? {
        dirty := Undo(l, w.stop, added, w);
        return w.stop, dirty;
      }
      return Done, false;
    }

    /** assignPodIp: without ipamd the plugin allocates the address itself. */
    ghost method Assign(l: Lease, origin: Origin)
      requires Valid() && Provides(Now(), server.nodeName, l, origin)
      modifies server.cluster
      ensures Valid() && Now() == Assigned(old(Now()), server.nodeName, l, origin)
    {
      if origin.Direct? {
        AssignDirectNext(Now(), AssignDirect(server.nodeName, l.pn));
        hide Enabled, Next;
        server.AssignDirectly(l.pn);
      }
    }

    /** cmdDel. A record that cannot be read is no error and ends it at once: the address then stays with the pod that
        is gone. So does a record that is missing when the plugin reads the database itself; when ipamd says that there
        is none, the port map and the interface are still taken down. An error of the release keeps the record, so a
        later DEL can try again, and repeats the release when only its reply was lost. While a record can be read, no
        DEL leaves the pod its address and drops the record or reports success. */
    method CmdDel(sandbox: string, read: Reading, policyFails: bool, v: Via, recordStays: bool, restFails: bool)
        returns (failed: bool, left: bool)
      requires Valid()
      requires sandbox in records ==>
                 var l := records[sandbox];
                 WellFormed(l.pn) && Recorded(Now(), server.nodeName, l.pn, l.ns, l.name)
      modifies this, ipset, server.cluster, server.cooldownDB
      ensures Valid() && clock == old(clock)
      ensures sandbox !in old(records) || read.Unreadable? ==>
                && (failed <==> read.ByIpamd? && restFails)
                && Now() == old(Now()) && records == old(records) && ipset.members == old(ipset.members)
      ensures sandbox in old(records) && !read.Unreadable? ==>
                var l := old(records)[sandbox];
                && (failed <==> policyFails || restFails
                                || v.Unreachable? || (v.Ipamd? && !v.replied) || v == Vpc(Failed))
                && (Given(server.nodeName, ReservedKey(l.pn)) in Now().held ==> failed && records == old(records))
                && ipset.members == (if left then old(ipset.members) else old(ipset.members) - {l.ip})
                && (left ==> !l.ip.V4? || Failures(ipset.faults) < Failures(old(ipset.faults)))
                && Now() == (if policyFails then old(Now())
                             else Released(old(Now()), server.nodeName, l.pn, l.ns, l.name, v))
                && records == if policyFails || v.Unreachable? || (v.Ipamd? && !v.replied) || v == Vpc(Failed)
                                 || recordStays
                              then old(records) else old(records) - {sandbox}
    {
      hide Released, Recorded, WellFormed, Steps, Server.Valid, Server.Repr, Server.Contents;
      left := false;
      if read.Unreadable? || (read.Locally? && sandbox !in records) { return false, false; }
      if sandbox !in records { return restFails, false; }     // ipamd answers with no record
      var l := records[sandbox];
      left := ipset.Delete(l.ip);                             // only a warning
      if policyFails { return true, left; }
      ghost var t;
      OnlyErrorsLeaveIt(Now(), server.nodeName, l, v);
      failed, t := Release(l, v);
      if failed { return; }
      if !recordStays { records := records - {sandbox}; }     // only a warning
      failed := restFails;                                    // the port map and the interface
    }
  }

  lemma ReleasedUnreached(s: State, node: string, t: nat, pn: PodNetwork, ns: string, name: string)
    ensures Released(s, node, pn, ns, name, Unreachable) == s && Steps(s, node, t, pn, ns, name, Unreachable) == []
  {
    hide ReservedKey;
  }

  /** A lost reply changes nothing but what the plugin sees. */
  lemma SameWithoutReply(s: State, node: string, t: nat, pn: PodNetwork, ns: string, name: string, v: Via)
    requires v.Ipamd?
    ensures Released(s, node, pn, ns, name, v) == Released(s, node, pn, ns, name, v.(replied := true))
    ensures Steps(s, node, t, pn, ns, name, v) == LoopSteps(s, node, t, pn, ns, name, v.found, v.ok, v.outcome)
  {
    hide ReservedKey;
  }

  lemma WaitKeepsRecord(s: State, node: string, pn: PodNetwork, ns: string, name: string, now: int)
    requires Recorded(s, node, pn, ns, name)
    ensures Recorded(s.(clock := now), node, pn, ns, name)
  {
  }
}
