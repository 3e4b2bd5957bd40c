/** The ipamd server of one node: the code of the allocator, each statement a step of the protocol. */
module IpamServer {
  import opened PodNetworks
  import opened Protocol
  import opened Exclusivity
  import opened AllocatorRuns
  import opened Footprints
  import opened Coupling
  import opened NodeSteps
  import opened Releases
  import opened ClusterRuns
  import opened ServerSteps
  import opened Bolt

  class Server {
    const nodeName: string
    const defaultSubnet: string       // uapi.SubnetID()
    const highWatermark: int          // AvailablePodIPHighWatermark
    const cluster: Cluster
    const cooldownDB: Bucket<CooldownItem>
    var poolDB: map<string, Bucket<PodNetwork>>
    var beside: seq<seq<Lending>>     // what the gRPC goroutines lend between two statements of the manager loop

    ghost function Contents(): Pools
      reads this, poolDB.Values
    {
      map name | name in poolDB :: poolDB[name].entries
    }

    ghost function Repr(): set<object>
      reads this
    {
      {this, cluster, cooldownDB} + set name | name in poolDB :: poolDB[name]
    }

    ghost predicate Valid()
      reads this, cluster, cooldownDB, poolDB.Values
    {
      && (forall m, n | m in poolDB && n in poolDB && m != n :: poolDB[m] != poolDB[n])
      && cluster.Valid() && nodeName in cluster.servers
      && Coupled(nodeName, Contents(), cooldownDB.entries, cluster.Now())
      && RecordsWellFormed(Contents(), cooldownDB.entries)
    }

    constructor (nodeName: string, defaultSubnet: string, highWatermark: int, cluster: Cluster,
        beside: seq<seq<Lending>>)
      requires cluster.Valid() && nodeName in cluster.servers
      requires forall p | p in cluster.Now().held :: !OnNode(p, nodeName)
      ensures Valid() && fresh(Repr() - {cluster}) && this.cluster == cluster && poolDB == map[]
      ensures this.nodeName == nodeName && this.defaultSubnet == defaultSubnet
      ensures this.highWatermark == highWatermark
    {
      this.nodeName, this.defaultSubnet, this.beside := nodeName, defaultSubnet, beside;
      this.highWatermark, this.cluster := highWatermark, cluster;
      poolDB := map[];
      cooldownDB := new Bucket<CooldownItem>();
      new;
      assert forall subnet, key :: OnNode(Pool(nodeName, subnet, key), nodeName);
      assert forall key :: OnNode(Cooling(nodeName, key), nodeName);
    }

    /** A server stays what it is while the server of another node acts. */
    twostate lemma StaysValid(other: string, honest: bool)
      requires old(Valid()) && unchanged(this) && unchanged(cooldownDB) && unchanged(poolDB.Values)
      requires cluster.Valid() && cluster.Went(old(cluster.run), other, honest) && other != nodeName
      ensures Valid()
    {
      var before := old(cluster.run);
      assert cluster.run[..|before|] == before;
      assert Contents() == old(Contents());
      ProperlyKeepsCoupled(cluster.init, cluster.run, |before|, other, cluster.servers, honest, nodeName,
                           Contents(), cooldownDB.entries);
    }

    lemma Shares()
      requires Valid()
      ensures cluster.Valid() && cluster in Repr() && nodeName in cluster.servers
    {
    }

    // -------------------------------------------------------------- one statement

    /** A statement on the address in hand. */
    ghost method Handle(t: nat, pn: PodNetwork, phase: Phase, e: Event, before: seq<Event>)
      requires Valid() && Has(cluster.Now(), t, nodeName, pn, phase) && InHandEvent(e, pn, phase) && e.t == t
      requires cluster.Went(before, nodeName, true)
      modifies cluster
      ensures Valid() && cluster.run == old(cluster.run) + [e] && cluster.Went(before, nodeName, true)
      ensures Left(cluster.Now(), t, nodeName, Grasp(e, pn, phase)) && cluster.Now().clock == old(cluster.Now().clock)
    {
      hide Enabled, Next, Coupled, IsRun, After, Footprint, Has, InHandEvent, Grasp, Left, AtNode, PopCurrent, Faithful,
        Cluster.Went, RecordsWellFormed;
      InHandEffect(cluster.Now(), t, nodeName, pn, phase, e);
      AtNodeIsLocal(cluster.Now(), e, nodeName);
      QuietStep(nodeName, Contents(), cooldownDB.entries, cluster.Now(), t, e);
      cluster.Take(e, before, nodeName, true);
    }

    /** A statement of a goroutine that works on a claim. */
    ghost method Work(t: nat, phase: Phase, e: Event, before: seq<Event>)
      requires Valid() && Works(cluster.Now(), t, nodeName, phase) && phase.Attaching? && !Threadless(e) && e.t == t
      requires WorkEvent(e, phase) && cluster.Went(before, nodeName, true)
      modifies cluster
      ensures Valid() && cluster.run == old(cluster.run) + [e] && cluster.Went(before, nodeName, true)
      ensures if Toil(e, phase) == [] then Done(cluster.Now(), t)
        else Works(cluster.Now(), t, nodeName, Toil(e, phase)[0])
      ensures cluster.Now().held == old(cluster.Now().held)
    {
      hide Enabled, Next, Coupled, IsRun, After, Footprint, Works, WorkEvent, Toil, AtNode, PopCurrent, Faithful,
        Cluster.Went, RecordsWellFormed;
      WorkEffect(cluster.Now(), t, nodeName, phase, e);
      AtNodeIsLocal(cluster.Now(), e, nodeName);
      QuietStep(nodeName, Contents(), cooldownDB.entries, cluster.Now(), t, e);
      cluster.Take(e, before, nodeName, true);
    }

    // -------------------------------------------------------------- the pools

    /** The pool of a subnet, created when missing and asked for. */
    method GetPool(subnetId: string, create: bool, creates: bool) returns (pool: Option<Bucket<PodNetwork>>)
      requires Valid()
      modifies this`poolDB
      ensures Valid() && fresh(Repr() - old(Repr()))
      ensures var name := PoolName(if subnetId == "" then defaultSubnet else subnetId);
              if name in old(poolDB) then poolDB == old(poolDB) && pool == Some(poolDB[name])
              else if !create || !creates then pool.None? && poolDB == old(poolDB)
              else pool.Some? && poolDB == old(poolDB)[name := pool.value] && fresh(pool.value)
                            && pool.value.entries == map[]
    {
      var subnet := if subnetId == "" then defaultSubnet else subnetId;
      var name := PoolName(subnet);
      if name in poolDB { return Some(poolDB[name]); }
      if !create { return None; }
      if !creates { return None; }
      var bucket := new Bucket<PodNetwork>();
      ghost var before := Contents();
      poolDB := poolDB[name := bucket];
      assert Contents() == before[name := map[]];
      assert forall s, k :: InPool(Contents(), s, k) <==> InPool(before, s, k);
      return Some(bucket);
    }

    /** The write of putIpToPool and of backupPushSecondaryIP, as event `e`. */
    method WriteToPool(pool: Bucket<PodNetwork>, pn: PodNetwork, commits: bool, ghost t: nat, ghost phase: Phase,
                       ghost e: Event, ghost before: seq<Event>) returns (ok: bool)
      requires Valid() && WellFormed(pn) && PoolName(pn.subnetId) in poolDB && pool == poolDB[PoolName(pn.subnetId)]
      requires Has(cluster.Now(), t, nodeName, pn, phase) && cluster.Went(before, nodeName, true)
      requires (e == PutBack(t, true) && phase.Returning?) || (e == PushBack(t, true) && phase.PushingBack?)
      modifies pool, cluster
      ensures Valid() && ok == commits && (ok ==> Done(cluster.Now(), t)) && cluster.Went(before, nodeName, true)
      ensures pool.entries == if ok then old(pool.entries)[ReservedKey(pn) := pn] else old(pool.entries)
      ensures cluster.run == if ok then old(cluster.run) + [e] else old(cluster.run)
      ensures cluster.Now().clock == old(cluster.Now().clock)
    {
      hide Enabled, Next, Coupled, IsRun, After, Footprint, Has, AtNode, Cluster.Went;
      ghost var was := Contents();
      ok := pool.Put(ReservedKey(pn), pn, commits);
      if ok {
        PutStep(nodeName, was, cooldownDB.entries, cluster.Now(), t, pn, phase, e);
        AtNodeIsLocal(cluster.Now(), e, nodeName);
        cluster.Take(e, before, nodeName, true);
        assert Contents() == was[PoolName(pn.subnetId) := was[PoolName(pn.subnetId)][ReservedKey(pn) := pn]];
      } else {
        assert Contents() == was;
      }
    }

    /** The address in the hand of `t` goes to its pool; when that fails, it is deleted in the VPC. */
    method PutIpToPool(pn: PodNetwork, a: Answers, ghost t: nat, ghost before: seq<Event>) returns (ok: bool)
      requires Valid() && WellFormed(pn) && Has(cluster.Now(), t, nodeName, pn, Returning)
      requires cluster.Went(before, nodeName, true)
      modifies Repr()
      ensures Valid() && fresh(Repr() - old(Repr())) && Done(cluster.Now(), t) && cluster.Went(before, nodeName, true)
      ensures ok <==> CanPut(old(poolDB).Keys, pn, a)
      ensures PoolName(pn.subnetId) in old(poolDB) ==>
                && poolDB == old(poolDB)
                && var pool := poolDB[PoolName(pn.subnetId)];
                   pool.entries == if ok then old(pool.entries)[ReservedKey(pn) := pn] else old(pool.entries)
      ensures cluster.run == old(cluster.run) + [PutBack(t, ok)] + Dropped(t, !ok, a.outcome)
      ensures cluster.Now().clock == old(cluster.Now().clock) && cooldownDB.entries == old(cooldownDB.entries)
    {
      hide Enabled, Next, Coupled, IsRun, After, Footprint, Has, Cluster.Went, RecordsWellFormed, Server.Valid,
           Contents;
      Shares();
      var pool := GetPool(pn.subnetId, true, a.creates);
      Shares();
      ok := false;
      if pool.Some? { ok := WriteToPool(pool.value, pn, a.writes, t, Returning, PutBack(t, true), before); }
      if !ok {
        Handle(t, pn, Returning, PutBack(t, false), before);
        Shares();
        BackupReleaseSecondaryIP(pn, a.outcome, t, before);
        Shares();
      }
    }

    /** The address in the hand of `t` goes back to its pool, or leaks. */
    method BackupPushSecondaryIP(pn: PodNetwork, a: Answers, ghost t: nat, ghost before: seq<Event>)
      returns (ghost ok: bool)
      requires Valid() && WellFormed(pn) && Has(cluster.Now(), t, nodeName, pn, PushingBack)
      requires cluster.Went(before, nodeName, true)
      modifies Repr()
      ensures Valid() && fresh(Repr() - old(Repr())) && Done(cluster.Now(), t) && cluster.Went(before, nodeName, true)
      ensures ok <==> CanPut(old(poolDB).Keys, pn, a)
      ensures cluster.run == old(cluster.run) + [PushBack(t, ok)]
      ensures PoolName(pn.subnetId) in old(poolDB) ==>
                && poolDB == old(poolDB)
                && var pool := poolDB[PoolName(pn.subnetId)];
                   pool.entries == if ok then old(pool.entries)[ReservedKey(pn) := pn] else old(pool.entries)
    {
      hide Enabled, Next, Coupled, IsRun, After, Footprint, Has, Cluster.Went, RecordsWellFormed, Server.Valid,
           Contents;
      Shares();
      var pool := GetPool(pn.subnetId, true, a.creates);
      Shares();
      var written := false;
      if pool.Some? { written := WriteToPool(pool.value, pn, a.writes, t, PushingBack, PushBack(t, true), before); }
      ok := written;
      if !written { Handle(t, pn, PushingBack, PushBack(t, false), before); }
    }

    /** Last resort: delete the address in the VPC, or leak it. */
    method BackupReleaseSecondaryIP(pn: PodNetwork, outcome: Outcome, ghost t: nat, ghost before: seq<Event>)
      requires Valid() && Has(cluster.Now(), t, nodeName, pn, Dropping) && cluster.Went(before, nodeName, true)
      modifies cluster
      ensures Valid() && Done(cluster.Now(), t) && cluster.Went(before, nodeName, true)
      ensures cluster.run == old(cluster.run) + [Drop(t, outcome)]
      ensures cluster.Now().clock == old(cluster.Now().clock)
    {
      hide Enabled, Next, Coupled, IsRun, After, Footprint, Has, Cluster.Went, RecordsWellFormed;
      Handle(t, pn, Dropping, Drop(t, outcome), before);
    }

    // -------------------------------------------------------------- releasing and cooling

    /** A released address starts its cooldown; `t` is the manager loop handling the release. Whoever the pod is and
        wherever the address went before, the run goes on by the steps of a release, and honestly exactly when none of
        them mistakes the address for a free one. */
    method CooldownIP(pn: PodNetwork, ghost ns: string, ghost name: string, now: int, period: int, a: Answers,
        ghost t: nat)
      returns (ok: bool)
      requires Valid() && WellFormed(pn) && Idler(cluster.Now(), t)
      requires now == cluster.Now().clock && period == cluster.Now().period
      requires Recorded(cluster.Now(), nodeName, pn, ns, name)
      modifies cluster, cooldownDB
      ensures Valid() && ok == a.writes
      ensures cooldownDB.entries ==
                if ok then old(cooldownDB.entries)[
                  ReservedKey(pn) := CooldownItem(pn.(recycled := true, recycleTime := now), now + period)]
                else old(cooldownDB.entries)
      ensures var steps := CooldownSteps(old(cluster.Now()), nodeName, t, pn, ns, name, ok, a.outcome);
              && cluster.run == old(cluster.run) + steps
              && cluster.Went(old(cluster.run), nodeName, forall e | e in steps :: Faithful(e))
      ensures cluster.Now() == Released(old(cluster.Now()), nodeName, pn, ns, name, Ipamd(false, ok, a.outcome, true))
    {
      hide Enabled, Next, Coupled, IsRun, After, Path, ProperPath, CooldownSteps, Released, RecordsWellFormed, Recorded,
        Cluster.Went, Faithful, Belongs;
      ghost var was, s, before := cooldownDB.entries, cluster.Now(), cluster.run;
      ok := cooldownDB.Put(ReservedKey(pn), CooldownItem(Stamp(pn, now), now + period), a.writes);
      ghost var v := Ipamd(false, ok, a.outcome, true);
      ghost var steps, s' := Steps(s, nodeName, t, pn, ns, name, v), Released(s, nodeName, pn, ns, name, v);
      RecordedFits(s, nodeName, pn, ns, name);
      StepsLeadToReleased(s, nodeName, t, pn, ns, name, v);
      LoopStepsBelong(s, nodeName, t, pn, ns, name, false, ok, a.outcome);
      ghost var honest := forall e | e in steps :: Faithful(e);
      PathIsProper(s, steps, s', t, nodeName, cluster.servers, honest);
      cluster.Start(nodeName, honest);
      cluster.TakeAll(steps, s', before, nodeName, honest);
      ReleasedCoupled(nodeName, Contents(), was, s, pn, ns, name, ok, a.outcome);
      KeepsWellFormed(Contents(), was, ReservedKey(pn), CooldownItem(Stamp(pn, now), now + period));
    }

    /** The manager loop on a release: a pod whose name has a claim is a static one and keeps its address. A dynamic pod
        of that name does not get its address released either, and nobody knows it any more. */
    method DelPodNetwork(pn: PodNetwork, ghost ns: string, ghost name: string, lookup: ClaimLookup, now: int,
        period: int, a: Answers, ghost t: nat)
      requires Valid() && WellFormed(pn) && Idler(cluster.Now(), t)
      requires now == cluster.Now().clock && period == cluster.Now().period
      requires Recorded(cluster.Now(), nodeName, pn, ns, name)
      modifies cluster, cooldownDB
      ensures Valid()
      ensures var found := lookup.ClaimFound?;
              var steps := LoopSteps(old(cluster.Now()), nodeName, t, pn, ns, name, found, a.writes, a.outcome);
              && cluster.run == old(cluster.run) + steps
              && cluster.Went(old(cluster.run), nodeName, forall e | e in steps :: Faithful(e))
              && (old(cluster.Sound()) && (forall e | e in steps :: Faithful(e)) ==> cluster.Sound())
      ensures cluster.Now() == Released(old(cluster.Now()), nodeName, pn, ns, name,
                                        Ipamd(lookup.ClaimFound?, a.writes, a.outcome, true))
      ensures cooldownDB.entries ==
                if lookup.ClaimFound? || !a.writes then old(cooldownDB.entries)
                else old(cooldownDB.entries)[
                  ReservedKey(pn) := CooldownItem(pn.(recycled := true, recycleTime := now), now + period)]
    {
      hide Enabled, Next, Coupled, IsRun, After, CooldownSteps, RecordsWellFormed, Recorded, Faithful, Properly,
           Disciplined;
      if lookup.ClaimFound? {
        ReleaseUnwritten(pn, ns, name, Ipamd(true, a.writes, a.outcome, true), t);
      } else {
        var ok := CooldownIP(pn, ns, name, now, period, a, t);
      }
      if old(cluster.Sound()) && cluster.Went(old(cluster.run), nodeName, true) {
        cluster.StaysSound(old(cluster.run), nodeName);
      }
    }

    /** A release that leaves the databases of the node alone: the loop has nothing to do for a static IP, or the plugin
        deletes the address in the VPC itself. */
    ghost method ReleaseUnwritten(pn: PodNetwork, ns: string, name: string, v: Via, t: nat)
      requires Valid() && Idler(cluster.Now(), t) && WellFormed(pn) && Recorded(cluster.Now(), nodeName, pn, ns, name)
      requires v.Ipamd? ==> v.found
      modifies cluster
      ensures Valid()
      ensures var steps := Steps(old(cluster.Now()), nodeName, t, pn, ns, name, v);
              && cluster.run == old(cluster.run) + steps
              && cluster.Went(old(cluster.run), nodeName, forall e | e in steps :: Faithful(e))
              && (v.Ipamd? ==> forall e | e in steps :: Faithful(e))
      ensures cluster.Now() == Released(old(cluster.Now()), nodeName, pn, ns, name, v)
    {
      hide Enabled, Next, Coupled, IsRun, After, Path, ProperPath, RecordsWellFormed, Recorded, Cluster.Went, Belongs,
        Released, DirectSteps;
      var s, before := cluster.Now(), cluster.run;
      var steps, s' := Steps(s, nodeName, t, pn, ns, name, v), Released(s, nodeName, pn, ns, name, v);
      RecordedFits(s, nodeName, pn, ns, name);
      StepsLeadToReleased(s, nodeName, t, pn, ns, name, v);
      StepsBelong(s, nodeName, t, pn, ns, name, v);
      var honest := forall e | e in steps :: Faithful(e);
      PathIsProper(s, steps, s', t, nodeName, cluster.servers, honest);
      cluster.Start(nodeName, honest);
      cluster.TakeAll(steps, s', before, nodeName, honest);
      UnwrittenCoupled(nodeName, Contents(), cooldownDB.entries, s, pn, ns, name, v);
    }

    /** The plugin allocates an address for a pod of this node without ipamd. */
    ghost method AssignDirectly(pn: PodNetwork)
      requires Valid() && Enabled(cluster.Now(), AssignDirect(nodeName, pn))
      modifies cluster
      ensures Valid() && cluster.run == old(cluster.run) + [AssignDirect(nodeName, pn)]
      ensures cluster.Now() == Next(old(cluster.Now()), AssignDirect(nodeName, pn))
      ensures cluster.Went(old(cluster.run), nodeName, true)
    {
      var e := AssignDirect(nodeName, pn);
      assert AtNode(cluster.Now(), e, nodeName) && forall p | p in Footprint(cluster.Now(), e) :: !OnNode(p, nodeName);
      hide Enabled, Next, Coupled, IsRun, After, RecordsWellFormed, Footprint, AtNode;
      AtNodeIsLocal(cluster.Now(), e, nodeName);
      cluster.Start(nodeName, true);
      ElsewhereCoupled(nodeName, Contents(), cooldownDB.entries, cluster.Now(), e);
      cluster.Take(e, cluster.run, nodeName, true);
    }

    /** Time passes. */
    ghost method Elapse(now: int)
      requires Valid() && cluster.Now().clock <= now
      modifies cluster
      ensures Valid() && cluster.run == old(cluster.run) + [Tick(now)]
      ensures cluster.Now() == old(cluster.Now()).(clock := now) && cluster.Went(old(cluster.run), nodeName, true)
    {
      var e := Tick(now);
      TickIs(cluster.Now(), now);
      hide Enabled, Next, Coupled, IsRun, After, RecordsWellFormed, Footprint;
      cluster.Start(nodeName, true);
      ElsewhereCoupled(nodeName, Contents(), cooldownDB.entries, cluster.Now(), e);
      cluster.Take(e, cluster.run, nodeName, true);
    }

    /** Deleting an entry from the cooldown set takes its address in hand. */
    method ThawEntry(key: string, now: int, commits: bool, ghost before: seq<Event>)
      returns (deleted: bool, ghost t: nat)
      requires Valid() && key in cooldownDB.entries && cluster.Went(before, nodeName, true)
      requires cooldownDB.entries[key].cooldownOver <= now <= cluster.Now().clock
      modifies cluster, cooldownDB
      ensures Valid() && cluster.Now().clock == old(cluster.Now().clock) && deleted == commits
      ensures cooldownDB.entries == if deleted then old(cooldownDB.entries) - {key} else old(cooldownDB.entries)
      ensures cluster.run == if deleted then old(cluster.run) + [Thaw(t, nodeName, key)] else old(cluster.run)
      ensures deleted ==> Has(cluster.Now(), t, nodeName, old(cooldownDB.entries)[key].network, Returning)
      ensures cluster.Went(before, nodeName, true)
    {
      hide Enabled, Next, Coupled, IsRun, After, Footprint, Has, Cluster.Went;
      t := FreshThread(cluster.Now());
      ghost var was := cooldownDB.entries;
      deleted := cooldownDB.Delete(key, commits);
      if deleted {
        ThawStep(nodeName, Contents(), was, cluster.Now(), t, key);
        AtNodeIsLocal(cluster.Now(), Thaw(t, nodeName, key), nodeName);
        cluster.Take(Thaw(t, nodeName, key), before, nodeName, true);
      }
    }

    /** Addresses whose cooldown is over go back to their pools, one after the other in the order of their keys; a
        failed delete ends the round `at` the entry that it was to take. */
    method RecycleCooldownIP(now: int, readable: bool, answers: nat -> Answers)
      returns (ghost completed: bool, ghost rounds: seq<ThawRound>, ghost kvs: seq<KeyValue<CooldownItem>>,
        ghost at: nat)
      requires Valid() && now == cluster.Now().clock
      modifies Repr()
      ensures Valid() && fresh(Repr() - old(Repr()))
      ensures cluster.run == old(cluster.run) + AllThawSteps(nodeName, rounds)
      ensures Emptied(old(cooldownDB.entries), cooldownDB.entries, rounds)
      ensures OnlyDueLeft(old(cooldownDB.entries), cooldownDB.entries, now)
      ensures completed ==> AllResting(cooldownDB.entries, now)
      ensures !readable ==> !completed && cooldownDB.entries == old(cooldownDB.entries)
      ensures readable ==> Recycled(old(cooldownDB.entries), cooldownDB.entries, kvs, at, now)
      ensures readable && !completed ==>
                at < |kvs| && kvs[at].value.cooldownOver <= now && !answers(at).deletes
      ensures forall r | r in rounds :: AsAnswered(r, kvs, at, answers)
      ensures cluster.Went(old(cluster.run), nodeName, true) && (old(cluster.Sound()) ==> cluster.Sound())
    {
      hide Enabled, Next, IsRun, After, Coupled, RecordsWellFormed, Recycled, Keys, Ascending, OnlyDueLeft, AllResting,
        Contents, IsLeast, Less, Properly, Disciplined, AllThawSteps, Emptied, Server.Valid;
      Shares();
      ghost var sound := cluster.Sound();
      ghost var was, before := cooldownDB.entries, cluster.run;
      cluster.Start(nodeName, true);
      NothingRecycled(was, now);
      rounds := [];
      assert AllThawSteps(nodeName, rounds) == [] by { hide *; NoThaw(nodeName); }
      assert before + [] == before;
      NothingEmptied(was);
      var listed, found := cooldownDB.List(readable);
      kvs := found;
      var i, goOn := 0, listed;
      if listed { RecycleNone(was, kvs, now); }
      while goOn && i < |found|
        invariant 0 <= i && (listed ==> i <= |kvs|) && Valid() && cluster.Valid() && fresh(Repr() - old(Repr()))
        invariant now <= cluster.Now().clock && cluster.run == before + AllThawSteps(nodeName, rounds)
        invariant cluster.Went(before, nodeName, true) && Emptied(was, cooldownDB.entries, rounds)
        invariant listed ==> Recycled(was, cooldownDB.entries, kvs, i, now)
        invariant !listed ==> cooldownDB.entries == was && !goOn
        invariant listed && !goOn ==> i < |kvs| && kvs[i].value.cooldownOver <= now && !answers(i).deletes
        invariant forall r | r in rounds :: AsAnswered(r, kvs, i, answers)
        decreases goOn, |found| - i
      {
        ghost var sofar := rounds;
        goOn, rounds := RecycleStep(found, i, now, answers(i), was, rounds, before);
        Shares();
        AnsweredSoFar(sofar, rounds, kvs, i, answers);
        if goOn { i := i + 1; }
      }
      if goOn { RecycledAll(was, cooldownDB.entries, kvs, now); }
      else if listed { RecycledSoFar(was, cooldownDB.entries, kvs, i, now); }
      Shares();
      if sound { cluster.StaysSound(before, nodeName); }
      return goOn, rounds, kvs, i;
    }

    /** The body of the loop of recycleCooldownIP. */
    method RecycleStep(kvs: seq<KeyValue<CooldownItem>>, i: nat, now: int, a: Answers, ghost was: CooldownSet,
                       ghost sofar: seq<ThawRound>, ghost before: seq<Event>)
      returns (goOn: bool, ghost rounds: seq<ThawRound>)
      requires Valid() && now <= cluster.Now().clock && i < |kvs| && Recycled(was, cooldownDB.entries, kvs, i, now)
      requires cluster.Went(before, nodeName, true) && cluster.run == before + AllThawSteps(nodeName, sofar)
      requires Emptied(was, cooldownDB.entries, sofar)
      modifies Repr()
      ensures Valid() && fresh(Repr() - old(Repr())) && cluster.Went(before, nodeName, true)
      ensures cluster.run == before + AllThawSteps(nodeName, rounds) && Emptied(was, cooldownDB.entries, rounds)
      ensures cluster.Now().clock == old(cluster.Now().clock)
        && (!goOn ==> kvs[i].value.cooldownOver <= now && !a.deletes)
      ensures Recycled(was, cooldownDB.entries, kvs, if goOn then i + 1 else i, now)
      ensures rounds == sofar || (goOn && exists r :: rounds == sofar + [r] && AsOne(r, kvs[i], a))
    {
      hide *;
      RecycleOne(was, cooldownDB.entries, kvs, i, now);
      goOn, rounds := true, sofar;
      if now >= kvs[i].value.cooldownOver {
        RecycleListed(was, cooldownDB.entries, kvs, i, now);
        EmptyOne(was, cooldownDB.entries, kvs, i, now, sofar);
        ghost var r;
        goOn, r := RecycleEntry(kvs[i], now, a, before);
        if goOn {
          rounds := sofar + [r];
          WentAsAnswered(r, kvs[i], a);
          ThawOneMore(nodeName, sofar, r);
          assert cluster.run == before + AllThawSteps(nodeName, rounds);
        }
      }
    }

    /** One entry whose cooldown is over: out of the cooldown set, then into its pool. */
    method RecycleEntry(kv: KeyValue<CooldownItem>, now: int, a: Answers, ghost before: seq<Event>)
      returns (deleted: bool, ghost r: ThawRound)
      requires Valid() && kv.key in cooldownDB.entries && cooldownDB.entries[kv.key] == kv.value
      requires kv.value.cooldownOver <= now <= cluster.Now().clock && cluster.Went(before, nodeName, true)
      modifies Repr()
      ensures Valid() && fresh(Repr() - old(Repr())) && cluster.Went(before, nodeName, true)
      ensures cluster.Now().clock == old(cluster.Now().clock) && deleted == a.deletes
      ensures cooldownDB.entries == if deleted then old(cooldownDB.entries) - {kv.key} else old(cooldownDB.entries)
      ensures !deleted ==> cluster.run == old(cluster.run)
      ensures deleted ==>
                && r == ThawRound(r.t, kv.key, CanPut(old(poolDB).Keys, kv.value.network, a), a.outcome)
                && cluster.run == old(cluster.run) + ThawSteps(nodeName, r)
      ensures deleted && a.creates && a.writes ==> r.put
    {
      hide Enabled, Next, Coupled, IsRun, After, Footprint, Has, Cluster.Went;
      assert WellFormed(kv.value.network);
      ghost var t;
      deleted, t := ThawEntry(kv.key, now, a.deletes, before);
      r := ThawRound(t, kv.key, false, a.outcome);
      if deleted {
        var put := PutIpToPool(kv.value.network, a, t, before);
        r := r.(put := put);
        assert ThawSteps(nodeName, r) == [Thaw(t, nodeName, kv.key), PutBack(t, put)] + Dropped(t, !put, a.outcome);
        assert cluster.run == old(cluster.run) + [Thaw(t, nodeName, kv.key), PutBack(t, put)] +
               Dropped(t, !put, a.outcome);
      }
    }

    // -------------------------------------------------------------- popping and trimming

    /** Bolt.Pop on the pool of `subnet`, as its two transactions with nothing in between. */
    method PopFrom(pool: Bucket<PodNetwork>, a: Answers, ghost subnet: string, ghost job: Job, ghost t: nat,
                   ghost before: seq<Event>)
      returns (r: PopResult<PodNetwork>)
      requires Valid() && PoolName(subnet) in poolDB && pool == poolDB[PoolName(subnet)]
      requires t !in cluster.Now().threads && (!job.Trim? ==> job.want == subnet)
        && cluster.Went(before, nodeName, true)
      modifies pool, cluster
      ensures Valid() && (r.EOF? <==> a.readable && old(pool.entries) == map[]) && cluster.Went(before, nodeName, true)
      ensures r.Popped? <==> a.readable && old(pool.entries) != map[] && a.deletes
      ensures !r.Popped? ==> pool.entries == old(pool.entries) && cluster.run == old(cluster.run)
      ensures r.Popped? ==>
                && IsLeast(old(pool.entries).Keys, r.kv.key) && pool.entries == old(pool.entries) - {r.kv.key}
                && r.kv.value == old(pool.entries)[r.kv.key]
                && cluster.run == old(cluster.run) + [PopRead(t, nodeName, subnet, r.kv.key, job), PopDelete(t)]
                && Has(cluster.Now(), t, nodeName, r.kv.value, Fetched(job))
                && SameClaims(old(cluster.Now()), cluster.Now())
                && WellFormed(r.kv.value) && r.kv.value.subnetId == subnet && r.kv.key == ReservedKey(r.kv.value)
    {
      hide Enabled, Next, IsRun, After, Coupled, IsLeast, Less, Footprint, Has, Cluster.Went, AtNode, PopCurrent,
           SameClaims, WellFormed;
      ghost var was, s := Contents(), cluster.Now();
      r := pool.Pop(a.readable, a.deletes);
      if r.Popped? {
        ghost var e := PopRead(t, nodeName, subnet, r.kv.key, job);
        ghost var name := PoolName(subnet);
        LeastIsIn(was[name].Keys, r.kv.key);
        assert RecordFits(name, r.kv.key, was[name][r.kv.key]);
        PopStep(nodeName, was, cooldownDB.entries, s, t, subnet, r.kv.key, job);
        cluster.Take(e, before, nodeName, true);
        cluster.Take(PopDelete(t), before, nodeName, true);
        assert Contents() == was[name := was[name] - {r.kv.key}];
        PoolNameInjective(r.kv.value.subnetId, subnet);
      } else {
        assert Contents() == was;
      }
    }

    /** Release what a pool holds above the high watermark; an error ends the round. */
    method ReleasePool(subnet: string, pool: Bucket<PodNetwork>, size: nat, answers: nat -> Answers)
      returns (ghost completed: bool, ghost rounds: seq<TrimRound>)
      requires Valid() && PoolName(subnet) in poolDB && pool == poolDB[PoolName(subnet)] && size == |pool.entries|
      modifies Repr()
      ensures Valid() && poolDB == old(poolDB)
      ensures cluster.run == old(cluster.run) + AllTrimSteps(nodeName, subnet, rounds)
      ensures forall r | r in rounds :: r.key in old(pool.entries)
      ensures forall i | 0 <= i < |rounds| && rounds[i].outcome.Failed? :: i == |rounds| - 1 && !completed
      ensures pool.entries.Keys <= old(pool.entries).Keys
      ensures TookLeast(rounds, pool.entries) && TrimmedAsAnswered(rounds, answers)
      ensures size > highWatermark ==> |pool.entries| >= highWatermark
      ensures completed ==> |pool.entries| == if size > highWatermark then highWatermark else size
      ensures completed ==> |rounds| == if size > highWatermark then size - highWatermark else 0
      ensures highWatermark >= 0 && !completed ==>
                exists i | 0 <= i < size - highWatermark :: i <= |rounds| <= i + 1 && !Undisturbed(answers(i))
      ensures cluster.Went(old(cluster.run), nodeName, true) && (old(cluster.Sound()) ==> cluster.Sound())
    {
      hide Enabled, Next, IsRun, After, Coupled, RecordsWellFormed, IsLeast, Less, Properly, Disciplined, AllTrimSteps,
           Server.Valid, Contents, TookLeast, TrimmedAsAnswered, TrimSteps;
      Shares();
      ghost var sound := cluster.Sound();
      ghost var before := cluster.run;
      cluster.Start(nodeName, true);
      rounds := [];
      NoneTaken(pool.entries, answers);
      assert AllTrimSteps(nodeName, subnet, rounds) == [] by { hide *; NoTrim(nodeName, subnet); }
      assert before + [] == before;
      var toRelease, i := size - highWatermark, 0;
      var released := true;
      while i < toRelease && released
        invariant Valid() && cluster.Valid() && poolDB == old(poolDB)
          && cluster.run == before + AllTrimSteps(nodeName, subnet, rounds)
        invariant cluster.Went(before, nodeName, true)
        invariant 0 <= i && (toRelease >= 0 ==> i <= toRelease) && (toRelease < 0 ==> i == 0)
        invariant pool.entries.Keys <= old(pool.entries).Keys && (released ==> |pool.entries| == size - i)
        invariant released ==> |rounds| == i
        invariant TookLeast(rounds, pool.entries) && TrimmedAsAnswered(rounds, answers)
        invariant !released ==> i < toRelease && |pool.entries| >= size - i - 1
        invariant forall r | r in rounds :: r.key in old(pool.entries)
        invariant forall j | 0 <= j < |rounds| && rounds[j].outcome.Failed? :: j == |rounds| - 1 && !released
        invariant highWatermark >= 0 && !released ==> i <= |rounds| <= i + 1 && !Undisturbed(answers(i))
        decreases toRelease - i, released
      {
        ghost var was, r, popped := pool.entries, TrimRound(0, "", Failed, false), false;
        released, popped, r := ReleaseOne(subnet, pool, answers(i), before);
        Shares();
        if popped {
          TrimOneMore(nodeName, subnet, rounds, r);
          TakenFromBelow(rounds, r, was, pool.entries, answers);
          rounds := rounds + [r];
          assert cluster.run == before + AllTrimSteps(nodeName, subnet, rounds);
        }
        if released {
          assert |was - {r.key}| == |was| - 1;
          i := i + 1;
        }
      }
      Shares();
      if sound { cluster.StaysSound(before, nodeName); }
      return released, rounds;
    }

    /** The body of the loop of releasePool: the least entry is deleted in the VPC; if that fails it is pushed back. */
    method ReleaseOne(subnet: string, pool: Bucket<PodNetwork>, a: Answers, ghost before: seq<Event>)
      returns (released: bool, ghost popped: bool, ghost r: TrimRound)
      requires Valid() && PoolName(subnet) in poolDB && pool == poolDB[PoolName(subnet)]
      requires cluster.Went(before, nodeName, true)
      modifies Repr()
      ensures Valid() && poolDB == old(poolDB) && cluster.Went(before, nodeName, true)
      ensures popped == (old(pool.entries) != map[] && a.readable && a.deletes)
        && released == (popped && !a.outcome.Failed?)
      ensures !popped ==> pool.entries == old(pool.entries) && cluster.run == old(cluster.run)
      ensures popped ==>
                && IsLeast(old(pool.entries).Keys, r.key) && r.key in old(pool.entries)
                && r == TrimRound(r.t, r.key, a.outcome, a.writes)
                && pool.entries ==
                   (if a.outcome.Failed? && a.writes then old(pool.entries) else old(pool.entries) - {r.key})
                && cluster.run == old(cluster.run) + TrimSteps(nodeName, subnet, r)
      ensures !released ==> |pool.entries| >= |old(pool.entries)| - (if popped && !a.writes then 1 else 0)
    {
      hide Enabled, Next, IsRun, After, Coupled, IsLeast, Less, Footprint, Has, RecordsWellFormed, WellFormed,
           Cluster.Went, Server.Valid, Contents;
      Shares();
      ghost var t := FreshThread(cluster.Now());
      r := TrimRound(t, "", a.outcome, a.writes);
      var taken := PopFrom(pool, a, subnet, Trim, t, before);
      Shares();
      if !taken.Popped? { return false, false, r; }
      r := r.(key := taken.kv.key);
      LeastIsIn(old(pool.entries).Keys, r.key);
      var pn, outcome := taken.kv.value, a.outcome;
      Handle(t, pn, Fetched(Trim), TrimDelete(t, outcome), before);
      Shares();
      ghost var steps := [PopRead(t, nodeName, subnet, r.key, Trim), PopDelete(t), TrimDelete(t, outcome)];
      assert cluster.run == old(cluster.run) + steps;
      if outcome.Failed? {
        ghost var pushed := BackupPushSecondaryIP(pn, a, t, before);
        Shares();
        assert pushed == a.writes && cluster.run == old(cluster.run) + (steps + [PushBack(t, pushed)]);
        if pushed { assert (old(pool.entries) - {r.key})[r.key := pn] == old(pool.entries); }
        return false, true, r;
      }
      assert steps + [] == steps;
      return true, true, r;
    }

    // -------------------------------------------------------------- lending and borrowing

    /** The gRPC handler BorrowIP: parameters are checked, then an address of the subnet is lent. */
    method BorrowIP(subnetId: string, mac: string, a: Answers, ghost t: nat)
      returns (lent: Option<PodNetwork>, ghost steps: seq<Event>)
      requires Valid() && t !in cluster.Now().threads
      modifies Repr()
      ensures Valid() && fresh(Repr() - old(Repr()))
      ensures cluster.run == old(cluster.run) + steps && forall e | e in steps :: Lends(e, t)
      ensures poolDB == old(poolDB)
      ensures mac == "" || subnetId == "" || PoolName(subnetId) !in poolDB ==> lent.None? && steps == []
      ensures mac != "" && subnetId != "" && PoolName(subnetId) in poolDB ==>
                var pool := poolDB[PoolName(subnetId)];
                LentFrom(old(pool.entries), pool.entries, lent, steps, t, nodeName, subnetId, mac, a)
      ensures lent.None? ==> Done(cluster.Now(), t)
      ensures lent.Some? ==>
                && Has(cluster.Now(), t, nodeName, lent.value, Lent(subnetId))
                && lent.value.subnetId == subnetId && lent.value.mac == mac
      ensures cluster.Went(old(cluster.run), nodeName, true) && (old(cluster.Sound()) ==> cluster.Sound())
    {
      hide Enabled, Next, IsRun, After, Coupled, Has, RecordsWellFormed, Properly, Disciplined, Own, Server.Valid,
           Contents, LentFrom;
      Shares();
      ghost var sound := cluster.Sound();
      ghost var before := cluster.run;
      cluster.Start(nodeName, true);
      lent, steps := None, [];
      assert before + [] == before;
      if mac != "" && subnetId != "" {
        var pool := GetPool(subnetId, false, false);
        Shares();
        if pool.Some? { lent, steps := LendIP(subnetId, mac, pool.value, a, t); }
      }
      Shares();
      if sound { cluster.StaysSound(before, nodeName); }
    }

    /** lendIP: pop the least address and move its MAC to the borrower; when the move fails, put the address back. */
    method LendIP(subnetId: string, mac: string, pool: Bucket<PodNetwork>, a: Answers, ghost t: nat)
      returns (lent: Option<PodNetwork>, ghost steps: seq<Event>)
      requires Valid() && t !in cluster.Now().threads
      requires PoolName(subnetId) in poolDB && pool == poolDB[PoolName(subnetId)]
      modifies Repr()
      ensures Valid() && fresh(Repr() - old(Repr())) && cluster.Went(old(cluster.run), nodeName, true)
      ensures cluster.run == old(cluster.run) + steps && forall e | e in steps :: Lends(e, t)
      ensures poolDB == old(poolDB)
      ensures LentFrom(old(pool.entries), pool.entries, lent, steps, t, nodeName, subnetId, mac, a)
      ensures lent.None? ==> Done(cluster.Now(), t)
      ensures lent.Some? ==>
                && Has(cluster.Now(), t, nodeName, lent.value, Lent(subnetId))
                && lent.value.subnetId == subnetId && lent.value.mac == mac
    {
      hide Enabled, Next, IsRun, After, Coupled, IsLeast, Less, Footprint, Has, RecordsWellFormed, WellFormed,
           Cluster.Went, Server.Valid, Contents;
      Shares();
      ghost var before := cluster.run;
      cluster.Start(nodeName, true);
      var popped := PopFrom(pool, a, subnetId, Lend(subnetId, mac), t, before);
      Shares();
      if !popped.Popped? {
        assert before + [] == before;
        return None, [];
      }
      LeastIsIn(old(pool.entries).Keys, popped.kv.key);
      var pn, moved := popped.kv.value, a.moves;
      steps := [PopRead(t, nodeName, subnetId, popped.kv.key, Lend(subnetId, mac)), PopDelete(t), LendMove(t, moved)];
      Handle(t, pn, Fetched(Lend(subnetId, mac)), LendMove(t, moved), before);
      Shares();
      assert cluster.run == before + steps;
      if moved {
        assert steps + [] == steps;
        return Some(pn.(mac := mac)), steps;
      }
      var ok := PutIpToPool(pn, a, t, before);
      Shares();
      assert ok == a.writes;
      if ok { assert (old(pool.entries) - {popped.kv.key})[popped.kv.key := pn] == old(pool.entries); }
      ghost var more := [PutBack(t, ok)] + Dropped(t, !ok, a.outcome);
      assert cluster.run == before + (steps + more);
      steps := steps + more;
      return None, steps;
    }

    /** borrowIP: ask the candidates in order and take the first address that is granted. */
    method Borrow(subnetId: string, loans: seq<Loan>, ghost fixed: bool, ghost t: nat, ghost before: seq<Event>)
      returns (r: Option<PodNetwork>)
      requires Valid() && t !in cluster.Now().threads && cluster.Went(before, nodeName, true)
      requires Granting(cluster.Now(), loans, subnetId)
      modifies cluster
      ensures Valid() && cluster.Went(before, nodeName, true)
      ensures r.Some? <==> exists i :: 0 <= i < |loans| && loans[i].Granted?
      ensures r.None? ==> cluster.run == old(cluster.run)
      ensures r.Some? ==> Has(cluster.Now(), t, nodeName, r.value, Fetched(Add(subnetId, fixed)))
      ensures r.Some? ==> exists i | 0 <= i < |loans| && loans[i].Granted? ::
                && (forall j | 0 <= j < i :: !loans[j].Granted?) && r.value == loans[i].pn.(recycled := false)
                && cluster.run == old(cluster.run) + [Reply(loans[i].lender, t, nodeName, fixed)]
      ensures r.Some? ==> !r.value.recycled && WellFormed(r.value)
      ensures SameClaims(old(cluster.Now()), cluster.Now())
    {
      hide Enabled, Next, IsRun, After, Coupled, RecordsWellFormed, Cluster.Went, AtNode;
      var i := 0;
      while i < |loans|
        invariant 0 <= i <= |loans| && forall j | 0 <= j < i :: !loans[j].Granted?
      {
        if loans[i].Granted? {
          var Granted(pn, lender, from) := loans[i];
          ghost var e := Reply(lender, t, nodeName, fixed);
          ReplyMay(cluster.Now(), lender, from, t, nodeName, pn, subnetId, fixed);
          TakeInHandEffect(cluster.Now(), t, nodeName, e);
          ElsewhereCoupled(nodeName, Contents(), cooldownDB.entries, cluster.Now(), e);
          HandOutKeepsClaims(cluster.Now(), e);
          AtNodeIsLocal(cluster.Now(), e, nodeName);
          cluster.Take(e, before, nodeName, true);
          return Some(pn.(recycled := false));
        }
        i := i + 1;
      }
      return None;
    }

    // -------------------------------------------------------------- handing out

    /** assignPodIP: an address from the pool; when it is empty, from the VPC; when that has none, from another node. */
    method AssignPodIP(subnetId: string, offer: Offer, loans: seq<Loan>, a: Answers, ghost fixed: bool, ghost t: nat)
      returns (r: Option<PodNetwork>, ghost steps: seq<Event>)
      requires Valid() && t !in cluster.Now().threads && subnetId != ""
      requires offer.Allocated? ==> Enabled(cluster.Now(), Allocate(t, nodeName, subnetId, fixed, offer.pn))
      requires Granting(cluster.Now(), loans, subnetId)
      modifies Repr()
      ensures Valid() && fresh(Repr() - old(Repr())) && cluster.Went(old(cluster.run), nodeName, true)
      ensures cluster.run == old(cluster.run) + steps && (r.None? ==> steps == [])
      ensures r.Some? ==> Has(cluster.Now(), t, nodeName, r.value, Fetched(Add(subnetId, fixed))) && WellFormed(r.value)
      ensures r.Some? <==> Assignable(old(Contents()), subnetId, offer, loans, a)
      ensures r.Some? ==> Assigns(steps, t, nodeName, subnetId, fixed, r.value)
      ensures r.Some? && PoolName(subnetId) in old(poolDB) && old(poolDB[PoolName(subnetId)].entries) != map[] ==>
                && IsLeast(old(poolDB[PoolName(subnetId)].entries).Keys, ReservedKey(r.value))
                && r.value == old(poolDB[PoolName(subnetId)].entries)[ReservedKey(r.value)]
                && steps == [PopRead(t, nodeName, subnetId, ReservedKey(r.value), Add(subnetId, fixed)), PopDelete(t)]
      ensures r.Some? && (PoolName(subnetId) in old(poolDB) ==> old(poolDB[PoolName(subnetId)].entries) == map[]) ==>
                if offer.Allocated? then r.value == offer.pn
                  && steps == [Allocate(t, nodeName, subnetId, fixed, offer.pn)]
                else BorrowedFirst(steps, r.value, loans, t, nodeName, fixed)
      ensures SameClaims(old(cluster.Now()), cluster.Now())
    {
      hide Enabled, Next, IsRun, After, Coupled, IsLeast, Less, Footprint, Has, RecordsWellFormed, Cluster.Went,
           Granting, Server.Valid;
      Shares();
      ghost var before := cluster.run;
      cluster.Start(nodeName, true);
      assert before + [] == before;
      var pool := GetPool(subnetId, true, a.creates);
      Shares();
      if pool.None? { return None, []; }
      var popped := PopFrom(pool.value, a, subnetId, Add(subnetId, fixed), t, before);
      Shares();
      match popped
      case Popped(kv) =>
        return Some(kv.value), [PopRead(t, nodeName, subnetId, kv.key, Add(subnetId, fixed)), PopDelete(t)];
      case PopError => return None, [];
      case EOF => r, steps := AssignElsewhere(subnetId, offer, loans, fixed, t, before);
    }

    /** assignPodIP when the pool is empty. */
    method AssignElsewhere(subnetId: string, offer: Offer, loans: seq<Loan>, ghost fixed: bool, ghost t: nat,
                           ghost before: seq<Event>)
      returns (r: Option<PodNetwork>, ghost steps: seq<Event>)
      requires Valid() && t !in cluster.Now().threads && cluster.Went(before, nodeName, true)
      requires offer.Allocated? ==> Enabled(cluster.Now(), Allocate(t, nodeName, subnetId, fixed, offer.pn))
      requires Granting(cluster.Now(), loans, subnetId)
      modifies cluster
      ensures Valid() && cluster.Went(before, nodeName, true)
      ensures cluster.run == old(cluster.run) + steps && (r.None? ==> steps == [])
      ensures r.Some? ==> Has(cluster.Now(), t, nodeName, r.value, Fetched(Add(subnetId, fixed))) && WellFormed(r.value)
      ensures r.Some? <==> offer.Allocated? || (offer.OutOfIp? && exists i | 0 <= i < |loans| :: loans[i].Granted?)
      ensures offer.Allocated? ==> r == Some(offer.pn) && steps == [Allocate(t, nodeName, subnetId, fixed, offer.pn)]
      ensures r.Some? ==> Assigns(steps, t, nodeName, subnetId, fixed, r.value)
      ensures r.Some? && !offer.Allocated? ==> BorrowedFirst(steps, r.value, loans, t, nodeName, fixed)
      ensures SameClaims(old(cluster.Now()), cluster.Now())
    {
      hide Enabled, Next, IsRun, After, Coupled, IsLeast, Less, Footprint, Has, RecordsWellFormed, Cluster.Went, AtNode,
        Granting;
      assert cluster.run + [] == cluster.run;
      match offer
      case Allocated(pn) =>
        ghost var e := Allocate(t, nodeName, subnetId, fixed, pn);
        HandOutKeepsClaims(cluster.Now(), e);
        TakeInHandEffect(cluster.Now(), t, nodeName, e);
        QuietStep(nodeName, Contents(), cooldownDB.entries, cluster.Now(), t, e);
        AtNodeIsLocal(cluster.Now(), e, nodeName);
        cluster.Take(e, before, nodeName, true);
        return Some(pn), [e];
      case OutOfIp =>
        r := Borrow(subnetId, loans, fixed, t, before);
        steps := cluster.run[|old(cluster.run)|..];
        if r.Some? {
          ghost var i :| 0 <= i < |loans| && loans[i].Granted? && (forall j | 0 <= j < i :: !loans[j].Granted?)
                && r.value == loans[i].pn.(recycled := false)
                && cluster.run == old(cluster.run) + [Reply(loans[i].lender, t, nodeName, fixed)];
          assert steps == [Reply(loans[i].lender, t, nodeName, fixed)];
        }
      case AllocationError => return None, [];
    }

    /** What happens beside a goroutine of this node between two of its statements: everybody else goes on, and the gRPC
        goroutines of this node lend addresses. */
    method Others(ghost t: nat, ghost keep: set<Place>, ghost before: seq<Event>)
      requires Valid() && cluster.Went(before, nodeName, true) && t in cluster.Now().threads
      modifies Repr()
      ensures Valid() && fresh(Repr() - old(Repr())) && cluster.Went(before, nodeName, true)
      ensures old(cluster.run) <= cluster.run && Mine(cluster.run[|old(cluster.run)|..], t) == []
      ensures SameGoroutine(old(cluster.Now()), cluster.Now(), t)
      ensures KeptClaims(old(cluster.Now()), cluster.Now(), keep)
    {
      hide Enabled, Next, IsRun, After, Coupled, RecordsWellFormed, Properly, Mine;
      ghost var was := Contents();
      cluster.Others(t, keep, before, nodeName);
      assert Coupled(nodeName, was, cooldownDB.entries, cluster.Now());
      assert Contents() == was;
      if beside == [] { return; }
      var lendings := beside[0];
      beside := beside[1..];
      assert Contents() == was;
      for i := 0 to |lendings|
        invariant Valid() && fresh(Repr() - old(Repr())) && cluster.Went(before, nodeName, true)
        invariant old(cluster.run) <= cluster.run && Mine(cluster.run[|old(cluster.run)|..], t) == []
        invariant SameGoroutine(old(cluster.Now()), cluster.Now(), t)
        invariant KeptClaims(old(cluster.Now()), cluster.Now(), keep)
      {
        LendBeside(lendings[i], t, keep, old(cluster.run), old(cluster.Now()), before);
      }
    }

    /** A gRPC goroutine lends an address beside goroutine `t`. */
    method LendBeside(l: Lending, ghost t: nat, ghost keep: set<Place>, ghost first: seq<Event>, ghost s0: State,
                      ghost before: seq<Event>)
      requires Valid() && cluster.Went(before, nodeName, true) && t in cluster.Now().threads
      requires first <= cluster.run && Mine(cluster.run[|first|..], t) == [] && SameGoroutine(s0, cluster.Now(), t)
      requires KeptClaims(s0, cluster.Now(), keep)
      modifies Repr()
      ensures Valid() && fresh(Repr() - old(Repr())) && cluster.Went(before, nodeName, true)
      ensures first <= cluster.run && Mine(cluster.run[|first|..], t) == [] && SameGoroutine(s0, cluster.Now(), t)
      ensures KeptClaims(s0, cluster.Now(), keep)
    {
      hide Enabled, Next, Coupled, RecordsWellFormed, Mine, Own;
      ghost var u := FreshThread(cluster.Now());
      ghost var mid, s1 := cluster.run, cluster.Now();
      ghost var steps;
      var lent;
      lent, steps := BorrowIP(l.subnetId, l.mac, l.answers, u);
      cluster.GoOn(before, mid, nodeName, true);
      LendingLeaves(cluster.init, cluster.run, |mid|, t, u, keep);
      assert cluster.run[..|mid|] == mid && cluster.run[|mid|..] == steps;
      KeptOn(s0, s1, cluster.Now(), keep);
      SameOn(s0, s1, cluster.Now(), t);
      MineOn(first, mid, cluster.run, t);
      LendingIsNotMine(steps, t, u);
    }

    /** The checks of getPodIp on the address of a dynamic pod: it exists, and nobody else uses it. Others act between
        the lookup and the probe. */
    method CheckAssigned(pn: PodNetwork, sight: Sight, conflictFree: bool, a: Answers, ghost want: string, ghost t: nat,
                         ghost before: seq<Event>)
      returns (good: bool, ghost checked: bool, ghost put: bool)
      requires Valid() && WellFormed(pn) && Has(cluster.Now(), t, nodeName, pn, Fetched(Add(want, false)))
      requires cluster.Went(before, nodeName, true)
      modifies Repr()
      ensures Valid() && fresh(Repr() - old(Repr())) && cluster.Went(before, nodeName, true)
        && old(cluster.run) <= cluster.run
      ensures Mine(cluster.run[|old(cluster.run)|..], t) ==
        CheckSteps(t, pn.recycled, sight, conflictFree, put, a.outcome)
      ensures sight.Unknown? ==> put == CanPut(old(poolDB).Keys, pn, a)
      ensures good <==> sight.Present? && (pn.recycled || conflictFree)
      ensures if good then Has(cluster.Now(), t, nodeName, pn, Ready(want, checked)) && checked == !pn.recycled
              else Done(cluster.Now(), t)
    {
      hide Enabled, Next, IsRun, After, Coupled, RecordsWellFormed, Cluster.Went, Mine, Own, WellFormed;
      ghost var first := cluster.run;
      checked, put := !pn.recycled, false;
      CheckStepsAreOwn(t, pn.recycled, sight, conflictFree, false, false, a.outcome);
      Handle(t, pn, Fetched(Add(want, false)), See(t, sight), before);
      OwnSteps(first, [See(t, sight)], t);
      if sight.Unknown? {
        put := PutIpToPool(pn, a, t, before);
        ghost var steps := CheckSteps(t, pn.recycled, sight, conflictFree, put, a.outcome);
        CheckStepsAreOwn(t, pn.recycled, sight, conflictFree, put, false, a.outcome);
        assert cluster.run == first + steps;
        OwnSteps(first, steps, t);
        return false, checked, put;
      }
      if sight.Missing? { return false, checked, put; }
      ghost var seen := cluster.run;
      Others(t, {}, before);
      ghost var mid := cluster.run;
      ghost var more;
      good, more := VetAssigned(pn, conflictFree, a.outcome, want, t, before);
      OwnSteps(mid, more, t);
      MineOn(first, seen, mid, t);
      MineOn(first, mid, cluster.run, t);
    }

    /** The conflict check of getPodIp, unless this node's cooldown vouches for the address. */
    method VetAssigned(pn: PodNetwork, conflictFree: bool, outcome: Outcome, ghost want: string, ghost t: nat,
                       ghost before: seq<Event>)
      returns (good: bool, ghost steps: seq<Event>)
      requires Valid() && WellFormed(pn) && Has(cluster.Now(), t, nodeName, pn, Seen(want))
      requires cluster.Went(before, nodeName, true)
      modifies cluster
      ensures Valid() && cluster.Went(before, nodeName, true)
      ensures cluster.run == old(cluster.run) + steps && forall e | e in steps :: Own(e, t)
      ensures steps == if pn.recycled then [SkipVet(t)] else [Vet(t, conflictFree)] + Dropped(t, !conflictFree, outcome)
      ensures good <==> pn.recycled || conflictFree
      ensures if good then Has(cluster.Now(), t, nodeName, pn, Ready(want, !pn.recycled)) else Done(cluster.Now(), t)
    {
      hide Enabled, Next, IsRun, After, Coupled, Footprint, Has, RecordsWellFormed, Cluster.Went;
      if !pn.recycled && pn.vpcIp != "" {
        Handle(t, pn, Seen(want), Vet(t, conflictFree), before);
        if conflictFree { return true, [Vet(t, true)]; }
        BackupReleaseSecondaryIP(pn, outcome, t, before);
        return false, [Vet(t, false), Drop(t, outcome)];
      }
      Handle(t, pn, Seen(want), SkipVet(t), before);
      return true, [SkipVet(t)];
    }

    /** assignPodIP, and what others do before the next statement. */
    method AssignPodIPAmongOthers(want: string, offer: Offer, loans: seq<Loan>, a: Answers, ghost fixed: bool,
        ghost t: nat, ghost keep: set<Place>)
      returns (got: Option<PodNetwork>, ghost assign: seq<Event>)
      requires Valid() && t !in cluster.Now().threads && want != ""
      requires offer.Allocated? ==> Enabled(cluster.Now(), Allocate(t, nodeName, want, fixed, offer.pn))
      requires Granting(cluster.Now(), loans, want)
      modifies Repr()
      ensures Valid() && fresh(Repr() - old(Repr())) && cluster.Went(old(cluster.run), nodeName, true)
      ensures got.Some? <==> Assignable(old(Contents()), want, offer, loans, a)
      ensures got.None? ==> cluster.run == old(cluster.run) && Done(cluster.Now(), t)
      ensures got.Some? ==>
                && Has(cluster.Now(), t, nodeName, got.value, Fetched(Add(want, fixed))) && WellFormed(got.value)
                && Assigns(assign, t, nodeName, want, fixed, got.value)
                && old(cluster.run) <= cluster.run && Mine(cluster.run[|old(cluster.run)|..], t) == assign
                && forall ns, name | Claim(ns, name) in keep :: ClaimFree(old(cluster.Now()), ns, name) ==>
                     ClaimFree(cluster.Now(), ns, name)
    {
      hide Enabled, Next, IsRun, After, Coupled, Footprint, RecordsWellFormed, Cluster.Went, Assignable, Own,
        WellFormed, Mine, Granting, Assigns, Has, Server.Valid, Contents;
      Shares();
      ghost var before := cluster.run;
      got, assign := AssignPodIP(want, offer, loans, a, fixed, t);
      Shares();
      if got.None? {
        assert before + [] == before;
        return;
      }
      AssignsIsOwn(assign, t, nodeName, want, fixed, got.value);
      OwnSteps(before, assign, t);
      ghost var taken, s1 := cluster.run, cluster.Now();
      HasIsThread(s1, t, nodeName, got.value, Fetched(Add(want, fixed)));
      Others(t, keep, before);
      Shares();
      HasOn(s1, cluster.Now(), t, nodeName, got.value, Fetched(Add(want, fixed)));
      MineOn(before, taken, cluster.run, t);
      forall ns, name | Claim(ns, name) in keep && ClaimFree(old(cluster.Now()), ns, name)
        ensures ClaimFree(cluster.Now(), ns, name)
      {
        assert ClaimFree(s1, ns, name);
      }
    }

    /** getPodIp for a dynamic pod. Others act after the address was assigned. */
    method GetPodIP(want: string, offer: Offer, loans: seq<Loan>, sight: Sight, conflictFree: bool, a: Answers,
        ghost t: nat)
      returns (got: Option<PodNetwork>, good: bool, ghost checked: bool, ghost assign: seq<Event>, ghost put: bool)
      requires Valid() && t !in cluster.Now().threads && want != ""
      requires offer.Allocated? ==> Enabled(cluster.Now(), Allocate(t, nodeName, want, false, offer.pn))
      requires Granting(cluster.Now(), loans, want)
      modifies Repr()
      ensures Valid() && fresh(Repr() - old(Repr())) && cluster.Went(old(cluster.run), nodeName, true)
      ensures got.Some? <==> Assignable(old(Contents()), want, offer, loans, a)
      ensures got.Some? ==> Assigns(assign, t, nodeName, want, false, got.value)
      ensures good <==> got.Some? && sight.Present? && (got.value.recycled || conflictFree)
      ensures got.Some? && sight.Unknown? ==> PutAsAnswered(put, a)
      ensures got.None? ==> cluster.run == old(cluster.run)
      ensures got.Some? ==>
                && old(cluster.run) <= cluster.run
                && Mine(cluster.run[|old(cluster.run)|..], t) ==
                   assign + CheckSteps(t, got.value.recycled, sight, conflictFree, put, a.outcome)
      ensures if good then Has(cluster.Now(), t, nodeName, got.value, Ready(want, checked)) else Done(cluster.Now(), t)
    {
      hide Enabled, Next, IsRun, After, Coupled, Footprint, RecordsWellFormed, Cluster.Went, Assignable, Own,
        WellFormed, Mine, CheckSteps, Granting, Assigns, Has, Server.Valid, Contents;
      Shares();
      ghost var before := cluster.run;
      put, good, checked := false, false, false;
      got, assign := AssignPodIPAmongOthers(want, offer, loans, a, false, t, {});
      Shares();
      if got.None? { return; }
      ghost var others := cluster.run;
      good, checked, put := CheckAssigned(got.value, sight, conflictFree, a, want, t, before);
      Shares();
      MineOn(before, others, cluster.run, t);
    }

    /** AddPodNetwork for a dynamic pod: getPodIp, then the annotation; without it the address is deleted again. Others
        act in between, and the goroutine takes exactly these steps. */
    method AddPodNetwork(subnetId: string, offer: Offer, loans: seq<Loan>, sight: Sight, conflictFree: bool,
                         annotated: bool, a: Answers, ghost t: nat)
      returns (got: Option<PodNetwork>, r: Option<PodNetwork>, ghost assign: seq<Event>, ghost put: bool)
      requires Valid() && t !in cluster.Now().threads && defaultSubnet != ""
      requires var want := if subnetId == "" then defaultSubnet else subnetId;
               && (offer.Allocated? ==> Enabled(cluster.Now(), Allocate(t, nodeName, want, false, offer.pn)))
               && Granting(cluster.Now(), loans, want)
      modifies Repr()
      ensures Valid() && fresh(Repr() - old(Repr())) && Done(cluster.Now(), t)
      ensures cluster.Went(old(cluster.run), nodeName, true) && (old(cluster.Sound()) ==> cluster.Sound())
      ensures var want := if subnetId == "" then defaultSubnet else subnetId;
              && (got.Some? <==> Assignable(old(Contents()), want, offer, loans, a))
              && (got.Some? ==> Assigns(assign, t, nodeName, want, false, got.value))
      ensures r == if got.Some? && sight.Present? && (got.value.recycled || conflictFree) && annotated
                   then got else None
      ensures got.Some? && sight.Unknown? ==> PutAsAnswered(put, a)
      ensures got.None? ==> cluster.run == old(cluster.run)
      ensures got.Some? ==>
                Mine(cluster.run[|old(cluster.run)|..], t) ==
                assign + CheckSteps(t, got.value.recycled, sight, conflictFree, put, a.outcome)
                + if sight.Present? && (got.value.recycled || conflictFree)
                  then HandOverSteps(t, annotated, a.outcome) else []
      ensures r.Some? ==>
                var p := Given(nodeName, ReservedKey(r.value));
                p in cluster.Now().held && cluster.Now().held[p].pn == r.value
    {
      hide Enabled, Next, IsRun, After, Coupled, Footprint, RecordsWellFormed, Properly, Disciplined, Assignable, Own,
        WellFormed, Mine, CheckSteps, HandOverSteps, Granting, Assigns, Has, Server.Valid, Contents;
      Shares();
      ghost var sound := cluster.Sound();
      var want := if subnetId == "" then defaultSubnet else subnetId;
      ghost var before := cluster.run;
      var good;
      ghost var checked;
      got, good, checked, assign, put := GetPodIP(want, offer, loans, sight, conflictFree, a, t);
      r := None;
      Shares();
      if good {
        ghost var vetted, s1 := cluster.run, cluster.Now();
        HasIsThread(s1, t, nodeName, got.value, Ready(want, checked));
        Others(t, {}, before);
        Shares();
        ghost var last := cluster.run;
        HasOn(s1, cluster.Now(), t, nodeName, got.value, Ready(want, checked));
        HandOver(got.value, annotated, a.outcome, want, checked, t, before);
        Shares();
        OwnSteps(last, HandOverSteps(t, annotated, a.outcome), t);
        MineOn(before, vetted, last, t);
        MineOn(before, last, cluster.run, t);
        r := if annotated then got else None;
      }
      if sound { cluster.StaysSound(before, nodeName); }
    }

    /** The annotation of the pod ends the hand-out; when it fails, the address is deleted. */
    method HandOver(pn: PodNetwork, annotated: bool, outcome: Outcome, ghost want: string, ghost checked: bool,
                    ghost t: nat, ghost before: seq<Event>)
      requires Valid() && Has(cluster.Now(), t, nodeName, pn, Ready(want, checked))
      requires cluster.Went(before, nodeName, true)
      modifies cluster
      ensures Valid() && Done(cluster.Now(), t) && cluster.Went(before, nodeName, true)
      ensures cluster.run == old(cluster.run) + HandOverSteps(t, annotated, outcome)
      ensures forall e | e in HandOverSteps(t, annotated, outcome) :: Own(e, t)
      ensures annotated ==>
                var p := Given(nodeName, ReservedKey(pn));
                p in cluster.Now().held && cluster.Now().held[p].pn == pn
    {
      hide Enabled, Next, IsRun, After, Coupled, Footprint, Has, RecordsWellFormed, Cluster.Went, AtNode;
      if annotated {
        ghost var e := Deliver(t, true);
        PutDownEffect(cluster.Now(), t, nodeName, pn, Ready(want, checked), e);
        ElsewhereCoupled(nodeName, Contents(), cooldownDB.entries, cluster.Now(), e);
        AtNodeIsLocal(cluster.Now(), e, nodeName);
        cluster.Take(e, before, nodeName, true);
      } else {
        Handle(t, pn, Ready(want, checked), Deliver(t, false), before);
        BackupReleaseSecondaryIP(pn, outcome, t, before);
      }
    }

    // -------------------------------------------------------------- static pods

    /** localAttach: an address that is gone from the VPC is allocated again, its MAC is moved when it is another
        node's, the claim is marked and read again. */
    method LocalAttach(ghost phase: Phase, ghost ns: string, ghost name: string, at: Attachment, ghost t: nat,
                       ghost before: seq<Event>)
      returns (ok: bool)
      requires Valid() && phase.Attaching? && Works(cluster.Now(), t, nodeName, phase)
      requires cluster.Went(before, nodeName, true)
      modifies cluster
      ensures Valid() && ok == Attaches(at) && cluster.Went(before, nodeName, true)
      ensures cluster.run == old(cluster.run) + LocalAttachSteps(t, Reallocates(at), ok)
      ensures if ok then Works(cluster.Now(), t, nodeName, phase) else Done(cluster.Now(), t)
      ensures KeptClaims(old(cluster.Now()), cluster.Now(), {Claim(ns, name)})
    {
      hide Enabled, Next, IsRun, After, Coupled, Footprint, RecordsWellFormed, Works, Cluster.Went, KeptClaims;
      var prevMac := at.statusMac;
      ok := true;
      match at.described {
        case NoAnswer =>                                     // only a warning
        case Described(mac) => prevMac := mac;
        case NotThere =>
          ok := at.allocatedMac.Some?;
          if ok {
            prevMac := at.allocatedMac.value;
            Work(t, phase, Reallocate(t), before);
          }
      }
      if ok && prevMac != at.mac { ok := at.moved; }
      ok := ok && at.marked && at.readBack;
      if !ok { Work(t, phase, Abandon(t), before); }
      SameHeldKeeps(old(cluster.Now()), cluster.Now(), {Claim(ns, name)});
    }

    /** createVpcIpClaimByPodNetwork up to the Create call. Only a definite rejection gives the address back. */
    method CreateClaimFor(pn: PodNetwork, ghost want: string, ghost ns: string, ghost name: string, result: Creation,
                          a: Answers, ghost t: nat, ghost before: seq<Event>)
      returns (ghost put: bool)
      requires Valid() && WellFormed(pn) && Has(cluster.Now(), t, nodeName, pn, Fetched(Add(want, true)))
      requires result.Created? || result.Committed? ==> ClaimFree(cluster.Now(), ns, name)
      requires cluster.Went(before, nodeName, true)
      modifies Repr()
      ensures Valid() && fresh(Repr() - old(Repr())) && cluster.Went(before, nodeName, true)
      ensures result.Rejected? ==> put == CanPut(old(poolDB).Keys, pn, a)
      ensures cluster.run == old(cluster.run) + CreateSteps(t, ns, name, result, put, a.outcome)
      ensures if result.Created? then Works(cluster.Now(), t, nodeName, Attaching(ns, name, pn, false, false))
              else Done(cluster.Now(), t)
      ensures result.Created? || result.Committed? ==>
                Claim(ns, name) in cluster.Now().held && cluster.Now().held[Claim(ns, name)].pn == pn
    {
      hide Enabled, Next, IsRun, After, Coupled, Footprint, Has, RecordsWellFormed, Works, Cluster.Went, AtNode;
      ghost var e := CreateClaim(t, ns, name, result);
      CreateClaimStep(nodeName, Contents(), cooldownDB.entries, cluster.Now(), t, pn, want, ns, name, result);
      AtNodeIsLocal(cluster.Now(), e, nodeName);
      cluster.Take(e, before, nodeName, true);
      put := false;
      if result.Rejected? { put := PutIpToPool(pn, a, t, before); }
    }

    /** The checks of getPodIp on the address of a static pod. */
    method VetAttached(ghost ns: string, ghost name: string, pn: PodNetwork, sight: Sight, conflictFree: bool,
                       outcome: Outcome, ghost t: nat, ghost before: seq<Event>)
      returns (good: bool)
      requires Valid() && Works(cluster.Now(), t, nodeName, Attaching(ns, name, pn, false, false))
      requires cluster.Went(before, nodeName, true)
      modifies cluster
      ensures Valid() && cluster.Went(before, nodeName, true)
      ensures cluster.run == old(cluster.run) + [AttachCheck(t, pn.recycled, sight, conflictFree, outcome)]
      ensures cluster.Now().held == old(cluster.Now().held)
      ensures good <==> sight.Present? && (pn.recycled || conflictFree)
      ensures if good then Works(cluster.Now(), t, nodeName, Attaching(ns, name, pn, !pn.recycled, true))
              else Done(cluster.Now(), t)
    {
      hide Enabled, Next, IsRun, After, Coupled, Footprint, RecordsWellFormed, Works, Cluster.Went;
      Work(t, Attaching(ns, name, pn, false, false), AttachCheck(t, pn.recycled, sight, conflictFree, outcome), before);
      good := sight.Present? && (pn.recycled || conflictFree);
    }

    /** The checks of getPodIp on the address of a static pod, and the annotation: whatever fails, the claim stays as it
        is. Others act before the annotation. */
    method CheckAttached(ghost ns: string, ghost name: string, pn: PodNetwork, sight: Sight, conflictFree: bool,
                         annotated: bool, outcome: Outcome, ghost t: nat, ghost before: seq<Event>)
      returns (good: bool)
      requires Valid() && Works(cluster.Now(), t, nodeName, Attaching(ns, name, pn, false, false))
      requires cluster.Went(before, nodeName, true)
      modifies Repr()
      ensures Valid() && fresh(Repr() - old(Repr())) && Done(cluster.Now(), t) && cluster.Went(before, nodeName, true)
      ensures old(cluster.run) <= cluster.run
      ensures Mine(cluster.run[|old(cluster.run)|..], t) ==
        AttachSteps(t, pn.recycled, sight, conflictFree, annotated, outcome)
      ensures KeptClaims(old(cluster.Now()), cluster.Now(), {Claim(ns, name)})
      ensures good <==> sight.Present? && (pn.recycled || conflictFree) && annotated
    {
      hide Enabled, Next, IsRun, After, Coupled, Footprint, RecordsWellFormed, Works, Cluster.Went, Mine, Own,
           KeptClaims, AttachCheck, Server.Valid, Contents;
      Shares();
      ghost var first, s0, keep := cluster.run, cluster.Now(), {Claim(ns, name)};
      ghost var e := AttachCheck(t, pn.recycled, sight, conflictFree, outcome);
      AttachStepsAreOwn(t, pn.recycled, sight, conflictFree, annotated, outcome);
      good := VetAttached(ns, name, pn, sight, conflictFree, outcome, t, before);
      Shares();
      OwnSteps(first, [e], t);
      SameHeldKeeps(s0, cluster.Now(), keep);
      if good {
        ghost var vetted, s1, phase := cluster.run, cluster.Now(), Attaching(ns, name, pn, !pn.recycled, true);
        WorksIsThread(s1, t, nodeName, phase);
        Others(t, keep, before);
        Shares();
        ghost var others, s2 := cluster.run, cluster.Now();
        WorksOn(s1, s2, t, nodeName, phase);
        Work(t, phase, AttachDeliver(t, annotated, outcome), before);
        Shares();
        OwnSteps(others, [AttachDeliver(t, annotated, outcome)], t);
        SameHeldKeeps(s2, cluster.Now(), keep);
        KeptOn(s0, s1, s2, keep);
        KeptOn(s0, s2, cluster.Now(), keep);
        MineOn(first, vetted, others, t);
        MineOn(first, others, cluster.run, t);
        good := annotated;
      }
    }

    /** What a static pod's hand-out does once there is a claim. */
    method AttachAndCheck(ghost ns: string, ghost name: string, pn: PodNetwork, at: Attachment, sight: Sight,
        conflictFree: bool, annotated: bool, outcome: Outcome, ghost t: nat, ghost before: seq<Event>)
      returns (good: bool)
      requires Valid() && Works(cluster.Now(), t, nodeName, Attaching(ns, name, pn, false, false))
      requires cluster.Went(before, nodeName, true)
      modifies Repr()
      ensures Valid() && fresh(Repr() - old(Repr())) && Done(cluster.Now(), t) && cluster.Went(before, nodeName, true)
      ensures old(cluster.run) <= cluster.run
      ensures Mine(cluster.run[|old(cluster.run)|..], t) ==
              LocalAttachSteps(t, Reallocates(at), Attaches(at))
              + if Attaches(at) then AttachSteps(t, pn.recycled, sight, conflictFree, annotated, outcome) else []
      ensures KeptClaims(old(cluster.Now()), cluster.Now(), {Claim(ns, name)})
      ensures good <==> Attaches(at) && sight.Present? && (pn.recycled || conflictFree) && annotated
    {
      hide Enabled, Next, IsRun, After, Coupled, Footprint, RecordsWellFormed, Works, Cluster.Went, Mine, Own,
           AttachSteps, KeptClaims, LocalAttachSteps, Server.Valid, Contents;
      Shares();
      ghost var first, s0 := cluster.run, cluster.Now();
      good := LocalAttach(Attaching(ns, name, pn, false, false), ns, name, at, t, before);
      Shares();
      LocalAttachIsOwn(t, Reallocates(at), good);
      OwnSteps(first, LocalAttachSteps(t, Reallocates(at), good), t);
      ghost var attached, s1 := cluster.run, cluster.Now();
      if good {
        WorksIsThread(s1, t, nodeName, Attaching(ns, name, pn, false, false));
        Others(t, {Claim(ns, name)}, before);
        Shares();
        ghost var others, s2 := cluster.run, cluster.Now();
        WorksOn(s1, s2, t, nodeName, Attaching(ns, name, pn, false, false));
        good := CheckAttached(ns, name, pn, sight, conflictFree, annotated, outcome, t, before);
        Shares();
        MineOn(first, attached, others, t);
        MineOn(first, others, cluster.run, t);
        KeptOn(s0, s1, s2, {Claim(ns, name)});
        KeptOn(s0, s2, cluster.Now(), {Claim(ns, name)});
      } else {
        assert LocalAttachSteps(t, Reallocates(at), good) + [] == LocalAttachSteps(t, Reallocates(at), good);
      }
    }

    /** AddPodNetwork for a static pod whose claim exists: whatever fails, the claim keeps its address. */
    method AddStaticPod(ghost ns: string, ghost name: string, vip: PodNetwork, at: Attachment, sight: Sight,
        conflictFree: bool, annotated: bool, outcome: Outcome, ghost t: nat)
      returns (good: bool)
      requires Valid() && t !in cluster.Now().threads && Claim(ns, name) in cluster.Now().held
      requires vip == cluster.Now().held[Claim(ns, name)].pn.(recycled := false)    // VipToPodNetwork
      modifies Repr()
      ensures Valid() && fresh(Repr() - old(Repr())) && Done(cluster.Now(), t)
      ensures cluster.Went(old(cluster.run), nodeName, true) && (old(cluster.Sound()) ==> cluster.Sound())
      ensures Mine(cluster.run[|old(cluster.run)|..], t) ==
              [Attach(t, nodeName, ns, name)] + LocalAttachSteps(t, Reallocates(at), Attaches(at))
              + if Attaches(at) then AttachSteps(t, false, sight, conflictFree, annotated, outcome) else []
      ensures KeptClaims(old(cluster.Now()), cluster.Now(), {Claim(ns, name)})
      ensures good <==> Attaches(at) && sight.Present? && conflictFree && annotated
    {
      hide Enabled, Next, IsRun, After, Coupled, Footprint, RecordsWellFormed, Works, Properly, Disciplined, Mine, Own,
        AttachSteps, LocalAttachSteps, KeptClaims, AtNode;
      ghost var before, s0, e := cluster.run, cluster.Now(), Attach(t, nodeName, ns, name);
      cluster.Start(nodeName, true);
      AttachEffect(s0, t, nodeName, ns, name);
      QuietStep(nodeName, Contents(), cooldownDB.entries, s0, t, e);
      AtNodeIsLocal(s0, e, nodeName);
      AttachKeepsClaims(s0, e, {Claim(ns, name)});
      cluster.Take(e, before, nodeName, true);
      OwnSteps(before, [e], t) by { hide *; AttachIsOwn(t, nodeName, ns, name); }
      ghost var attached, s1 := cluster.run, cluster.Now();
      good := AttachAndCheck(ns, name, vip, at, sight, conflictFree, annotated, outcome, t, before);
      MineOn(before, attached, cluster.run, t);
      KeptOn(s0, s1, cluster.Now(), {Claim(ns, name)});
      if old(cluster.Sound()) { cluster.StaysSound(before, nodeName); }
    }

    /** What a static pod's hand-out does once there is an address for its claim. */
    method CreateAndAttach(pn: PodNetwork, ghost want: string, ghost ns: string, ghost name: string, creation: Creation,
                           at: Attachment, sight: Sight, conflictFree: bool, annotated: bool, a: Answers,
                           ghost t: nat, ghost before: seq<Event>)
      returns (good: bool, ghost put: bool)
      requires Valid() && WellFormed(pn) && Has(cluster.Now(), t, nodeName, pn, Fetched(Add(want, true)))
      requires ClaimFree(cluster.Now(), ns, name) && cluster.Went(before, nodeName, true)
      modifies Repr()
      ensures Valid() && fresh(Repr() - old(Repr())) && Done(cluster.Now(), t) && cluster.Went(before, nodeName, true)
      ensures old(cluster.run) <= cluster.run
      ensures Mine(cluster.run[|old(cluster.run)|..], t) ==
              NewClaimSteps(t, ns, name, creation, put, at, pn.recycled, sight, conflictFree, annotated,
                            a.outcome)
      ensures creation.Created? || creation.Committed? ==>
                Claim(ns, name) in cluster.Now().held && cluster.Now().held[Claim(ns, name)].pn == pn
      ensures creation.Rejected? ==> PutAsAnswered(put, a)
      ensures good <==>
              creation.Created? && Attaches(at) && sight.Present? && (pn.recycled || conflictFree) && annotated
    {
      hide Enabled, Next, IsRun, After, Coupled, Footprint, RecordsWellFormed, Works, Cluster.Went, Own, WellFormed,
           Mine, AttachSteps, LocalAttachSteps, CreateSteps, Has, Server.Valid, Contents;
      Shares();
      ghost var first := cluster.run;
      put := CreateClaimFor(pn, want, ns, name, creation, a, t, before);
      Shares();
      ghost var steps := CreateSteps(t, ns, name, creation, put, a.outcome);
      CreateIsOwn(t, ns, name, creation, put, a.outcome);
      OwnSteps(first, steps, t);
      ghost var created := cluster.run;
      good := creation.Created?;
      if good {
        good := AttachAndCheck(ns, name, pn, at, sight, conflictFree, annotated, a.outcome, t, before);
        Shares();
        MineOn(first, created, cluster.run, t);
      } else {
        assert steps + [] == steps;
      }
    }

    /** AddPodNetwork for a static pod without a claim: an address is taken and a claim created for it. */
    method AddNewStaticPod(ghost ns: string, ghost name: string, want: string, offer: Offer, loans: seq<Loan>,
                           creation: Creation, at: Attachment, sight: Sight, conflictFree: bool,
                           annotated: bool, a: Answers, ghost t: nat)
      returns (got: Option<PodNetwork>, r: Option<PodNetwork>, ghost assign: seq<Event>, ghost put: bool)
      requires Valid() && t !in cluster.Now().threads && want != "" && ClaimFree(cluster.Now(), ns, name)
      requires offer.Allocated? ==> Enabled(cluster.Now(), Allocate(t, nodeName, want, true, offer.pn))
      requires Granting(cluster.Now(), loans, want)
      modifies Repr()
      ensures Valid() && fresh(Repr() - old(Repr())) && Done(cluster.Now(), t)
      ensures cluster.Went(old(cluster.run), nodeName, true) && (old(cluster.Sound()) ==> cluster.Sound())
      ensures got.Some? <==> Assignable(old(Contents()), want, offer, loans, a)
      ensures got.Some? ==> Assigns(assign, t, nodeName, want, true, got.value)
      ensures got.None? ==> cluster.run == old(cluster.run)
      ensures got.Some? ==>
                Mine(cluster.run[|old(cluster.run)|..], t) ==
                assign + NewClaimSteps(t, ns, name, creation, put, at, got.value.recycled, sight,
                                       conflictFree, annotated, a.outcome)
      ensures got.Some? && creation.Rejected? ==> PutAsAnswered(put, a)
      ensures got.Some? && (creation.Created? || creation.Committed?) ==>
                Claim(ns, name) in cluster.Now().held && cluster.Now().held[Claim(ns, name)].pn == got.value
      ensures r == if got.Some? && creation.Created? && Attaches(at) && sight.Present?
                      && (got.value.recycled || conflictFree) && annotated then got else None
    {
      hide Enabled, Next, IsRun, After, Coupled, Footprint, RecordsWellFormed, Works, Properly, Disciplined, Assignable,
        Own, WellFormed, Mine, NewClaimSteps, Granting, Assigns, Has, ClaimFree, Server.Valid, Contents;
      Shares();
      ghost var sound := cluster.Sound();
      ghost var before := cluster.run;
      put := false;
      got, assign := AssignPodIPAmongOthers(want, offer, loans, a, true, t, {Claim(ns, name)});
      Shares();
      if got.None? {
        if sound { cluster.StaysSound(before, nodeName); }
        return None, None, assign, put;
      }
      ghost var others := cluster.run;
      var good;
      good, put := CreateAndAttach(got.value, want, ns, name, creation, at, sight, conflictFree, annotated, a, t,
                                   before);
      MineOn(before, others, cluster.run, t);
      Shares();
      if sound { cluster.StaysSound(before, nodeName); }
      r := if good then got else None;
    }
  }
}
