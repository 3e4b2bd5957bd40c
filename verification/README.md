# Verification of uk8s-cni-vpc

This project models the VPC CNI plugin of UCloud's Kubernetes service in Dafny and proves properties of the model:
the IP allocator that every node runs (`ipamd`), the life of static-IP claims shared by `ipamd` and `vip-controller`,
the node's log tail, the iptables, ipset and port-map rules of the CNI plugin, and two exact encodings. Run
`dafny verify dfyconfig.toml` to check everything.

## How it is built

**The allocator.** `Protocol.dfy` is a step system: all databases, pods, claims and the local variables of all
goroutines of any number of nodes are one map from places to addresses, and one event is one bolt transaction, one VPC
call, one API call or one message. Events interleave freely. `Exclusivity.dfy` and `AllocatorRuns.dfy` prove that no
address is in two places, that nothing is lost except through named exits, and that pools hold only their own subnet;
`Cooldown.dfy` proves that a released address rests, `Vetting.dfy` that exactly the addresses that did not cool on
their node are checked before somebody gets them,
`Releases.dfy` what releasing an address once and twice comes to, and `LateReleases.dfy` what a release does that
arrives after anything else has happened. The conditions of these theorems are exact where an `Iff` lemma is named
below; `Hazards.dfy` has runs that break the properties without them.

**The code of the allocator.** `IpamServer.dfy` is a class over bolt buckets (`Bolt.dfy`): each method's contract says
which events of the protocol its goroutine performs (`ServerSteps.dfy`). `ClusterRuns.dfy` is the run that the servers
of all nodes make together: it is sound as long as answers are faithful and every pop deletes the record it has read,
the handlers keep it sound, and a sound run is in a state with all invariants of the allocator. Between two statements
of a hand-out everybody else acts, and the gRPC goroutines of the node lend addresses. `Coupling.dfy` and
`NodeSteps.dfy` tie the buckets to the protocol's places, and keep a server valid while other nodes act.

**Claims.** `Claims.dfy` is the second step system: API objects with versions, finalizers and labels, written by
compare-and-swap from two programs. `ClaimControllers.dfy` has the handlers of `vip-controller` as loops between whose
API calls anything may happen, and whose calls may fail or go unanswered.

**The rest.** `LogTail.dfy` (block scan and follower), `NatOutgoing.dfy`, `Iptables.dfy` and `PacketWalk.dfy` (ipset
migration, rule updates, and what a packet meets on its way through the chains), `PortChain.dfy`, `PortMap.dfy` and
`PortWalk.dfy` (chains of the port map, their verdict, and the way of a packet to it and on to masquerading),
`BorrowCandidates.dfy` (choice and cleanup of Ipamd resources), `Rps.dfy` (CPU masks), `Arp.dfy` (packets and conflict
check), `CmdAdd.dfy` (the plugin's rollback and removal, on the server of its node),
`Migration.dfy` (upgrade of the old pool).

## Assumptions

- The VPC is faithful: an error from a delete means that the address was not deleted, and a successful allocation is of
  the subnet asked for and of an address that neither the cluster leases nor a claim names (the guards of `Allocate` and
  `AssignDirect`).
- The claim lookup on the release of a static pod finds the claim; a repeated release of a cooling address does not end
  with a failed write and a deleted address; a release of an address that the pod lost before finds it leaked, or is
  not written and deletes nothing that a pool, a cooldown set, a pod or a hand has (`Exclusivity.Faithful`; each
  condition is shown to be exact for exclusivity and conservation).
- The VPC does not reissue an address that a claim names, even while the claim has lost it
  (`Claims.CollectingTakesTheAddress` shows what happens otherwise).
- Every pop deletes the record it has read (`AllocatorRuns.Disciplined`). The manager loop pops one at a time, but
  lending runs beside it. For exclusivity and conservation alone `AllocatorRuns.AlwaysCoreIffPopsFind` is the exact
  condition; the theorems on subnets, leaks, rest and checks ask for the record itself.
- For the cooldown theorem no event cuts a rest short: after a failed cooldown write the fallback delete does not go
  through (`Cooldown.RunKeepsTimedIff` shows that this is exact). The clock does not go back.
- The plugin hands back the record that it was given (`Releases.Recorded`). A place of the protocol does not say which
  pod of a node has an address, and a claim stays when its address is deleted in the VPC: neither exclusivity nor
  conservation shows a release that takes the address of a later pod or the lease of a claim.
  `LateReleases.ReleaseSparesIff` and `LateReleaseIsSafeIff` say exactly when that happens.
- Kubernetes stores an update only for the current resource version and removes a deleted object when it has no
  finalizer.
- Failing calls leave what they should have changed as it was (iptables, ipset, bolt), except that the outcome of
  creating a claim may be unknown, and the reply of a release may be lost.

## Where the code and its documentation differ

- `staticIpPodExists` (`pkg/ipamd/pool.go:122-127`) takes any lookup error for "no claim", so a release of a static pod
  during an API failure puts a claimed address into the cooldown set; the model follows the code and
  `StaticReleaseIsSafeIffClaimFound` gives the exact condition.
- The release of a dynamic pod is skipped when a claim with the pod's name exists, and the address stays with the pod
  that is gone: one of the named leaks, which `DelPodNetwork` takes.
- Several steps of `setupPodVethNetwork` release the address before the rollback of `cmdAdd` releases it again. When the
  second cooldown write fails, its fallback deletes an address that is in the cooldown set; when the first one deleted
  the address, the second puts it into the cooldown set all the same (`Releases.DoubleReleaseIsSafeIff`).
- `cmdDel` keeps the record when the reply of a release is lost, and a later DEL releases again. By then the address may
  have cooled and be with another pod of the node, which loses it (`LateReleases.LateReleaseRobsAnotherPod`), or at a
  claim, whose lease a fallback delete takes (`LateReleaseUnleasesAClaim`).
- The comment in `forwardPorts` (`pkg/portmap/portmap.go:103-104`) announces a teardown that the code does not do, so
  rules of an earlier chain of the same name stay in front. `PortMap.StaleRedirectionWins` has two such inputs, and
  `InstalledIsExpectedIff` and `EarlierListMattersIff` say when a packet still gets its meaning; for a container that
  got another address it never does (`MovedContainerIsMissed`).
- The comments on the PREROUTING rules promise a jump and a restore at the end of every update; a rule that is there
  twice is deleted once and not appended (`Iptables.TwinsStayOpen`; `PairEndsIff` says when the pair ends the chain).
- `releaseVPCIp` returns no error when it cannot create a client, so the address stays leased without a retry.
- `cmdDel` answers success when the record cannot be read, for whatever reason; a missing record is such an error in the
  local database, and none in `ipamd`.

## Model

| member | source | states |
|---|---|---|
| PodNetworks.ReservedKeyInjective | pkg/ipamd/pool.go:118-120 | Two records share a database key exactly when they name the same address of the same VPC, although VPC ids contain dashes. |
| Exclusivity.TargetIsFree | pkg/ipamd/pool.go:674-723 | No database write of the allocator overwrites an entry: the key it puts an address under is free. |
| Exclusivity.StepKeepsInv | pkg/ipamd/pool.go:157-244 | Every event of every goroutine, and of the plugin, keeps exclusivity, conservation, well-placed entries and the phase facts of all goroutines, when answers are faithful and the delete half of a pop finds an entry under the key it read. |
| AllocatorRuns.RunKeepsInv | pkg/ipamd/pool.go:263-342 | The same over whole runs of any number of nodes and goroutines with faithful answers in which every pop deletes the record it has read. |
| AllocatorRuns.NoAddressInTwoPlaces | pkg/ipamd/pool.go:498-723 | Exclusivity: in no state reachable by such a run is an address in two of all pools, cooldown sets, pods, hands (replies in transit included) and claims. |
| AllocatorRuns.PoolsAreHomogeneous | pkg/ipamd/pool.go:649-757 | The pool of a subnet holds only addresses of that subnet, under their own keys; what is ready for a pod or lent is of the subnet asked for. |
| AllocatorRuns.LeaksAreNamed | pkg/ipamd/pool.go:195-202 | An event leaks an address if and only if it is one of the named exits; a leaked address comes back if and only if its pod gives it back a second time. |
| AllocatorRuns.CountsAddUp | pkg/ipamd/pool.go:616-644 | Conservation: in every reachable state leased addresses plus claims without an address equal places plus leaked addresses. |
| AllocatorRuns.NothingLeaksIffNoExit | pkg/ipamd/pool.go:674-723 | A run without a named exit has leaked nothing; one with an exit and without a second release has leaked something. |
| AllocatorRuns.LeakedIffMislaid | pkg/ipamd/pool.go:674-723 | Over any run an address is leaked if and only if its last leaking exit was not made good by a second release. |
| AllocatorRuns.PopIsSafeIffEntryStillThere | pkg/database/bolt.go:107-136 | The delete half of a pop keeps exclusivity and conservation if and only if the entry it read is still there. |
| AllocatorRuns.AlwaysCoreIffPopsFind | pkg/database/bolt.go:107-136 | A whole run with faithful answers keeps exclusivity and conservation in every state if and only if every pop finds an entry under the key it read. |
| AllocatorRuns.ApartIsDisciplined | pkg/ipamd/pool.go:263-342 | When pops of one pool never overlap, as under a manager loop alone, every pop deletes the record it has read. |
| AllocatorRuns.StaticReleaseIsSafeIffClaimFound | pkg/ipamd/pool.go:122-127 | Releasing a static pod keeps them if and only if the claim lookup finds the claim; any lookup error counts as no claim in the code. |
| AllocatorRuns.RepeatedReleaseIsSafeIffWritten | pkg/ipamd/pool.go:524-535 | Releasing a cooling address again keeps them if and only if the cooldown write succeeds or the fallback delete does not. |
| AllocatorRuns.StrayReleaseIsSafeIff | pkg/ipamd/pool.go:305-321 | Releasing an address that the pod lost before keeps them if and only if the address had leaked, or the write fails and no delete hits an address that a pool, a cooldown set, a pod or a hand has. |
| Releases.StepsLeadToReleased | cmd/cnivpc/rpc.go:195-208 | Whoever holds the address, a release runs as a sequence of protocol events into one stated state: through ipamd, with a found claim, with each answer of the cooldown write and the fallback delete, or directly in the VPC. |
| Releases.HolderReleaseIsSafe | pkg/ipamd/pool.go:305-321 | A release by the pod that holds the address keeps exclusivity and conservation, whatever the answers. |
| Releases.StaticReleaseIsSafeIff | pkg/ipamd/pool.go:122-127 | A release of a static pod keeps them unless the claim lookup fails and the address then enters the cooldown set or is lost instead of deleted. |
| Releases.DoubleReleaseIsSafeIff | cmd/cnivpc/veth.go:125-154 | Two releases in a row, by whatever way, keep them exactly unless one starts a cooldown and the other deletes the address. |
| Releases.DoubleStaticReleaseIsSafeIff | cmd/cnivpc/veth.go:125-154 | Two releases of a static pod leave the claim naming its address, with its lease exactly when neither deletes it; exclusivity and conservation hold exactly when both find the claim or delete the address: no second release makes good a mistake of the first. |
| Releases.TwiceIsOnceIff | cmd/cnivpc/veth.go:125-154 | Two releases through ipamd come to the later one alone if and only if the later is written and the first did not delete the address, or neither is written and an address the first deleted is deleted by the second too. |
| LateReleases.ReleaseIsSafeIff | cmd/cnivpc/rpc.go:195-208 | In every state: a release keeps exclusivity and conservation exactly as the place where it finds the address and its answers say. |
| LateReleases.ReleaseSparesIff | cmd/cnivpc/rpc.go:195-208 | In every state: a release takes an entry or a leased address from somebody exactly when a pod of the node has it under its key and the release gets through, or when it deletes an address that is cooling, in use elsewhere or leased for a claim of any name. |
| LateReleases.LateReleaseIsSafeIff | cmd/cnivpc/main.go:261-280 | After a release, and then any disciplined run of others, a second release keeps exclusivity and conservation, and takes no address from anybody, leases of claims included, each exactly as the place where the address is by then and the answers say. |
| LateReleases.FoundWithAnotherPod | pkg/ipamd/pool.go:524-535 | When the second release finds the address with a pod, it was handed out again in between. |
| LateReleases.LateReleaseRobsAnotherPod | pkg/ipamd/pool.go:305-317 | From every state in which a pod has the address, a disciplined run leads to a state in which its second release puts the address of the next pod into the cooldown set, with exclusivity and conservation intact. |
| LateReleases.LateReleaseUnleasesAClaim | pkg/ipamd/pool.go:524-535 | From every such state, and for every claim that is not there yet, a disciplined run leads to a state in which a second release that deletes the address takes the lease of that claim, with exclusivity and conservation intact. |
| Cooldown.StepKeepsTimedIff | pkg/ipamd/pool.go:524-559 | An event keeps every resting address out of circulation if and only if it is no successful fallback delete of a resting address, at once or on a repeated release. |
| Cooldown.RunKeepsTimedIff | pkg/ipamd/pool.go:524-559 | Over whole disciplined runs resting addresses are out of circulation in every state if and only if no event cuts a rest short. |
| Cooldown.FailedWriteRestsIff | pkg/ipamd/pool.go:524-535 | After a failed cooldown write the address stays out of circulation if and only if the fallback delete does not delete it. |
| Cooldown.CutAddressCanBeReissued | pkg/ipamd/pool.go:701-708 | After every event that cuts a rest short, any node can be allocated that address at once. |
| Cooldown.NobodyGetsARestingAddress | pkg/ipamd/pool.go:305-321 | In every state of a run that cuts no rest short, an address in a pool, a pod, a claim or a hand that is not about to cool or delete it is past the CooldownOver of its last release. |
| Vetting.StepKeepsVouched | pkg/ipamd/pool.go:246-261 | Every event keeps the meaning of Recycled in both directions: a record in a pool, or in the hand of a hand-out, has the flag if and only if its address went through the cooldown set of that node since it last arrived there, and every record in a cooldown set has it. |
| Vetting.EveryHandOutIsVouched | pkg/ipamd/pool.go:191-205 | An address that getPodIp returns passed the conflict check in that hand-out if and only if it did not cool on this node since it arrived by allocation or borrowing; a static pod gets its address checked exactly unless the record is Recycled, which is earned in the same way. |
| Hazards.OverlappingPopsHandOutTwice | pkg/database/bolt.go:107-136 | When the read of one pop falls between the two transactions of another, both get the same address, with every answer faithful. |
| Hazards.FailedCooldownWriteCutsTheRest | pkg/ipamd/pool.go:524-535 | After a failed cooldown write the address is deleted in the VPC and may be in another hand before its cooldown is over. |
| Footprints.Frame | pkg/ipamd/pool.go:157-244 | An event changes no place outside its footprint. |
| Footprints.ThreadFrame | pkg/ipamd/pool.go:263-342 | An event changes no goroutine but the acting one and, for a lending reply, the borrower. |
| Bolt.LessIsTotal | pkg/database/bolt.go:107-157 | The bytewise order of keys is total. |
| Bolt.LessIsTransitive | pkg/database/bolt.go:107-157 | The bytewise order of keys is transitive. |
| Bolt.LessIff | pkg/database/bolt.go:107-157 | One key comes before another if and only if it is a proper prefix of it or has the smaller character where they first differ. |
| Bolt.Bucket.Put | pkg/database/bolt.go:49-64 | A successful Put binds exactly that key; a failed one changes nothing. |
| Bolt.Bucket.Get | pkg/database/bolt.go:66-81 | Get finds the stored value or says that the key is missing, unless the read fails. |
| Bolt.Bucket.Delete | pkg/database/bolt.go:96-105 | A successful Delete removes exactly that key. |
| Bolt.Bucket.Pop | pkg/database/bolt.go:107-136 | Pop returns and removes the entry with the smallest key; end-of-data means the bucket is empty; a failed pop removes nothing. |
| Bolt.Bucket.List | pkg/database/bolt.go:138-157 | List gives every entry once, in ascending key order. |
| Bolt.Seek | pkg/database/bolt.go:107-122 | The cursor starts at the least key, or the bucket is empty. |
| Coupling.PoolNameRoundTrip | pkg/ipamd/pool.go:750-757 | The subnet of a pool key is the subnet the key was made from; a key is taken for the default pool if and only if it is the old pool name or empty, and then gives the default subnet. |
| Coupling.PoolNameInjective | pkg/ipamd/pool.go:725-748 | Different subnets have different pool keys. |
| Coupling.ElsewhereCoupled | pkg/ipamd/pool.go:725-748 | Events that touch no place of a node leave its databases in step with the protocol state. |
| Coupling.PoolCoupled | pkg/ipamd/pool.go:674-689 | A pool bucket and the pool places of the protocol change together. |
| Coupling.CoolingCoupled | pkg/ipamd/pool.go:691-699 | The cooldown bucket and the cooling places of the protocol change together. |
| NodeSteps.PopStep | pkg/ipamd/pool.go:208-216 | The two transactions of Pop are the two pop events; in between nothing is taken, afterwards the address is in hand and out of the bucket. |
| NodeSteps.ThawStep | pkg/ipamd/pool.go:537-559 | Deleting a cooldown entry whose time has come is the thaw event. |
| NodeSteps.CreateClaimStep | pkg/ipamd/vpcclaim.go:105-130 | Creating a claim puts the address from the hand into the claim when it was stored, known or not; a rejection leaves it in hand, any other error ends the goroutine. |
| NodeSteps.InHandEffect | pkg/ipamd/pool.go:157-244 | Every statement on an address in hand is possible in its phase, touches nothing but the hand, and leaves it as the table of phases says. |
| NodeSteps.WorkEffect | pkg/ipamd/vpcclaim.go:132-171 | Every statement on a claim moves the goroutine to its next phase and leaves all places as they were. |
| NodeSteps.ProperlyKeepsCoupled | pkg/ipamd/pool.go:725-748 | However long another node acts, the databases of this node stay in step with the protocol state. |
| ClusterRuns.Cluster.SoundIsSafe | pkg/ipamd/pool.go:263-342 | While the run of the servers is sound, the cluster they run in is in a state with all allocator invariants. |
| ClusterRuns.Cluster.StaysSound | pkg/ipamd/pool.go:263-342 | A sound run that goes on properly stays sound. |
| ClusterRuns.Cluster.Others | pkg/ipamd/pool.go:263-342 | Whatever other goroutines and nodes do between two statements leaves this goroutine, its claims and the databases of the servers as they were, and the run proper. |
| IpamServer.Server.GetPool | pkg/ipamd/pool.go:725-748 | The pool of the subnet, of the default subnet when none is named; an existing pool is returned as it is, a new one is empty, and none is created unless asked for. |
| IpamServer.Server.StaysValid | pkg/ipamd/pool.go:725-748 | A server stays valid while the server of another node acts. |
| IpamServer.Server.Others | pkg/ipamd/pool.go:263-342 | Between two statements of a goroutine others act and the gRPC goroutines of the node lend addresses: the server stays valid, the goroutine and the kept claims stay as they are. |
| IpamServer.Server.PutIpToPool | pkg/ipamd/pool.go:674-689 | The address in hand goes under its key into the pool of its subnet, or is deleted in the VPC; the run records exactly these events. |
| IpamServer.Server.BackupPushSecondaryIP | pkg/ipamd/pool.go:710-723 | The address in hand goes back to its pool or leaks; the pool changes by exactly that entry. |
| IpamServer.Server.BackupReleaseSecondaryIP | pkg/ipamd/pool.go:701-708 | The address in hand is deleted in the VPC or leaks; nothing else happens. |
| IpamServer.Server.CooldownIP | pkg/ipamd/pool.go:524-535 | The cooldown set gets exactly one entry for the address: its record with Recycled set and RecycleTime now, and CooldownOver one period ahead, unless the write fails; the run goes on by exactly the steps of a release from wherever the address is, into the state that `Released` describes. |
| IpamServer.Server.RecycleCooldownIP | pkg/ipamd/pool.go:537-559 | The run goes on by one thaw round for each entry taken, each as its entry was answered, and exactly these entries leave the set, each due, in the order of their keys; without a readable set nothing changes, and else the round ends only at a due entry whose delete fails, or leaves only entries that rest; a sound run stays sound. |
| IpamServer.Server.RecycleEntry | pkg/ipamd/pool.go:537-559 | An entry whose time has come leaves the cooldown set first and then goes to its pool or, if it cannot, is deleted in the VPC; a failed delete keeps it; the run records exactly these events. |
| IpamServer.Server.PopFrom | pkg/ipamd/pool.go:208-216 | A pop takes the least record of the pool in hand, or changes nothing; the run records the two transactions. |
| IpamServer.Server.ReleasePool | pkg/ipamd/pool.go:498-522 | The run goes on by one trim round for each entry taken, the least of this pool, each as it was answered, and a failed VPC delete ends it; the pool never goes below the high watermark, and ends exactly there with as many rounds as it had entries above it unless the next round meets a failing call; a sound run stays sound. |
| IpamServer.Server.ReleaseOne | pkg/ipamd/pool.go:498-522 | One round takes the least record out and deletes its address in the VPC; a failed VPC delete pushes it back, a failed pop changes nothing; the run records exactly these events. |
| IpamServer.Server.BorrowIP | pkg/ipamd/rpc.go:177-199 | Missing parameters or an unknown pool lend nothing and change nothing; else it lends as lendIP does, an address of the requested subnet with the borrower's MAC, in transit in the lender's hand; a sound run stays sound. |
| IpamServer.Server.LendIP | pkg/ipamd/pool.go:649-672 | The least address of the pool is lent if and only if the pop goes through and its MAC moves; when the move fails it goes back to the pool, or is deleted when the write fails; answer, run and pool are exactly those. |
| IpamServer.Server.Borrow | pkg/ipamd/pool.go:616-644 | An address is obtained if and only if some candidate asked grants one, from the first in the order of asking that does; it arrives with Recycled cleared, so the borrower probes it. |
| IpamServer.Server.AssignPodIP | pkg/ipamd/pool.go:208-244 | The least address of the pool; if the pool is empty, a new one from the VPC; if the VPC has none, one borrowed; otherwise none and the run is unchanged. No claim is touched. |
| IpamServer.Server.AssignElsewhere | pkg/ipamd/pool.go:217-243 | With an empty pool: the VPC first, borrowing only when it is out of addresses. |
| IpamServer.Server.CheckAssigned | pkg/ipamd/pool.go:175-205 | The address is good if and only if the VPC confirms it and it is Recycled or free of conflict; the goroutine takes exactly the steps of the checks, whatever others do in between; a good address stays in hand, any other leaves it. |
| IpamServer.Server.GetPodIP | pkg/ipamd/pool.go:157-205 | Assignment and checks: the goroutine takes the steps of assigning and then of checking, with others acting in between, and holds the address if and only if it is good. |
| IpamServer.Server.VetAssigned | pkg/ipamd/pool.go:191-205 | The probe is skipped exactly for Recycled addresses; a conflict ends with the address deleted or leaked. |
| IpamServer.Server.AddPodNetwork | pkg/ipamd/rpc.go:32-82 | A dynamic pod gets the assigned address if and only if it is confirmed, free of conflict or Recycled, and the pod is annotated; then it is the pod's. With others acting in between the goroutine takes exactly the stated steps and holds nothing afterwards; a sound run stays sound. |
| IpamServer.Server.HandOver | pkg/ipamd/rpc.go:61-80 | With the annotation the address is the pod's; without it the address is deleted in the VPC or leaks. |
| IpamServer.Server.LocalAttach | pkg/ipamd/vpcclaim.go:132-171 | The claim is attached if and only if an address that is gone can be allocated again, the MAC is this node's or moves, and the claim can be marked and read back; the steps are stated and the claim keeps its address whatever fails. |
| IpamServer.Server.AttachAndCheck | pkg/ipamd/vpcclaim.go:132-171 | Attaching a claim and checking its address: good if and only if all steps succeed; the claim is kept in any case. |
| IpamServer.Server.CreateClaimFor | pkg/ipamd/vpcclaim.go:105-130 | Only a definite rejection gives the address back to the pool; a stored claim has it, known or not; after any error the goroutine holds nothing. |
| IpamServer.Server.CheckAttached | pkg/ipamd/pool.go:175-205 | Whatever check fails and whatever others do before the annotation, the claim keeps its address; the pod is good if and only if all checks pass. |
| IpamServer.Server.VetAttached | pkg/ipamd/pool.go:175-205 | The checks of a static pod's address are one event that moves nothing; the probe is skipped exactly for Recycled addresses. |
| IpamServer.Server.AddStaticPod | pkg/ipamd/pool.go:129-139 | A pod with a claim gets its address if and only if attach, confirmation, conflict check and annotation succeed; the claim is kept in any case, the steps are stated, and a sound run stays sound. |
| IpamServer.Server.AddNewStaticPod | pkg/ipamd/pool.go:141-155 | A pod without a claim gets the assigned address if and only if its claim was created and attached and all checks pass; a stored claim keeps the address; the steps are stated, and a sound run stays sound. |
| IpamServer.Server.DelPodNetwork | pkg/ipamd/pool.go:305-317 | The run goes on by exactly the steps of a release from wherever the address is: with a found claim a static pod keeps it and a dynamic one leaks it; else it starts a full cooldown, or is deleted or leaked when the write fails. A sound run stays sound when these steps are faithful. |
| IpamServer.Server.ReleaseUnwritten | cmd/cnivpc/rpc.go:597-640 | A release directly in the VPC, or one that finds a claim, leaves the databases as they are and goes on by the steps of that release. |
| IpamServer.Server.AssignDirectly | cmd/cnivpc/rpc.go:210-260 | An address that the plugin allocates without ipamd is the pod's. |
| Migration.MigrateV1 | pkg/ipamd/svc.go:267-313 | Terminates; it ends with the old pool empty and the new one holding every entry under its key with the default subnet and MAC, or at the first failing call: a failed pop keeps both complete, a failed put loses exactly the entry in hand. |
| Migration.MoveOne | pkg/ipamd/svc.go:288-308 | Moving one entry keeps the two pools complete together. |
| Migration.MigratedPoolIsHomogeneous | pkg/ipamd/svc.go:288-308 | Every record of the migrated pool sits under its key in the pool of its subnet, if the old records sat under theirs. |
| Claims.StepKeepsInv | pkg/ipamd/vpcclaim.go:46-82 | Every event of both programs keeps attachment consistent, names unique among live claims, addresses unique among claims and apart from everybody else's, and versions truthful. |
| Claims.CurrentCopy | cmd/vip-controller/sts.go:206-230 | A copy that passes the version check is the object itself: what compare-and-swap buys the writers. |
| Claims.AttachmentAgrees | pkg/ipamd/vpcclaim.go:193-219 | In every reachable state a live claim is attached if and only if it has its finalizer, if and only if its label is not "false"; a deleted claim that is still there is attached. |
| Claims.ReleaseIsSafe | cmd/vip-controller/vpcipclaim.go:88-109 | An address is released only after its claim was detached and removed and its pod was looked up and not seen running; afterwards no claim names it and nobody else has lost it. |
| Claims.AttachedClaimStays | cmd/vip-controller/main.go:114-149 | Only a detaching write makes an attached claim go away; a late garbage-collecting delete only marks it. |
| Claims.ClaimedAddressStays | pkg/ipamd/pool.go:191-202 | The address of a live claim leaves the VPC only when it is lost: by a failed conflict check or annotation, or by a release that misses the claim, goes straight to the VPC or comes late; no write, collection or release of another claim takes it. |
| Claims.CollectingTakesTheAddress | cmd/vip-controller/main.go:151-176 | Detach, delete and release are possible for every claim whose pod does not run, and take the address from whoever leases it: why the VPC must not reissue a claimed address. |
| ClaimControllers.EnsureStaticIpPodNotRunning | cmd/vip-controller/sts.go:241-277 | Reports not running if and only if the pod is missing, not owned by a stateful set, opted out, or not in phase Running; a lookup error is reported as such. |
| ClaimControllers.KeepsIff | cmd/vip-controller/sts.go:253-275 | A running pod of a stateful set keeps its address without a note, and with one if and only if the note reads "true" in whatever capitals. |
| ClaimControllers.ApiServer.Try | cmd/vip-controller/sts.go:208-225 | One read-change-update under any interference and failing calls: stored by an accepted write, or a conflict, which means that somebody gave the claim another version between the read and the update, a missing claim or an error that changed nothing, except that an unanswered update may have been stored; without interference there is no conflict. |
| ClaimControllers.ApiServer.Mark | cmd/vip-controller/sts.go:206-230 | At most five tries under any interference, ended by any error but a conflict; what is stored leaves the claim as intended, success says that it was stored by an accepted write, and nothing else is written; a failure means a missing claim, a failed call, or five tries of which each was overtaken between its read and its update. With nobody else acting and every call answered a live claim is marked. |
| ClaimControllers.SomebodyOvertook | cmd/vip-controller/sts.go:208-225 | An overtaken try has an event of somebody else between its read and its update that takes the version away which was read. |
| ClaimControllers.OnStsUpdate | cmd/vip-controller/sts.go:129-175 | Asks to detach exactly the attached claims with a surplus ordinal whose pod is seen idle, up to the first name without an ordinal, which ends it with an error, as an unavailable list does; each of them was stored as detached, or absent, or five tries were overtaken, or it is skipped, no more skipped than calls failed; writes nothing else. |
| ClaimControllers.SurplusOfPod | cmd/vip-controller/sts.go:149-167 | The claim of pod n is surplus if and only if it is attached, its pod is seen idle and the set has at most n replicas. |
| ClaimControllers.OrdinalOfPod | cmd/vip-controller/sts.go:151-157 | The ordinal read from the name of pod n of a stateful set is n, whatever dashes the name of the set contains. |
| ClaimControllers.NoOrdinal | cmd/vip-controller/sts.go:151-172 | A name whose last segment is empty, or holds anything but digits after a possible plus sign, has no ordinal. |
| ClaimControllers.OnStsDelete | cmd/vip-controller/sts.go:190-204 | Asks to detach every listed claim in order: each was stored as detached, or absent, or five tries were overtaken, or it is skipped, no more skipped than calls failed; writes nothing else; fails exactly when the claims cannot be listed. |
| ClaimControllers.VipCheckAndClean | cmd/vip-controller/main.go:114-149 | Asks to delete exactly the listed claims that are not kept forever, have a readable release time that is over, and whose pod is seen idle; they are deleted unless they are absent or skipped, no more skipped than calls failed; changes nothing else. |
| ClaimControllers.OnVipDelete | cmd/vip-controller/vpcipclaim.go:101-109 | Releases the address of a removed claim if and only if the pod is seen idle and the VPC answers; without an API client it reports success without a release. |
| LogTail.TailStartOffset | pkg/ipamd/log_tail.go:114-147 | For one line or more: the least offset whose suffix holds at most that many newlines, for any block size; for none: the end of the file. |
| LogTail.IndexOfNewline | pkg/ipamd/log_tail.go:140-145 | The trimming finds its newline, and the first one. |
| LogTail.TailStartsALine | pkg/ipamd/log_tail.go:114-147 | That offset starts a line and leaves exactly as many newlines as asked for, if the file has them. |
| LogTail.NoLines | pkg/ipamd/log_tail.go:119-121 | The end of the file is such an offset for zero lines if and only if the file ends a line. |
| LogTail.FollowLogTail | pkg/ipamd/log_tail.go:149-208 | For any interleaving of appends: each write is one complete line, every line complete at the last end of file is written once and in order, no partial line ever; it fails exactly where the client takes no more bytes, after a proper prefix of the next line; otherwise it ends only when the client leaves, and until then every end of file was followed by an append, as long as there are any. |
| LogTail.Reader.ReadBytes | pkg/ipamd/log_tail.go:163-177 | Returns the bytes from the reading position up to the next newline, or all up to the end of the file without a newline, after an append or when none is left. |
| LogTail.Reader.Fill | pkg/ipamd/log_tail.go:162-164 | One read, which an append may precede, appends to the buffer what the file has next, or says that the end of the file was reached. |
| LogTail.LinesCover | pkg/ipamd/log_tail.go:149-208 | What lines are: they make up the text up to its last newline. |
| LogTail.LinesEndWithLineFeeds | pkg/ipamd/log_tail.go:163-165 | Lines end with the byte 10, and what follows the last one is none. |
| Iptables.Tables.UpdateIptablesRules | cmd/cnivpc/if.go:290-324 | Whatever call fails, every state in between keeps the custom chains tidy, and the result is that of a prefix of the list. |
| Iptables.ApplyAllKeepsSafe | cmd/cnivpc/if.go:290-324 | An ordered list of rules leaves the tables safe wherever it stops, and every rule wished for a custom chain is there. |
| Iptables.SnatWishesAreOrdered | cmd/cnivpc/if.go:507-577 | The SNAT list names all private returns before its action. |
| Iptables.ConnmarkWishesAreOrdered | cmd/cnivpc/if.go:579-608 | The connmark list names all private returns before its action. |
| Iptables.PrivateIsSpared | cmd/cnivpc/if.go:326-331 | In a tidy chain no packet to a private range is translated or marked. |
| Iptables.PrivateRanges | cmd/cnivpc/if.go:326-331 | Private are exactly the addresses whose leading bits are those of 10/8, 172.16/12 and 192.168/16. |
| Iptables.ConnmarkVerdict | cmd/cnivpc/if.go:415-435 | A connection is marked if and only if the mark rule is there, its destination is not private, and it is not bypassed by the ipset rule. |
| Iptables.SnatVerdict | cmd/cnivpc/if.go:541-552 | A packet leaving through the interface to a public, non-local destination is translated. |
| Iptables.PreroutingEnds | cmd/cnivpc/if.go:437-472 | After the last list PREROUTING is what it was with jump and restore moved to its end, in this order, when neither was there twice. |
| Iptables.PairEndsIff | cmd/cnivpc/if.go:437-472 | For every number of copies of both rules: PREROUTING ends with the jump and the restore if and only if neither was there twice, or the copies that stay behind were already in place. |
| Iptables.TwinsStayOpen | cmd/cnivpc/if.go:437-472 | Two lists of rules that an update does not close: two restores end before the jump, two jumps before another rule leave it in front. |
| Iptables.Install | cmd/cnivpc/if.go:355-372 | Adding a list to a chain loses no rule, adds no bypass, and on success has every rule of the list in place; it fails only with a failing call. |
| Iptables.Attach | cmd/cnivpc/if.go:380-383 | The last list touches nothing but PREROUTING and, for every number of copies, ends it with jump and restore if and only if it could be closed. |
| Iptables.TryEnableNATGWOutgoing | cmd/cnivpc/if.go:385-413 | The bypass rule appears only when the set holds exactly the desired IPv4 addresses; nothing else is lost. |
| Iptables.UpdateRules | cmd/cnivpc/if.go:355-383 | A complete or aborted update of any tables keeps every state safe; the bypass appears only after a successful migration; success, which only a failing call prevents, leaves in place the jump of POSTROUTING, both rules of mangle and the actions of both custom chains, and closes PREROUTING if and only if it could be closed; no update doubles jump or restore. |
| PacketWalk.OutboundIsTranslated | cmd/cnivpc/if.go:507-552 | After an update, a packet that leaves through the primary interface for a public address that is not the node's has its source translated, unless a rule of POSTROUTING before the jump takes it. |
| PacketWalk.SnatJump | cmd/cnivpc/if.go:512-552 | The jump of POSTROUTING translates a packet if and only if its interface has a rule, its destination is public and it is not local; any other packet goes on unchanged. |
| PacketWalk.MangleRules | cmd/cnivpc/if.go:552-577 | In mangle a connection is marked exactly when it comes in through the primary interface for an address of it, and the mark is copied exactly to packets from the pods' interfaces. |
| PacketWalk.RepliesCarryTheMark | cmd/cnivpc/if.go:552-577 | After an update, whatever other rules are there: a packet that gets through mangle PREROUTING has its connection marked in the first case, and carries the mark of a marked connection in the second. |
| PacketWalk.OutboundIsMarked | cmd/cnivpc/if.go:415-472 | A packet that no earlier rule of PREROUTING takes leaves it with the mark of its connection, marked here exactly when it opens a connection from a pod to a public address and the pod is not left to the NAT gateway. |
| NatOutgoing.DesiredIPs | cmd/cnivpc/nat_outgoing.go:148-209 | The desired set: the IPv4 addresses of the records whose live pod and policy want the gateway. |
| NatOutgoing.DesiredIgnoresOrder | cmd/cnivpc/nat_outgoing.go:148-209 | Order and repetition of the records do not matter. |
| NatOutgoing.IpSet.Sync | cmd/cnivpc/nat_outgoing.go:233-257 | Adds the address when enabled and says whether this call added it; a failure changes nothing. |
| NatOutgoing.IpSet.Delete | cmd/cnivpc/nat_outgoing.go:259-276 | Removes the address if it is there; a failure changes nothing. |
| NatOutgoing.IpSet.Migrate | cmd/cnivpc/nat_outgoing.go:118-142 | No step opens a gap to the desired set or touches entries that are not IPv4; success closes the gap; without failing calls any earlier abort is finished. |
| NatOutgoing.IpSet.AddAll | cmd/cnivpc/nat_outgoing.go:122-126 | Adding in any order opens no gap; success has added exactly the missing ones. |
| NatOutgoing.IpSet.DeleteAll | cmd/cnivpc/nat_outgoing.go:127-131 | Deleting in any order opens no gap; success has deleted exactly the unwanted ones. |
| NatOutgoing.NoGap | cmd/cnivpc/nat_outgoing.go:118-122 | The gap is closed if and only if the IPv4 entries are the desired set. |
| PortMap.PortMapMeansExpected | pkg/portmap/portmap.go:182-285 | The rules of a port map redirect a packet to the address of the container and the port of the first mapping for its protocol, port, family and host address, marked exactly for hairpin and IPv4 localhost traffic, and let any other pass; after several orders under one name, each with its own list and container address, the first that has a mapping for the packet decides. |
| PortMap.InstalledIsExpectedIff | pkg/portmap/portmap.go:103-109 | Whatever the tables held, a setup gives a packet that meaning, address included, if and only if the rules that were there decide alike or not at all. |
| PortMap.EarlierListMattersIff | pkg/portmap/portmap.go:103-109 | One more order under the same name gets its meaning for a packet if and only if the earlier orders redirect it nowhere else, to another address either, and let in nothing that it keeps out. |
| PortMap.StaleRedirectionWins | pkg/portmap/portmap.go:103-109 | Two inputs on which the announced teardown is missed: the port stays redirected to an earlier container port, or to the address that the container had before. |
| PortMap.MovedContainerIsMissed | pkg/portmap/portmap.go:276-284 | The same list again for a container that got another address: every packet goes on as for the old address, so exactly the packets the list is not for meet its meaning. |
| PortMap.SameAddressIsKept | pkg/portmap/chain.go:102-119 | An order that is repeated with its list and its address, at whatever time, changes the meaning for no packet. |
| PortMap.ForwardPorts | pkg/portmap/portmap.go:51-112 | For any tables, a success gives every packet the verdict of the rules that were there followed by the port map; after earlier orders, complete or on the way to this one, it is the verdict of all of them and this one; for a new container that of the list alone. PREROUTING and OUTPUT then jump to the port maps for local addresses, and with its own mark chain the mark is set and masqueraded before what POSTROUTING held. |
| PortWalk.PortIsForwarded | pkg/portmap/portmap.go:155-168 | Rule by rule from PREROUTING or OUTPUT: a packet for a local address that no rule before the jump redirects, and that is for no other container, is redirected and marked as the orders of the container mean it; any other packet passes the jump unchanged. |
| PortWalk.MarkedIsMasqueraded | pkg/portmap/portmap.go:287-330 | Where port maps were only made with this bit, marking sets exactly the bit, and POSTROUTING begins with the rule that masquerades a packet if and only if it carries the bit. |
| PortWalk.WalkIsEval | pkg/portmap/portmap.go:222-285 | Walking the chain of a container rule by rule, jumps to the mark chain included, comes to its verdict. |
| PortMap.FillDnatRules | pkg/portmap/portmap.go:182-285 | The entry rules let in exactly the packets for a listed protocol and port that meet the conditions, at most fifteen ports a rule. |
| PortMap.EnterPorts | pkg/portmap/portmap.go:199-220 | The pieces of one protocol let in exactly its ports. |
| PortMap.AddRulesOf | pkg/portmap/portmap.go:226-284 | The rules of one mapping: none when its host address is of the other family, else marks before the redirection. |
| PortMap.SetUpShared | pkg/portmap/portmap.go:73-101 | Nothing of the container changes; on success, which only a failing call prevents, PREROUTING and OUTPUT have the jump for local addresses, and, unless the mark chain is an external one, the mark chain sets the bit, the masquerading chain masquerades it, and POSTROUTING enters that chain, in front when it did not before. |
| PortMap.EvalChainRules | pkg/portmap/portmap.go:222-285 | The chain rules alone decide as the first applying mapping does. |
| PortMap.AddEachKeepsVerdict | pkg/portmap/chain.go:102-119 | Suppressing duplicate rules changes no verdict, whatever rules were in the chain before. |
| PortMap.AcceptableIff | pkg/portmap/portmap.go:227-243 | The rules can be installed if and only if no unreadable host address meets an IPv6 container. |
| PortMap.SplitPortList | pkg/portmap/utils.go:83-100 | Pieces of at most fifteen ports, all but the last full, whose concatenation is the list. |
| PortMap.GroupByProto | pkg/portmap/utils.go:63-80 | For every protocol its host ports in list order. |
| PortChain.Nat.Setup | pkg/portmap/chain.go:36-65 | Setup only adds; success leaves every rule there once, in order, and every entry rule in every entry chain; a failure leaves a part of it. |
| PortChain.Nat.Teardown | pkg/portmap/chain.go:67-100 | Success, even with entry chains that could not be listed, removes the chain and every jump to it; on any outcome the other rules of every chain stay in their order; it fails only with a failing call or when a chain elsewhere jumps here. |
| PortChain.Delete | pkg/portmap/chain.go:76-95 | Deleting the listed jumps one by one leaves the other rules in their order, and no jump on success. |
| PortChain.Nat.Check | pkg/portmap/chain.go:121-151 | True only if the chain, all its rules and all entry rules are there; false only if one is missing or a call failed. |
| PortChain.Nat.InsertUnique | pkg/portmap/chain.go:104-119 | The rule is there afterwards; a rule that was there is not added again. |
| PortChain.SetupIsIdempotent | pkg/portmap/chain.go:36-65 | A second setup changes nothing. |
| PortChain.RetryCompletes | pkg/portmap/chain.go:36-65 | A setup that succeeds after an aborted one, wherever that stopped, leaves what one setup would have left. |
| PortChain.CheckSucceedsAfterSetup | pkg/portmap/chain.go:121-151 | Check succeeds after setup. |
| PortChain.TeardownUndoesSetup | pkg/portmap/chain.go:67-100 | Setup followed by teardown gives what teardown alone gives. |
| PortChain.TeardownOfNothing | pkg/portmap/chain.go:67-100 | For a new chain nothing jumps to, that is the tables as they were. |
| BorrowCandidates.FilterBorrowCandidates | pkg/ipamd/pool.go:74-95 | One resource for each node that has any: the canonical one if listed, else the first. |
| BorrowCandidates.ListCandidates | pkg/ipamd/pool.go:561-616 | One candidate for each other live node with a pool of the subnet that is not dry; fails if and only if nobody else is listed, nobody is eligible, or a node that would be asked cannot be looked up. |
| BorrowCandidates.Resources.RecycleStatus | pkg/ipamd/pool.go:418-496 | Only resources of dead nodes and superseded aliases of this node are deleted, and all of them that the API server does not refuse to delete; every live pool keeps a resource and every live node its candidate; with a full listing only refused resources are left over, and a second cleanup changes nothing. |
| BorrowCandidates.GroupByNode | pkg/ipamd/pool.go:75-78 | The resources of every node in list order. |
| BorrowCandidates.Select | pkg/ipamd/pool.go:81-93 | The candidate of a node: the canonical resource if listed, else the first. |
| BorrowCandidates.SamePool | pkg/ipamd/pool.go:58-72 | Resources stand for one pool if and only if node and subnet agree, and these make its name. |
| BorrowCandidates.Resources.DeleteDead | pkg/ipamd/pool.go:436-452 | Exactly the resources of dead nodes go, unless refused; the others are grouped by pool. |
| BorrowCandidates.Resources.DeleteAliases | pkg/ipamd/pool.go:455-493 | Of a pool of this node only the bare alias goes, and only when the canonical resource exists. |
| BorrowCandidates.CleanupKeepsPools | pkg/ipamd/pool.go:450-493 | Whatever part of the removable resources went, a pool of a live node still has a resource. |
| BorrowCandidates.OnlyRefusedLeft | pkg/ipamd/pool.go:418-496 | After a cleanup of a full listing, what a second one would remove is only what is refused. |
| BorrowCandidates.NothingToClean | pkg/ipamd/pool.go:418-496 | A cleanup that finds nothing removable but what is refused changes nothing. |
| BorrowCandidates.CleanupKeepsCandidates | pkg/ipamd/pool.go:74-95 | In a one-subnet list that has lost no canonical resource every live node has the same candidate before and after, whatever part of the removable resources went. |
| Rps.RpsCPUMask | cmd/cnivpc/rps.go:67-83 | Valid if and only if n is positive; then the text is a mask of full groups denoting two to the n minus one. |
| Rps.NormalFormIsValue | cmd/cnivpc/rps.go:85-93 | The normal form of a mask is its value in hexadecimal. |
| Rps.EqualNormalForms | cmd/cnivpc/rps.go:85-93 | Two masks have equal normal forms if and only if they denote the same CPUs. |
| Rps.ShownMask | cmd/cnivpc/rps.go:85-93 | A line end after the mask does not change its normal form. |
| Rps.DigitsCount | cmd/cnivpc/rps.go:67-83 | Digits count as in hexadecimal, small and capital ones alike, and a group is 32 bits. |
| Rps.Queues.EnsureLinkRPS | cmd/cnivpc/rps.go:35-65 | Success leaves every queue at all n CPUs; only queues that differed are written, so a second run writes nothing; no queue or no CPU is an error that writes nothing; any other failure comes at the first queue that cannot be read, or differs and cannot be written, with all before it served and none after it changed. |
| Arp.Marshal | pkg/arping/datagram.go:56-69 | The bytes are the encoding of the datagram. |
| Arp.ParseArpDatagram | pkg/arping/datagram.go:93-111 | The datagram is the decoding of the bytes, however few there are. |
| Arp.DecodeEncode | pkg/arping/datagram.go:56-111 | Parsing a marshalled datagram gives it back, whatever follows, when its address lengths match. |
| Arp.EncodeDecode | pkg/arping/datagram.go:56-111 | Marshalling a parsed buffer with a header gives back the packet, or all there is of one that is cut short. |
| Arp.BytesOf | pkg/arping/datagram.go:56-69 | Every field of a marshalled datagram is at the offset that RFC 826 gives it, high byte first. |
| Arp.ProbeBytes | pkg/arping/datagram.go:39-54 | The bytes of a probe: Ethernet, IPv4, lengths six and four, a request, then sender and target. |
| Arp.ReceiveLoop | pkg/arping/arping.go:104-133 | A conflict is reported if and only if a packet with the probed address as sender or target and a foreign MAC arrives before the socket breaks; nothing is reported if and only if neither happens. |
| Arp.ProbesOnTheWire | pkg/arping/datagram.go:39-54 | A probe for the address conflicts if and only if it carries another MAC than this node's. |
| Arp.ShortFramesAreHarmless | pkg/arping/datagram.go:93-111 | A frame shorter than a header never conflicts. |
| Arp.DetectIpConflict | pkg/arping/arping.go:43-57 | A clean result if and only if one of ten attempts is clean; else the last attempt decides. |
| CmdAdd.Host.CmdAdd | cmd/cnivpc/main.go:79-241 | Every failing exit between assignment and record, and one whose record finds no local database, leads the cluster from the assigned state through the releases of that exit, once or twice, each with its own way and answers, and takes only its own ipset insertion back unless its deletes fail; any other failed record write keeps the address; a failed port map keeps record and address. |
| CmdAdd.GivenBackIff | cmd/cnivpc/main.go:110-142 | After an exit that gives the address back, a dynamic or VPC-served pod has it if and only if no release did anything, and exclusivity and conservation hold exactly unless one of two releases started a cooldown and the other deleted the address; the claim of a static pod goes on naming its address, leased exactly when no release deletes it, and they hold exactly when every release finds the claim or deletes the address. |
| CmdAdd.Host.GiveBack | cmd/cnivpc/main.go:110-142 | Releases twice on the exits that do, with time in between, and once on the others; the set is rolled back, tried a second time after a failure. |
| CmdAdd.Host.RollbackNATGWOutgoingIP | cmd/cnivpc/main.go:110-119 | Only what this ADD inserted is deleted, at most once. |
| CmdAdd.Host.Release | cmd/cnivpc/rpc.go:195-208 | One release by the plugin: the run goes on by its steps on the server of the node, and the plugin sees an error exactly when ipamd does not answer, the reply is lost, or the VPC refuses. |
| CmdAdd.Host.CmdDel | cmd/cnivpc/main.go:245-315 | A readable record is released through the server of the node, with the stated state; an error of the release, that is, no answer, a lost reply or a refusing VPC, keeps it for a retry, and no DEL that leaves the pod its address drops the record or reports success. An unreadable record, or one missing in the local database, ends it without error; one missing in ipamd releases nothing and fails exactly when the port map or the interface does. |

## Left out

- Restarts of `ipamd` with databases on disk: the buckets of a server begin empty.
- Interference inside one handler of the manager loop in `IpamServer.dfy`: `ReleasePool`, `RecycleCooldownIP` and `DelPodNetwork`, like a lending and the two transactions of a pop, run without others in between. The theorems on runs let everything interleave there too; the exact condition for a pop is `AlwaysCoreIffPopsFind`.
- IpamServer.Server.Others: between the return of getPodIp and the annotation others act and this node lends, but the node's own manager loop does not go on to its next handler; the theorems on runs let it.
- Two record databases: `CmdAdd.dfy` has one map for the records of `ipamd` and of the plugin without it, which are one file, and only how it is read or opened differs.
- Other goroutines during one ADD or DEL in `CmdAdd.dfy`: only time passes between two releases, and a hand-out by `ipamd` is a state in which the pod has its address.
- Addresses deleted in the VPC by somebody outside the cluster, except that a lookup may say that an address is gone.
- The VPC, Kubernetes and gRPC clients: their answers are parameters or arbitrary choices.
- The dispatch of the manager loop and its tickers; its handlers are modelled one by one and may follow each other in any order.
- Garbage collection of attached claims by other controllers, and the work queues of `vip-controller`: only safety is claimed.
- The sandbox id, zone, MAC and time fields of a claim, except the release time that the collector reads.
- Rotation and truncation of the log: one append-only file.
- The text of iptables rules, masks of addresses and the reading of addresses: rules and addresses are data, and a network is the set of its addresses; the comment in a rule is only compared.
- Two containers that ask for one port, and what an external mark chain does besides marking: `PortWalk.PortIsForwarded` is about packets that no entry rule of another container is for.
- Targets of foreign iptables rules other than those of the model, and the rule in the raw table that blocks pod metadata access.
- IPv4-mapped IPv6 host addresses in port maps.
- White space beyond the Latin-1 characters in CPU masks.
- The race between the sending and the receiving goroutine of the ARP check: only the verdict over what arrives is modelled.
- Network namespaces, veth pairs, routes, sysctl, the lock file, snapshots, DNS configuration, device plugin and version server.
- The watermark status of Ipamd resources, and the sort of borrow candidates by it: `Borrow` asks in any given order.
- FollowLogTail: does not say when the client leaves; it is given a number of changes after which it does.
- CmdAdd: does not include what assigning an address may do to the rules and the ipset before it; that is `UpdateRules`.
