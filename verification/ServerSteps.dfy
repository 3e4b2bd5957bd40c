/** The steps of the handlers of an ipamd server, and what its databases hold around them. */
module ServerSteps {
  import opened PodNetworks
  import opened Protocol
  import opened Exclusivity
  import opened AllocatorRuns
  import opened Footprints
  import opened Coupling
  import opened NodeSteps
  import opened Releases
  import opened ClusterRuns
  import opened Bolt

  /** A record sits under its reserved key in the pool of its subnet. */
  predicate RecordFits(name: string, key: string, pn: PodNetwork) {
    WellFormed(pn) && name == PoolName(pn.subnetId) && key == ReservedKey(pn)
  }

  ghost predicate RecordsWellFormed(pools: Pools, cooling: CooldownSet) {
    && (forall name, key | name in pools && key in pools[name] ::
          RecordFits(name, key, pools[name][key]))
    && (forall key | key in cooling :: WellFormed(cooling[key].network))
  }

  lemma LeastIsIn(keys: set<string>, k: string)
    requires IsLeast(keys, k)
    ensures k in keys
  {
  }

  /** A round of recycleCooldownIP has looked at the first `i` of the listed entries. */
  ghost predicate Recycled(before: CooldownSet, entries: CooldownSet, kvs: seq<KeyValue<CooldownItem>>, i: nat,
                           now: int) {
    && Ascending(kvs) && Keys(kvs) == before.Keys && i <= |kvs|
    && (forall j | 0 <= j < |kvs| :: kvs[j].key in before && kvs[j].value == before[kvs[j].key])
    && (forall key | key in entries :: key in before && entries[key] == before[key])
    && (forall key | key in before && key !in entries :: before[key].cooldownOver <= now)
    && (forall j | i <= j < |kvs| :: kvs[j].key in entries)
    && (forall j | 0 <= j < i && kvs[j].key in entries :: now < before[kvs[j].key].cooldownOver)
  }

  lemma {:induction false} KeysDiffer(a: string)
    ensures !Less(a, a)
  {
    if |a| > 0 { KeysDiffer(a[1..]); }
  }

  lemma RecycleOne(before: CooldownSet, entries: CooldownSet, kvs: seq<KeyValue<CooldownItem>>, i: nat, now: int)
    requires Recycled(before, entries, kvs, i, now) && i < |kvs|
    ensures var due := now >= kvs[i].value.cooldownOver;
            Recycled(before, if due then entries - {kvs[i].key} else entries, kvs, i + 1, now)
  {
    forall j | 0 <= j < |kvs| && j != i ensures kvs[j].key != kvs[i].key { KeysDiffer(kvs[i].key); }
  }

  /** Nothing was added or changed, and only entries whose time had come are gone. */
  ghost predicate OnlyDueLeft(before: CooldownSet, entries: CooldownSet, now: int) {
    && (forall key | key in entries :: key in before && entries[key] == before[key])
    && (forall key | key in before && key !in entries :: before[key].cooldownOver <= now)
  }

  ghost predicate AllResting(entries: CooldownSet, now: int) {
    forall key | key in entries :: now < entries[key].cooldownOver
  }

  /** The round of this entry goes as it was answered. */
  predicate AsOne(r: ThawRound, kv: KeyValue<CooldownItem>, a: Answers) {
    r.key == kv.key && r.outcome == a.outcome && (a.creates && a.writes ==> r.put)
  }

  lemma WentAsAnswered(r: ThawRound, kv: KeyValue<CooldownItem>, a: Answers)
    requires r.key == kv.key && r.outcome == a.outcome && (a.creates && a.writes ==> r.put)
    ensures AsOne(r, kv, a)
  {
  }

  /** The rounds of a trimming took the least entries: what is left comes after them, unless it was pushed back. */
  ghost predicate TookLeast(rounds: seq<TrimRound>, entries: map<string, PodNetwork>) {
    forall r, key | r in rounds && key in entries && key != r.key :: Less(r.key, key)
  }

  predicate TrimmedAsAnswered(rounds: seq<TrimRound>, answers: nat -> Answers) {
    forall i | 0 <= i < |rounds| :: rounds[i].outcome == answers(i).outcome && rounds[i].pushed == answers(i).writes
  }

  lemma NoneTaken(entries: map<string, PodNetwork>, answers: nat -> Answers)
    ensures TookLeast([], entries) && TrimmedAsAnswered([], answers)
  {
  }

  lemma TakenFromBelow(rounds: seq<TrimRound>, r: TrimRound, was: map<string, PodNetwork>,
                       entries: map<string, PodNetwork>, answers: nat -> Answers)
    requires IsLeast(was.Keys, r.key) && entries.Keys <= was.Keys && TookLeast(rounds, was)
    requires TrimmedAsAnswered(rounds, answers)
    requires r.outcome == answers(|rounds|).outcome && r.pushed == answers(|rounds|).writes
    ensures TookLeast(rounds + [r], entries) && TrimmedAsAnswered(rounds + [r], answers)
  {
  }

  predicate AsAnswered(r: ThawRound, kvs: seq<KeyValue<CooldownItem>>, i: nat, answers: nat -> Answers) {
    exists j | 0 <= j < i && j < |kvs| :: AsOne(r, kvs[j], answers(j))
  }

  lemma AnsweredSoFar(sofar: seq<ThawRound>, rounds: seq<ThawRound>, kvs: seq<KeyValue<CooldownItem>>, i: nat,
                      answers: nat -> Answers)
    requires forall r | r in sofar :: AsAnswered(r, kvs, i, answers)
    requires i < |kvs| && (rounds == sofar || exists r :: rounds == sofar + [r] && AsOne(r, kvs[i], answers(i)))
    ensures forall r | r in rounds :: AsAnswered(r, kvs, i + 1, answers)
    ensures rounds == sofar ==> forall r | r in rounds :: AsAnswered(r, kvs, i, answers)
  {
  }

  lemma RecycleNone(before: CooldownSet, kvs: seq<KeyValue<CooldownItem>>, now: int)
    requires Ascending(kvs) && Keys(kvs) == before.Keys
    requires forall i | 0 <= i < |kvs| :: kvs[i].key in before && kvs[i].value == before[kvs[i].key]
    ensures Recycled(before, before, kvs, 0, now)
  {
  }

  lemma NothingRecycled(before: CooldownSet, now: int)
    ensures OnlyDueLeft(before, before, now)
  {
  }

  lemma RecycleListed(before: CooldownSet, entries: CooldownSet, kvs: seq<KeyValue<CooldownItem>>, i: nat, now: int)
    requires Recycled(before, entries, kvs, i, now) && i < |kvs|
    ensures kvs[i].key in entries && entries[kvs[i].key] == kvs[i].value
  {
  }

  lemma RecycledSoFar(before: CooldownSet, entries: CooldownSet, kvs: seq<KeyValue<CooldownItem>>, i: nat, now: int)
    requires Recycled(before, entries, kvs, i, now)
    ensures OnlyDueLeft(before, entries, now)
  {
  }

  lemma RecycledAll(before: CooldownSet, entries: CooldownSet, kvs: seq<KeyValue<CooldownItem>>, now: int)
    requires Recycled(before, entries, kvs, |kvs|, now)
    ensures AllResting(entries, now)
    ensures OnlyDueLeft(before, entries, now)
  {
    forall key | key in entries ensures now < entries[key].cooldownOver {
      assert key in Keys(kvs);
      var j :| 0 <= j < |kvs| && kvs[j].key == key;
    }
  }

  /** What the VPC answers to an allocation. */
  datatype Offer = Allocated(pn: PodNetwork) | OutOfIp | AllocationError

  /** What one borrow candidate answers: nothing usable, or an address in the hand of its lender. */
  datatype Loan = Refused | Granted(pn: PodNetwork, lender: nat, from: string)

  /** How the databases and the VPC answer during one handling: whether a bucket can be created, transactions go
      through, and a MAC can be moved, and how deleting an address in the VPC ends. */
  datatype Answers = Answers(creates: bool, readable: bool, deletes: bool, writes: bool, moves: bool, outcome: Outcome)

  /** Nothing keeps one round of trimming from releasing an address. */
  predicate Undisturbed(a: Answers) {
    a.readable && a.deletes && !a.outcome.Failed?
  }

  /** Whether an address can be put into the pool of its subnet, when there are pools of these names. */
  predicate CanPut(pools: set<string>, pn: PodNetwork, a: Answers) {
    (PoolName(pn.subnetId) in pools || a.creates) && a.writes
  }

  /** An address is put back exactly if the database takes it; a missing bucket is created when it can be. */
  predicate PutAsAnswered(put: bool, a: Answers) {
    (put ==> a.writes) && (a.creates && a.writes ==> put)
  }

  /** What lendIP answers, does and leaves of these entries: the least one is popped and its MAC moved; when the move
      fails it goes back, or is deleted when it cannot. */
  ghost predicate LentFrom(entries: map<string, PodNetwork>, after: map<string, PodNetwork>, lent: Option<PodNetwork>,
      steps: seq<Event>, t: nat, node: string, subnet: string, mac: string, a: Answers)
  {
    if entries == map[] || !a.readable || !a.deletes then lent.None? && steps == [] && after == entries
    else exists key | key in entries ::
      && IsLeast(entries.Keys, key)
      && lent == (if a.moves then Some(entries[key].(mac := mac)) else None)
      && steps == [PopRead(t, node, subnet, key, Lend(subnet, mac)), PopDelete(t), LendMove(t, a.moves)]
                  + (if a.moves then [] else [PutBack(t, a.writes)] + Dropped(t, !a.writes, a.outcome))
      && after == (if !a.moves && a.writes then entries else entries - {key})
  }

  /** The address of the first loan that is granted, with Recycled cleared. */
  predicate BorrowedFirst(steps: seq<Event>, pn: PodNetwork, loans: seq<Loan>, t: nat, node: string, fixed: bool) {
    exists i | 0 <= i < |loans| && loans[i].Granted? ::
      && (forall j | 0 <= j < i :: !loans[j].Granted?)
      && pn == loans[i].pn.(recycled := false) && steps == [Reply(loans[i].lender, t, node, fixed)]
  }

  /** Whether assignPodIP finds an address: in the pool, else from the VPC, else from another node. */
  predicate Assignable(pools: Pools, subnetId: string, offer: Offer, loans: seq<Loan>, a: Answers) {
    var name := PoolName(subnetId);
    && (name in pools || a.creates) && a.readable
    && if name in pools && pools[name] != map[] then a.deletes
       else offer.Allocated? || (offer.OutOfIp? && exists i | 0 <= i < |loans| :: loans[i].Granted?)
  }

  /** One borrowing, allocation or pop that gave goroutine `t` this address. */
  predicate Assigns(steps: seq<Event>, t: nat, node: string, want: string, fixed: bool, pn: PodNetwork) {
    || steps == [PopRead(t, node, want, ReservedKey(pn), Add(want, fixed)), PopDelete(t)]
    || steps == [Allocate(t, node, want, fixed, pn)]
    || (|steps| == 1 && steps[0].Reply? && steps[0] == Reply(steps[0].t, t, node, fixed) && !pn.recycled)
  }

  lemma AssignsIsOwn(steps: seq<Event>, t: nat, node: string, want: string, fixed: bool, pn: PodNetwork)
    requires Assigns(steps, t, node, want, fixed, pn)
    ensures forall e | e in steps :: Own(e, t)
  {
  }

  /** What the API server answers to a claim lookup. */
  datatype ClaimLookup = ClaimFound | ClaimMissing | LookupFailed

  /** What localAttach meets: the MAC in the claim's status and the node's own; the lookup of the address in the VPC;
      how allocating it again ends; whether the MAC moves, the claim can be marked, and be read again. */
  datatype Attachment = Attachment(statusMac: string, mac: string, described: Description, allocatedMac: Option<string>,
                                   moved: bool, marked: bool, readBack: bool)

  datatype Description = Described(mac: string) | NotThere | NoAnswer

  predicate Reallocates(at: Attachment) {
    at.described.NotThere? && at.allocatedMac.Some?
  }

  /** The address is on this node, by now or already, and the claim says so. */
  predicate Attaches(at: Attachment) {
    && (at.described.NotThere? ==> at.allocatedMac.Some?)
    && (at.moved || at.mac == match at.described
                              case Described(mac) => mac
                              case NotThere => at.allocatedMac.value
                              case NoAnswer => at.statusMac)
    && at.marked && at.readBack
  }

  /** What a lender is asked beside the manager loop, and what it meets. */
  datatype Lending = Lending(subnetId: string, mac: string, answers: Answers)

  /** One round of recycleCooldownIP: an entry out of the cooldown set, and into its pool or deleted. */
  datatype ThawRound = ThawRound(t: nat, key: string, put: bool, outcome: Outcome)

  function ThawSteps(node: string, r: ThawRound): seq<Event> {
    [Thaw(r.t, node, r.key), PutBack(r.t, r.put)] + Dropped(r.t, !r.put, r.outcome)
  }

  function AllThawSteps(node: string, rs: seq<ThawRound>): seq<Event> {
    if rs == [] then [] else AllThawSteps(node, rs[..|rs| - 1]) + ThawSteps(node, rs[|rs| - 1])
  }

  lemma ThawOneMore(node: string, rs: seq<ThawRound>, r: ThawRound)
    ensures AllThawSteps(node, rs + [r]) == AllThawSteps(node, rs) + ThawSteps(node, r)
  {
    assert (rs + [r])[..|rs|] == rs;
  }

  /** One round of releasePool: the least entry popped and deleted in the VPC, or pushed back. */
  datatype TrimRound = TrimRound(t: nat, key: string, outcome: Outcome, pushed: bool)

  function TrimSteps(node: string, subnet: string, r: TrimRound): seq<Event> {
    [PopRead(r.t, node, subnet, r.key, Trim), PopDelete(r.t), TrimDelete(r.t, r.outcome)]
    + if r.outcome.Failed? then [PushBack(r.t, r.pushed)] else []
  }

  function AllTrimSteps(node: string, subnet: string, rs: seq<TrimRound>): seq<Event> {
    if rs == [] then [] else AllTrimSteps(node, subnet, rs[..|rs| - 1]) + TrimSteps(node, subnet, rs[|rs| - 1])
  }

  lemma TrimOneMore(node: string, subnet: string, rs: seq<TrimRound>, r: TrimRound)
    ensures AllTrimSteps(node, subnet, rs + [r]) == AllTrimSteps(node, subnet, rs) + TrimSteps(node, subnet, r)
  {
    assert (rs + [r])[..|rs|] == rs;
  }

  /** The checks of getPodIp on a dynamic pod's address, and what follows when one fails. */
  function CheckSteps(t: nat, recycled: bool, sight: Sight, conflictFree: bool, put: bool,
      outcome: Outcome): seq<Event> {
    [See(t, sight)] + (
      if sight.Unknown? then [PutBack(t, put)] + Dropped(t, !put, outcome)
      else if sight.Missing? then []
      else if recycled then [SkipVet(t)]
      else [Vet(t, conflictFree)] + Dropped(t, !conflictFree, outcome))
  }

  function HandOverSteps(t: nat, annotated: bool, outcome: Outcome): seq<Event> {
    [Deliver(t, annotated)] + Dropped(t, !annotated, outcome)
  }

  function LocalAttachSteps(t: nat, reallocated: bool, ok: bool): seq<Event> {
    (if reallocated then [Reallocate(t)] else []) + (if ok then [] else [Abandon(t)])
  }

  /** The lookup and the probe of a static pod's address. */
  function AttachCheck(t: nat, recycled: bool, sight: Sight, conflictFree: bool, outcome: Outcome): Event {
    if !sight.Present? then Abandon(t)
    else if recycled then AttachSkipVet(t)
    else AttachVet(t, conflictFree, outcome)
  }

  function AttachSteps(t: nat, recycled: bool, sight: Sight, conflictFree: bool, annotated: bool, outcome: Outcome)
    : seq<Event>
  {
    [AttachCheck(t, recycled, sight, conflictFree, outcome)]
    + if sight.Present? && (recycled || conflictFree) then [AttachDeliver(t, annotated, outcome)] else []
  }

  lemma AttachStepsAreOwn(t: nat, recycled: bool, sight: Sight, conflictFree: bool, annotated: bool, outcome: Outcome)
    ensures Own(AttachCheck(t, recycled, sight, conflictFree, outcome), t)
      && Own(AttachDeliver(t, annotated, outcome), t)
  {
  }

  function CreateSteps(t: nat, ns: string, name: string, result: Creation, put: bool, outcome: Outcome): seq<Event> {
    [CreateClaim(t, ns, name, result)]
    + if result.Rejected? then [PutBack(t, put)] + Dropped(t, !put, outcome) else []
  }

  function NewClaimSteps(t: nat, ns: string, name: string, creation: Creation, put: bool, at: Attachment,
      recycled: bool, sight: Sight, conflictFree: bool, annotated: bool, outcome: Outcome): seq<Event>
  {
    CreateSteps(t, ns, name, creation, put, outcome)
    + if !creation.Created? then [] else
        LocalAttachSteps(t, Reallocates(at), Attaches(at))
        + if Attaches(at) then AttachSteps(t, recycled, sight, conflictFree, annotated, outcome) else []
  }

  lemma CreateIsOwn(t: nat, ns: string, name: string, result: Creation, put: bool, outcome: Outcome)
    ensures forall e | e in CreateSteps(t, ns, name, result, put, outcome) :: Own(e, t)
  {
  }

  lemma LocalAttachIsOwn(t: nat, reallocated: bool, ok: bool)
    ensures forall e | e in LocalAttachSteps(t, reallocated, ok) :: Own(e, t)
  {
  }

  lemma AttachIsOwn(t: nat, node: string, ns: string, name: string)
    ensures Own(Attach(t, node, ns, name), t)
  {
  }

  /** The lenders of these loans have the addresses, and the replies are on the wire. */
  predicate Granting(s: State, loans: seq<Loan>, want: string) {
    forall i | 0 <= i < |loans| && loans[i].Granted? ::
      Has(s, loans[i].lender, loans[i].from, loans[i].pn, Lent(want)) && WellFormed(loans[i].pn)
  }

  lemma NoThaw(node: string)
    ensures AllThawSteps(node, []) == []
  {
  }

  lemma NoTrim(node: string, subnet: string)
    ensures AllTrimSteps(node, subnet, []) == []
  {
  }

  /** The entries that left the cooldown set are those of the rounds, each once, in the order of their keys. */
  ghost predicate Emptied(was: CooldownSet, entries: CooldownSet, rounds: seq<ThawRound>) {
    && (forall i, j | 0 <= i < j < |rounds| :: Less(rounds[i].key, rounds[j].key))
    && (forall key :: key in was && key !in entries <==> exists i | 0 <= i < |rounds| :: rounds[i].key == key)
  }

  lemma NothingEmptied(was: CooldownSet)
    ensures Emptied(was, was, [])
  {
  }

  lemma EmptyOne(was: CooldownSet, entries: CooldownSet, kvs: seq<KeyValue<CooldownItem>>, i: nat, now: int,
                 rounds: seq<ThawRound>)
    requires Recycled(was, entries, kvs, i, now) && i < |kvs| && Emptied(was, entries, rounds) && kvs[i].key in entries
    ensures forall r: ThawRound | r.key == kvs[i].key :: Emptied(was, entries - {r.key}, rounds + [r])
  {
    forall j | 0 <= j < |rounds| ensures Less(rounds[j].key, kvs[i].key) {
      var key := rounds[j].key;
      assert key in was && key !in entries;
      assert key in Keys(kvs);
      var k :| 0 <= k < |kvs| && kvs[k].key == key;
      assert k < i;
    }
    forall r: ThawRound | r.key == kvs[i].key ensures Emptied(was, entries - {r.key}, rounds + [r]) {
      var more := rounds + [r];
      assert more[|rounds|] == r && forall j | 0 <= j < |rounds| :: more[j] == rounds[j];
    }
  }

  lemma RecordedFits(s: State, node: string, pn: PodNetwork, ns: string, name: string)
    requires Recorded(s, node, pn, ns, name)
    ensures KeyFits(s, node, pn)
  {
    hide ReservedKey;
  }

  lemma KeepsWellFormed(pools: Pools, cooling: CooldownSet, key: string, item: CooldownItem)
    requires RecordsWellFormed(pools, cooling) && WellFormed(item.network)
    ensures RecordsWellFormed(pools, cooling[key := item])
  {
  }

  /** A release that writes no cooldown entry leaves the databases alone. */
  lemma UnwrittenCoupled(node: string, pools: Pools, cooling: CooldownSet, s: State, pn: PodNetwork, ns: string,
                         name: string, v: Via)
    requires Coupled(node, pools, cooling, s) && !Written(v)
    ensures Coupled(node, pools, cooling, Released(s, node, pn, ns, name, v))
  {
    UnwrittenTouches(s, node, pn, ns, name, v);
    hide Released;
  }

  lemma UnwrittenTouches(s: State, node: string, pn: PodNetwork, ns: string, name: string, v: Via)
    requires !Written(v)
    ensures var s' := Released(s, node, pn, ns, name, v);
            forall p: Place | p.Pool? || p.Cooling? ::
              (p in s'.held <==> p in s.held) && (p in s.held ==> s'.held[p] == s.held[p])
  {
    hide ReservedKey;
  }

  lemma TickIs(s: State, now: int)
    requires s.clock <= now
    ensures Enabled(s, Tick(now)) && Next(s, Tick(now)) == s.(clock := now) && Footprint(s, Tick(now)) == {}
  {
  }

  lemma StepsBelong(s: State, node: string, t: nat, pn: PodNetwork, ns: string, name: string, v: Via)
    ensures forall e | e in Steps(s, node, t, pn, ns, name, v) :: Belongs(e, t, node)
  {
    if v.Ipamd? { LoopStepsBelong(s, node, t, pn, ns, name, v.found, v.ok, v.outcome); }
    hide ReservedKey, Find, LoopSteps;
  }

  lemma CheckStepsAreOwn(t: nat, recycled: bool, sight: Sight, conflictFree: bool, put: bool, annotated: bool,
      outcome: Outcome)
    ensures forall e | e in CheckSteps(t, recycled, sight, conflictFree, put, outcome) :: Own(e, t)
    ensures forall e | e in HandOverSteps(t, annotated, outcome) :: Own(e, t)
  {
  }

  /** The databases after a release that ipamd handles. */
  lemma ReleasedCoupled(node: string, pools: Pools, cooling: CooldownSet, s: State, pn: PodNetwork, ns: string,
                        name: string, ok: bool, outcome: Outcome)
    requires Coupled(node, pools, cooling, s) && Recorded(s, node, pn, ns, name)
    ensures var item := CooldownItem(Stamp(pn, s.clock), s.clock + s.period);
            Coupled(node, pools, if ok then cooling[ReservedKey(pn) := item] else cooling,
                    Released(s, node, pn, ns, name, Ipamd(false, ok, outcome, true)))
  {
    var key, s' := ReservedKey(pn), Released(s, node, pn, ns, name, Ipamd(false, ok, outcome, true));
    var item := CooldownItem(Stamp(pn, s.clock), s.clock + s.period);
    ReleasedTouches(s, node, pn, ns, name, ok, outcome);
    CoolingPlace(node, pools, cooling, s, key);
    hide Released, Recorded, ReservedKey;
    CoolingCoupled(node, pools, cooling, s, s', key, if ok then cooling[key := item] else cooling);
  }

  lemma ReleasedTouches(s: State, node: string, pn: PodNetwork, ns: string, name: string, ok: bool, outcome: Outcome)
    requires Recorded(s, node, pn, ns, name)
    ensures var key, s' := ReservedKey(pn), Released(s, node, pn, ns, name, Ipamd(false, ok, outcome, true));
            && (forall p: Place | (p.Pool? || p.Cooling?) && p != Cooling(node, key) ::
                  (p in s'.held <==> p in s.held) && (p in s.held ==> s'.held[p] == s.held[p]))
            && (ok ==> Cooling(node, key) in s'.held
                       && s'.held[Cooling(node, key)] == Slot(Stamp(pn, s.clock), s.clock + s.period))
            && (!ok ==> (Cooling(node, key) in s'.held <==> Cooling(node, key) in s.held)
                        && (Cooling(node, key) in s.held ==> s'.held[Cooling(node, key)] == s.held[Cooling(node, key)]))
  {
    assert Claims(s, ns, name, pn.vpcIp) ==> ReservedKey(s.held[Claim(ns, name)].pn) == ReservedKey(pn);
    hide ReservedKey;
  }

  lemma LoopStepsBelong(s: State, node: string, t: nat, pn: PodNetwork, ns: string, name: string, found: bool, ok: bool,
                        outcome: Outcome)
    ensures forall e | e in LoopSteps(s, node, t, pn, ns, name, found, ok, outcome) :: Belongs(e, t, node)
  {
    hide ReservedKey, Find;
  }
}
