/** The IP allocator of every node of a cluster, as one step system.

    All databases, all pods, all claims and every goroutine's hand are one map from places
    to slots. An event is one bolt transaction, one VPC call, one API call or one message;
    events of any number of nodes and goroutines interleave freely. */
module Protocol {
  import opened PodNetworks

  datatype Place =
    | Pool(node: string, subnet: string, key: string)
    | Cooling(node: string, key: string)
    | Hand(thread: nat)                       // a goroutine's local variable
    | Given(node: string, key: string)        // returned to the CNI client of a dynamic pod
    | Claim(ns: string, name: string)         // a VpcIpClaim object

  /** `over` is CooldownOver; it means something only in a cooldown set. */
  datatype Slot = Slot(pn: PodNetwork, over: int)

  /** Why a goroutine pops a pool, and the subnet it was asked for. */
  datatype Job =
    | Add(want: string, fixed: bool)
    | Lend(want: string, mac: string)
    | Trim

  /** What a goroutine has done so far, that is, which statement it executes next. */
  datatype Phase =
    | Popping(job: Job, subnet: string, key: string, pn: PodNetwork)  // between Pop's transactions
    | Fetched(job: Job)
    | Seen(want: string)                      // the VPC confirmed the address
    | Ready(want: string, checked: bool)      // getPodIp returned it
    | Lent(want: string)                      // MAC moved, the reply is on the wire
    | Returning                               // about to putIpToPool
    | PushingBack                             // about to backupPushSecondaryIP
    | Dropping                                // about to delete the address in the VPC
    | Retiring(over: int)                     // about to putIpToCooldown
    | Attaching(ns: string, name: string, pn: PodNetwork, checked: bool, ready: bool)

  datatype Thread = Thread(node: string, phase: Phase)

  datatype State = State(
    held: map<Place, Slot>,
    threads: map<nat, Thread>,
    leased: set<string>,           // addresses the VPC has given to the cluster
    leaked: set<string>,              // leased addresses that no place knows any more
    clock: int,
    period: int,                      // CooldownPeriodSeconds
    notBefore: map<string, int>,      // history: CooldownOver of the last release
    cooledOn: map<string, string>)    // history: the node whose cooldown an IP went through
                                      //          since it last arrived on a node

  /** Answers of the VPC backend. Absent: "no such address under this MAC". */
  datatype Outcome = Deleted | Absent | Failed
  datatype Sight = Present | Missing | Unknown

  /** How creating a claim can end; after Committed and Lost the caller only sees an error. */
  datatype Creation = Created | Rejected | Committed | Lost

  /** Where an address is that a pod gives back although ipamd does not know the pod as its holder: leaked, with nobody,
      or with somebody else by now. */
  datatype Whereabouts = Forgotten | Gone | Elsewhere

  datatype Event =
    | PopRead(t: nat, node: string, subnet: string, key: string, job: Job)
    | PopDelete(t: nat)
    | PopFail(t: nat)
    | Allocate(t: nat, node: string, want: string, fixed: bool, pn: PodNetwork)
    | LendMove(t: nat, ok: bool)
    | Reply(t: nat, borrower: nat, node: string, fixed: bool)
    | ReplyLost(t: nat)
    | See(t: nat, sight: Sight)
    | Vet(t: nat, ok: bool)
    | SkipVet(t: nat)
    | Deliver(t: nat, ok: bool)
    | PutBack(t: nat, ok: bool)
    | PushBack(t: nat, ok: bool)
    | Drop(t: nat, outcome: Outcome)
    | TrimDelete(t: nat, outcome: Outcome)
    | Release(t: nat, node: string, key: string)
    | ReleaseSkipped(node: string, key: string)
    | Retire(t: nat, ok: bool)
    | ReleaseAgain(node: string, key: string, ok: bool, outcome: Outcome)
    | Thaw(t: nat, node: string, key: string)
    | CreateClaim(t: nat, ns: string, name: string, result: Creation)
    | Attach(t: nat, node: string, ns: string, name: string)
    | Reallocate(t: nat)
    | AttachVet(t: nat, ok: bool, outcome: Outcome)
    | AttachSkipVet(t: nat)
    | AttachDeliver(t: nat, ok: bool, outcome: Outcome)
    | Abandon(t: nat)
    | ReleaseStatic(t: nat, node: string, ns: string, name: string, found: bool)
    | AssignDirect(node: string, pn: PodNetwork)
    | ReleaseDirect(node: string, key: string, outcome: Outcome)
    | UnleaseClaim(ns: string, name: string, outcome: Outcome)
    | ReleaseStray(node: string, pn: PodNetwork, at: Whereabouts, ok: bool, outcome: Outcome)
    | Crash(t: nat)
    | Tick(now: int)

  // ---------------------------------------------------------------- reading a state

  function Ips(held: map<Place, Slot>): set<string> {
    set p | p in held :: held[p].pn.vpcIp
  }

  predicate At(s: State, t: nat) {
    t in s.threads && Hand(t) in s.held
  }

  function PhaseOf(s: State, t: nat): Phase
    requires t in s.threads
  {
    s.threads[t].phase
  }

  function InHand(s: State, t: nat): PodNetwork
    requires Hand(t) in s.held
  {
    s.held[Hand(t)].pn
  }

  predicate ClaimFree(s: State, ns: string, name: string) {
    Claim(ns, name) !in s.held
  }

  function Find(s: State, ip: string): Whereabouts {
    if ip in s.leaked then Forgotten
    else if exists p | p in s.held && !p.Claim? :: s.held[p].pn.vpcIp == ip then Elsewhere
    else Gone
  }

  // ---------------------------------------------------------------- moving IPs

  function To(s: State, t: nat, phase: Phase): State
    requires t in s.threads
  {
    s.(threads := s.threads[t := s.threads[t].(phase := phase)])
  }

  function Start(s: State, t: nat, node: string, phase: Phase): State {
    s.(threads := s.threads[t := Thread(node, phase)])
  }

  function End(s: State, t: nat): State {
    s.(threads := s.threads - {t})
  }

  function Move(s: State, p: Place, q: Place, slot: Slot): State {
    s.(held := (s.held - {p})[q := slot])
  }

  function Leak(s: State, p: Place): State
    requires p in s.held
  {
    s.(held := s.held - {p}, leaked := s.leaked + {s.held[p].pn.vpcIp})
  }

  /** Deleting the address of a held slot in the VPC, when the slot goes with it. */
  function Discard(s: State, p: Place, outcome: Outcome): State
    requires p in s.held
  {
    if outcome.Deleted? then
      s.(held := s.held - {p}, leased := s.leased - {s.held[p].pn.vpcIp})
    else Leak(s, p)
  }

  /** Deleting the address of a claim in the VPC: the claim survives. */
  function Unlease(s: State, ip: string, outcome: Outcome): State {
    if outcome.Deleted? then s.(leased := s.leased - {ip}) else s
  }

  function Stamp(pn: PodNetwork, now: int): PodNetwork {
    pn.(recycled := true, recycleTime := now)
  }

  function PoolOf(node: string, pn: PodNetwork): Place {
    Pool(node, pn.subnetId, ReservedKey(pn))
  }

  /** Where a goroutine puts down the address it has in hand when its write succeeds. */
  function Target(s: State, t: nat): Place
    requires At(s, t)
  {
    match PhaseOf(s, t)
    case Ready(_, _) => Given(s.threads[t].node, ReservedKey(InHand(s, t)))
    case Retiring(_) => Cooling(s.threads[t].node, ReservedKey(InHand(s, t)))
    case _ => PoolOf(s.threads[t].node, InHand(s, t))
  }

  // ---------------------------------------------------------------- the step system

  /** The events of static pods. */
  predicate OfClaim(e: Event) {
    e.CreateClaim? || e.Attach? || e.Reallocate? || e.AttachVet? || e.AttachSkipVet? || e.AttachDeliver?
    || e.Abandon? || e.ReleaseStatic?
  }

  /** The events of getPodIp and lendIP up to the point where an address is handed out. */
  predicate OfHandOut(e: Event) {
    e.PopRead? || e.PopDelete? || e.PopFail? || e.Allocate? || e.LendMove? || e.Reply? || e.ReplyLost?
    || e.See? || e.Vet? || e.SkipVet?
  }

  /** What the CNI plugin does without ipamd, and releases of addresses that ipamd does not find with the pod. */
  predicate OfPlugin(e: Event) {
    e.AssignDirect? || e.ReleaseDirect? || e.UnleaseClaim? || e.ReleaseStray?
  }

  predicate MayClaim(s: State, e: Event)
    requires OfClaim(e)
  {
    match e
    case CreateClaim(t, ns, name, result) =>
      && At(s, t) && PhaseOf(s, t).Fetched? && PhaseOf(s, t).job.Add? && PhaseOf(s, t).job.fixed
      && (result.Created? || result.Committed? ==> ClaimFree(s, ns, name))
    case Attach(t, node, ns, name) => t !in s.threads && Claim(ns, name) in s.held
    case Reallocate(t) => t in s.threads && PhaseOf(s, t).Attaching?
    case AttachVet(t, ok, outcome) =>
      t in s.threads && PhaseOf(s, t).Attaching? && !PhaseOf(s, t).ready && !PhaseOf(s, t).pn.recycled
    case AttachSkipVet(t) =>
      t in s.threads && PhaseOf(s, t).Attaching? && !PhaseOf(s, t).ready && PhaseOf(s, t).pn.recycled
    case AttachDeliver(t, ok, outcome) =>
      t in s.threads && PhaseOf(s, t).Attaching? && PhaseOf(s, t).ready
    case Abandon(t) => t in s.threads && PhaseOf(s, t).Attaching?
    case ReleaseStatic(t, node, ns, name, found) => t !in s.threads && Claim(ns, name) in s.held
  }

  predicate MayHandOut(s: State, e: Event)
    requires OfHandOut(e)
  {
    match e
    case PopRead(t, node, subnet, key, job) =>
      t !in s.threads && Pool(node, subnet, key) in s.held && (!job.Trim? ==> job.want == subnet)
    case PopDelete(t) => t in s.threads && PhaseOf(s, t).Popping?
    case PopFail(t) => t in s.threads && PhaseOf(s, t).Popping?
    case Allocate(t, node, want, fixed, pn) =>
      && t !in s.threads && WellFormed(pn) && pn.subnetId == want && !pn.recycled
      && pn.vpcIp !in s.leased
      && forall p | p in s.held && p.Claim? :: s.held[p].pn.vpcIp != pn.vpcIp
    case LendMove(t, ok) => At(s, t) && PhaseOf(s, t).Fetched? && PhaseOf(s, t).job.Lend?
    case Reply(t, borrower, node, fixed) =>
      At(s, t) && PhaseOf(s, t).Lent? && borrower !in s.threads
    case ReplyLost(t) => At(s, t) && PhaseOf(s, t).Lent?
    case See(t, sight) =>
      At(s, t) && PhaseOf(s, t).Fetched? && PhaseOf(s, t).job.Add? && !PhaseOf(s, t).job.fixed
    case Vet(t, ok) => At(s, t) && PhaseOf(s, t).Seen? && !InHand(s, t).recycled
    case SkipVet(t) => At(s, t) && PhaseOf(s, t).Seen? && InHand(s, t).recycled
  }

  predicate MayPlugin(s: State, e: Event)
    requires OfPlugin(e)
  {
    match e
    case AssignDirect(node, pn) =>
      && WellFormed(pn) && !pn.recycled && pn.vpcIp !in s.leased
      && forall p | p in s.held && p.Claim? :: s.held[p].pn.vpcIp != pn.vpcIp
    case ReleaseDirect(node, key, outcome) => Given(node, key) in s.held
    case UnleaseClaim(ns, name, outcome) => Claim(ns, name) in s.held
    case ReleaseStray(node, pn, at, ok, outcome) =>
      && WellFormed(pn) && at == Find(s, pn.vpcIp)
      && Given(node, ReservedKey(pn)) !in s.held && Cooling(node, ReservedKey(pn)) !in s.held
  }

  predicate MayMove(s: State, e: Event)
    requires !OfClaim(e) && !OfHandOut(e) && !OfPlugin(e)
  {
    match e
    case Deliver(t, ok) => At(s, t) && PhaseOf(s, t).Ready?
    case PutBack(t, ok) => At(s, t) && PhaseOf(s, t).Returning?
    case PushBack(t, ok) => At(s, t) && PhaseOf(s, t).PushingBack?
    case Drop(t, outcome) => At(s, t) && PhaseOf(s, t).Dropping?
    case TrimDelete(t, outcome) => At(s, t) && PhaseOf(s, t).Fetched? && PhaseOf(s, t).job.Trim?
    case Release(t, node, key) => t !in s.threads && Given(node, key) in s.held
    case ReleaseSkipped(node, key) => Given(node, key) in s.held
    case Retire(t, ok) => At(s, t) && PhaseOf(s, t).Retiring?
    case ReleaseAgain(node, key, ok, outcome) => Cooling(node, key) in s.held
    case Thaw(t, node, key) =>
      t !in s.threads && Cooling(node, key) in s.held && s.clock >= s.held[Cooling(node, key)].over
    case Crash(t) => t in s.threads
    case Tick(now) => s.clock <= now
  }

  /** What has to hold for an event to happen next. */
  predicate Enabled(s: State, e: Event) {
    if OfClaim(e) then MayClaim(s, e)
    else if OfHandOut(e) then MayHandOut(s, e)
    else if OfPlugin(e) then MayPlugin(s, e)
    else MayMove(s, e)
  }

  /** Events that no goroutine of the model goes through: each is one step of the code. */
  predicate Threadless(e: Event) {
    e.ReleaseSkipped? || e.ReleaseAgain? || e.AssignDirect? || e.ReleaseDirect? || e.UnleaseClaim? || e.ReleaseStray?
    || e.Tick?
  }

  function NextOfClaim(s: State, e: Event): State
    requires OfClaim(e) && MayClaim(s, e)
  {
    match e
    case CreateClaim(t, ns, name, result) =>
      (match result
       case Created => To(Move(s, Hand(t), Claim(ns, name), s.held[Hand(t)]),
                          t, Attaching(ns, name, InHand(s, t), false, false))
       case Rejected => To(s, t, Returning)
       case Committed => End(Move(s, Hand(t), Claim(ns, name), s.held[Hand(t)]), t)
       case Lost => End(Leak(s, Hand(t)), t))
    case Attach(t, node, ns, name) =>
      Start(s, t, node, Attaching(ns, name, s.held[Claim(ns, name)].pn.(recycled := false), false, false))
    case Reallocate(t) => s.(leased := s.leased + {PhaseOf(s, t).pn.vpcIp})
    case AttachVet(t, ok, outcome) =>
      if ok then To(s, t, PhaseOf(s, t).(checked := true, ready := true))
      else End(Unlease(s, PhaseOf(s, t).pn.vpcIp, outcome), t)
    case AttachSkipVet(t) => To(s, t, PhaseOf(s, t).(ready := true))
    case AttachDeliver(t, ok, outcome) =>
      if ok then End(s, t) else End(Unlease(s, PhaseOf(s, t).pn.vpcIp, outcome), t)
    case Abandon(t) => End(s, t)
    case ReleaseStatic(t, node, ns, name, found) =>
      if found then s else
      var pn := Stamp(s.held[Claim(ns, name)].pn, s.clock);
      Start(s, t, node, Retiring(s.clock + s.period)).(
        held := s.held[Hand(t) := Slot(pn, 0)],
        notBefore := s.notBefore[pn.vpcIp := s.clock + s.period])
  }

  function NextOfHandOut(s: State, e: Event): State
    requires OfHandOut(e) && MayHandOut(s, e)
  {
    match e
    case PopRead(t, node, subnet, key, job) =>
      Start(s, t, node, Popping(job, subnet, key, s.held[Pool(node, subnet, key)].pn))
    case PopDelete(t) =>
      var Thread(node, Popping(job, subnet, key, pn)) := s.threads[t];
      To(Move(s, Pool(node, subnet, key), Hand(t), Slot(pn, 0)), t, Fetched(job))
    case PopFail(t) => End(s, t)
    case Allocate(t, node, want, fixed, pn) =>
      Start(s, t, node, Fetched(Add(want, fixed))).(
        held := s.held[Hand(t) := Slot(pn, 0)],
        leased := s.leased + {pn.vpcIp},
        cooledOn := s.cooledOn - {pn.vpcIp})
    case LendMove(t, ok) =>
      if !ok then To(s, t, Returning) else
      To(Move(s, Hand(t), Hand(t), Slot(InHand(s, t).(mac := PhaseOf(s, t).job.mac), 0)),
         t, Lent(PhaseOf(s, t).job.want))
    case Reply(t, borrower, node, fixed) =>
      var pn := InHand(s, t).(recycled := false);
      Start(End(Move(s, Hand(t), Hand(borrower), Slot(pn, 0)), t),
            borrower, node, Fetched(Add(PhaseOf(s, t).want, fixed))).(
        cooledOn := s.cooledOn - {pn.vpcIp})
    case ReplyLost(t) => End(Leak(s, Hand(t)), t)
    case See(t, sight) =>
      (match sight
       case Present => To(s, t, Seen(PhaseOf(s, t).job.want))
       case Missing => End(Leak(s, Hand(t)), t)
       case Unknown => To(s, t, Returning))
    case Vet(t, ok) =>
      if ok then To(s, t, Ready(PhaseOf(s, t).want, true)) else To(s, t, Dropping)
    case SkipVet(t) => To(s, t, Ready(PhaseOf(s, t).want, false))
  }

  function NextOfPlugin(s: State, e: Event): State
    requires OfPlugin(e) && MayPlugin(s, e)
  {
    match e
    case AssignDirect(node, pn) =>
      s.(held := s.held[Given(node, ReservedKey(pn)) := Slot(pn, 0)], leased := s.leased + {pn.vpcIp})
    case ReleaseDirect(node, key, outcome) => if outcome.Failed? then s else Discard(s, Given(node, key), outcome)
    case UnleaseClaim(ns, name, outcome) => Unlease(s, s.held[Claim(ns, name)].pn.vpcIp, outcome)
    case ReleaseStray(node, pn, at, ok, outcome) =>
      if ok then
        s.(held := s.held[Cooling(node, ReservedKey(pn)) := Slot(Stamp(pn, s.clock), s.clock + s.period)],
           leaked := s.leaked - {pn.vpcIp},
           notBefore := s.notBefore[pn.vpcIp := s.clock + s.period])
      else if outcome.Deleted? then s.(leased := s.leased - {pn.vpcIp}, leaked := s.leaked - {pn.vpcIp})
      else s
  }

  /** Writing an address to a pool, a pod or a cooldown set, deleting it, releasing it. */
  function NextOfMove(s: State, e: Event): State
    requires !OfClaim(e) && !OfHandOut(e) && !OfPlugin(e) && MayMove(s, e)
  {
    match e
    case Deliver(t, ok) =>
      if !ok then To(s, t, Dropping) else
      End(Move(s, Hand(t), Target(s, t), s.held[Hand(t)]), t)
    case PutBack(t, ok) =>
      if !ok then To(s, t, Dropping) else
      End(Move(s, Hand(t), Target(s, t), s.held[Hand(t)]), t)
    case PushBack(t, ok) =>
      if !ok then End(Leak(s, Hand(t)), t) else
      End(Move(s, Hand(t), Target(s, t), s.held[Hand(t)]), t)
    case Drop(t, outcome) => End(Discard(s, Hand(t), outcome), t)
    case TrimDelete(t, outcome) =>
      if outcome.Failed? then To(s, t, PushingBack) else End(Discard(s, Hand(t), outcome), t)
    case Release(t, node, key) =>
      var pn := Stamp(s.held[Given(node, key)].pn, s.clock);
      Start(Move(s, Given(node, key), Hand(t), Slot(pn, 0)), t, node, Retiring(s.clock + s.period)).(
        notBefore := s.notBefore[pn.vpcIp := s.clock + s.period])
    case ReleaseSkipped(node, key) => Leak(s, Given(node, key))
    case Retire(t, ok) =>
      if !ok then To(s, t, Dropping) else
      End(Move(s, Hand(t), Target(s, t), s.held[Hand(t)].(over := PhaseOf(s, t).over)), t)
    case ReleaseAgain(node, key, ok, outcome) =>
      var pn := Stamp(s.held[Cooling(node, key)].pn, s.clock);
      if !ok then Unlease(s, pn.vpcIp, outcome) else
      Move(s, Cooling(node, key), Cooling(node, key), Slot(pn, s.clock + s.period)).(
        notBefore := s.notBefore[pn.vpcIp := s.clock + s.period])
    case Thaw(t, node, key) =>
      var slot := s.held[Cooling(node, key)];
      Start(Move(s, Cooling(node, key), Hand(t), slot), t, node, Returning).(
        cooledOn := s.cooledOn[slot.pn.vpcIp := node])
    case Crash(t) => if Hand(t) in s.held then End(Leak(s, Hand(t)), t) else End(s, t)
    case Tick(now) => s.(clock := now)
  }

  function Next(s: State, e: Event): State
    requires Enabled(s, e)
  {
    if OfClaim(e) then NextOfClaim(s, e)
    else if OfHandOut(e) then NextOfHandOut(s, e)
    else if OfPlugin(e) then NextOfPlugin(s, e)
    else NextOfMove(s, e)
  }

  // ---------------------------------------------------------------- runs

  predicate IsRun(init: State, run: seq<Event>)
    decreases |run|, 0
  {
    |run| == 0 || (IsRun(init, run[..|run| - 1]) &&
                   Enabled(After(init, run[..|run| - 1]), run[|run| - 1]))
  }

  /** The state a run leads to. */
  function After(init: State, run: seq<Event>): State
    requires IsRun(init, run)
    decreases |run|, 1
  {
    if |run| == 0 then init else Next(After(init, run[..|run| - 1]), run[|run| - 1])
  }

  /** The events lead from one state to the other. */
  predicate Path(s: State, steps: seq<Event>, s': State)
    decreases |steps|
  {
    if steps == [] then s == s'
    else Enabled(s, steps[0]) && Path(Next(s, steps[0]), steps[1..], s')
  }

  lemma Path1(s: State, e: Event)
    requires Enabled(s, e)
    ensures Path(s, [e], Next(s, e))
  {
    hide Enabled, Next;
    assert [e][1..] == [];
  }

  lemma Path2(s: State, e1: Event, e2: Event)
    requires Enabled(s, e1) && Enabled(Next(s, e1), e2)
    ensures Path(s, [e1, e2], Next(Next(s, e1), e2))
  {
    hide Enabled, Next;
    Path1(Next(s, e1), e2);
    assert [e1, e2][1..] == [e2];
  }

  lemma PathPrepend(s: State, e: Event, steps: seq<Event>, s': State)
    requires Enabled(s, e) && Path(Next(s, e), steps, s')
    ensures Path(s, [e] + steps, s')
  {
    hide Enabled, Next;
    assert ([e] + steps)[1..] == steps;
  }

  /** A cluster with no databases, pods or claims. */
  function Empty(clock: int, period: int): State {
    State(map[], map[], {}, {}, clock, period, map[], map[])
  }
}
