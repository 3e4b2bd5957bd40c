/** The life of a static-IP claim, written by two programs through one API server.

    ipamd creates and attaches claims; vip-controller detaches them, deletes them when they are old, and releases the
    address of a claim that is gone. Every API call is one event; an update is a compare-and-swap on the resource
    version, and a deleted object stays until its finalizers are gone. */
module Claims {
  type Name = (string, string)      // namespace and pod name

  const FINALIZER := "cni-vpc-ipamd"

  datatype ClaimObject = ClaimObject(
    name: Name, ip: string,
    version: nat,                   // resource version
    labels: map<string, string>,
    finalizers: seq<string>,
    attached: bool,                 // Status.Attached
    deleting: bool,                 // the object has a deletion timestamp
    gone: bool)                     // removed from the API server, its address not yet released

  /** What a writer is about to do with the copy it has read. */
  datatype Intent = ToAttach | ToDetach

  datatype Work =
    | Copy(uid: nat, copy: ClaimObject, intent: Intent)
    | Cleared(uid: nat)             // the pod of this removed claim was looked up and not seen running

  datatype State = State(
    objects: map<nat, ClaimObject>, // by uid, also those that are gone and wait for their release
    claims: map<Name, nat>,         // the live ones by name
    next: nat,                      // next uid and resource version
    work: map<nat, Work>,           // the local variables of the workers
    running: set<Name>,             // pods that keep their address, as a lookup would see them now
    leased: set<string>,            // addresses the VPC leases to the cluster
    others: set<string>)            // those among them that somebody else than a claim uses

  datatype Event =
    | Create(name: Name, ip: string, owner: string)
    | Read(w: nat, name: Name, intent: Intent)
    | Write(w: nat)
    | Delete(name: Name)
    | Clear(w: nat, uid: nat)
    | Release(w: nat)
    | GiveUp(w: nat)
    | PodStarts(name: Name)
    | PodStops(name: Name)
    | LoseAddress(name: Name)       // the VPC address of a claim is deleted: after a failed conflict check or
                                    // annotation, or by a release that misses the claim, goes straight to the VPC
                                    // or comes late
    | RegainAddress(w: nat)         // a worker that attaches allocates the address its copy names again
    | LeaseOther(ip: string)
    | ReturnOther(ip: string)

  // ---------------------------------------------------------------- the writers

  /** PodNetworkToVip: a new claim is born attached, without the label "attached". */
  function Fresh(name: Name, ip: string, owner: string, version: nat): ClaimObject {
    ClaimObject(name, ip, version, if owner != "" then map["owner-statefulset" := owner] else map[],
                [FINALIZER], true, false, false)
  }

  /** markVPCIpClaimAttached. */
  function Attached(o: ClaimObject, version: nat): ClaimObject {
    o.(version := version, labels := o.labels["attached" := "true"], finalizers := [FINALIZER], attached := true)
  }

  /** markVPCIpClaimDetached. */
  function Detached(o: ClaimObject, version: nat): ClaimObject {
    o.(version := version, labels := o.labels["attached" := "false"], finalizers := [], attached := false)
  }

  function Written(work: Work, version: nat): ClaimObject
    requires work.Copy?
  {
    if work.intent.ToAttach? then Attached(work.copy, version) else Detached(work.copy, version)
  }

  // ---------------------------------------------------------------- the step system

  /** The addresses that claims name, live ones and those waiting for their release. */
  function Ips(s: State): set<string> {
    set u | u in s.objects :: s.objects[u].ip
  }

  predicate Live(s: State, name: Name) {
    name in s.claims && s.claims[name] in s.objects
  }

  function ClaimOf(s: State, name: Name): ClaimObject
    requires Live(s, name)
  {
    s.objects[s.claims[name]]
  }

  /** Create takes an address no claim names: that is what the allocator guarantees. LeaseOther is the assumption
      that the VPC does not reissue an address a claim names. */
  predicate Enabled(s: State, e: Event) {
    match e
    case Create(name, ip, owner) => name !in s.claims && ip !in Ips(s) && ip !in s.others
    case Read(w, name, intent) => Live(s, name) && (w in s.work ==> s.work[w].Copy?)
    case Write(w) => w in s.work && s.work[w].Copy?
    case Delete(name) => Live(s, name)
    case Clear(w, uid) => w !in s.work && uid in s.objects && s.objects[uid].gone && s.objects[uid].name !in s.running
    case Release(w) => w in s.work && s.work[w].Cleared? && s.work[w].uid in s.objects
    case GiveUp(w) => w in s.work
    case PodStarts(name) => true
    case PodStops(name) => true
    case LoseAddress(name) => Live(s, name)
    case RegainAddress(w) => w in s.work && s.work[w].Copy? && s.work[w].copy.ip !in s.leased
    case LeaseOther(ip) => ip !in s.leased && ip !in Ips(s)
    case ReturnOther(ip) => ip in s.others
  }

  /** Only the version that was read may be overwritten. */
  predicate Current(s: State, work: Work) {
    work.Copy? && Live(s, work.copy.name) && ClaimOf(s, work.copy.name).version == work.copy.version
  }

  /** The API server stores an object, and removes it when it is deleting and has no finalizer left. */
  function Store(s: State, uid: nat, o: ClaimObject): State {
    if o.deleting && o.finalizers == []
    then s.(objects := s.objects[uid := o.(gone := true)], claims := s.claims - {o.name}, next := s.next + 1)
    else s.(objects := s.objects[uid := o], next := s.next + 1)
  }

  function Next(s: State, e: Event): State
    requires Enabled(s, e)
  {
    match e
    case Create(name, ip, owner) =>
      s.(objects := s.objects[s.next := Fresh(name, ip, owner, s.next)], claims := s.claims[name := s.next],
         next := s.next + 1, leased := s.leased + {ip})
    case Read(w, name, intent) => s.(work := s.work[w := Copy(s.claims[name], ClaimOf(s, name), intent)])
    case Write(w) =>
      if !Current(s, s.work[w]) then s         // conflict or not found: the worker may read again
      else Store(s, s.claims[s.work[w].copy.name], Written(s.work[w], s.next)).(work := s.work - {w})
    case Delete(name) => Store(s, s.claims[name], ClaimOf(s, name).(deleting := true, version := s.next))
    case Clear(w, uid) => s.(work := s.work[w := Cleared(uid)])
    case Release(w) =>
      var o := s.objects[s.work[w].uid];
      s.(objects := s.objects - {s.work[w].uid}, leased := s.leased - {o.ip}, others := s.others - {o.ip},
         work := s.work - {w})
    case GiveUp(w) => s.(work := s.work - {w})
    case PodStarts(name) => s.(running := s.running + {name})
    case PodStops(name) => s.(running := s.running - {name})
    case LoseAddress(name) => s.(leased := s.leased - {ClaimOf(s, name).ip})
    case RegainAddress(w) => s.(leased := s.leased + {s.work[w].copy.ip})
    case LeaseOther(ip) => s.(leased := s.leased + {ip}, others := s.others + {ip})
    case ReturnOther(ip) => s.(leased := s.leased - {ip}, others := s.others - {ip})
  }

  // ---------------------------------------------------------------- the invariant

  /** The label by which the garbage collector lists detached claims. */
  predicate MarkedDetached(o: ClaimObject) {
    "attached" in o.labels && o.labels["attached"] == "false"
  }

  /** The three places that say whether a claim is attached agree; a claim that is deleted but not gone is attached,
      one that is gone was detached. */
  predicate Agrees(o: ClaimObject) {
    && o.finalizers == (if o.attached then [FINALIZER] else [])
    && (o.attached <==> !MarkedDetached(o))
    && (o.gone ==> !o.attached && o.deleting)
    && (o.deleting && !o.gone ==> o.attached)
  }

  ghost predicate Agreeing(s: State) {
    forall u | u in s.objects :: Agrees(s.objects[u])
  }

  ghost predicate Indexed(s: State) {
    && (forall n | n in s.claims :: s.claims[n] in s.objects && ClaimOf(s, n).name == n && !ClaimOf(s, n).gone)
    && (forall u | u in s.objects && !s.objects[u].gone ::
          s.objects[u].name in s.claims && s.claims[s.objects[u].name] == u)
  }

  /** No two claims name one address, and nobody else uses an address that a claim names. */
  ghost predicate Apart(s: State) {
    && (forall u, v | u in s.objects && v in s.objects && s.objects[u].ip == s.objects[v].ip :: u == v)
    && (forall u | u in s.objects :: s.objects[u].ip !in s.others)
    && s.others <= s.leased
  }

  /** A version belongs to one state of one object, so a copy with the current version is the current object. */
  ghost predicate Versioned(s: State) {
    && (forall u | u in s.objects :: u < s.next && s.objects[u].version < s.next)
    && (forall u, v | u in s.objects && v in s.objects && s.objects[u].version == s.objects[v].version :: u == v)
    && (forall w | w in s.work && s.work[w].Copy? :: s.work[w].copy.version < s.next)
    && (forall w, u | w in s.work && s.work[w].Copy? && u in s.objects
                  && s.objects[u].version == s.work[w].copy.version ::
          s.objects[u] == s.work[w].copy)
  }

  ghost predicate Working(s: State) {
    forall w | w in s.work && s.work[w].Cleared? ::
      s.work[w].uid < s.next && (s.work[w].uid in s.objects ==> s.objects[s.work[w].uid].gone)
  }

  ghost predicate Inv(s: State) {
    Agreeing(s) && Indexed(s) && Apart(s) && Versioned(s) && Working(s)
  }

  // ---------------------------------------------------------------- every event keeps it

  lemma StoreKeepsIndex(s: State, uid: nat, o: ClaimObject)
    requires Indexed(s) && uid in s.objects && !s.objects[uid].gone && o.name == s.objects[uid].name && !o.gone
    ensures Indexed(Store(s, uid, o))
  {
  }

  lemma StoreKeepsApart(s: State, uid: nat, o: ClaimObject)
    requires Apart(s) && uid in s.objects && o.ip == s.objects[uid].ip
    ensures Apart(Store(s, uid, o))
  {
  }

  lemma StoreKeepsVersions(s: State, uid: nat, o: ClaimObject)
    requires Versioned(s) && uid in s.objects && o.version == s.next
    ensures Versioned(Store(s, uid, o))
  {
  }

  lemma StoreKeepsWorking(s: State, uid: nat, o: ClaimObject)
    requires Working(s) && uid in s.objects && !s.objects[uid].gone
    ensures Working(Store(s, uid, o))
  {
  }

  lemma StoreKeepsInv(s: State, uid: nat, o: ClaimObject)
    requires Inv(s) && uid in s.objects && !s.objects[uid].gone
    requires o.name == s.objects[uid].name && o.ip == s.objects[uid].ip && o.version == s.next && !o.gone
    requires Agrees(if o.deleting && o.finalizers == [] then o.(gone := true) else o)
    ensures Inv(Store(s, uid, o))
  {
    StoreKeepsIndex(s, uid, o);
    StoreKeepsApart(s, uid, o);
    StoreKeepsVersions(s, uid, o);
    StoreKeepsWorking(s, uid, o);
    hide Indexed, Apart, Versioned, Working, Agrees;
  }

  /** Other workers, other pods, other leases. */
  lemma SameClaims(s: State, s': State)
    requires Agreeing(s) && Indexed(s) && s'.objects == s.objects && s'.claims == s.claims
    requires Versioned(s') && Working(s') && Apart(s')
    ensures Inv(s')
  {
    hide Agrees, Apart, Versioned, Working;
  }

  lemma CreateKeepsIndex(s: State, name: Name, ip: string, owner: string)
    requires Indexed(s) && Versioned(s) && Enabled(s, Create(name, ip, owner))
    ensures Indexed(Next(s, Create(name, ip, owner)))
  {
  }

  lemma CreateKeepsApart(s: State, name: Name, ip: string, owner: string)
    requires Apart(s) && Versioned(s) && Enabled(s, Create(name, ip, owner))
    ensures Apart(Next(s, Create(name, ip, owner)))
  {
    assert forall u | u in s.objects :: s.objects[u].ip in Ips(s);
  }

  lemma CreateKeepsVersions(s: State, name: Name, ip: string, owner: string)
    requires Versioned(s) && Enabled(s, Create(name, ip, owner))
    ensures Versioned(Next(s, Create(name, ip, owner)))
  {
  }

  lemma CreateKeepsInv(s: State, name: Name, ip: string, owner: string)
    requires Inv(s) && Enabled(s, Create(name, ip, owner))
    ensures Inv(Next(s, Create(name, ip, owner)))
  {
    CreateKeepsIndex(s, name, ip, owner);
    CreateKeepsApart(s, name, ip, owner);
    CreateKeepsVersions(s, name, ip, owner);
    hide Indexed, Apart, Versioned;
  }

  lemma ReleaseKeepsInv(s: State, w: nat)
    requires Inv(s) && Enabled(s, Release(w))
    ensures Inv(Next(s, Release(w)))
  {
    var s' := Next(s, Release(w));
    assert Apart(s') by { hide Agreeing, Agrees, Indexed, Versioned, Working; }
    assert Versioned(s') by { hide Agreeing, Agrees, Indexed, Apart, Working; }
    hide Agrees, Apart, Versioned;
  }

  lemma ReadKeepsVersions(s: State, w: nat, name: Name, intent: Intent)
    requires Versioned(s) && Indexed(s) && Enabled(s, Read(w, name, intent))
    ensures Versioned(Next(s, Read(w, name, intent)))
  {
  }

  /** What compare-and-swap buys: a copy that passes the version check is the object itself. */
  lemma CurrentCopy(s: State, w: nat)
    requires Versioned(s) && w in s.work && Current(s, s.work[w])
    ensures ClaimOf(s, s.work[w].copy.name) == s.work[w].copy
  {
  }

  lemma WorkDone(s: State, w: nat)
    requires Inv(s)
    ensures Inv(s.(work := s.work - {w}))
  {
    hide Agrees;
  }

  lemma WrittenAgrees(work: Work, version: nat)
    requires work.Copy? && Agrees(work.copy) && !work.copy.gone
    ensures var o := Written(work, version);
            && o.name == work.copy.name && o.ip == work.copy.ip && o.version == version && !o.gone
            && Agrees(if o.deleting && o.finalizers == [] then o.(gone := true) else o)
  {
  }

  lemma WriteKeepsInv(s: State, w: nat)
    requires Inv(s) && Enabled(s, Write(w)) && Current(s, s.work[w])
    ensures Inv(Next(s, Write(w)))
  {
    var work := s.work[w];
    var uid := s.claims[work.copy.name];
    CurrentCopy(s, w);
    assert !s.objects[uid].gone && Agrees(s.objects[uid]) by { hide Agrees, Apart, Versioned, Working; }
    WrittenAgrees(work, s.next);
    var o := Written(work, s.next);
    hide Written, Store, Agrees, Agreeing, Indexed, Apart, Versioned, Working;
    StoreKeepsInv(s, uid, o);
    WorkDone(Store(s, uid, o), w);
    hide Inv;
  }

  lemma DeleteKeepsInv(s: State, name: Name)
    requires Inv(s) && Enabled(s, Delete(name))
    ensures Inv(Next(s, Delete(name)))
  {
    var uid := s.claims[name];
    assert Agrees(s.objects[uid]) && !s.objects[uid].gone;
    StoreKeepsInv(s, uid, s.objects[uid].(deleting := true, version := s.next));
  }

  lemma LeasesKeepInv(s: State, s': State)
    requires Inv(s) && s'.objects == s.objects && s'.claims == s.claims && s'.next == s.next && s'.work == s.work
    requires s'.others <= s'.leased
    requires forall u | u in s.objects :: s.objects[u].ip !in s'.others
    ensures Inv(s')
  {
    hide Agrees;
  }

  lemma LeaseKeepsInv(s: State, ip: string)
    requires Inv(s) && Enabled(s, LeaseOther(ip))
    ensures Inv(Next(s, LeaseOther(ip)))
  {
    hide Agrees, Agreeing, Indexed, Versioned, Working;
    assert forall u | u in s.objects :: s.objects[u].ip in Ips(s);
    LeasesKeepInv(s, Next(s, LeaseOther(ip)));
  }

  lemma ReadKeepsInv(s: State, w: nat, name: Name, intent: Intent)
    requires Inv(s) && Enabled(s, Read(w, name, intent))
    ensures Inv(Next(s, Read(w, name, intent)))
  {
    ReadKeepsVersions(s, w, name, intent);
    hide Agrees, Versioned;
  }

  lemma ClearKeepsInv(s: State, w: nat, uid: nat)
    requires Inv(s) && Enabled(s, Clear(w, uid))
    ensures Inv(Next(s, Clear(w, uid)))
  {
    hide Agrees;
  }

  lemma OthersKeepInv(s: State, e: Event)
    requires Inv(s) && Enabled(s, e)
    requires e.PodStarts? || e.PodStops? || e.LoseAddress? || e.RegainAddress? || e.ReturnOther?
    ensures Inv(Next(s, e))
  {
    hide Agrees, Agreeing, Indexed, Versioned, Working;
    LeasesKeepInv(s, Next(s, e));
  }

  lemma {:induction false} StepKeepsInv(s: State, e: Event)
    requires Inv(s) && Enabled(s, e)
    ensures Inv(Next(s, e))
  {
    match e
    case Create(name, ip, owner) => CreateKeepsInv(s, name, ip, owner);
    case Read(w, name, intent) => ReadKeepsInv(s, w, name, intent);
    case Write(w) => if Current(s, s.work[w]) { WriteKeepsInv(s, w); } else { hide Inv; }
    case Delete(name) => DeleteKeepsInv(s, name);
    case Clear(w, uid) => ClearKeepsInv(s, w, uid);
    case Release(w) => ReleaseKeepsInv(s, w);
    case GiveUp(w) => WorkDone(s, w); hide Inv;
    case LeaseOther(ip) => LeaseKeepsInv(s, ip);
    case _ => OthersKeepInv(s, e);
  }

  // ---------------------------------------------------------------- whole runs

  const Nothing := State(map[], map[], 0, map[], {}, {}, {})

  ghost predicate IsRun(s: State, run: seq<Event>)
    decreases |run|, 0
  {
    run == [] || (IsRun(s, run[..|run|-1]) && Enabled(After(s, run[..|run|-1]), run[|run|-1]))
  }

  ghost function After(s: State, run: seq<Event>): State
    requires IsRun(s, run)
    decreases |run|, 1
  {
    if run == [] then s else Next(After(s, run[..|run|-1]), run[|run|-1])
  }

  lemma {:induction false} RunPrefix(s: State, run: seq<Event>, k: nat)
    requires IsRun(s, run) && k <= |run|
    ensures IsRun(s, run[..k])
  {
    hide Enabled, After;
    if k == |run| {
      assert run[..k] == run;
    } else {
      RunPrefix(s, run[..|run| - 1], k);
      assert run[..|run| - 1][..k] == run[..k];
    }
  }

  lemma NothingIsFine()
    ensures Inv(Nothing)
  {
  }

  lemma {:induction false} RunKeepsInv(s: State, run: seq<Event>)
    requires Inv(s) && IsRun(s, run)
    ensures Inv(After(s, run))
  {
    if run != [] {
      RunKeepsInv(s, run[..|run|-1]);
      hide Inv, Next;
      StepKeepsInv(After(s, run[..|run|-1]), run[|run|-1]);
    }
  }

  /** In every reachable state the finalizer, the label and the status of every claim tell the same story. */
  lemma {:induction false} AttachmentAgrees(run: seq<Event>, name: Name)
    requires IsRun(Nothing, run) && Live(After(Nothing, run), name)
    ensures var o := ClaimOf(After(Nothing, run), name);
            && o.name == name
            && (o.attached <==> FINALIZER in o.finalizers)
            && (o.attached <==> !MarkedDetached(o))
            && (o.deleting ==> o.attached)
  {
    NothingIsFine();
    RunKeepsInv(Nothing, run);
    assert Agrees(ClaimOf(After(Nothing, run), name));
    hide Apart, Versioned, Working, IsRun, After;
  }

  /** At event i of the run worker w looked the pod of a removed claim up and did not see it running. */
  ghost predicate ClearedAt(run: seq<Event>, i: nat, w: nat, uid: nat)
    requires IsRun(Nothing, run) && i < |run|
  {
    && run[i] == Clear(w, uid)
    && IsRun(Nothing, run[..i])
    && var s := After(Nothing, run[..i]);
    uid in s.objects && s.objects[uid].gone && s.objects[uid].name !in s.running
  }

  lemma {:induction false} ReleaseWasCleared(run: seq<Event>, w: nat) returns (i: nat)
    requires IsRun(Nothing, run)
    requires var s := After(Nothing, run); w in s.work && s.work[w].Cleared?
    ensures i < |run| && ClearedAt(run, i, w, After(Nothing, run).work[w].uid)
  {
    var before, e := run[..|run| - 1], run[|run| - 1];
    if e == Clear(w, After(Nothing, run).work[w].uid) {
      i := |run| - 1;
    } else {
      i := ReleaseWasCleared(before, w);
      assert run[..i] == before[..i];
    }
  }

  lemma ReleaseEffect(s: State, w: nat)
    requires Inv(s) && Enabled(s, Release(w))
    ensures var s' := Next(s, Release(w));
            var o := s.objects[s.work[w].uid];
            && o.gone && !o.attached && o.finalizers == []
            && o.ip !in Ips(s') && s'.others == s.others && s'.leased == s.leased - {o.ip} && s'.claims == s.claims
  {
    hide Indexed, Versioned, MarkedDetached;
    assert Agrees(s.objects[s.work[w].uid]);
  }

  /** SAFETY OF THE RELEASE. An address is given back only after its claim was detached and removed and its pod
      was seen not to run; no claim, live or waiting, names it afterwards, and nobody else loses it. */
  lemma ReleaseIsSafe(run: seq<Event>, w: nat) returns (i: nat)
    requires IsRun(Nothing, run) && Enabled(After(Nothing, run), Release(w))
    ensures var s := After(Nothing, run);
            var s' := Next(s, Release(w));
            var o := s.objects[s.work[w].uid];
            && o.gone && !o.attached && o.finalizers == []
            && i < |run| && ClearedAt(run, i, w, s.work[w].uid)
            && o.ip !in Ips(s') && s'.others == s.others && s'.leased == s.leased - {o.ip}
            && s'.claims == s.claims
  {
    NothingIsFine();
    RunKeepsInv(Nothing, run);
    i := ReleaseWasCleared(run, w);
    hide IsRun, After, ClearedAt, Inv;
    ReleaseEffect(After(Nothing, run), w);
  }

  lemma AttachingKeepsOthers(s: State, w: nat, name: Name)
    requires Inv(s) && Enabled(s, Write(w)) && Live(s, name) && ClaimOf(s, name).attached
    requires s.work[w].intent.ToAttach? || s.work[w].copy.name != name
    ensures var s' := Next(s, Write(w));
            Live(s', name) && s'.claims[name] == s.claims[name] && ClaimOf(s', name).attached
            && ClaimOf(s', name).ip == ClaimOf(s, name).ip
  {
    hide Apart, MarkedDetached, Agreeing, Working;
    if Current(s, s.work[w]) { CurrentCopy(s, w); }
  }

  /** Nothing but a detaching write makes an attached claim disappear: a garbage-collecting delete that comes
      too late, after the claim was attached again, only marks it. */
  lemma AttachedClaimStays(s: State, e: Event, name: Name)
    requires Inv(s) && Enabled(s, e) && Live(s, name) && ClaimOf(s, name).attached
    requires !(e.Write? && s.work[e.w].intent.ToDetach? && s.work[e.w].copy.name == name)
    ensures var s' := Next(s, e);
            Live(s', name) && s'.claims[name] == s.claims[name] && ClaimOf(s', name).attached
            && ClaimOf(s', name).ip == ClaimOf(s, name).ip
  {
    hide Apart, MarkedDetached;
    if e.Create? { assert s.next !in s.objects; }
    if e.Write? {
      AttachingKeepsOthers(s, e.w, name);
    }
  }

  /** The address of a live claim leaves the VPC only by being lost, as `LoseAddress` says: no write, collection or
      release of another claim takes it. */
  lemma ClaimedAddressStays(s: State, e: Event, name: Name)
    requires Inv(s) && Enabled(s, e) && Live(s, name) && ClaimOf(s, name).ip in s.leased
    requires e != LoseAddress(name)
    ensures ClaimOf(s, name).ip in Next(s, e).leased
  {
    hide Agrees, Agreeing, Versioned;
  }

  lemma Extend(s: State, run: seq<Event>, e: Event)
    requires IsRun(s, run) && Enabled(After(s, run), e)
    ensures IsRun(s, run + [e]) && After(s, run + [e]) == Next(After(s, run), e)
  {
    assert (run + [e])[..|run + [e]| - 1] == run;
  }

  predicate Step(s: State, e: Event, s': State) {
    Enabled(s, e) && Next(s, e) == s'
  }

  lemma FiveSteps(s: State, a: Event, s1: State, b: Event, s2: State, c: Event, s3: State, d: Event, s4: State,
                  e: Event, s5: State)
    requires Step(s, a, s1) && Step(s1, b, s2) && Step(s2, c, s3) && Step(s3, d, s4) && Step(s4, e, s5)
    ensures IsRun(s, [a, b, c, d, e]) && After(s, [a, b, c, d, e]) == s5
  {
    hide Enabled, Next;
    assert [] + [a] == [a] && [a] + [b] == [a, b] && [a, b] + [c] == [a, b, c];
    assert [a, b, c] + [d] == [a, b, c, d] && [a, b, c, d] + [e] == [a, b, c, d, e];
    Extend(s, [], a);
    Extend(s, [a], b);
    Extend(s, [a, b], c);
    Extend(s, [a, b, c], d);
    Extend(s, [a, b, c, d], e);
  }

  lemma Detaching(s: State, name: Name, w: nat) returns (s1: State, s2: State)
    requires Live(s, name) && w !in s.work && ClaimOf(s, name).name == name && !ClaimOf(s, name).deleting
    ensures Step(s, Read(w, name, ToDetach), s1) && Step(s1, Write(w), s2)
    ensures s2 == s.(objects := s.objects[s.claims[name] := Detached(ClaimOf(s, name), s.next)], next := s.next + 1)
  {
    s1 := Next(s, Read(w, name, ToDetach));
    s2 := Next(s1, Write(w));
    assert s1.work - {w} == s.work;
  }

  lemma Collecting(s: State, name: Name, w: nat) returns (s1: State, s2: State, s3: State)
    requires Live(s, name) && w !in s.work && ClaimOf(s, name).name == name && ClaimOf(s, name).finalizers == []
    requires name !in s.running
    ensures Step(s, Delete(name), s1) && Step(s1, Clear(w, s.claims[name]), s2) && Step(s2, Release(w), s3)
    ensures s3.leased == s.leased - {ClaimOf(s, name).ip} && s3.objects == s.objects - {s.claims[name]}
    ensures s3.claims == s.claims - {name}
  {
    s1 := Next(s, Delete(name));
    s2 := Next(s1, Clear(w, s.claims[name]));
    s3 := Next(s2, Release(w));
  }

  /** Detach, delete and release get rid of any claim whose pod does not run, and of its address, whoever leases it:
      this is why the VPC must not reissue an address that a claim still names. */
  lemma CollectingTakesTheAddress(s: State, name: Name, w: nat)
    requires Live(s, name) && w !in s.work && ClaimOf(s, name).name == name && !ClaimOf(s, name).deleting
    requires name !in s.running
    ensures var run := [Read(w, name, ToDetach), Write(w), Delete(name), Clear(w, s.claims[name]), Release(w)];
            && IsRun(s, run)
            && var s' := After(s, run);
            && s'.claims == s.claims - {name} && s'.objects == s.objects - {s.claims[name]}
            && s'.leased == s.leased - {ClaimOf(s, name).ip}
  {
    var s1, s2 := Detaching(s, name, w);
    var s3, s4, s5 := Collecting(s2, name, w);
    hide Enabled, Next, Step, Detached;
    FiveSteps(s, Read(w, name, ToDetach), s1, Write(w), s2, Delete(name), s3, Clear(w, s.claims[name]), s4,
              Release(w), s5);
  }
}
