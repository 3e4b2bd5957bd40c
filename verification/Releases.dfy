/** What releasing a pod's address does, once and twice, whatever answers the release meets. */
module Releases {
  import opened PodNetworks
  import opened Protocol
  import opened Exclusivity
  import opened AllocatorRuns

  /** How a release of the CNI plugin goes: ipamd does not answer; ipamd handles it, and finds a claim with the pod's
      name or not, and its cooldown write and the fallback delete end like this; or there is no ipamd and the plugin
      deletes the address in the VPC. */
  datatype Via = Unreachable | Ipamd(found: bool, ok: bool, outcome: Outcome, replied: bool) | Vpc(outcome: Outcome)

  /** The plugin sees an error. */
  predicate Fails(v: Via) {
    v.Unreachable? || (v.Ipamd? && !v.replied) || (v.Vpc? && v.outcome.Failed?)
  }

  predicate Claims(s: State, ns: string, name: string, ip: string) {
    Claim(ns, name) in s.held && s.held[Claim(ns, name)].pn.vpcIp == ip
  }

  /** The address is deleted in the VPC when the cooldown write fails. */
  function Dropped(t: nat, needed: bool, outcome: Outcome): seq<Event> {
    if needed then [Drop(t, outcome)] else []
  }

  /** cooldownIP: the pod was given the address; or it is cooling already; or a claim names it; or none of these. */
  function CooldownSteps(s: State, node: string, t: nat, pn: PodNetwork, ns: string, name: string, ok: bool,
                         outcome: Outcome): seq<Event>
  {
    var key := ReservedKey(pn);
    if Given(node, key) in s.held then [Release(t, node, key), Retire(t, ok)] + Dropped(t, !ok, outcome)
    else if Cooling(node, key) in s.held then [ReleaseAgain(node, key, ok, outcome)]
    else if Claims(s, ns, name, pn.vpcIp)
    then [ReleaseStatic(t, node, ns, name, false), Retire(t, ok)] + Dropped(t, !ok, outcome)
    else [ReleaseStray(node, pn, Find(s, pn.vpcIp), ok, outcome)]
  }

  /** The manager loop on a release: a pod whose name has a claim keeps its address. When it was a dynamic pod, nobody
      knows the address any more. */
  function LoopSteps(s: State, node: string, t: nat, pn: PodNetwork, ns: string, name: string, found: bool, ok: bool,
                     outcome: Outcome): seq<Event>
  {
    if !found then CooldownSteps(s, node, t, pn, ns, name, ok, outcome)
    else if Given(node, ReservedKey(pn)) in s.held then [ReleaseSkipped(node, ReservedKey(pn))]
    else []
  }

  /** deallocateSecondaryIP, wherever the address is. */
  function DirectSteps(s: State, node: string, pn: PodNetwork, ns: string, name: string, outcome: Outcome): seq<Event> {
    var key := ReservedKey(pn);
    if Given(node, key) in s.held then [ReleaseDirect(node, key, outcome)]
    else if Cooling(node, key) in s.held then [ReleaseAgain(node, key, false, outcome)]
    else if Claims(s, ns, name, pn.vpcIp) then [UnleaseClaim(ns, name, outcome)]
    else [ReleaseStray(node, pn, Find(s, pn.vpcIp), false, outcome)]
  }

  /** releasePodIp */
  function Steps(s: State, node: string, t: nat, pn: PodNetwork, ns: string, name: string, v: Via): seq<Event> {
    match v
    case Unreachable => []
    case Ipamd(found, ok, outcome, _) => LoopSteps(s, node, t, pn, ns, name, found, ok, outcome)
    case Vpc(outcome) => DirectSteps(s, node, pn, ns, name, outcome)
  }

  // ---------------------------------------------------------------- what a release comes to

  /** The cooldown set has the address. */
  predicate Written(v: Via) {
    v.Ipamd? && !v.found && v.ok
  }

  /** The VPC takes the address back. */
  predicate Deletes(v: Via) {
    (v.Ipamd? && !v.found && !v.ok && v.outcome.Deleted?) || (v.Vpc? && v.outcome.Deleted?)
  }

  /** Nothing happens to the address of a pod that holds it. */
  predicate Idle(v: Via) {
    v.Unreachable? || (v.Vpc? && v.outcome.Failed?)
  }

  /** The claim of a static pod is not found, and its address not deleted either: it cools, or counts as lost. */
  predicate Mistakes(v: Via) {
    v.Ipamd? && !v.found && (v.ok || !v.outcome.Deleted?)
  }

  function Rest(s: State, ip: string): State {
    s.(notBefore := s.notBefore[ip := s.clock + s.period])
  }

  /** The release of a pod that holds the address. */
  function FromHolder(s: State, node: string, pn: PodNetwork, v: Via): State
    requires Given(node, ReservedKey(pn)) in s.held
  {
    var p, q := Given(node, ReservedKey(pn)), Cooling(node, ReservedKey(pn));
    if Idle(v) then s
    else if Written(v) then
      Move(Rest(s, s.held[p].pn.vpcIp), p, q, Slot(Stamp(s.held[p].pn, s.clock), s.clock + s.period))
    else if v.Vpc? then Discard(s, p, v.outcome)
    else if v.found then Leak(s, p)
    else Discard(Rest(s, s.held[p].pn.vpcIp), p, v.outcome)
  }

  /** A release that repeats while the address is cooling. */
  function FromCooling(s: State, node: string, pn: PodNetwork, v: Via): State
    requires Cooling(node, ReservedKey(pn)) in s.held
  {
    var q := Cooling(node, ReservedKey(pn));
    if Written(v) then Move(Rest(s, s.held[q].pn.vpcIp), q, q, Slot(Stamp(s.held[q].pn, s.clock), s.clock + s.period))
    else if Deletes(v) then Unlease(s, s.held[q].pn.vpcIp, Deleted)
    else s
  }

  /** A release of an address that a claim names. */
  function FromClaim(s: State, node: string, ns: string, name: string, v: Via): State
    requires Claim(ns, name) in s.held
  {
    var pn := s.held[Claim(ns, name)].pn;
    if v.Vpc? then Unlease(s, pn.vpcIp, v.outcome)
    else if v.Unreachable? || v.found then s
    else if v.ok then
      var q, slot := Cooling(node, ReservedKey(pn)), Slot(Stamp(pn, s.clock), s.clock + s.period);
      Rest(s, pn.vpcIp).(held := s.held[q := slot])
    else if v.outcome.Deleted? then Rest(s, pn.vpcIp).(leased := s.leased - {pn.vpcIp})
    else Rest(s, pn.vpcIp).(leaked := s.leaked + {pn.vpcIp})
  }

  /** A release of an address that the pod lost before. */
  function FromNobody(s: State, node: string, pn: PodNetwork, v: Via): State {
    if Written(v) then
      Rest(s, pn.vpcIp).(
        held := s.held[Cooling(node, ReservedKey(pn)) := Slot(Stamp(pn, s.clock), s.clock + s.period)],
        leaked := s.leaked - {pn.vpcIp})
    else if Deletes(v) then s.(leased := s.leased - {pn.vpcIp}, leaked := s.leaked - {pn.vpcIp})
    else s
  }

  /** The state after a release. */
  function Released(s: State, node: string, pn: PodNetwork, ns: string, name: string, v: Via): State {
    var key := ReservedKey(pn);
    if Given(node, key) in s.held then FromHolder(s, node, pn, v)
    else if Cooling(node, key) in s.held then FromCooling(s, node, pn, v)
    else if Claims(s, ns, name, pn.vpcIp) then FromClaim(s, node, ns, name, v)
    else FromNobody(s, node, pn, v)
  }

  predicate Idler(s: State, t: nat) {
    t !in s.threads && Hand(t) !in s.held
  }

  lemma NoStep(s: State)
    ensures Path(s, [], s)
  {
  }

  lemma HolderCools(s: State, node: string, t: nat, key: string, ok: bool, outcome: Outcome) returns (s': State)
    requires Given(node, key) in s.held && Idler(s, t) && key == ReservedKey(s.held[Given(node, key)].pn)
    ensures Path(s, [Release(t, node, key), Retire(t, ok)] + Dropped(t, !ok, outcome), s')
    ensures var p := Given(node, key);
            var s1 := Rest(s, s.held[p].pn.vpcIp);
            s' == if ok then Move(s1, p, Cooling(node, key), Slot(Stamp(s.held[p].pn, s.clock), s.clock + s.period))
                  else Discard(s1, p, outcome)
  {
    var p, pn := Given(node, key), Stamp(s.held[Given(node, key)].pn, s.clock);
    var s1 := ReleaseNext(s, node, t, key);
    HandComesAndGoes(s, t, p, Slot(pn, 0), s1.threads[t]);
    s' := RetireSteps(s1, node, t, ok, outcome);
    hide Enabled, Next, Path;
    PathPrepend(s, Release(t, node, key), [Retire(t, ok)] + Dropped(t, !ok, outcome), s');
    assert [Release(t, node, key)] + ([Retire(t, ok)] + Dropped(t, !ok, outcome))
        == [Release(t, node, key), Retire(t, ok)] + Dropped(t, !ok, outcome);
  }

  lemma ReleaseNext(s: State, node: string, t: nat, key: string) returns (s1: State)
    requires Given(node, key) in s.held && Idler(s, t)
    ensures Enabled(s, Release(t, node, key)) && s1 == Next(s, Release(t, node, key))
    ensures var pn := Stamp(s.held[Given(node, key)].pn, s.clock);
            s1 == Rest(s, pn.vpcIp).(held := (s.held - {Given(node, key)})[Hand(t) := Slot(pn, 0)],
                                     threads := s.threads[t := Thread(node, Retiring(s.clock + s.period))])
  {
    hide NextOfClaim, NextOfHandOut, NextOfPlugin, MayClaim, MayHandOut, MayPlugin;
    s1 := Next(s, Release(t, node, key));
  }

  lemma StaticNext(s: State, node: string, t: nat, ns: string, name: string) returns (s1: State)
    requires Claim(ns, name) in s.held && Idler(s, t)
    ensures Enabled(s, ReleaseStatic(t, node, ns, name, false))
      && s1 == Next(s, ReleaseStatic(t, node, ns, name, false))
    ensures var pn := Stamp(s.held[Claim(ns, name)].pn, s.clock);
            s1 == Rest(s, pn.vpcIp).(held := s.held[Hand(t) := Slot(pn, 0)],
                                     threads := s.threads[t := Thread(node, Retiring(s.clock + s.period))])
  {
    hide NextOfMove, NextOfHandOut, NextOfPlugin, MayMove, MayHandOut, MayPlugin;
    s1 := Next(s, ReleaseStatic(t, node, ns, name, false));
  }

  lemma HandComesAndGoes(s: State, t: nat, p: Place, slot: Slot, thread: Thread)
    requires Idler(s, t)
    ensures (s.held - {p})[Hand(t) := slot] - {Hand(t)} == s.held - {p} && s.held[Hand(t) := slot] - {Hand(t)} == s.held
    ensures s.threads[t := thread] - {t} == s.threads
  {
  }

  /** putIpToCooldown with its fallback, as the last steps of goroutine `t`. */
  lemma RetireSteps(s: State, node: string, t: nat, ok: bool, outcome: Outcome) returns (s': State)
    requires t in s.threads && s.threads[t].node == node && PhaseOf(s, t).Retiring? && Hand(t) in s.held
    ensures Path(s, [Retire(t, ok)] + Dropped(t, !ok, outcome), s')
    ensures var pn, rest := InHand(s, t), s.held - {Hand(t)};
            s' == if ok then
                    s.(held := rest[Cooling(node, ReservedKey(pn)) := Slot(pn, PhaseOf(s, t).over)],
                       threads := s.threads - {t})
                  else if outcome.Deleted? then
                    s.(held := rest, leased := s.leased - {pn.vpcIp}, threads := s.threads - {t})
                  else s.(held := rest, leaked := s.leaked + {pn.vpcIp}, threads := s.threads - {t})
  {
    var s1 := RetireNext(s, node, t, ok);
    if ok {
      hide Enabled, Next;
      Path1(s, Retire(t, ok));
      assert [Retire(t, ok)] + Dropped(t, !ok, outcome) == [Retire(t, ok)];
      return s1;
    }
    s' := DropNext(s1, t, outcome);
    assert s1.threads - {t} == s.threads - {t};
    hide Enabled, Next;
    Path2(s, Retire(t, ok), Drop(t, outcome));
    assert [Retire(t, ok)] + Dropped(t, !ok, outcome) == [Retire(t, ok), Drop(t, outcome)];
  }

  lemma RetireNext(s: State, node: string, t: nat, ok: bool) returns (s': State)
    requires t in s.threads && s.threads[t].node == node && PhaseOf(s, t).Retiring? && Hand(t) in s.held
    ensures Enabled(s, Retire(t, ok)) && s' == Next(s, Retire(t, ok))
    ensures s' == if !ok then To(s, t, Dropping) else
                    s.(held := (s.held - {Hand(t)})[Cooling(node, ReservedKey(InHand(s, t))) :=
                                                      Slot(InHand(s, t), PhaseOf(s, t).over)],
                       threads := s.threads - {t})
  {
    hide NextOfClaim, NextOfHandOut, NextOfPlugin, MayClaim, MayHandOut, MayPlugin;
    s' := Next(s, Retire(t, ok));
  }

  lemma DropNext(s: State, t: nat, outcome: Outcome) returns (s': State)
    requires t in s.threads && PhaseOf(s, t).Dropping? && Hand(t) in s.held
    ensures Enabled(s, Drop(t, outcome)) && s' == Next(s, Drop(t, outcome))
    ensures var rest, ip := s.held - {Hand(t)}, InHand(s, t).vpcIp;
            s' == if outcome.Deleted? then s.(held := rest, leased := s.leased - {ip}, threads := s.threads - {t})
                  else s.(held := rest, leaked := s.leaked + {ip}, threads := s.threads - {t})
  {
    hide NextOfClaim, NextOfHandOut, NextOfPlugin, MayClaim, MayHandOut, MayPlugin;
    s' := Next(s, Drop(t, outcome));
  }

  /** The record that the pod was given has the key under which it was given. */
  predicate KeyFits(s: State, node: string, pn: PodNetwork) {
    var p := Given(node, ReservedKey(pn));
    p in s.held ==> ReservedKey(s.held[p].pn) == ReservedKey(pn)
  }

  predicate SameRecord(a: PodNetwork, b: PodNetwork) {
    Stamp(a, 0) == Stamp(b, 0)
  }

  /** The record in the pod's hands is the one that ipamd gave it, wherever the address is now. */
  predicate Recorded(s: State, node: string, pn: PodNetwork, ns: string, name: string) {
    var p, q, c := Given(node, ReservedKey(pn)), Cooling(node, ReservedKey(pn)), Claim(ns, name);
    && (p in s.held ==> s.held[p].pn == pn)
    && (q in s.held ==> SameRecord(s.held[q].pn, pn))
    && (Claims(s, ns, name, pn.vpcIp) ==> SameRecord(s.held[c].pn, pn))
  }

  /** The events of a release lead to that state. */
  lemma StepsLeadToReleased(s: State, node: string, t: nat, pn: PodNetwork, ns: string, name: string, v: Via)
    requires WellFormed(pn) && Idler(s, t) && KeyFits(s, node, pn)
    ensures Path(s, Steps(s, node, t, pn, ns, name, v), Released(s, node, pn, ns, name, v))
  {
    var key := ReservedKey(pn);
    NoStep(s);
    if Given(node, key) in s.held { HolderSteps(s, node, t, pn, ns, name, v); }
    else if Cooling(node, key) in s.held { CoolingSteps(s, node, t, pn, ns, name, v); }
    else if Claims(s, ns, name, pn.vpcIp) { ClaimSteps(s, node, t, pn, ns, name, v); }
    else { NobodySteps(s, node, t, pn, ns, name, v); }
    hide Path, Steps;
  }

  lemma HolderSteps(s: State, node: string, t: nat, pn: PodNetwork, ns: string, name: string, v: Via)
    requires Idler(s, t) && KeyFits(s, node, pn) && Given(node, ReservedKey(pn)) in s.held
    ensures Path(s, Steps(s, node, t, pn, ns, name, v), FromHolder(s, node, pn, v))
  {
    hide Path, ReservedKey, WellFormed, Steps, FromHolder;
    match v
    case Unreachable => HolderUnreached(s, node, t, pn, ns, name);
    case Vpc(outcome) => HolderByVpc(s, node, t, pn, ns, name, outcome);
    case Ipamd(found, ok, outcome, replied) =>
      if found { HolderSkipped(s, node, t, pn, ns, name, v); } else { HolderByIpamd(s, node, t, pn, ns, name, v); }
  }

  lemma HolderUnreached(s: State, node: string, t: nat, pn: PodNetwork, ns: string, name: string)
    requires Given(node, ReservedKey(pn)) in s.held
    ensures Path(s, Steps(s, node, t, pn, ns, name, Unreachable), FromHolder(s, node, pn, Unreachable))
  {
    NoStep(s);
    hide Path, ReservedKey;
  }

  lemma HolderByVpc(s: State, node: string, t: nat, pn: PodNetwork, ns: string, name: string, outcome: Outcome)
    requires Given(node, ReservedKey(pn)) in s.held
    ensures Path(s, Steps(s, node, t, pn, ns, name, Vpc(outcome)), FromHolder(s, node, pn, Vpc(outcome)))
  {
    hide Path, ReservedKey, Discard, Move, Leak, Stamp, Rest;
    HolderDirect(s, node, ReservedKey(pn), outcome);
  }

  lemma HolderSkipped(s: State, node: string, t: nat, pn: PodNetwork, ns: string, name: string, v: Via)
    requires Given(node, ReservedKey(pn)) in s.held && v.Ipamd? && v.found
    ensures Path(s, Steps(s, node, t, pn, ns, name, v), FromHolder(s, node, pn, v))
  {
    hide Path, ReservedKey, Discard, Move, Leak, Stamp, Rest, Enabled, Next;
    SkippedNext(s, node, ReservedKey(pn));
    Path1(s, ReleaseSkipped(node, ReservedKey(pn)));
  }

  lemma HolderByIpamd(s: State, node: string, t: nat, pn: PodNetwork, ns: string, name: string, v: Via)
    requires Given(node, ReservedKey(pn)) in s.held && Idler(s, t) && v.Ipamd? && !v.found
    requires ReservedKey(s.held[Given(node, ReservedKey(pn))].pn) == ReservedKey(pn)
    ensures Path(s, Steps(s, node, t, pn, ns, name, v), FromHolder(s, node, pn, v))
  {
    hide Path, ReservedKey, Discard, Move, Leak, Stamp, Rest;
    var s' := HolderCools(s, node, t, ReservedKey(pn), v.ok, v.outcome);
  }

  lemma HolderDirect(s: State, node: string, key: string, outcome: Outcome)
    requires Given(node, key) in s.held
    ensures Path(s, [ReleaseDirect(node, key, outcome)],
                 if outcome.Failed? then s else Discard(s, Given(node, key), outcome))
  {
    var e := ReleaseDirect(node, key, outcome);
    DirectMay(s, node, key, outcome);
    ReleaseDirectNext(s, e);
    hide Enabled, Next, Path, Discard;
    Path1(s, e);
  }

  lemma DirectMay(s: State, node: string, key: string, outcome: Outcome)
    ensures Enabled(s, ReleaseDirect(node, key, outcome)) <==> Given(node, key) in s.held
  {
  }

  lemma SkippedNext(s: State, node: string, key: string)
    requires Given(node, key) in s.held
    ensures Enabled(s, ReleaseSkipped(node, key)) && Next(s, ReleaseSkipped(node, key)) == Leak(s, Given(node, key))
  {
  }

  lemma AgainMay(s: State, node: string, key: string, ok: bool, outcome: Outcome)
    ensures Enabled(s, ReleaseAgain(node, key, ok, outcome)) <==> Cooling(node, key) in s.held
  {
  }

  lemma AgainPath(s: State, node: string, key: string, ok: bool, outcome: Outcome)
    requires Cooling(node, key) in s.held
    ensures var q := Cooling(node, key);
            var slot := Slot(Stamp(s.held[q].pn, s.clock), s.clock + s.period);
            Path(s, [ReleaseAgain(node, key, ok, outcome)],
                 if ok then Move(Rest(s, s.held[q].pn.vpcIp), q, q, slot)
                 else if outcome.Deleted? then Unlease(s, s.held[q].pn.vpcIp, Deleted) else s)
  {
    var e := ReleaseAgain(node, key, ok, outcome);
    AgainMay(s, node, key, ok, outcome);
    hide Enabled, Next, Path, Move, Unlease, Rest, Stamp;
    AgainIs(s, e);
    Path1(s, e);
  }

  lemma AgainIs(s: State, e: Event)
    requires e.ReleaseAgain? && Enabled(s, e) && Cooling(e.node, e.key) in s.held
    ensures var q := Cooling(e.node, e.key);
            var slot := Slot(Stamp(s.held[q].pn, s.clock), s.clock + s.period);
            Next(s, e) == if e.ok then Move(Rest(s, s.held[q].pn.vpcIp), q, q, slot)
                          else if e.outcome.Deleted? then Unlease(s, s.held[q].pn.vpcIp, Deleted) else s
  {
    ReleaseAgainNext(s, e);
    hide Enabled, Next;
  }

  lemma CoolingSteps(s: State, node: string, t: nat, pn: PodNetwork, ns: string, name: string, v: Via)
    requires Given(node, ReservedKey(pn)) !in s.held && Cooling(node, ReservedKey(pn)) in s.held
    ensures Path(s, Steps(s, node, t, pn, ns, name, v), FromCooling(s, node, pn, v))
  {
    hide Path, Enabled, Next, ReservedKey, Move, Unlease, Stamp, Rest;
    NoStep(s);
    if v.Vpc? || (v.Ipamd? && !v.found) { AgainPath(s, node, ReservedKey(pn), v.Ipamd? && v.ok, v.outcome); }
  }

  lemma UnleaseNext(s: State, ns: string, name: string, outcome: Outcome)
    requires Claim(ns, name) in s.held
    ensures var e := UnleaseClaim(ns, name, outcome);
            Enabled(s, e) && Next(s, e) == Unlease(s, s.held[Claim(ns, name)].pn.vpcIp, outcome)
  {
  }

  /** A static pod whose claim was not found is released like a dynamic one. */
  lemma MissedClaimSteps(s: State, node: string, t: nat, ns: string, name: string, v: Via)
    requires Idler(s, t) && Claim(ns, name) in s.held && v.Ipamd? && !v.found
    ensures Path(s, [ReleaseStatic(t, node, ns, name, false), Retire(t, v.ok)] + Dropped(t, !v.ok, v.outcome),
                 FromClaim(s, node, ns, name, v))
  {
    hide Path, Enabled, Next, FromClaim;
    var e, rest := ReleaseStatic(t, node, ns, name, false), [Retire(t, v.ok)] + Dropped(t, !v.ok, v.outcome);
    var s1 := StaticNext(s, node, t, ns, name);
    var s' := RetireSteps(s1, node, t, v.ok, v.outcome);
    MissedClaimIs(s, node, t, ns, name, v, s1, s');
    PathPrepend(s, e, rest, s');
    assert [e] + rest == [e, Retire(t, v.ok)] + Dropped(t, !v.ok, v.outcome);
  }

  lemma MissedClaimIs(s: State, node: string, t: nat, ns: string, name: string, v: Via, s1: State, s': State)
    requires Idler(s, t) && Claim(ns, name) in s.held && v.Ipamd? && !v.found
    requires var pn, over := Stamp(s.held[Claim(ns, name)].pn, s.clock), s.clock + s.period;
             && s1 == Rest(s, pn.vpcIp).(held := s.held[Hand(t) := Slot(pn, 0)],
                                         threads := s.threads[t := Thread(node, Retiring(over))])
             && var rest := s1.held - {Hand(t)};
                s' == if v.ok then
                        s1.(held := rest[Cooling(node, ReservedKey(pn)) := Slot(pn, over)], threads := s1.threads - {t})
                      else if v.outcome.Deleted? then
                        s1.(held := rest, leased := s1.leased - {pn.vpcIp}, threads := s1.threads - {t})
                      else s1.(held := rest, leaked := s1.leaked + {pn.vpcIp}, threads := s1.threads - {t})
    ensures s' == FromClaim(s, node, ns, name, v)
  {
    HandComesAndGoes(s, t, Hand(t), s1.held[Hand(t)], s1.threads[t]);
    assert ReservedKey(Stamp(s.held[Claim(ns, name)].pn, s.clock)) == ReservedKey(s.held[Claim(ns, name)].pn);
    hide ReservedKey;
  }

  lemma ClaimSteps(s: State, node: string, t: nat, pn: PodNetwork, ns: string, name: string, v: Via)
    requires Idler(s, t) && Claims(s, ns, name, pn.vpcIp)
    requires Given(node, ReservedKey(pn)) !in s.held && Cooling(node, ReservedKey(pn)) !in s.held
    ensures Path(s, Steps(s, node, t, pn, ns, name, v), FromClaim(s, node, ns, name, v))
  {
    hide Path, Enabled, Next;
    NoStep(s);
    match v
    case Unreachable =>
    case Vpc(outcome) =>
      UnleaseNext(s, ns, name, outcome);
      Path1(s, UnleaseClaim(ns, name, outcome));
    case Ipamd(found, ok, outcome, _) => if !found { MissedClaimSteps(s, node, t, ns, name, v); }
  }

  lemma StrayMay(s: State, node: string, pn: PodNetwork, ok: bool, outcome: Outcome)
    requires WellFormed(pn) && Given(node, ReservedKey(pn)) !in s.held && Cooling(node, ReservedKey(pn)) !in s.held
    ensures var e := ReleaseStray(node, pn, Find(s, pn.vpcIp), ok, outcome);
            Enabled(s, e) && Next(s, e) ==
            if ok then
              Rest(s, pn.vpcIp).(
                held := s.held[Cooling(node, ReservedKey(pn)) := Slot(Stamp(pn, s.clock), s.clock + s.period)],
                leaked := s.leaked - {pn.vpcIp})
            else if outcome.Deleted? then s.(leased := s.leased - {pn.vpcIp}, leaked := s.leaked - {pn.vpcIp})
            else s
  {
    hide NextOfClaim, NextOfHandOut, NextOfMove, MayClaim, MayHandOut, MayMove, WellFormed, Find, ReservedKey;
  }

  lemma NobodySteps(s: State, node: string, t: nat, pn: PodNetwork, ns: string, name: string, v: Via)
    requires WellFormed(pn) && !Claims(s, ns, name, pn.vpcIp)
    requires Given(node, ReservedKey(pn)) !in s.held && Cooling(node, ReservedKey(pn)) !in s.held
    ensures Path(s, Steps(s, node, t, pn, ns, name, v), FromNobody(s, node, pn, v))
  {
    hide Path, Enabled, Next, ReservedKey, Find;
    NoStep(s);
    if v.Vpc? || (v.Ipamd? && !v.found) {
      StrayMay(s, node, pn, v.Ipamd? && v.ok, v.outcome);
      Path1(s, ReleaseStray(node, pn, Find(s, pn.vpcIp), v.Ipamd? && v.ok, v.outcome));
    }
  }

  /** A release does not change the clock, and the record in the pod's hands stays the right one. */
  lemma ReleasedKeepsRecord(s: State, node: string, pn: PodNetwork, ns: string, name: string, v: Via)
    requires Recorded(s, node, pn, ns, name)
    ensures var s' := Released(s, node, pn, ns, name, v);
            s'.clock == s.clock && s'.period == s.period && Recorded(s', node, pn, ns, name)
  {
    hide ReservedKey, FromHolder, FromCooling, FromClaim, FromNobody, Recorded, Claims;
    var key := ReservedKey(pn);
    if Given(node, key) in s.held { HolderKeepsRecord(s, node, pn, ns, name, v); }
    else if Cooling(node, key) in s.held { CoolingKeepsRecord(s, node, pn, ns, name, v); }
    else if Claims(s, ns, name, pn.vpcIp) { ClaimKeepsRecord(s, node, pn, ns, name, v); }
    else { NobodyKeepsRecord(s, node, pn, ns, name, v); }
  }

  lemma HolderKeepsRecord(s: State, node: string, pn: PodNetwork, ns: string, name: string, v: Via)
    requires Recorded(s, node, pn, ns, name) && Given(node, ReservedKey(pn)) in s.held
    ensures var s' := FromHolder(s, node, pn, v);
            s'.clock == s.clock && s'.period == s.period && Recorded(s', node, pn, ns, name)
  {
    hide ReservedKey;
    var s', p := FromHolder(s, node, pn, v), Given(node, ReservedKey(pn));
    assert p in s'.held ==> s' == s;
    assert Claims(s', ns, name, pn.vpcIp) ==> Claims(s, ns, name, pn.vpcIp);
  }

  lemma CoolingKeepsRecord(s: State, node: string, pn: PodNetwork, ns: string, name: string, v: Via)
    requires Recorded(s, node, pn, ns, name) && Cooling(node, ReservedKey(pn)) in s.held
    ensures var s' := FromCooling(s, node, pn, v);
            s'.clock == s.clock && s'.period == s.period && Recorded(s', node, pn, ns, name)
  {
    hide ReservedKey;
  }

  lemma ClaimKeepsRecord(s: State, node: string, pn: PodNetwork, ns: string, name: string, v: Via)
    requires Recorded(s, node, pn, ns, name) && Claims(s, ns, name, pn.vpcIp)
    ensures var s' := FromClaim(s, node, ns, name, v);
            s'.clock == s.clock && s'.period == s.period && Recorded(s', node, pn, ns, name)
  {
    hide ReservedKey;
  }

  lemma NobodyKeepsRecord(s: State, node: string, pn: PodNetwork, ns: string, name: string, v: Via)
    requires Recorded(s, node, pn, ns, name)
    ensures var s' := FromNobody(s, node, pn, v);
            s'.clock == s.clock && s'.period == s.period && Recorded(s', node, pn, ns, name)
  {
    hide ReservedKey;
  }

  // ---------------------------------------------------------------- releasing once

  /** Only one place on a node can have the key of a record, and it has its address. */
  lemma KeyTells(s: State, p: Place, pn: PodNetwork)
    requires Core(s) && WellFormed(pn) && p in s.held && (p.Given? || p.Cooling?) && p.key == ReservedKey(pn)
    ensures s.held[p].pn.vpcIp == pn.vpcIp
  {
    ReservedKeyInjective(s.held[p].pn, pn);
  }

  /** A release by the holder keeps exclusivity and conservation, whatever the answers. */
  lemma HolderReleaseIsSafe(s: State, node: string, pn: PodNetwork, v: Via)
    requires Core(s) && WellFormed(pn) && Given(node, ReservedKey(pn)) in s.held
    ensures Core(FromHolder(s, node, pn, v))
  {
    hide Core, Move, Leak, Discard, ReservedKey, WellFormed;
    var p, q := Given(node, ReservedKey(pn)), Cooling(node, ReservedKey(pn));
    var s1 := Rest(s, s.held[p].pn.vpcIp);
    CoreOfSameBooks(s, s1);
    if Idle(v) {
    } else if Written(v) {
      HolderMaySet(s1, node, pn);
    } else if v.Vpc? {
      DiscardKeepsCore(s, p, v.outcome);
    } else if v.found {
      LeakKeepsCore(s, p);
    } else {
      DiscardKeepsCore(s1, p, v.outcome);
    }
  }

  lemma HolderMaySet(s: State, node: string, pn: PodNetwork)
    requires Core(s) && WellFormed(pn) && Given(node, ReservedKey(pn)) in s.held
    ensures var p, q := Given(node, ReservedKey(pn)), Cooling(node, ReservedKey(pn));
            Core(Move(s, p, q, Slot(Stamp(s.held[p].pn, s.clock), s.clock + s.period)))
  {
    var p, q := Given(node, ReservedKey(pn)), Cooling(node, ReservedKey(pn));
    KeyTells(s, p, pn);
    if q in s.held { KeyTells(s, q, pn); }
    MoveKeepsCore(s, p, q, Slot(Stamp(s.held[p].pn, s.clock), s.clock + s.period));
  }

  /** A release of a static pod keeps them exactly when the claim lookup finds the claim, or the cooldown write fails
      and the address is deleted instead. */
  lemma StaticReleaseIsSafeIff(s: State, node: string, pn: PodNetwork, ns: string, name: string, v: Via)
    requires Core(s) && Claims(s, ns, name, pn.vpcIp)
    ensures Core(FromClaim(s, node, ns, name, v)) <==>
            !Mistakes(v)
  {
    var s', p := FromClaim(s, node, ns, name, v), Claim(ns, name);
    if v.Vpc? || (v.Ipamd? && !v.found && !v.ok && v.outcome.Deleted?) {
      UnleaseKeepsCore(s, p, v.outcome);
      CoreOfSameBooks(Unlease(s, s.held[p].pn.vpcIp, v.outcome), s');
    } else if v.Ipamd? && !v.found {
      if v.ok { assert s'.held[p].pn.vpcIp == s'.held[Cooling(node, ReservedKey(s.held[p].pn))].pn.vpcIp; }
      else { assert s'.held[p].pn.vpcIp in s'.leaked; }
    }
  }

  // ---------------------------------------------------------------- releasing twice

  /** The plugin releases twice on some of its failing exits; time passes in between. */
  function Twice(s: State, node: string, pn: PodNetwork, ns: string, name: string, v1: Via, now: int, v2: Via): State {
    Released(Released(s, node, pn, ns, name, v1).(clock := now), node, pn, ns, name, v2)
  }

  lemma NoClaimOfHeld(s: State, node: string, pn: PodNetwork, ns: string, name: string)
    requires Core(s) && WellFormed(pn) && Given(node, ReservedKey(pn)) in s.held
    ensures !Claims(s, ns, name, pn.vpcIp) && Cooling(node, ReservedKey(pn)) !in s.held
    ensures s.held[Given(node, ReservedKey(pn))].pn.vpcIp == pn.vpcIp
    ensures pn.vpcIp in s.leased && pn.vpcIp !in s.leaked
    ensures forall p | p in s.held && s.held[p].pn.vpcIp == pn.vpcIp :: p == Given(node, ReservedKey(pn))
  {
    KeyTells(s, Given(node, ReservedKey(pn)), pn);
    if Cooling(node, ReservedKey(pn)) in s.held { KeyTells(s, Cooling(node, ReservedKey(pn)), pn); }
  }

  /** Where the first release leaves the address of a pod that holds it. */
  lemma AfterFirst(s: State, node: string, pn: PodNetwork, ns: string, name: string, v: Via)
    requires Core(s) && WellFormed(pn) && Given(node, ReservedKey(pn)) in s.held
    ensures var s1 := Released(s, node, pn, ns, name, v);
            var p, q := Given(node, ReservedKey(pn)), Cooling(node, ReservedKey(pn));
            && s1 == FromHolder(s, node, pn, v) && !Claims(s1, ns, name, pn.vpcIp)
            && (p in s1.held <==> Idle(v)) && (q in s1.held <==> Written(v))
            && (!Idle(v) && !Written(v) ==> forall r | r in s1.held :: s1.held[r].pn.vpcIp != pn.vpcIp)
            && (pn.vpcIp in s1.leased <==> !Deletes(v))
            && (pn.vpcIp in s1.leaked <==> !Idle(v) && !Written(v) && !Deletes(v))
  {
    NoClaimOfHeld(s, node, pn, ns, name);
    hide Core, ReservedKey, WellFormed;
    var p, q := Given(node, ReservedKey(pn)), Cooling(node, ReservedKey(pn));
    assert s.held[p].pn.vpcIp == pn.vpcIp;
    hide Claims;
    assert Released(s, node, pn, ns, name, v) == FromHolder(s, node, pn, v);
    if Idle(v) {
    } else if Written(v) {
      AfterWritten(s, node, pn, ns, name);
    } else {
      AfterLost(s, node, pn, ns, name, v);
    }
  }

  lemma AfterWritten(s: State, node: string, pn: PodNetwork, ns: string, name: string)
    requires Given(node, ReservedKey(pn)) in s.held && s.held[Given(node, ReservedKey(pn))].pn.vpcIp == pn.vpcIp
    requires !Claims(s, ns, name, pn.vpcIp)
    ensures var p, q := Given(node, ReservedKey(pn)), Cooling(node, ReservedKey(pn));
            var s1 := Move(Rest(s, pn.vpcIp), p, q, Slot(Stamp(s.held[p].pn, s.clock), s.clock + s.period));
            !Claims(s1, ns, name, pn.vpcIp) && p !in s1.held && q in s1.held
            && s1.leased == s.leased && s1.leaked == s.leaked
  {
    hide ReservedKey;
  }

  lemma AfterLost(s: State, node: string, pn: PodNetwork, ns: string, name: string, v: Via)
    requires Given(node, ReservedKey(pn)) in s.held && s.held[Given(node, ReservedKey(pn))].pn.vpcIp == pn.vpcIp
    requires !Claims(s, ns, name, pn.vpcIp) && Cooling(node, ReservedKey(pn)) !in s.held
    requires forall r | r in s.held && s.held[r].pn.vpcIp == pn.vpcIp :: r == Given(node, ReservedKey(pn))
    requires pn.vpcIp in s.leased && pn.vpcIp !in s.leaked && !Idle(v) && !Written(v)
    ensures var s1, p, q := FromHolder(s, node, pn, v), Given(node, ReservedKey(pn)), Cooling(node, ReservedKey(pn));
            && !Claims(s1, ns, name, pn.vpcIp) && p !in s1.held && q !in s1.held
            && (forall r | r in s1.held :: s1.held[r].pn.vpcIp != pn.vpcIp)
            && (pn.vpcIp in s1.leased <==> !Deletes(v)) && (pn.vpcIp in s1.leaked <==> !Deletes(v))
  {
    hide ReservedKey;
    var s1, p := FromHolder(s, node, pn, v), Given(node, ReservedKey(pn));
    assert s1.held == s.held - {p};
  }

  lemma StrayIs(s: State, node: string, pn: PodNetwork, v: Via)
    requires Core(s) && WellFormed(pn) && (Written(v) || Deletes(v))
    requires Given(node, ReservedKey(pn)) !in s.held && Cooling(node, ReservedKey(pn)) !in s.held
    requires forall r | r in s.held :: s.held[r].pn.vpcIp != pn.vpcIp
    ensures Core(FromNobody(s, node, pn, v)) <==> pn.vpcIp in s.leaked || !Written(v)
  {
    var at := if pn.vpcIp in s.leaked then Forgotten else Gone;
    assert Find(s, pn.vpcIp) == at;
    hide Core, ReservedKey, WellFormed, Find;
    var e := ReleaseStray(node, pn, at, Written(v), Deleted);
    StrayMay(s, node, pn, Written(v), Deleted);
    hide Enabled, Next;
    assert Next(s, e) == FromNobody(s, node, pn, v);
    StrayReleaseIsSafeIff(s, e);
  }

  lemma CoolingReleaseIsSafeIff(s: State, node: string, pn: PodNetwork, v: Via)
    requires Core(s) && WellFormed(pn) && Cooling(node, ReservedKey(pn)) in s.held
    ensures Core(FromCooling(s, node, pn, v)) <==> !Deletes(v)
  {
    var q, s' := Cooling(node, ReservedKey(pn)), FromCooling(s, node, pn, v);
    if Written(v) {
      var slot := Slot(Stamp(s.held[q].pn, s.clock), s.clock + s.period);
      MoveKeepsCore(s, q, q, slot);
      CoreOfSameBooks(Move(s, q, q, slot), s');
    } else if Deletes(v) {
      assert s'.held[q].pn.vpcIp !in s'.leased;
    }
  }

  /** RELEASING TWICE. A second release of the address that a pod held keeps exclusivity and conservation exactly unless
      the address of an entry in the cooldown set is deleted in the VPC, or an address that was deleted there enters the
      cooldown set. */
  lemma DoubleReleaseIsSafeIff(s: State, node: string, pn: PodNetwork, ns: string, name: string, v1: Via, now: int,
      v2: Via)
    requires Core(s) && WellFormed(pn) && Given(node, ReservedKey(pn)) in s.held
    ensures Core(Twice(s, node, pn, ns, name, v1, now, v2)) <==>
            !(Written(v1) && Deletes(v2)) && !(Deletes(v1) && Written(v2))
  {
    HolderReleaseIsSafe(s, node, pn, v1);
    AfterFirst(s, node, pn, ns, name, v1);
    var s0 := Released(s, node, pn, ns, name, v1);
    var s1 := s0.(clock := now);
    CoreOfSameBooks(s0, s1);
    assert !Claims(s1, ns, name, pn.vpcIp);
    hide Core, FromHolder, FromCooling, FromNobody, ReservedKey;
    if Idle(v1) { HolderReleaseIsSafe(s1, node, pn, v2); }
    else if Written(v1) { CoolingReleaseIsSafeIff(s1, node, pn, v2); }
    else if Written(v2) || Deletes(v2) { StrayIs(s1, node, pn, v2); }
    else { NobodyIdles(s1, node, pn, v2); }
  }

  /** A claim and a pod do not have the same address. */
  lemma NoGivenOfClaim(s: State, node: string, pn: PodNetwork, ns: string, name: string)
    requires Core(s) && WellFormed(pn) && Claims(s, ns, name, pn.vpcIp)
    ensures Given(node, ReservedKey(pn)) !in s.held && Cooling(node, ReservedKey(pn)) !in s.held
  {
    if Given(node, ReservedKey(pn)) in s.held { KeyTells(s, Given(node, ReservedKey(pn)), pn); }
    if Cooling(node, ReservedKey(pn)) in s.held { KeyTells(s, Cooling(node, ReservedKey(pn)), pn); }
  }

  /** A release of a static pod leaves the claim its address. */
  lemma ClaimStaysNamed(s: State, node: string, pn: PodNetwork, ns: string, name: string, v: Via)
    requires Claims(s, ns, name, pn.vpcIp) && Given(node, ReservedKey(pn)) !in s.held
    ensures Claims(FromClaim(s, node, ns, name, v), ns, name, pn.vpcIp)
    ensures Given(node, ReservedKey(pn)) !in FromClaim(s, node, ns, name, v).held
    ensures Claims(Released(s, node, pn, ns, name, v), ns, name, pn.vpcIp)
    ensures Given(node, ReservedKey(pn)) !in Released(s, node, pn, ns, name, v).held
  {
    hide ReservedKey;
  }

  /** The claim has its lease until a release deletes the address. */
  lemma ClaimLease(s: State, node: string, pn: PodNetwork, ns: string, name: string, v: Via)
    requires Claims(s, ns, name, pn.vpcIp) && Given(node, ReservedKey(pn)) !in s.held
    requires Cooling(node, ReservedKey(pn)) in s.held ==> s.held[Cooling(node, ReservedKey(pn))].pn.vpcIp == pn.vpcIp
    ensures pn.vpcIp in Released(s, node, pn, ns, name, v).leased <==> pn.vpcIp in s.leased && !Deletes(v)
    ensures var s', q := Released(s, node, pn, ns, name, v), Cooling(node, ReservedKey(pn));
            q in s'.held ==> s'.held[q].pn.vpcIp == pn.vpcIp
  {
    hide ReservedKey;
  }

  /** The address of the claim is in the cooldown set as well, or counts as lost. */
  predicate Mistaken(s: State, ns: string, name: string) {
    && Claim(ns, name) in s.held
    && var ip := s.held[Claim(ns, name)].pn.vpcIp;
       ip in s.leaked || exists p | p in s.held && p.Cooling? :: s.held[p].pn.vpcIp == ip
  }

  lemma MistakenStays(s: State, node: string, pn: PodNetwork, ns: string, name: string, v: Via)
    requires Mistaken(s, ns, name) && Claims(s, ns, name, pn.vpcIp) && Given(node, ReservedKey(pn)) !in s.held
    requires Cooling(node, ReservedKey(pn)) in s.held ==> s.held[Cooling(node, ReservedKey(pn))].pn.vpcIp == pn.vpcIp
    ensures Mistaken(Released(s, node, pn, ns, name, v), ns, name)
  {
    hide ReservedKey;
    var s', q := Released(s, node, pn, ns, name, v), Cooling(node, ReservedKey(pn));
    if pn.vpcIp !in s.leaked {
      var p :| p in s.held && p.Cooling? && s.held[p].pn.vpcIp == pn.vpcIp;
      assert p in s'.held && s'.held[p].pn.vpcIp == pn.vpcIp;
    }
  }

  lemma MistakenIsUnsafe(s: State, ns: string, name: string)
    requires Mistaken(s, ns, name)
    ensures !Core(s)
  {
  }

  lemma MistakeMade(s: State, node: string, ns: string, name: string, v: Via)
    requires Claim(ns, name) in s.held && Mistakes(v)
    ensures Mistaken(FromClaim(s, node, ns, name, v), ns, name)
  {
    hide ReservedKey;
    var s', pn := FromClaim(s, node, ns, name, v), s.held[Claim(ns, name)].pn;
    if v.ok { assert s'.held[Cooling(node, ReservedKey(pn))].pn.vpcIp == pn.vpcIp; }
  }

  /** RELEASING A STATIC POD TWICE. The claim goes on naming its address, and has its lease exactly until a release
      deletes it. Exclusivity and conservation hold exactly when both releases find the claim or delete the address; no
      second release makes good a mistake of the first. */
  lemma DoubleStaticReleaseIsSafeIff(s: State, node: string, pn: PodNetwork, ns: string, name: string, v1: Via,
                                     now: int, v2: Via)
    requires Core(s) && WellFormed(pn) && Claims(s, ns, name, pn.vpcIp)
    ensures var s' := Twice(s, node, pn, ns, name, v1, now, v2);
            && Claims(s', ns, name, pn.vpcIp) && Given(node, ReservedKey(pn)) !in s'.held
            && (pn.vpcIp in s'.leased <==> pn.vpcIp in s.leased && !Deletes(v1) && !Deletes(v2))
            && (Core(s') <==> !Mistakes(v1) && !Mistakes(v2))
  {
    NoGivenOfClaim(s, node, pn, ns, name);
    ClaimLease(s, node, pn, ns, name, v1);
    StaticReleaseIsSafeIff(s, node, pn, ns, name, v1);
    ClaimStaysNamed(s, node, pn, ns, name, v1);
    var s0 := FromClaim(s, node, ns, name, v1);
    assert s0 == Released(s, node, pn, ns, name, v1);
    var s1 := s0.(clock := now);
    assert Claims(s1, ns, name, pn.vpcIp);
    ClaimStaysNamed(s1, node, pn, ns, name, v2);
    ClaimLease(s1, node, pn, ns, name, v2);
    CoreOfSameBooks(s0, s1);
    if Mistakes(v1) {
      MistakeMade(s, node, ns, name, v1);
      assert Mistaken(s1, ns, name);
      assert Cooling(node, ReservedKey(pn)) in s1.held ==>
               s1.held[Cooling(node, ReservedKey(pn))].pn.vpcIp == pn.vpcIp;
      MistakenStays(s1, node, pn, ns, name, v2);
      MistakenIsUnsafe(Released(s1, node, pn, ns, name, v2), ns, name);
    } else {
      NoGivenOfClaim(s1, node, pn, ns, name);
      StaticReleaseIsSafeIff(s1, node, pn, ns, name, v2);
      hide Core, FromClaim, ReservedKey, WellFormed;
    }
  }

  lemma NobodyIdles(s: State, node: string, pn: PodNetwork, v: Via)
    requires !Written(v) && !Deletes(v)
    ensures FromNobody(s, node, pn, v) == s
  {
  }

  predicate SameBooks(a: State, b: State) {
    a.held == b.held && a.leased == b.leased && a.leaked == b.leaked && a.threads == b.threads
  }

  /** TWICE IS ONCE. Two releases that ipamd handles come to what the later one alone would have come to exactly when
      the later one is written and the first did not delete the address, or neither is written and no address that the
      first deleted is kept by the second. */
  lemma TwiceIsOnceIff(s: State, node: string, pn: PodNetwork, ns: string, name: string, v1: Via, now: int, v2: Via)
    requires Core(s) && WellFormed(pn) && Given(node, ReservedKey(pn)) in s.held
    requires s.held[Given(node, ReservedKey(pn))].pn == pn && v1.Ipamd? && !v1.found && v2.Ipamd? && !v2.found
    ensures SameBooks(Twice(s, node, pn, ns, name, v1, now, v2),
                      Released(s.(clock := now), node, pn, ns, name, v2)) <==>
            if v2.ok then v1.ok || !v1.outcome.Deleted? else !v1.ok && (v1.outcome.Deleted? ==> v2.outcome.Deleted?)
    ensures v1.ok && v2.ok ==>
              Twice(s, node, pn, ns, name, v1, now, v2) == Released(s.(clock := now), node, pn, ns, name, v2)
  {
    NoClaimOfHeld(s, node, pn, ns, name);
    AfterFirst(s, node, pn, ns, name, v1);
    var p, q := Given(node, ReservedKey(pn)), Cooling(node, ReservedKey(pn));
    var s1, s2 := FromHolder(s, node, pn, v1).(clock := now), s.(clock := now);
    var one := FromHolder(s2, node, pn, v2);
    assert !Claims(s1, ns, name, pn.vpcIp) && Released(s2, node, pn, ns, name, v2) == one;
    hide Core, ReservedKey, Claims, WellFormed;
    if v1.ok {
      assert Twice(s, node, pn, ns, name, v1, now, v2) == FromCooling(s1, node, pn, v2);
      WrittenFirst(s, node, pn, v1, now, v2);
    } else {
      assert Twice(s, node, pn, ns, name, v1, now, v2) == FromNobody(s1, node, pn, v2);
      LostFirst(s, node, pn, v1, now, v2);
    }
    hide FromHolder, FromCooling, FromNobody;
  }

  lemma WrittenFirst(s: State, node: string, pn: PodNetwork, v1: Via, now: int, v2: Via)
    requires Given(node, ReservedKey(pn)) in s.held && Cooling(node, ReservedKey(pn)) !in s.held
    requires s.held[Given(node, ReservedKey(pn))].pn == pn && Written(v1) && v2.Ipamd? && !v2.found
    ensures var s1 := FromHolder(s, node, pn, v1).(clock := now);
            Cooling(node, ReservedKey(pn)) in s1.held
            && (v2.ok ==> FromCooling(s1, node, pn, v2) == FromHolder(s.(clock := now), node, pn, v2))
            && (!v2.ok ==> !SameBooks(FromCooling(s1, node, pn, v2), FromHolder(s.(clock := now), node, pn, v2)))
  {
    hide ReservedKey;
    var p, q := Given(node, ReservedKey(pn)), Cooling(node, ReservedKey(pn));
    var s1, one := FromHolder(s, node, pn, v1).(clock := now), FromHolder(s.(clock := now), node, pn, v2);
    assert s1.held == (s.held - {p})[q := Slot(Stamp(pn, s.clock), s.clock + s.period)];
    if v2.ok {
      var slot := Slot(Stamp(pn, now), now + s.period);
      assert FromCooling(s1, node, pn, v2).held == (s.held - {p})[q := slot];
      assert s1.notBefore[pn.vpcIp := now + s.period] == s.notBefore[pn.vpcIp := now + s.period];
    } else {
      assert q in FromCooling(s1, node, pn, v2).held && q !in one.held;
    }
  }

  lemma LostFirst(s: State, node: string, pn: PodNetwork, v1: Via, now: int, v2: Via)
    requires Given(node, ReservedKey(pn)) in s.held && Cooling(node, ReservedKey(pn)) !in s.held
    requires s.held[Given(node, ReservedKey(pn))].pn == pn && pn.vpcIp in s.leased && pn.vpcIp !in s.leaked
    requires v1.Ipamd? && !v1.found && !v1.ok && v2.Ipamd? && !v2.found
    ensures var s1 := FromHolder(s, node, pn, v1).(clock := now);
            SameBooks(FromNobody(s1, node, pn, v2), FromHolder(s.(clock := now), node, pn, v2)) <==>
            if v2.ok then !v1.outcome.Deleted? else v1.outcome.Deleted? ==> v2.outcome.Deleted?
  {
    hide ReservedKey;
    var p := Given(node, ReservedKey(pn));
    var both := FromNobody(FromHolder(s, node, pn, v1).(clock := now), node, pn, v2);
    var one := FromHolder(s.(clock := now), node, pn, v2);
    assert both.held == one.held;
    assert pn.vpcIp in one.leased <==> v2.ok || !v2.outcome.Deleted?;
    assert pn.vpcIp in both.leased <==> !v1.outcome.Deleted? && (v2.ok || !v2.outcome.Deleted?);
    assert !v1.outcome.Deleted? ==> s.leaked + {pn.vpcIp} - {pn.vpcIp} == s.leaked;
    assert s.leased - {pn.vpcIp} - {pn.vpcIp} == s.leased - {pn.vpcIp} && s.leaked - {pn.vpcIp} == s.leaked;
  }
}
