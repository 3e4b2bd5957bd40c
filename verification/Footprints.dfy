/** What an event of the allocator leaves alone. */
module Footprints {
  import opened PodNetworks
  import opened Protocol

  /** The places an event writes or empties. */
  function Footprint(s: State, e: Event): set<Place>
    requires Enabled(s, e)
  {
    match e
    case PopDelete(t) => {Hand(t), Pool(s.threads[t].node, PhaseOf(s, t).subnet, PhaseOf(s, t).key)}
    case Reply(t, borrower, _, _) => {Hand(t), Hand(borrower)}
    case Deliver(t, ok) => if ok then {Hand(t), Target(s, t)} else {}
    case PutBack(t, ok) => if ok then {Hand(t), Target(s, t)} else {}
    case PushBack(t, ok) => if ok then {Hand(t), Target(s, t)} else {Hand(t)}
    case Retire(t, ok) => if ok then {Hand(t), Target(s, t)} else {}
    case Release(t, node, key) => {Hand(t), Given(node, key)}
    case ReleaseSkipped(node, key) => {Given(node, key)}
    case ReleaseAgain(node, key, ok, _) => if ok then {Cooling(node, key)} else {}
    case AssignDirect(node, pn) => {Given(node, ReservedKey(pn))}
    case ReleaseDirect(node, key, _) => {Given(node, key)}
    case UnleaseClaim(_, _, _) => {}
    case ReleaseStray(node, pn, _, ok, _) => if ok then {Cooling(node, ReservedKey(pn))} else {}
    case Thaw(t, node, key) => {Hand(t), Cooling(node, key)}
    case CreateClaim(t, ns, name, _) => {Hand(t), Claim(ns, name)}
    case Tick(_) => {}
    case _ => {Hand(e.t)}
  }

  lemma ClaimFrame(s: State, e: Event, p: Place)
    requires OfClaim(e) && Enabled(s, e) && p !in Footprint(s, e)
    ensures p in s.held <==> p in Next(s, e).held
    ensures p in s.held ==> Next(s, e).held[p] == s.held[p]
  {
    hide NextOfHandOut, MayHandOut, NextOfMove, MayMove, NextOfPlugin, MayPlugin, WellFormed;
  }

  lemma HandOutFrame(s: State, e: Event, p: Place)
    requires OfHandOut(e) && Enabled(s, e) && p !in Footprint(s, e)
    ensures p in s.held <==> p in Next(s, e).held
    ensures p in s.held ==> Next(s, e).held[p] == s.held[p]
  {
    hide NextOfClaim, MayClaim, NextOfMove, MayMove, NextOfPlugin, MayPlugin, WellFormed;
  }

  lemma MoveFrame(s: State, e: Event, p: Place)
    requires !OfClaim(e) && !OfHandOut(e) && !OfPlugin(e) && Enabled(s, e) && p !in Footprint(s, e)
    ensures p in s.held <==> p in Next(s, e).held
    ensures p in s.held ==> Next(s, e).held[p] == s.held[p]
  {
    hide NextOfClaim, MayClaim, NextOfHandOut, MayHandOut, NextOfPlugin, MayPlugin, WellFormed;
  }

  lemma PluginFrame(s: State, e: Event, p: Place)
    requires OfPlugin(e) && Enabled(s, e) && p !in Footprint(s, e)
    ensures p in s.held <==> p in Next(s, e).held
    ensures p in s.held ==> Next(s, e).held[p] == s.held[p]
  {
    hide NextOfClaim, MayClaim, NextOfHandOut, MayHandOut, NextOfMove, MayMove, WellFormed, Find;
  }

  /** An event changes nothing outside its footprint. */
  lemma Frame(s: State, e: Event, p: Place)
    requires Enabled(s, e) && p !in Footprint(s, e)
    ensures p in s.held <==> p in Next(s, e).held
    ensures p in s.held ==> Next(s, e).held[p] == s.held[p]
  {
    if OfClaim(e) { ClaimFrame(s, e, p); }
    else if OfHandOut(e) { HandOutFrame(s, e, p); }
    else if OfPlugin(e) { PluginFrame(s, e, p); }
    else { MoveFrame(s, e, p); }
    hide *;
  }

  /** Only the goroutine that acts changes its phase; a lending reply also starts the borrower's. */
  predicate Acts(e: Event, t: nat) {
    if Threadless(e) then false
    else e.t == t || (e.Reply? && e.borrower == t)
  }

  lemma ThreadFrame(s: State, e: Event, t: nat)
    requires Enabled(s, e) && !Acts(e, t)
    ensures t in s.threads <==> t in Next(s, e).threads
    ensures t in s.threads ==> Next(s, e).threads[t] == s.threads[t]
  {
    if OfClaim(e) { ClaimThreadFrame(s, e, t); }
    else if OfHandOut(e) { HandOutThreadFrame(s, e, t); }
    else if OfPlugin(e) { PluginKeepsThreads(s, e); }
    else { MoveThreadFrame(s, e, t); }
    hide *;
  }

  lemma PluginKeepsThreads(s: State, e: Event)
    requires OfPlugin(e) && Enabled(s, e)
    ensures Next(s, e).threads == s.threads
  {
    hide NextOfClaim, MayClaim, NextOfHandOut, MayHandOut, NextOfMove, MayMove, WellFormed, Find;
  }

  lemma ClaimThreadFrame(s: State, e: Event, t: nat)
    requires OfClaim(e) && Enabled(s, e) && !Acts(e, t)
    ensures t in s.threads <==> t in Next(s, e).threads
    ensures t in s.threads ==> Next(s, e).threads[t] == s.threads[t]
  {
    hide Enabled, Next;
    if e.CreateClaim? { CreateClaimThreadFrame(s, e, t); } else { OtherClaimThreadFrame(s, e, t); }
  }

  lemma CreateClaimThreadFrame(s: State, e: Event, t: nat)
    requires e.CreateClaim? && Enabled(s, e) && !Acts(e, t)
    ensures t in s.threads <==> t in Next(s, e).threads
    ensures t in s.threads ==> Next(s, e).threads[t] == s.threads[t]
  {
    hide NextOfHandOut, MayHandOut, NextOfMove, MayMove, NextOfPlugin, MayPlugin, WellFormed;
  }

  lemma OtherClaimThreadFrame(s: State, e: Event, t: nat)
    requires OfClaim(e) && !e.CreateClaim? && Enabled(s, e) && !Acts(e, t)
    ensures t in s.threads <==> t in Next(s, e).threads
    ensures t in s.threads ==> Next(s, e).threads[t] == s.threads[t]
  {
    hide NextOfHandOut, MayHandOut, NextOfMove, MayMove, NextOfPlugin, MayPlugin, WellFormed;
  }

  lemma ReplyThreadFrame(s: State, e: Event, t: nat)
    requires e.Reply? && Enabled(s, e) && !Acts(e, t)
    ensures t in s.threads <==> t in Next(s, e).threads
    ensures t in s.threads ==> Next(s, e).threads[t] == s.threads[t]
  {
    hide NextOfClaim, MayClaim, NextOfMove, MayMove, NextOfPlugin, MayPlugin, WellFormed, InHand;
  }

  lemma OtherHandOutThreadFrame(s: State, e: Event, t: nat)
    requires OfHandOut(e) && !e.Reply? && Enabled(s, e) && !Acts(e, t)
    ensures t in s.threads <==> t in Next(s, e).threads
    ensures t in s.threads ==> Next(s, e).threads[t] == s.threads[t]
  {
    hide NextOfClaim, MayClaim, NextOfMove, MayMove, NextOfPlugin, MayPlugin, WellFormed, InHand;
  }

  lemma HandOutThreadFrame(s: State, e: Event, t: nat)
    requires OfHandOut(e) && Enabled(s, e) && !Acts(e, t)
    ensures t in s.threads <==> t in Next(s, e).threads
    ensures t in s.threads ==> Next(s, e).threads[t] == s.threads[t]
  {
    hide Enabled, Next;
    if e.Reply? { ReplyThreadFrame(s, e, t); } else { OtherHandOutThreadFrame(s, e, t); }
  }

  lemma MoveThreadFrame(s: State, e: Event, t: nat)
    requires !OfClaim(e) && !OfHandOut(e) && !OfPlugin(e) && Enabled(s, e) && !Acts(e, t)
    ensures t in s.threads <==> t in Next(s, e).threads
    ensures t in s.threads ==> Next(s, e).threads[t] == s.threads[t]
  {
    hide NextOfClaim, MayClaim, NextOfHandOut, MayHandOut, NextOfPlugin, MayPlugin, WellFormed;
  }

  /** A goroutine number nobody uses. */
  lemma FreshThread(s: State) returns (t: nat)
    ensures t !in s.threads
  {
    t := FreshNumber(s.threads.Keys);
    assert t !in s.threads.Keys;
  }

  /** A goroutine number nobody uses, not even for a hand. */
  lemma FreshIdler(s: State) returns (t: nat)
    ensures t !in s.threads && Hand(t) !in s.held
  {
    var hands := set p | p in s.held && p.Hand? :: p.thread;
    t := FreshNumber(s.threads.Keys + hands);
    assert t !in s.threads.Keys && t !in hands;
  }

  lemma {:induction false} FreshNumber(used: set<nat>) returns (t: nat)
    ensures forall u | u in used :: u < t
  {
    if used == {} { return 0; }
    var u :| u in used;
    var rest := FreshNumber(used - {u});
    t := if rest <= u then u + 1 else rest;
    forall x | x in used ensures x < t { assert x != u ==> x in used - {u}; }
  }
}
