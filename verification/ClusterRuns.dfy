/** The run of a cluster as the servers of its nodes make it, and what goes on between two statements of a server. */
module ClusterRuns {
  import opened PodNetworks
  import opened Protocol
  import opened Exclusivity
  import opened AllocatorRuns
  import opened Footprints
  import opened Coupling
  import opened NodeSteps

  /** What of these steps goroutine `t` took part in. */
  function Mine(steps: seq<Event>, t: nat): seq<Event> {
    if steps == [] then [] else
      Mine(steps[..|steps| - 1], t) + if Acts(steps[|steps| - 1], t) then [steps[|steps| - 1]] else []
  }

  lemma {:induction false} MineConcat(a: seq<Event>, b: seq<Event>, t: nat)
    ensures Mine(a + b, t) == Mine(a, t) + Mine(b, t)
  {
    if b == [] {
      assert a + b == a;
    } else {
      assert (a + b)[..|a + b| - 1] == a + b[..|b| - 1];
      MineConcat(a, b[..|b| - 1], t);
    }
  }

  lemma {:induction false} AllMine(steps: seq<Event>, t: nat)
    requires forall e | e in steps :: Own(e, t)
    ensures Mine(steps, t) == steps
  {
    if steps != [] {
      var front := steps[..|steps| - 1];
      assert steps == front + [steps[|steps| - 1]] && steps[|steps| - 1] in steps;
      AllMine(front, t);
    }
  }

  lemma {:induction false} NoneMine(steps: seq<Event>, t: nat)
    requires forall e | e in steps :: !Acts(e, t)
    ensures Mine(steps, t) == []
  {
    if steps != [] {
      var front := steps[..|steps| - 1];
      assert steps == front + [steps[|steps| - 1]] && steps[|steps| - 1] in steps;
      NoneMine(front, t);
    }
  }

  /** What goroutine `t` did after `before` and `mid` is what it did after `before` up to `mid`, and after that. */
  lemma MineOn(before: seq<Event>, mid: seq<Event>, run: seq<Event>, t: nat)
    requires before <= mid <= run
    ensures Mine(run[|before|..], t) == Mine(mid[|before|..], t) + Mine(run[|mid|..], t)
  {
    assert run[|before|..] == mid[|before|..] + run[|mid|..];
    MineConcat(mid[|before|..], run[|mid|..], t);
  }

  /** An event of goroutine `t` that is a statement of the code. */
  predicate Own(e: Event, t: nat) {
    !Threadless(e) && !e.Crash? && (if e.Reply? then e.borrower == t else e.t == t)
  }

  lemma OwnSteps(before: seq<Event>, steps: seq<Event>, t: nat)
    requires forall e | e in steps :: Own(e, t)
    ensures Mine((before + steps)[|before|..], t) == steps
  {
    assert (before + steps)[|before|..] == steps;
    AllMine(steps, t);
  }

  /** Goroutine `t` is as it was, and so is its hand. */
  predicate SameGoroutine(s: State, s': State, t: nat) {
    && (t in s.threads <==> t in s'.threads) && (t in s.threads ==> s'.threads[t] == s.threads[t])
    && (Hand(t) in s.held <==> Hand(t) in s'.held) && (Hand(t) in s.held ==> s'.held[Hand(t)] == s.held[Hand(t)])
  }

  /** These claims, there or not, are what they were. */
  predicate KeptClaims(s: State, s': State, keep: set<Place>) {
    forall p | p in keep && p.Claim? ::
      (p in s.held <==> p in s'.held) && (p in s.held ==> s'.held[p] == s.held[p])
  }

  /** Everything the servers share with the rest of the cluster, as the run so far. */
  class Cluster {
    ghost const init: State
    ghost const servers: set<string>          // the nodes whose servers are objects
    ghost var run: seq<Event>
    ghost var rounds: seq<seq<Event>>         // what everybody else does between two statements

    ghost predicate Valid()
      reads this
    {
      IsRun(init, run)
    }

    ghost function Now(): State
      requires Valid()
      reads this
    {
      After(init, run)
    }

    /** Answers were faithful and pops disciplined so far. */
    ghost predicate Sound()
      requires Valid()
      reads this
    {
      Inv(init) && Disciplined(init, run)
    }

    /** Then the theorems about runs hold now: no address is in two places, and nothing is lost. */
    lemma SoundIsSafe()
      requires Valid() && Sound()
      ensures Inv(Now())
    {
      RunKeepsInv(init, run);
    }

    constructor (init: State, servers: set<string>, ghost rounds: seq<seq<Event>>)
      ensures Valid() && run == [] && this.init == init && this.servers == servers
      ensures Inv(init) ==> Sound()
    {
      this.init, this.servers, this.rounds := init, servers, rounds;
      run := [];
    }

    /** Since then the run is proper: disciplined, with faithful answers if `honest`, and without touching the databases
        of the servers of other nodes. */
    ghost predicate Went(before: seq<Event>, node: string, honest: bool)
      requires Valid()
      reads this
    {
      before <= run && Properly(init, run, |before|, node, servers, honest)
    }

    lemma Start(node: string, honest: bool)
      requires Valid()
      ensures Went(run, node, honest)
    {
    }

    lemma GoOn(before: seq<Event>, mid: seq<Event>, node: string, honest: bool)
      requires Valid() && IsRun(init, mid) && before <= mid && Properly(init, mid, |before|, node, servers, honest)
      requires Went(mid, node, honest)
      ensures Went(before, node, honest)
    {
      ProperlyOn(init, mid, run, |before|, node, servers, honest);
    }

    lemma StaysSound(before: seq<Event>, node: string)
      requires Valid() && Went(before, node, true) && Inv(init) && IsRun(init, before) && Disciplined(init, before)
      ensures Sound()
    {
      assert run[..|before|] == before;
      ProperlyIsDisciplined(init, run, |before|, node, servers);
    }

    ghost method Take(e: Event, before: seq<Event>, node: string, honest: bool)
      requires Valid() && Enabled(Now(), e) && Proper(Now(), e, node, servers, honest) && Went(before, node, honest)
      modifies `run
      ensures Valid() && run == old(run) + [e] && Now() == Next(old(Now()), e) && Went(before, node, honest)
    {
      hide Enabled, Next, Proper;
      run := run + [e];
      assert run[..|run| - 1] == old(run);
    }

    ghost method TakeAll(steps: seq<Event>, s: State, before: seq<Event>, node: string, honest: bool)
      requires Valid() && ProperPath(Now(), steps, s, node, servers, honest) && Went(before, node, honest)
      modifies `run
      ensures Valid() && run == old(run) + steps && Now() == s && Went(before, node, honest)
      decreases |steps|
    {
      hide Enabled, Next, IsRun, After, Proper, Went;
      if steps != [] {
        Take(steps[0], before, node, honest);
        TakeAll(steps[1..], s, before, node, honest);
        assert steps == [steps[0]] + steps[1..];
      }
    }

    /** Everybody else, on any node, does something before the next statement of goroutine `t`; databases of servers
        that are objects stay as they are, and nobody else takes the claims in `keep`. */
    ghost method Others(t: nat, keep: set<Place>, before: seq<Event>, node: string)
      requires Valid() && Went(before, node, true) && node in servers
      modifies this
      ensures Valid() && Went(before, node, true) && old(run) <= run && Mine(run[|old(run)|..], t) == []
      ensures SameGoroutine(old(Now()), Now(), t)
      ensures KeptClaims(old(Now()), Now(), keep)
      ensures forall pools, cooling | Coupled(node, pools, cooling, old(Now())) :: Coupled(node, pools, cooling, Now())
    {
      hide Enabled, Next, IsRun, After, Properly, Coupled;
      if rounds == [] { return; }
      var round := rounds[0];
      rounds := rounds[1..];
      for i := 0 to |round|
        invariant Valid() && Went(before, node, true) && old(run) <= run
        invariant Mine(run[|old(run)|..], t) == [] && SameGoroutine(old(Now()), Now(), t)
        invariant KeptClaims(old(Now()), Now(), keep)
        invariant forall pools, cooling | Coupled(node, pools, cooling, old(Now())) ::
                    Coupled(node, pools, cooling, Now())
      {
        if Enabled(Now(), round[i]) && FromElsewhere(Now(), round[i], t, keep, servers) {
          OneElsewhere(old(Now()), Now(), round[i], t, keep, servers, node);
          MineConcat(run[|old(run)|..], [round[i]], t);
          NoneMine([round[i]], t);
          assert (run + [round[i]])[|old(run)|..] == run[|old(run)|..] + [round[i]];
          Take(round[i], before, node, true);
        }
      }
    }
  }

  /** A disciplined event of another goroutine that leaves alone the databases of the servers and these claims. */
  predicate FromElsewhere(s: State, e: Event, t: nat, keep: set<Place>, servers: set<string>)
    requires Enabled(s, e)
  {
    && !Acts(e, t) && PopCurrent(s, e) && Faithful(e)
    && (forall p | p in Footprint(s, e) && (p.Pool? || p.Cooling?) :: p.node !in servers)
    && (e.CreateClaim? ==> Claim(e.ns, e.name) !in keep)
  }

  lemma OneElsewhere(s0: State, s: State, e: Event, t: nat, keep: set<Place>, servers: set<string>, node: string)
    requires Enabled(s, e) && FromElsewhere(s, e, t, keep, servers) && node in servers && SameGoroutine(s0, s, t)
    requires KeptClaims(s0, s, keep)
    requires forall pools, cooling | Coupled(node, pools, cooling, s0) :: Coupled(node, pools, cooling, s)
    ensures Proper(s, e, node, servers, true) && SameGoroutine(s0, Next(s, e), t)
    ensures KeptClaims(s0, Next(s, e), keep)
    ensures forall pools, cooling | Coupled(node, pools, cooling, s0) :: Coupled(node, pools, cooling, Next(s, e))
  {
    ThreadFrame(s, e, t);
    HandNotTouched(s, e, t);
    Frame(s, e, Hand(t));
    OneKeepsClaims(s, e, keep);
    KeptOn(s0, s, Next(s, e), keep);
    hide Enabled, Next, Coupled;
    forall pools, cooling | Coupled(node, pools, cooling, s0) ensures Coupled(node, pools, cooling, Next(s, e)) {
      ElsewhereCoupled(node, pools, cooling, s, e);
    }
  }

  lemma OneKeepsClaims(s: State, e: Event, keep: set<Place>)
    requires Enabled(s, e) && (e.CreateClaim? ==> Claim(e.ns, e.name) !in keep)
    ensures KeptClaims(s, Next(s, e), keep)
  {
    hide Enabled, Next;
    forall p | p in keep && p.Claim?
      ensures (p in s.held <==> p in Next(s, e).held) && (p in s.held ==> Next(s, e).held[p] == s.held[p])
    {
      NoOtherClaim(s, e, p);
      Frame(s, e, p);
    }
  }

  lemma AttachKeepsClaims(s: State, e: Event, keep: set<Place>)
    requires Enabled(s, e) && e.Attach?
    ensures KeptClaims(s, Next(s, e), keep)
  {
    hide Enabled, Next;
    OneKeepsClaims(s, e, keep);
  }

  /** The statements of lendIP, in goroutine `t`. */
  predicate Lends(e: Event, t: nat) {
    (e.PopRead? || e.PopDelete? || e.LendMove? || e.PutBack? || e.Drop?) && e.t == t
  }

  /** A lending leaves another goroutine and these claims alone. */
  lemma {:induction false} LendingLeaves(init: State, run: seq<Event>, from: nat, t: nat, u: nat, keep: set<Place>)
    requires IsRun(init, run) && from <= |run| && IsRun(init, run[..from]) && t != u
    requires forall e | e in run[from..] :: Lends(e, u)
    ensures SameGoroutine(After(init, run[..from]), After(init, run), t)
    ensures KeptClaims(After(init, run[..from]), After(init, run), keep)
  {
    if from < |run| {
      var past, e := run[..|run| - 1], run[|run| - 1];
      assert past[..from] == run[..from] && e == run[from..][|run| - 1 - from];
      assert forall d | d in past[from..] :: d in run[from..];
      LendingLeaves(init, past, from, t, u, keep);
      var s0, s := After(init, run[..from]), After(init, past);
      assert After(init, run) == Next(s, e) && Lends(e, u);
      assert SameGoroutine(s0, s, t) && KeptClaims(s0, s, keep);
      hide IsRun, After;
      OneLeaves(s0, s, e, t, keep);
    } else {
      assert run[..from] == run;
    }
  }

  lemma OneLeaves(s0: State, s: State, e: Event, t: nat, keep: set<Place>)
    requires Enabled(s, e) && !Acts(e, t) && !e.CreateClaim? && SameGoroutine(s0, s, t) && KeptClaims(s0, s, keep)
    ensures SameGoroutine(s0, Next(s, e), t) && KeptClaims(s0, Next(s, e), keep)
  {
    ThreadFrame(s, e, t);
    HandNotTouched(s, e, t);
    Frame(s, e, Hand(t));
    OneKeepsClaims(s, e, keep);
    KeptOn(s0, s, Next(s, e), keep);
    hide Enabled, Next;
  }

  lemma LendingIsNotMine(steps: seq<Event>, t: nat, u: nat)
    requires t != u && forall e | e in steps :: Lends(e, u)
    ensures Mine(steps, t) == []
  {
    NoneMine(steps, t);
  }

  lemma KeptOn(a: State, b: State, c: State, keep: set<Place>)
    requires KeptClaims(a, b, keep) && KeptClaims(b, c, keep)
    ensures KeptClaims(a, c, keep)
  {
  }

  lemma SameOn(a: State, b: State, c: State, t: nat)
    requires SameGoroutine(a, b, t) && SameGoroutine(b, c, t)
    ensures SameGoroutine(a, c, t)
  {
  }

  lemma WorksOn(s: State, s': State, t: nat, node: string, phase: Phase)
    requires SameGoroutine(s, s', t) && Works(s, t, node, phase)
    ensures Works(s', t, node, phase)
  {
  }

  lemma HasOn(s: State, s': State, t: nat, node: string, pn: PodNetwork, phase: Phase)
    requires SameGoroutine(s, s', t) && Has(s, t, node, pn, phase)
    ensures Has(s', t, node, pn, phase)
  {
  }

  lemma HasIsThread(s: State, t: nat, node: string, pn: PodNetwork, phase: Phase)
    requires Has(s, t, node, pn, phase)
    ensures t in s.threads
  {
  }

  lemma SameHeldKeeps(s: State, s': State, keep: set<Place>)
    requires s'.held == s.held
    ensures KeptClaims(s, s', keep)
  {
  }

  lemma WorksIsThread(s: State, t: nat, node: string, phase: Phase)
    requires Works(s, t, node, phase)
    ensures t in s.threads
  {
  }

  lemma HandNotTouched(s: State, e: Event, t: nat)
    requires Enabled(s, e) && !Acts(e, t)
    ensures Hand(t) !in Footprint(s, e)
  {
    hide ReservedKey, WellFormed, Find;
  }

  lemma NoOtherClaim(s: State, e: Event, p: Place)
    requires Enabled(s, e) && p.Claim? && (e.CreateClaim? ==> Claim(e.ns, e.name) != p)
    ensures p !in Footprint(s, e)
  {
    hide ReservedKey, WellFormed, Find;
  }
}
