/** A custom chain of the nat table with the rules that enter it: setting it up, checking it and tearing it down. */
module PortChain {
  import opened Sequences

  datatype HostIP = AnyHost | V4(n: nat) | V6(n: nat) | Invalid(text: string)

  /** A network is the set of its addresses: two ways to write it make the same rule. */
  datatype Source = AnySource | Within(net: set<HostIP>)

  datatype Target = Jump(chain: string) | Dnat(addr: HostIP, port: int) | SetMark(bit: nat) | Masquerade(bit: nat)
    | AnyTarget

  datatype Protocol = AnyProtocol | Proto(name: string)

  /** AnyProtocol, an empty list of ports, AnyHost and AnySource match everything. */
  datatype Rule = Rule(proto: Protocol, ports: seq<int>, dst: HostIP, src: Source, conditions: seq<string>,
    target: Target)

  datatype Chain = Chain(
    name: string,
    entryChains: seq<string>,
    entryRules: seq<Rule>,          // their target is the jump to this chain
    rules: seq<Rule>,
    prependEntry: bool)

  function Entry(c: Chain, r: Rule): Rule {
    r.(target := Jump(c.name))
  }

  predicate Jumps(r: Rule, name: string) {
    r.target == Jump(name)
  }

  type Tables = map<string, seq<Rule>>

  /** iptables refuses an address it cannot read. */
  predicate Acceptable(r: Rule) {
    !r.dst.Invalid?
  }

  // ---------------------------------------------------------------- adding a rule once

  function AddOnce(chain: seq<Rule>, prepend: bool, r: Rule): seq<Rule> {
    if r in chain then chain else if prepend then [r] + chain else chain + [r]
  }

  function AddEach(chain: seq<Rule>, prepend: bool, rs: seq<Rule>): seq<Rule> {
    if rs == [] then chain else AddOnce(AddEach(chain, prepend, rs[..|rs| - 1]), prepend, rs[|rs| - 1])
  }

  function Entries(c: Chain): (rs: seq<Rule>)
    ensures |rs| == |c.entryRules| && forall i | 0 <= i < |rs| :: rs[i] == Entry(c, c.entryRules[i])
  {
    seq(|c.entryRules|, i requires 0 <= i < |c.entryRules| => Entry(c, c.entryRules[i]))
  }

  lemma {:induction false} AllAdded(chain: seq<Rule>, prepend: bool, rs: seq<Rule>)
    ensures forall r :: r in AddEach(chain, prepend, rs) <==> r in chain || r in rs
  {
    if rs != [] {
      AllAdded(chain, prepend, rs[..|rs| - 1]);
      assert rs == rs[..|rs| - 1] + [rs[|rs| - 1]];
    }
  }

  lemma {:induction false} NothingToAdd(chain: seq<Rule>, prepend: bool, rs: seq<Rule>)
    requires forall r | r in rs :: r in chain
    ensures AddEach(chain, prepend, rs) == chain
  {
    if rs != [] { NothingToAdd(chain, prepend, rs[..|rs| - 1]); }
  }

  lemma {:induction false} AddEachConcat(chain: seq<Rule>, prepend: bool, a: seq<Rule>, b: seq<Rule>)
    ensures AddEach(chain, prepend, a + b) == AddEach(AddEach(chain, prepend, a), prepend, b)
  {
    if b == [] {
      assert a + b == a;
    } else {
      assert (a + b)[..|a + b| - 1] == a + b[..|b| - 1];
      AddEachConcat(chain, prepend, a, b[..|b| - 1]);
    }
  }

  /** Some of the rules were added, in their order, when a call failed. */
  ghost predicate PartAdded(before: seq<Rule>, after: seq<Rule>, prepend: bool, rs: seq<Rule>) {
    exists k | 0 <= k <= |rs| :: after == AddEach(before, prepend, rs[..k])
  }

  lemma PartIsMade(before: seq<Rule>, prepend: bool, rs: seq<Rule>, k: nat)
    requires k <= |rs|
    ensures PartAdded(before, AddEach(before, prepend, rs[..k]), prepend, rs)
  {
  }

  lemma NoneAdded(before: seq<Rule>, prepend: bool, rs: seq<Rule>)
    ensures PartAdded(before, before, prepend, rs)
  {
    assert AddEach(before, prepend, rs[..0]) == before;
  }

  lemma WholeAdded(before: seq<Rule>, prepend: bool, rs: seq<Rule>)
    ensures PartAdded(before, AddEach(before, prepend, rs), prepend, rs)
  {
    assert rs[..|rs|] == rs;
  }

  /** Starting a list over after a part of it goes on where the part ended. */
  lemma AddFrom(chain: seq<Rule>, prepend: bool, rs: seq<Rule>, k: nat, n: nat)
    requires k <= |rs| && n <= |rs|
    ensures AddEach(AddEach(chain, prepend, rs[..k]), prepend, rs[..n])
         == AddEach(chain, prepend, rs[..if n <= k then k else n])
  {
    var front := AddEach(chain, prepend, rs[..k]);
    AllAdded(chain, prepend, rs[..k]);
    if n <= k {
      NothingToAdd(front, prepend, rs[..n]);
    } else {
      assert rs[..n] == rs[..k] + rs[k..n];
      NothingToAdd(front, prepend, rs[..k]);
      AddEachConcat(front, prepend, rs[..k], rs[k..n]);
      AddEachConcat(chain, prepend, rs[..k], rs[k..n]);
    }
  }

  /** A part, then the whole list, is the whole list; a part, then a part, is a part. */
  lemma AddAgain(a: seq<Rule>, b: seq<Rule>, prepend: bool, rs: seq<Rule>)
    requires PartAdded(a, b, prepend, rs)
    ensures AddEach(b, prepend, rs) == AddEach(a, prepend, rs)
    ensures forall c | PartAdded(b, c, prepend, rs) :: PartAdded(a, c, prepend, rs)
  {
    var k :| 0 <= k <= |rs| && b == AddEach(a, prepend, rs[..k]);
    AddFrom(a, prepend, rs, k, |rs|);
    assert rs[..|rs|] == rs;
    forall c | PartAdded(b, c, prepend, rs) ensures PartAdded(a, c, prepend, rs) {
      var n :| 0 <= n <= |rs| && c == AddEach(b, prepend, rs[..n]);
      AddFrom(a, prepend, rs, k, n);
    }
  }

  lemma PartHolds(a: seq<Rule>, b: seq<Rule>, prepend: bool, rs: seq<Rule>)
    requires PartAdded(a, b, prepend, rs)
    ensures forall r | r in a :: r in b
    ensures forall r | r in b :: r in a || r in rs
  {
    var k :| 0 <= k <= |rs| && b == AddEach(a, prepend, rs[..k]);
    AllAdded(a, prepend, rs[..k]);
  }

  // ---------------------------------------------------------------- taking the jumps out

  function NoJumps(chain: seq<Rule>, name: string): seq<Rule> {
    if chain == [] then []
    else NoJumps(chain[..|chain| - 1], name) + if Jumps(chain[|chain| - 1], name) then [] else [chain[|chain| - 1]]
  }

  lemma {:induction false} NoJumpsLeft(chain: seq<Rule>, name: string)
    ensures forall r :: r in NoJumps(chain, name) <==> r in chain && r.target != Jump(name)
  {
    if chain != [] {
      NoJumpsLeft(chain[..|chain| - 1], name);
      assert chain == chain[..|chain| - 1] + [chain[|chain| - 1]];
    }
  }

  lemma {:induction false} NoJumpsConcat(a: seq<Rule>, b: seq<Rule>, name: string)
    ensures NoJumps(a + b, name) == NoJumps(a, name) + NoJumps(b, name)
  {
    if b == [] {
      assert a + b == a;
    } else {
      assert (a + b)[..|a + b| - 1] == a + b[..|b| - 1];
      NoJumpsConcat(a, b[..|b| - 1], name);
    }
  }

  /** Adding entry rules and taking all jumps out again leaves the other rules in their order. */
  lemma {:induction false} AddedJumpsGo(chain: seq<Rule>, prepend: bool, rs: seq<Rule>, name: string)
    requires forall r | r in rs :: Jumps(r, name)
    ensures NoJumps(AddEach(chain, prepend, rs), name) == NoJumps(chain, name)
  {
    if rs != [] {
      var front, r := AddEach(chain, prepend, rs[..|rs| - 1]), rs[|rs| - 1];
      AddedJumpsGo(chain, prepend, rs[..|rs| - 1], name);
      NoJumpsConcat(front, [r], name);
      NoJumpsConcat([r], front, name);
      assert NoJumps([r], name) == [];
    }
  }

  lemma {:induction false} Unreferenced(chain: seq<Rule>, name: string)
    requires forall r | r in chain :: !Jumps(r, name)
    ensures NoJumps(chain, name) == chain
  {
    hide Jumps;
    if chain != [] {
      var front, r := chain[..|chain| - 1], chain[|chain| - 1];
      assert r in chain && chain == front + [r];
      Unreferenced(front, name);
    }
  }

  // ---------------------------------------------------------------- the three operations

  /** The entry chains are different chains, and none of them is the chain itself. */
  predicate WellFormed(c: Chain) {
    && c.name !in c.entryChains
    && (forall i, j | 0 <= i < j < |c.entryChains| :: c.entryChains[i] != c.entryChains[j])
  }

  predicate Ready(t: Tables, c: Chain) {
    && WellFormed(c) && (forall e | e in c.entryChains :: e in t)
    && AllAcceptable(c.rules) && AllAcceptable(Entries(c))
  }

  function RulesOf(t: Tables, id: string): seq<Rule> {
    if id in t then t[id] else []
  }

  /** From t to s: the chain itself is filled and the first n of the entry chains have their entries. */
  ghost predicate SetUpTo(t: Tables, c: Chain, n: nat, s: Tables)
    requires n <= |c.entryChains|
  {
    && s.Keys == t.Keys + {c.name}
    && s[c.name] == AddEach(RulesOf(t, c.name), false, c.rules)
    && (forall id | id in t && id != c.name ::
          s[id] == if id in c.entryChains[..n] then AddEach(t[id], c.prependEntry, Entries(c)) else t[id])
  }

  /** What a successful setup makes of the tables. */
  ghost predicate SetUp(t: Tables, c: Chain, s: Tables) {
    SetUpTo(t, c, |c.entryChains|, s)
  }

  /** What a setup that fails leaves: part of the rules, and part of the entries of each entry chain. */
  ghost predicate SetUpPart(t: Tables, c: Chain, s: Tables) {
    && t.Keys <= s.Keys <= t.Keys + {c.name}
    && PartAdded(RulesOf(t, c.name), RulesOf(s, c.name), false, c.rules)
    && (forall id | id in t && id != c.name && id in c.entryChains ::
          PartAdded(t[id], s[id], c.prependEntry, Entries(c)))
    && (forall id | id in t && id != c.name && id !in c.entryChains :: s[id] == t[id])
  }

  /** From t to s: the chain is flushed and the jumps are out of the first n of the entry chains, or `some` could not
      be listed. */
  ghost predicate TornDownTo(t: Tables, c: Chain, n: nat, some: bool, s: Tables)
    requires n <= |c.entryChains|
  {
    && s.Keys == t.Keys + {c.name} && s[c.name] == []
    && (forall id | id in t && id != c.name ::
          || s[id] == (if id in c.entryChains[..n] then NoJumps(t[id], c.name) else t[id])
          || (some && s[id] == t[id]))
  }

  /** What a successful teardown makes of the tables. */
  ghost predicate TornDown(t: Tables, c: Chain, s: Tables) {
    && s.Keys == t.Keys - {c.name}
    && (forall id | id in s :: s[id] == if id in c.entryChains then NoJumps(t[id], c.name) else t[id])
  }

  predicate Checked(t: Tables, c: Chain) {
    && c.name in t && (forall r | r in c.rules :: r in t[c.name])
    && (forall e, r | e in c.entryChains && r in Entries(c) :: e in t && r in t[e])
  }

  /** Setting up twice is setting up once. */
  lemma SetupIsIdempotent(t: Tables, c: Chain, s: Tables, s': Tables)
    requires Ready(t, c) && SetUp(t, c, s) && SetUp(s, c, s')
    ensures s' == s
  {
    assert c.entryChains[..|c.entryChains|] == c.entryChains;
    forall id | id in s' ensures s'[id] == s[id] {
      if id == c.name {
        AllAdded(RulesOf(t, id), false, c.rules);
        NothingToAdd(s[id], false, c.rules);
      } else if id in c.entryChains {
        AllAdded(t[id], c.prependEntry, Entries(c));
        NothingToAdd(s[id], c.prependEntry, Entries(c));
      }
    }
  }

  /** A setup that succeeds after one that failed, wherever that was, leaves what one setup would have left. */
  lemma RetryCompletes(t: Tables, c: Chain, m: Tables, s: Tables)
    requires WellFormed(c) && SetUpPart(t, c, m) && SetUp(m, c, s)
    requires forall e | e in c.entryChains :: e in t
    ensures SetUp(t, c, s)
  {
    hide AddEach;
    assert c.entryChains[..|c.entryChains|] == c.entryChains;
    AddAgain(RulesOf(t, c.name), RulesOf(m, c.name), false, c.rules);
    forall id | id in t && id != c.name
      ensures s[id] == if id in c.entryChains then AddEach(t[id], c.prependEntry, Entries(c)) else t[id]
    {
      if id in c.entryChains { AddAgain(t[id], m[id], c.prependEntry, Entries(c)); }
    }
  }

  lemma CheckSucceedsAfterSetup(t: Tables, c: Chain, s: Tables)
    requires Ready(t, c) && SetUp(t, c, s)
    ensures Checked(s, c)
  {
    assert c.entryChains[..|c.entryChains|] == c.entryChains;
    AllAdded(RulesOf(t, c.name), false, c.rules);
    forall id | id in c.entryChains ensures forall r | r in Entries(c) :: r in s[id] {
      AllAdded(t[id], c.prependEntry, Entries(c));
    }
  }

  /** Setup and teardown leave nothing behind: the result is what a teardown alone makes of the tables, which for a
      new chain that nothing jumps to is the tables as they were. */
  lemma TeardownUndoesSetup(t: Tables, c: Chain, s: Tables, s': Tables)
    requires Ready(t, c) && SetUp(t, c, s) && TornDown(s, c, s')
    ensures TornDown(t, c, s')
  {
    assert c.entryChains[..|c.entryChains|] == c.entryChains;
    forall id | id in s' && id in c.entryChains ensures s'[id] == NoJumps(t[id], c.name) {
      AddedJumpsGo(t[id], c.prependEntry, Entries(c), c.name);
    }
  }

  lemma TeardownOfNothing(t: Tables, c: Chain, s: Tables)
    requires WellFormed(c) && TornDown(t, c, s) && c.name !in t
    requires forall e, r | e in c.entryChains && e in t && r in t[e] :: !Jumps(r, c.name)
    ensures s == t
  {
    forall id | id in s ensures s[id] == t[id] {
      if id in c.entryChains { Unreferenced(t[id], c.name); }
    }
  }

  // ---------------------------------------------------------------- the kernel's nat table

  predicate AllAcceptable(rs: seq<Rule>) {
    forall r | r in rs :: Acceptable(r)
  }

  /** No chain and no rule is lost. */
  ghost predicate OnlyMore(t: Tables, s: Tables) {
    forall id | id in t :: id in s && forall r | r in t[id] :: r in s[id]
  }

  lemma SameIsMore(t: Tables, name: string)
    ensures OnlyMore(t, t) && (name !in t ==> OnlyMore(t, t[name := []]))
  {
  }

  lemma MoreTwice(a: Tables, b: Tables, c: Tables)
    requires OnlyMore(a, b) && OnlyMore(b, c)
    ensures OnlyMore(a, c)
  {
  }

  lemma FirstSetUp(t: Tables, c: Chain, s: Tables)
    requires s.Keys == t.Keys + {c.name} && s[c.name] == AddEach(RulesOf(t, c.name), false, c.rules)
    requires forall id | id in t && id != c.name :: s[id] == t[id]
    ensures SetUpTo(t, c, 0, s)
  {
  }

  lemma NextSetUp(t: Tables, c: Chain, n: nat, s: Tables, s': Tables)
    requires WellFormed(c) && n < |c.entryChains| && c.entryChains[n] in t && SetUpTo(t, c, n, s)
    requires s'.Keys == s.Keys && forall id | id in s && id != c.entryChains[n] :: s'[id] == s[id]
    requires s'[c.entryChains[n]] == AddEach(s[c.entryChains[n]], c.prependEntry, Entries(c))
    ensures SetUpTo(t, c, n + 1, s')
  {
    var e := c.entryChains[n];
    assert e in c.entryChains && e !in c.entryChains[..n] && c.entryChains[..n + 1] == c.entryChains[..n] + [e];
    hide AddEach;
  }

  lemma NothingSetUp(t: Tables, c: Chain)
    ensures SetUpPart(t, c, t)
  {
    hide PartAdded;
    NoneAdded(RulesOf(t, c.name), false, c.rules);
    forall id | id in t ensures PartAdded(t[id], t[id], c.prependEntry, Entries(c)) {
      NoneAdded(t[id], c.prependEntry, Entries(c));
    }
  }

  lemma RulesPartSetUp(t: Tables, c: Chain, s: Tables)
    requires s.Keys == t.Keys + {c.name} && forall id | id in t && id != c.name :: s[id] == t[id]
    requires PartAdded(RulesOf(t, c.name), s[c.name], false, c.rules)
    ensures SetUpPart(t, c, s)
  {
    hide PartAdded;
    forall id | id in t ensures PartAdded(t[id], t[id], c.prependEntry, Entries(c)) {
      NoneAdded(t[id], c.prependEntry, Entries(c));
    }
  }

  lemma EntriesPartSetUp(t: Tables, c: Chain, n: nat, s: Tables, s': Tables)
    requires WellFormed(c) && n < |c.entryChains| && c.entryChains[n] in t && SetUpTo(t, c, n, s)
    requires s'.Keys == s.Keys && forall id | id in s && id != c.entryChains[n] :: s'[id] == s[id]
    requires PartAdded(s[c.entryChains[n]], s'[c.entryChains[n]], c.prependEntry, Entries(c))
    ensures SetUpPart(t, c, s')
  {
    hide PartAdded, AddEach;
    var e := c.entryChains[n];
    assert e in c.entryChains && e !in c.entryChains[..n];
    WholeAdded(RulesOf(t, c.name), false, c.rules);
    forall id | id in t ensures PartAdded(t[id], AddEach(t[id], c.prependEntry, Entries(c)), c.prependEntry, Entries(c))
                        ensures PartAdded(t[id], t[id], c.prependEntry, Entries(c)) {
      WholeAdded(t[id], c.prependEntry, Entries(c));
      NoneAdded(t[id], c.prependEntry, Entries(c));
    }
  }

  lemma NextTornDown(t: Tables, c: Chain, n: nat, some: bool, s: Tables, s': Tables, unlisted: bool)
    requires WellFormed(c) && n < |c.entryChains| && TornDownTo(t, c, n, some, s) && s'.Keys == s.Keys
    requires forall id | id in s && id != c.entryChains[n] :: s'[id] == s[id]
    requires c.entryChains[n] in s ==>
               s'[c.entryChains[n]] == if unlisted then s[c.entryChains[n]] else NoJumps(s[c.entryChains[n]], c.name)
    ensures TornDownTo(t, c, n + 1, some || unlisted, s')
  {
    var e := c.entryChains[n];
    assert e in c.entryChains && e !in c.entryChains[..n];
    assert forall id :: id in c.entryChains[..n + 1] <==> id in c.entryChains[..n] || id == e by {
      assert c.entryChains[..n + 1] == c.entryChains[..n] + [e];
    }
    hide NoJumps, WellFormed;
  }

  predicate ReferencedElsewhere(t: Tables, c: Chain) {
    exists id | id in t && id != c.name && id !in c.entryChains :: exists r | r in t[id] :: Jumps(r, c.name)
  }

  lemma StillReferenced(t: Tables, c: Chain, s: Tables)
    requires TornDownTo(t, c, |c.entryChains|, false, s)
    requires exists id | id in s :: exists r | r in s[id] :: Jumps(r, c.name)
    ensures ReferencedElsewhere(t, c)
  {
    assert c.entryChains[..|c.entryChains|] == c.entryChains;
    var id :| id in s && exists r | r in s[id] :: Jumps(r, c.name);
    if id in t && id in c.entryChains { NoJumpsLeft(t[id], c.name); }
  }

  lemma FirstTornDown(t: Tables, c: Chain)
    ensures TornDownTo(t, c, 0, false, t[c.name := []])
  {
  }

  /** When nothing jumps to the chain any more, an entry chain that could not be listed had no jump to it. */
  lemma LastTornDown(t: Tables, c: Chain, some: bool, s: Tables)
    requires TornDownTo(t, c, |c.entryChains|, some, s) && forall id, r | id in s && r in s[id] :: !Jumps(r, c.name)
    ensures TornDown(t, c, s - {c.name})
  {
    assert c.entryChains[..|c.entryChains|] == c.entryChains;
    forall id | id in t && id != c.name && s[id] == t[id] ensures NoJumps(t[id], c.name) == t[id] {
      Unreferenced(t[id], c.name);
    }
    hide NoJumps;
  }

  /** Whatever jumps to the chain, the other rules of the entry chains stay in their order. */
  ghost predicate SameOthers(t: Tables, s: Tables, name: string) {
    forall id | id in t && id != name :: id in s && NoJumps(s[id], name) == NoJumps(t[id], name)
  }

  class Nat {
    var chains: Tables
    var faults: seq<bool>                 // which of the coming calls fail

    constructor (chains: Tables, faults: seq<bool>)
      ensures this.chains == chains && this.faults == faults
    {
      this.chains, this.faults := chains, faults;
    }

    method Fault() returns (failed: bool)
      modifies `faults
      ensures Failures(faults) + (if failed then 1 else 0) == Failures(old(faults))
    {
      if faults == [] { return false; }
      failed := faults[0];
      faults := faults[1..];
    }

    /** insertUnique */
    method InsertUnique(id: string, prepend: bool, r: Rule) returns (failed: bool)
      modifies this
      ensures !failed ==> id in old(chains) && chains == old(chains)[id := AddOnce(old(chains)[id], prepend, r)]
      ensures failed ==> chains == old(chains)
      ensures failed ==> Failures(faults) < Failures(old(faults)) || id !in chains || !Acceptable(r)
      ensures !failed ==> Acceptable(r) || r in old(chains)[id]
      ensures Failures(faults) <= Failures(old(faults))
    {
      failed := Fault();
      if failed { return; }
      if id in chains && r in chains[id] { return false; }
      if id !in chains || !Acceptable(r) { return true; }
      chains := chains[id := if prepend then [r] + chains[id] else chains[id] + [r]];
    }

    method AddRules(id: string, prepend: bool, rs: seq<Rule>) returns (failed: bool)
      modifies this
      ensures forall k :: k in chains <==> k in old(chains)
      ensures forall k | k in chains && k != id :: chains[k] == old(chains)[k]
      ensures OnlyMore(old(chains), chains)
      ensures !failed && rs != [] ==> id in chains
      ensures !failed ==> forall r | r in rs :: Acceptable(r) || r in old(RulesOf(chains, id))
      ensures !failed && id in chains ==> chains[id] == AddEach(old(chains)[id], prepend, rs)
      ensures failed ==> Failures(faults) < Failures(old(faults)) || id !in chains || !AllAcceptable(rs)
      ensures id in chains ==> PartAdded(old(chains)[id], chains[id], prepend, rs)
      ensures Failures(faults) <= Failures(old(faults))
    {
      for i := 0 to |rs|
        invariant forall k :: k in chains <==> k in old(chains)
        invariant forall k | k in chains && k != id :: chains[k] == old(chains)[k]
        invariant Failures(faults) <= Failures(old(faults))
        invariant i > 0 ==> id in chains
        invariant forall k | 0 <= k < i :: Acceptable(rs[k]) || rs[k] in old(RulesOf(chains, id))
        invariant id in chains ==> chains[id] == AddEach(old(chains)[id], prepend, rs[..i])
      {
        assert rs[..i + 1][..i] == rs[..i];
        if id in chains { AllAdded(old(chains)[id], prepend, rs[..i]); }
        failed := InsertUnique(id, prepend, rs[i]);
        if failed {
          if id in chains { PartIsMade(old(chains)[id], prepend, rs, i); }
          return;
        }
      }
      assert rs[..|rs|] == rs;
      if id in chains {
        AllAdded(old(chains)[id], prepend, rs);
        WholeAdded(old(chains)[id], prepend, rs);
      }
      failed := false;
    }

    /** setup: it only adds, and when it succeeds everything is there, each rule once; when it fails, a part is. */
    method Setup(c: Chain) returns (failed: bool)
      requires WellFormed(c) && forall e | e in c.entryChains :: e in chains
      modifies this
      ensures if failed then SetUpPart(old(chains), c, chains) else SetUp(old(chains), c, chains)
      ensures !failed ==> forall r | r in c.rules :: Acceptable(r) || r in old(RulesOf(chains, c.name))
      ensures OnlyMore(old(chains), chains)
      ensures failed ==>
                Failures(faults) < Failures(old(faults)) || !AllAcceptable(c.rules) || !AllAcceptable(Entries(c))
      ensures Failures(faults) <= Failures(old(faults))
    {
      hide AddEach, WellFormed, SetUpTo, AllAcceptable, OnlyMore, Acceptable, PartAdded, SetUpPart;
      SameIsMore(chains, c.name);
      failed := Fault();                                  // EnsureChain
      if failed { NothingSetUp(old(chains), c); return; }
      if c.name !in chains { chains := chains[c.name := []]; }
      ghost var t := chains;
      failed := AddRules(c.name, false, c.rules);
      MoreTwice(old(chains), t, chains);
      if failed { RulesPartSetUp(old(chains), c, chains); return; }
      FirstSetUp(old(chains), c, chains);
      for i := 0 to |c.entryChains|
        invariant SetUpTo(old(chains), c, i, chains) && OnlyMore(old(chains), chains)
        invariant chains.Keys == old(chains).Keys + {c.name} && Failures(faults) <= Failures(old(faults))
      {
        var e := c.entryChains[i];
        ghost var before := chains;
        failed := AddRules(e, c.prependEntry, Entries(c));
        MoreTwice(old(chains), before, chains);
        if failed { EntriesPartSetUp(old(chains), c, i, before, chains); return; }
        NextSetUp(old(chains), c, i, before, chains);
      }
      failed := false;
    }

    /** The loop of teardown over the listed rules of one entry chain. */
    method DeleteJumps(e: string, name: string) returns (failed: bool)
      requires e in chains
      modifies this
      ensures chains.Keys == old(chains).Keys && forall k | k in chains && k != e :: chains[k] == old(chains)[k]
      ensures NoJumps(chains[e], name) == NoJumps(old(chains)[e], name)
      ensures !failed ==> chains[e] == NoJumps(old(chains)[e], name)
      ensures Failures(faults) + (if failed then 1 else 0) <= Failures(old(faults))
    {
      var left;
      left, failed, faults := Delete(chains[e], name, faults);
      chains := chains[e := left];
    }

    /** teardown: flush the chain, delete every jump to it and the chain. Whatever the outcome, no other rule of an
        entry chain is lost or moved. */
    method Teardown(c: Chain) returns (failed: bool)
      requires WellFormed(c)
      modifies this
      ensures !failed ==> TornDown(old(chains), c, chains)
      ensures SameOthers(old(chains), chains, c.name)
      ensures failed ==> Failures(faults) < Failures(old(faults)) || ReferencedElsewhere(old(chains), c)
    {
      hide NoJumps, WellFormed, TornDownTo;
      failed := Fault();                                  // ClearChain
      if failed { return; }
      chains := chains[c.name := []];
      assert TornDownTo(old(chains), c, 0, false, chains) by { hide *; FirstTornDown(old(chains), c); }
      ghost var some := false;
      for i := 0 to |c.entryChains|
        invariant TornDownTo(old(chains), c, i, some, chains) && SameOthers(old(chains), chains, c.name)
        invariant Failures(faults) + (if some then 1 else 0) <= Failures(old(faults))
      {
        var e := c.entryChains[i];
        ghost var before := chains;
        var unlisted := Fault();                          // List; when it fails the chain is skipped
        if e in chains && !unlisted {
          failed := DeleteJumps(e, c.name);
          if failed { return; }
        }
        NextTornDown(old(chains), c, i, some, before, chains, unlisted);
        some := some || unlisted;
      }
      // DeleteChain is refused while another chain still jumps here
      failed := Fault();
      if exists id | id in chains :: exists r | r in chains[id] :: Jumps(r, c.name) {
        if !some { StillReferenced(old(chains), c, chains); }
        return true;
      }
      if failed { return; }
      LastTornDown(old(chains), c, some, chains);
      chains := chains - {c.name};
    }

    /** checkRule: a call that fails counts as a missing rule. */
    method CheckRule(id: string, r: Rule) returns (found: bool)
      modifies `faults
      ensures found ==> id in chains && r in chains[id]
      ensures !found ==> Failures(faults) < Failures(old(faults)) || id !in chains || r !in chains[id]
      ensures Failures(faults) <= Failures(old(faults))
    {
      var failed := Fault();
      found := !failed && id in chains && r in chains[id];
    }

    /** check */
    method Check(c: Chain) returns (ok: bool)
      modifies `faults
      ensures ok ==> Checked(chains, c)
      ensures !ok ==> Failures(faults) < Failures(old(faults)) || !Checked(chains, c)
    {
      var failed := Fault();                              // ChainExists
      if failed || c.name !in chains { return false; }
      for i := |c.rules| downto 0
        invariant Failures(faults) <= Failures(old(faults)) && forall k | i <= k < |c.rules| ::
                                                                 c.rules[k] in chains[c.name]
      {
        ok := CheckRule(c.name, c.rules[i]);
        if !ok { return; }
      }
      for n := 0 to |c.entryChains|
        invariant Failures(faults) <= Failures(old(faults))
        invariant forall k, r | 0 <= k < n && r in Entries(c) :: c.entryChains[k] in chains
                      && r in chains[c.entryChains[k]]
      {
        var e := c.entryChains[n];
        for i := |c.entryRules| downto 0
          invariant Failures(faults) <= Failures(old(faults))
          invariant forall k | i <= k < |c.entryRules| :: e in chains && Entries(c)[k] in chains[e]
        {
          var r := c.entryRules[i].(target := Jump(c.name));
          assert r == Entries(c)[i];
          ok := CheckRule(e, r);
          if !ok { assert e in c.entryChains && r in Entries(c); return; }
        }
      }
      return true;
    }
  }

  /** One DeleteRule for every listed jump, until one fails: what is left of the chain. */
  method Delete(listed: seq<Rule>, name: string, faults: seq<bool>) returns (left: seq<Rule>, failed: bool,
                rest: seq<bool>)
    ensures Failures(rest) + (if failed then 1 else 0) <= Failures(faults)
    ensures NoJumps(left, name) == NoJumps(listed, name)
    ensures !failed ==> left == NoJumps(listed, name)
  {
    left, rest := listed, faults;
    assert NoJumps(listed[..0], name) == [] && listed[0..] == listed;
    hide NoJumps, RemoveFirst, Jumps;
    for i := 0 to |listed|
      invariant left == NoJumps(listed[..i], name) + listed[i..] && Failures(rest) <= Failures(faults)
    {
      NextListed(listed, i, name);
      if Jumps(listed[i], name) {
        failed := rest != [] && rest[0];
        if rest != [] { rest := rest[1..]; }
        if failed { KeptOrder(listed, i, name); return; }
        left := RemoveFirst(left, listed[i]);
      }
    }
    AllListed(listed, name);
    failed := false;
  }

  /** The first rule equal to a listed jump is that jump: all jumps before it are gone. */
  lemma NextListed(listed: seq<Rule>, i: nat, name: string)
    requires i < |listed|
    ensures var now := NoJumps(listed[..i], name) + listed[i..];
            NoJumps(listed[..i + 1], name) + listed[i + 1..] ==
            if Jumps(listed[i], name) then RemoveFirst(now, listed[i]) else now
  {
    assert listed[..i + 1][..i] == listed[..i];
    NoJumpsLeft(listed[..i], name);
    assert NoJumps(listed[..i], name) + listed[i..] == NoJumps(listed[..i], name) + [listed[i]] + listed[i + 1..];
    if Jumps(listed[i], name) { RemoveThere(NoJumps(listed[..i], name), listed[i], listed[i + 1..]); }
  }

  lemma AllListed(listed: seq<Rule>, name: string)
    ensures NoJumps(listed[..|listed|], name) + listed[|listed|..] == NoJumps(listed, name)
    ensures NoJumps(NoJumps(listed, name), name) == NoJumps(listed, name)
  {
    assert listed[..|listed|] == listed;
    KeptOrder(listed, |listed|, name);
  }

  lemma KeptOrder(listed: seq<Rule>, i: nat, name: string)
    requires i <= |listed|
    ensures NoJumps(NoJumps(listed[..i], name) + listed[i..], name) == NoJumps(listed, name)
    ensures NoJumps(NoJumps(listed, name), name) == NoJumps(listed, name)
  {
    hide NoJumps;
    NoJumpsLeft(listed[..i], name);
    Unreferenced(NoJumps(listed[..i], name), name);
    NoJumpsConcat(NoJumps(listed[..i], name), listed[i..], name);
    NoJumpsConcat(listed[..i], listed[i..], name);
    assert listed == listed[..i] + listed[i..];
    NoJumpsLeft(listed, name);
    Unreferenced(NoJumps(listed, name), name);
  }
}
