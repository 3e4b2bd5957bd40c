/** The handlers of vip-controller, and the attaching write of ipamd, as loops over API calls.

    Between two calls of a handler the rest of the cluster may do anything: the next batch of `rounds` happens. Every
    call may fail, and a write that was carried out may go unanswered: the next of `calls` says so. */
module ClaimControllers {
  import opened Claims

  // ---------------------------------------------------------------- looking a pod up

  const STATIC_IP_NOTE := "network.beta.kubernetes.io/ucloud-statefulset-static-ip"

  datatype Pod = Pod(ownerKinds: seq<string>, annotations: map<string, string>, phase: string)

  datatype Lookup = Found(pod: Pod) | NotFound | LookupFailed

  function Lower(c: char): char {
    if 'A' <= c <= 'Z' then (c as int + 32) as char else c
  }

  /** strings.ToLower(val) == "true"; no letter outside ASCII becomes one of these four. */
  predicate IsTrue(val: string) {
    |val| == 4 && forall i | 0 <= i < 4 :: Lower(val[i]) == "true"[i]
  }

  /** A pod that keeps its address: a running member of a stateful set that did not opt out. */
  predicate Keeps(pod: Pod) {
    && "StatefulSet" in pod.ownerKinds
    && (STATIC_IP_NOTE in pod.annotations ==> IsTrue(pod.annotations[STATIC_IP_NOTE]))
    && pod.phase == "Running"
  }

  /** A running pod of a stateful set keeps its address unless its note says something else than "true", in capitals or
      not; a pod of another owner, or one that does not run, does not. */
  lemma KeepsIff(owners: seq<string>, phase: string, notes: map<string, string>, note: string)
    requires STATIC_IP_NOTE !in notes
    ensures Keeps(Pod(owners, notes, phase)) <==> "StatefulSet" in owners && phase == "Running"
    ensures Keeps(Pod(owners, notes["network.beta.kubernetes.io/ucloud-statefulset-static-ip" := note], phase)) <==>
              && "StatefulSet" in owners && phase == "Running"
              && |note| == 4 && note[0] in "tT" && note[1] in "rR" && note[2] in "uU" && note[3] in "eE"
  {
    if |note| == 4 {
      assert forall i | 0 <= i < 4 :: note[i] in ["tT", "rR", "uU", "eE"][i] <==> Lower(note[i]) == "true"[i];
    }
  }

  /** ensureStaticIpPodNotRunning */
  method EnsureStaticIpPodNotRunning(lookup: Lookup) returns (notRunning: bool, failed: bool)
    ensures failed <==> lookup.LookupFailed?
    ensures notRunning <==> lookup.NotFound? || (lookup.Found? && !Keeps(lookup.pod))
  {
    match lookup
    case NotFound => return true, false;
    case LookupFailed => return false, true;
    case Found(pod) =>
      var ownedByStatefulSet := false;
      for i := 0 to |pod.ownerKinds|
        invariant !ownedByStatefulSet && "StatefulSet" !in pod.ownerKinds[..i]
      {
        if pod.ownerKinds[i] == "StatefulSet" {
          ownedByStatefulSet := true;
          break;
        }
      }
      if !ownedByStatefulSet { return true, false; }
      if STATIC_IP_NOTE in pod.annotations && !IsTrue(pod.annotations[STATIC_IP_NOTE]) { return true, false; }
      return pod.phase != "Running", false;
  }

  predicate SeenIdle(lookup: Lookup) {
    lookup.NotFound? || (lookup.Found? && !Keeps(lookup.pod))
  }

  // ---------------------------------------------------------------- the API server

  /** The goroutine that collects detached claims; it is the only one that deletes claims. */
  const COLLECTOR: nat := 0

  predicate By(e: Event, w: nat) {
    match e
    case Read(v, _, _) => v == w
    case Write(v) => v == w
    case Clear(v, _) => v == w
    case Release(v) => v == w
    case GiveUp(v) => v == w
    case Delete(_) => w == COLLECTOR
    case _ => false
  }

  lemma OthersLeaveWork(s: State, e: Event, w: nat)
    requires Enabled(s, e) && !By(e, w)
    ensures w in Next(s, e).work <==> w in s.work
    ensures w in s.work ==> Next(s, e).work[w] == s.work[w]
  {
  }

  /** The changes worker w made in run[from..]: all of them are accepted writes with this intent, on these names. */
  ghost predicate OnlyMarks(run: seq<Event>, from: nat, w: nat, intent: Intent, names: seq<Name>) {
    forall i | from <= i < |run| && By(run[i], w) && !run[i].Read? && !run[i].GiveUp? ::
      MarkAt(run, i, w, intent, names)
  }

  ghost predicate MarkAt(run: seq<Event>, i: nat, w: nat, intent: Intent, names: seq<Name>)
    requires i < |run|
  {
    && run[i] == Write(w) && IsRun(Nothing, run[..i])
    && var s := After(Nothing, run[..i]);
    && w in s.work && s.work[w].Copy? && s.work[w].intent == intent && s.work[w].copy.name in names
    && Current(s, s.work[w])
  }

  lemma OnlyMarksMore(a: seq<Event>, b: seq<Event>, from: nat, mid: nat, w: nat, intent: Intent,
                      names: seq<Name>, more: seq<Name>)
    requires from <= mid <= |a| <= |b| && a == b[..|a|] && mid == |a|
    requires OnlyMarks(a, from, w, intent, names) && OnlyMarks(b, mid, w, intent, more)
    ensures OnlyMarks(b, from, w, intent, names + more)
  {
    hide IsRun, After;
    forall i | from <= i < |b| && By(b[i], w) && !b[i].Read? && !b[i].GiveUp?
      ensures MarkAt(b, i, w, intent, names + more)
    {
      if i < mid {
        assert MarkAt(a, i, w, intent, names);
        assert a[..i] == b[..i];
      } else {
        assert MarkAt(b, i, w, intent, more);
      }
    }
  }

  /** At some moment from `from` on there was no live claim of this name. */
  ghost predicate Absent(run: seq<Event>, from: nat, name: Name) {
    exists i | from <= i <= |run| :: AbsentAt(run, i, name)
  }

  ghost predicate AbsentAt(run: seq<Event>, i: nat, name: Name)
    requires i <= |run|
  {
    IsRun(Nothing, run[..i]) && !Live(After(Nothing, run[..i]), name)
  }

  /** Worker w stored the claim as intended. */
  ghost predicate Marked(run: seq<Event>, from: nat, w: nat, name: Name, intent: Intent) {
    exists i | from <= i < |run| :: MarkAt(run, i, w, intent, [name])
  }

  /** The copy that w read by run[i] is out of date when w is about to store it after run[..j]; the claim is there. */
  ghost predicate OvertakenAt(run: seq<Event>, i: nat, j: nat, w: nat, name: Name, intent: Intent)
    requires i < j <= |run|
  {
    && run[i] == Read(w, name, intent) && (forall k | i < k < j :: !By(run[k], w))
    && IsRun(Nothing, run[..i]) && Live(After(Nothing, run[..i]), name)
    && IsRun(Nothing, run[..j]) && Live(After(Nothing, run[..j]), name)
    && ClaimOf(After(Nothing, run[..i]), name).version != ClaimOf(After(Nothing, run[..j]), name).version
  }

  /** Tries of w, one after the other, each of which somebody overtook. */
  ghost predicate Overtaken(run: seq<Event>, from: nat, w: nat, name: Name, intent: Intent, tries: seq<(nat, nat)>) {
    forall k | 0 <= k < |tries| :: TryAt(run, from, w, name, intent, tries, k)
  }

  ghost predicate TryAt(run: seq<Event>, from: nat, w: nat, name: Name, intent: Intent, tries: seq<(nat, nat)>, k: nat)
    requires k < |tries|
  {
    && (if k == 0 then from else tries[k - 1].1) <= tries[k].0 < tries[k].1 <= |run|
    && OvertakenAt(run, tries[k].0, tries[k].1, w, name, intent)
  }

  ghost predicate FiveTimesOvertaken(run: seq<Event>, from: nat, w: nat, name: Name, intent: Intent) {
    exists tries :: |tries| == 5 && Overtaken(run, from, w, name, intent, tries)
  }

  /** Worker w stored the claim as intended, or it was absent, or somebody overtook w five times. */
  ghost predicate Handled(run: seq<Event>, from: nat, w: nat, name: Name, intent: Intent) {
    Absent(run, from, name) || Marked(run, from, w, name, intent) || FiveTimesOvertaken(run, from, w, name, intent)
  }

  /** A try is overtaken by an event of somebody else that gives the claim another version. */
  lemma SomebodyOvertook(run: seq<Event>, i: nat, j: nat, w: nat, name: Name, intent: Intent) returns (k: nat)
    requires i < j <= |run| && IsRun(Nothing, run) && OvertakenAt(run, i, j, w, name, intent)
    ensures i < k < j && !By(run[k], w) && IsRun(Nothing, run[..k]) && IsRun(Nothing, run[..k + 1])
    ensures var s, s', v := After(Nothing, run[..k]), After(Nothing, run[..k + 1]),
                            ClaimOf(After(Nothing, run[..i]), name).version;
            Live(s, name) && ClaimOf(s, name).version == v && !(Live(s', name) && ClaimOf(s', name).version == v)
  {
    hide Enabled, Next, IsRun, After, Live;
    var v := ClaimOf(After(Nothing, run[..i]), name).version;
    k := i + 1;
    Steps(run, i);
    ReadKeepsClaims(After(Nothing, run[..i]), w, name, intent);
    Steps(run, k);
    while Live(After(Nothing, run[..k + 1]), name) && ClaimOf(After(Nothing, run[..k + 1]), name).version == v
      invariant i < k < j && IsRun(Nothing, run[..k]) && IsRun(Nothing, run[..k + 1])
      invariant Live(After(Nothing, run[..k]), name) && ClaimOf(After(Nothing, run[..k]), name).version == v
      decreases j - k
    {
      k := k + 1;
      Steps(run, k);
    }
  }

  /** The claim was deleted, or it was absent. */
  ghost predicate DeletedOrAbsent(run: seq<Event>, from: nat, name: Name) {
    Absent(run, from, name) || exists i | from <= i < |run| :: run[i] == Delete(name)
  }

  lemma AbsentNow(run: seq<Event>, from: nat, name: Name)
    requires from <= |run| && IsRun(Nothing, run) && !Live(After(Nothing, run), name)
    ensures Absent(run, from, name)
  {
    assert run[..|run|] == run;
    assert AbsentAt(run, |run|, name);
  }

  lemma AbsentLater(a: seq<Event>, b: seq<Event>, from: nat, earlier: nat, name: Name)
    requires Absent(a, from, name) && |a| <= |b| && a == b[..|a|] && earlier <= from
    ensures Absent(b, earlier, name)
  {
    var i :| from <= i <= |a| && AbsentAt(a, i, name);
    assert a[..i] == b[..i];
    assert AbsentAt(b, i, name);
  }

  lemma MarkedLater(a: seq<Event>, b: seq<Event>, from: nat, earlier: nat, w: nat, name: Name, intent: Intent)
    requires Marked(a, from, w, name, intent) && |a| <= |b| && a == b[..|a|] && earlier <= from
    ensures Marked(b, earlier, w, name, intent)
  {
    hide IsRun, After;
    var i :| from <= i < |a| && MarkAt(a, i, w, intent, [name]);
    assert a[..i] == b[..i];
    assert MarkAt(b, i, w, intent, [name]);
  }

  lemma OvertakenLater(a: seq<Event>, b: seq<Event>, from: nat, earlier: nat, w: nat, name: Name, intent: Intent,
                       tries: seq<(nat, nat)>)
    requires Overtaken(a, from, w, name, intent, tries) && |a| <= |b| && a == b[..|a|] && earlier <= from
    ensures Overtaken(b, earlier, w, name, intent, tries)
  {
    hide IsRun, After;
    forall k | 0 <= k < |tries| ensures TryAt(b, earlier, w, name, intent, tries, k) {
      assert TryAt(a, from, w, name, intent, tries, k);
      assert a[..tries[k].0] == b[..tries[k].0] && a[..tries[k].1] == b[..tries[k].1];
    }
  }

  lemma HandledLater(a: seq<Event>, b: seq<Event>, from: nat, earlier: nat, w: nat, name: Name, intent: Intent)
    requires Handled(a, from, w, name, intent) && |a| <= |b| && a == b[..|a|] && earlier <= from
    ensures Handled(b, earlier, w, name, intent)
  {
    hide Absent, Marked, Overtaken;
    if Absent(a, from, name) {
      AbsentLater(a, b, from, earlier, name);
    } else if Marked(a, from, w, name, intent) {
      MarkedLater(a, b, from, earlier, w, name, intent);
    } else {
      var tries :| |tries| == 5 && Overtaken(a, from, w, name, intent, tries);
      OvertakenLater(a, b, from, earlier, w, name, intent, tries);
    }
  }

  lemma Steps(run: seq<Event>, k: nat)
    requires k < |run| && IsRun(Nothing, run)
    ensures IsRun(Nothing, run[..k]) && IsRun(Nothing, run[..k + 1]) && Enabled(After(Nothing, run[..k]), run[k])
    ensures After(Nothing, run[..k + 1]) == Next(After(Nothing, run[..k]), run[k])
  {
    hide Enabled, Next;
    RunPrefix(Nothing, run, k + 1);
    assert run[..k + 1][..k] == run[..k] && run[..k + 1][k] == run[k];
  }

  lemma ReadKeepsClaims(s: State, w: nat, name: Name, intent: Intent)
    requires Enabled(s, Read(w, name, intent))
    ensures Live(Next(s, Read(w, name, intent)), name)
    ensures ClaimOf(Next(s, Read(w, name, intent)), name) == ClaimOf(s, name)
  {
  }

  lemma DeletedLater(a: seq<Event>, b: seq<Event>, from: nat, earlier: nat, name: Name)
    requires DeletedOrAbsent(a, from, name) && |a| <= |b| && a == b[..|a|] && earlier <= from
    ensures DeletedOrAbsent(b, earlier, name)
  {
    hide Absent;
    if Absent(a, from, name) {
      AbsentLater(a, b, from, earlier, name);
    } else {
      var i :| from <= i < |a| && a[i] == Delete(name);
      assert b[i] == a[i];
    }
  }

  /** How a call goes, apart from what the object's version decides: as asked; refused or not delivered; or carried out
      without an answer to the caller. */
  datatype Call = Answered | Refused | Unheard

  function Failing(calls: seq<Call>): nat {
    if calls == [] then 0 else (if calls[0].Answered? then 0 else 1) + Failing(calls[1..])
  }

  predicate FirstFails(calls: seq<Call>) {
    calls != [] && !calls[0].Answered?
  }

  class ApiServer {
    var state: State
    var rounds: seq<seq<Event>>
    var calls: seq<Call>
    ghost var run: seq<Event>

    ghost predicate Valid()
      reads this
    {
      IsRun(Nothing, run) && state == After(Nothing, run)
    }

    constructor (rounds: seq<seq<Event>>, calls: seq<Call>)
      ensures Valid() && run == []
    {
      state, run, this.rounds, this.calls := Nothing, [], rounds, calls;
    }

    method NextCall() returns (call: Call)
      modifies `calls
      ensures !call.Answered? <==> FirstFails(old(calls))
      ensures Failing(calls) == Failing(old(calls)) - if call.Answered? then 0 else 1
    {
      if calls == [] { return Answered; }
      call := calls[0];
      calls := calls[1..];
    }

    method Do(e: Event)
      requires Valid() && Enabled(state, e)
      modifies `state, `run
      ensures Valid() && run == old(run) + [e] && state == Next(old(state), e)
    {
      Extend(Nothing, run, e);
      state := Next(state, e);
      run := run + [e];
    }

    /** What everybody but worker w does until w's next call. */
    method Others(w: nat)
      requires Valid()
      modifies `state, `rounds, `run
      ensures Valid() && |old(run)| <= |run| && old(run) == run[..|old(run)|]
      ensures forall i | |old(run)| <= i < |run| :: !By(run[i], w)
      ensures w in state.work <==> w in old(state).work
      ensures w in state.work ==> state.work[w] == old(state).work[w]
      ensures old(rounds) == [] ==> rounds == [] && run == old(run) && state == old(state)
    {
      if rounds == [] { return; }
      var round := rounds[0];
      rounds := rounds[1..];
      for i := 0 to |round|
        invariant Valid() && |old(run)| <= |run| && old(run) == run[..|old(run)|]
        invariant forall j | |old(run)| <= j < |run| :: !By(run[j], w)
        invariant w in state.work <==> w in old(state).work
        invariant w in state.work ==> state.work[w] == old(state).work[w]
      {
        if !By(round[i], w) && Enabled(state, round[i]) {
          OthersLeaveWork(state, round[i], w);
          Do(round[i]);
        }
      }
    }

    /** One read, change and update. A conflict, after a read, and a missing claim change nothing, and neither does an
        error, except that an update without an answer may have been stored. */
    method Try(w: nat, name: Name, intent: Intent) returns (outcome: Outcome)
      requires Valid() && (w in state.work ==> state.work[w].Copy?)
      modifies this
      ensures Valid() && |old(run)| <= |run| && old(run) == run[..|old(run)|]
      ensures w in state.work ==> state.work[w].Copy? && !Wrote(outcome)
      ensures OnlyMarks(run, |old(run)|, w, intent, if Wrote(outcome) then [name] else [])
      ensures Wrote(outcome) && Live(state, name) ==> ClaimOf(state, name).attached == intent.ToAttach?
      ensures Wrote(outcome) && !Live(state, name) ==> intent.ToDetach?
      ensures Wrote(outcome) ==> Marked(run, |old(run)|, w, name, intent)
      ensures outcome.Missing? ==> !Live(state, name) && Absent(run, |old(run)|, name)
      ensures outcome.Conflict? ==>
                && w in state.work
                && exists i | |old(run)| <= i < |run| :: OvertakenAt(run, i, |run|, w, name, intent)
      ensures old(rounds) == [] ==>
                rounds == [] && !outcome.Conflict? && (outcome.Missing? ==> !Live(old(state), name))
      ensures Failing(calls) <= Failing(old(calls)) - if outcome.Errored? then 1 else 0
    {
      hide Next, Enabled, By, Live, OnlyMarks, Current, IsRun, After, Absent, Marked, OvertakenAt, Failing;
      Others(w);
      NoMarks(run, |old(run)|, w, intent);
      var call := NextCall();                              // Get
      if !call.Answered? { return Errored(false); }
      if !Live(state, name) {
        AbsentNow(run, |old(run)|, name);
        return Missing;
      }
      assert Indexed(state) by { NothingIsFine(); RunKeepsInv(Nothing, run); }
      CanRead(state, w, name, intent);
      ReadTakesCopy(state, w, name, intent);
      ghost var before := run;
      Do(Read(w, name, intent));
      assert run[..|before|] == before;
      outcome := Update(w, name, intent, |old(run)|, |before|);
    }

    /** The second half of a try, with the copy that was read by run[at]. */
    method Update(w: nat, name: Name, intent: Intent, ghost from: nat, ghost at: nat) returns (outcome: Outcome)
      requires Valid() && from <= at && at + 1 == |run| && run[at] == Read(w, name, intent)
      requires forall i | from <= i < at :: !By(run[i], w)
      requires IsRun(Nothing, run[..at]) && Live(After(Nothing, run[..at]), name)
      requires w in state.work && state.work[w].Copy? && state.work[w].intent == intent
      requires state.work[w].copy == ClaimOf(After(Nothing, run[..at]), name) && state.work[w].copy.name == name
      requires Current(state, state.work[w])
      modifies this
      ensures Valid() && |old(run)| <= |run| && old(run) == run[..|old(run)|]
      ensures w in state.work ==> state.work[w].Copy? && !Wrote(outcome)
      ensures OnlyMarks(run, from, w, intent, if Wrote(outcome) then [name] else [])
      ensures Wrote(outcome) && Live(state, name) ==> ClaimOf(state, name).attached == intent.ToAttach?
      ensures Wrote(outcome) && !Live(state, name) ==> intent.ToDetach?
      ensures Wrote(outcome) ==> Marked(run, from, w, name, intent)
      ensures outcome.Missing? ==> !Live(state, name) && Absent(run, from, name)
      ensures outcome.Conflict? ==> w in state.work && OvertakenAt(run, at, |run|, w, name, intent)
      ensures old(rounds) == [] ==> rounds == [] && !outcome.Conflict? && !outcome.Missing?
      ensures Failing(calls) <= Failing(old(calls)) - if outcome.Errored? then 1 else 0
    {
      hide Next, Enabled, By, Live, OnlyMarks, Current, IsRun, After, Absent, Marked, OvertakenAt, Failing;
      Others(w);
      assert run[at] == Read(w, name, intent) && run[..at] == old(run)[..at];
      NoMarks(run, from, w, intent);
      var call := NextCall();
      if call.Refused? { return Errored(false); }
      if !Current(state, state.work[w]) {
        if call.Unheard? { return Errored(false); }
        if !Live(state, name) {
          AbsentNow(run, from, name);
          return Missing;
        }
        OldCopy(run, at, w, name, intent);
        return Conflict;
      }
      WriteMarks(state, w);
      ghost var before := run;
      Do(Write(w));
      OneMark(before, from, w, intent, name);
      return if call.Unheard? then Errored(true) else Stored;
    }

    /** markVPCIpClaimAttached and markVPCIpClaimDetached: five tries on conflict, and any other error ends it. When
        something was `stored`, as a success says and an unanswered update may hide, the claim is as intended at that
        moment (a detached one may be gone); otherwise this worker changed nothing. A failure means a missing claim,
        a failed call, or five tries each of which somebody overtook between the read and the update. */
    method Mark(w: nat, name: Name, intent: Intent) returns (ok: bool, ghost stored: bool)
      requires Valid() && w !in state.work
      modifies this
      ensures Valid() && w !in state.work && |old(run)| <= |run| && old(run) == run[..|old(run)|]
      ensures OnlyMarks(run, |old(run)|, w, intent, if stored then [name] else [])
      ensures stored && Live(state, name) ==> ClaimOf(state, name).attached == intent.ToAttach?
      ensures stored && !Live(state, name) ==> intent.ToDetach?
      ensures ok ==> stored
      ensures stored ==> Marked(run, |old(run)|, w, name, intent)
      ensures Handled(run, |old(run)|, w, name, intent) || Failing(calls) < Failing(old(calls))
      ensures !ok ==> !Live(state, name) || FiveTimesOvertaken(run, |old(run)|, w, name, intent)
                      || Failing(calls) < Failing(old(calls))
      ensures old(rounds) == [] && Failing(old(calls)) == 0 && Live(old(state), name) ==> ok
      ensures stored && !ok ==> Failing(calls) < Failing(old(calls))
      ensures Failing(calls) <= Failing(old(calls))
    {
      hide Next, OnlyMarks, IsRun, After, Enabled, Marked, Absent, Overtaken, OvertakenAt, Failing;
      assert OnlyMarks(run, |run|, w, intent, []) by { NoMarks(run, |run|, w, intent); }
      ghost var tries: seq<(nat, nat)> := [];
      NoTries(run, |run|, w, name, intent);
      for i := 0 to 5
        invariant Valid() && |old(run)| <= |run| && old(run) == run[..|old(run)|]
        invariant w in state.work ==> state.work[w].Copy?
        invariant OnlyMarks(run, |old(run)|, w, intent, [])
        invariant |tries| == i && Overtaken(run, |old(run)|, w, name, intent, tries)
        invariant i > 0 ==> tries[i - 1].1 <= |run|
        invariant old(rounds) == [] ==> i == 0 && rounds == [] && state == old(state)
        invariant Failing(calls) <= Failing(old(calls))
      {
        ghost var before := run;
        var outcome := Try(w, name, intent);
        ghost var marked: seq<Name> := if Wrote(outcome) then [name] else [];
        OnlyMarksMore(before, run, |old(run)|, |before|, w, intent, [], marked);
        OvertakenLater(before, run, |old(run)|, |old(run)|, w, name, intent, tries);
        assert [] + marked == marked;
        if Wrote(outcome) {
          MarkedLater(run, run, |before|, |old(run)|, w, name, intent);
          return outcome.Stored?, true;
        }
        if !outcome.Conflict? {
          if outcome.Missing? { AbsentLater(run, run, |before|, |old(run)|, name); }
          break;
        }
        ghost var at :| |before| <= at < |run| && OvertakenAt(run, at, |run|, w, name, intent);
        OneMore(run, |old(run)|, at, w, name, intent, tries);
        tries := tries + [(at, |run|)];
      }
      if w in state.work {
        ghost var before := run;
        GiveUpWork(state, w);
        Do(GiveUp(w));
        NoMarks(run, |before|, w, intent);
        if Handled(before, |old(run)|, w, name, intent) {
          HandledLater(before, run, |old(run)|, |old(run)|, w, name, intent);
        }
        OvertakenLater(before, run, |old(run)|, |old(run)|, w, name, intent, tries);
        ghost var none: seq<Name> := [];
        OnlyMarksMore(before, run, |old(run)|, |before|, w, intent, none, none);
        assert none + none == none;
      }
      return false, false;
    }
  }

  datatype Outcome = Stored | Conflict | Missing | Errored(wrote: bool)

  predicate Wrote(outcome: Outcome) {
    outcome.Stored? || outcome == Errored(true)
  }

  lemma CanRead(s: State, w: nat, name: Name, intent: Intent)
    requires Live(s, name) && (w in s.work ==> s.work[w].Copy?)
    ensures Enabled(s, Read(w, name, intent))
  {
  }

  lemma ReadTakesCopy(s: State, w: nat, name: Name, intent: Intent)
    requires Enabled(s, Read(w, name, intent)) && Indexed(s)
    ensures var s' := Next(s, Read(w, name, intent));
            && w in s'.work && s'.work[w].Copy? && s'.work[w].intent == intent
            && s'.work[w].copy == ClaimOf(s, name) && s'.work[w].copy.name == name && Current(s', s'.work[w])
  {
  }

  /** A copy that is out of date when it is about to be stored: somebody overtook the worker. */
  lemma OldCopy(run: seq<Event>, at: nat, w: nat, name: Name, intent: Intent)
    requires at < |run| && IsRun(Nothing, run) && run[at] == Read(w, name, intent)
    requires forall k | at < k < |run| :: !By(run[k], w)
    requires IsRun(Nothing, run[..at]) && Live(After(Nothing, run[..at]), name)
    requires var s := After(Nothing, run);
             && w in s.work && s.work[w].Copy? && !Current(s, s.work[w]) && Live(s, name)
             && s.work[w].copy == ClaimOf(After(Nothing, run[..at]), name) && s.work[w].copy.name == name
    ensures OvertakenAt(run, at, |run|, w, name, intent)
  {
    hide IsRun, After;
    assert run[..|run|] == run;
  }

  lemma NoTries(run: seq<Event>, from: nat, w: nat, name: Name, intent: Intent)
    ensures Overtaken(run, from, w, name, intent, [])
  {
  }

  lemma OneMore(run: seq<Event>, from: nat, i: nat, w: nat, name: Name, intent: Intent, tries: seq<(nat, nat)>)
    requires from <= i < |run| && Overtaken(run, from, w, name, intent, tries)
    requires tries != [] ==> tries[|tries| - 1].1 <= i
    requires OvertakenAt(run, i, |run|, w, name, intent)
    ensures Overtaken(run, from, w, name, intent, tries + [(i, |run|)])
  {
    hide OvertakenAt;
    var more := tries + [(i, |run|)];
    forall k | 0 <= k < |more| ensures TryAt(run, from, w, name, intent, more, k) {
      if k < |tries| { assert TryAt(run, from, w, name, intent, tries, k); }
    }
  }

  lemma GiveUpWork(s: State, w: nat)
    requires w in s.work
    ensures Enabled(s, GiveUp(w)) && w !in Next(s, GiveUp(w)).work && Next(s, GiveUp(w)).objects == s.objects
            && Next(s, GiveUp(w)).claims == s.claims
  {
  }

  /** A worker that only read and gave up marked nothing. */
  lemma NoMarks(run: seq<Event>, from: nat, w: nat, intent: Intent)
    requires forall i | from <= i < |run| && By(run[i], w) :: run[i].Read? || run[i].GiveUp?
    ensures OnlyMarks(run, from, w, intent, [])
  {
  }

  /** One accepted write after nothing but reads. */
  lemma OneMark(run: seq<Event>, from: nat, w: nat, intent: Intent, name: Name)
    requires IsRun(Nothing, run)
    requires forall i | from <= i < |run| && By(run[i], w) :: run[i].Read? || run[i].GiveUp?
    requires var s := After(Nothing, run);
             && w in s.work && s.work[w].Copy? && s.work[w].intent == intent && s.work[w].copy.name == name
             && Current(s, s.work[w])
    ensures OnlyMarks(run + [Write(w)], from, w, intent, [name])
    ensures from <= |run| ==> Marked(run + [Write(w)], from, w, name, intent)
  {
    assert (run + [Write(w)])[..|run|] == run;
    hide IsRun, After;
    assert MarkAt(run + [Write(w)], |run|, w, intent, [name]);
  }

  /** A write that passes the version check leaves the claim as intended. */
  lemma WriteMarks(s: State, w: nat)
    requires w in s.work && s.work[w].Copy? && Current(s, s.work[w])
    ensures Enabled(s, Write(w))
    ensures var s' := Next(s, Write(w));
            var name := s.work[w].copy.name;
            && w !in s'.work
            && (Live(s', name) ==> ClaimOf(s', name).attached == s.work[w].intent.ToAttach?)
            && (!Live(s', name) ==> s.work[w].intent.ToDetach?)
  {
  }

  // ---------------------------------------------------------------- ordinals of pods

  datatype Ordinal = Number(value: nat) | NotANumber

  /** What follows the last '-' of a name. */
  function LastSegment(s: string): string {
    if s == "" || s[|s| - 1] == '-' then "" else LastSegment(s[..|s| - 1]) + [s[|s| - 1]]
  }

  predicate Digits(s: string) {
    forall i | 0 <= i < |s| :: '0' <= s[i] <= '9'
  }

  function Value(s: string): nat
    requires Digits(s)
  {
    if s == "" then 0 else
      10 * Value(s[..|s| - 1]) + (s[|s| - 1] as int - '0' as int)
  }

  /** strconv.Atoi of the last segment, which holds no '-'. */
  function OrdinalOf(name: string): Ordinal {
    var last := LastSegment(name);
    var digits := if last != "" && last[0] == '+' then last[1..] else last;
    if digits != "" && Digits(digits) && Value(digits) < 0x8000_0000_0000_0000
    then Number(Value(digits))
    else NotANumber
  }

  function Decimal(n: nat): (s: string)
    ensures s != "" && Digits(s) && Value(s) == n
  {
    if n < 10 then ['0' + n as char] else
      var front := Decimal(n / 10);
      var s := front + ['0' + (n % 10) as char];
      assert s[..|s| - 1] == front;
      s
  }

  lemma {:induction false} LastSegmentOf(base: string, s: string)
    requires '-' !in s
    ensures LastSegment(base + "-" + s) == s
  {
    var all := base + "-" + s;
    if s != "" {
      assert all[..|all| - 1] == base + "-" + s[..|s| - 1];
      LastSegmentOf(base, s[..|s| - 1]);
    }
  }

  /** The claims of pod n of a stateful set carry ordinal n, unless it is too large for an int. */
  lemma OrdinalOfPod(base: string, n: nat)
    ensures OrdinalOf(base + "-" + Decimal(n)) == if n < 0x8000_0000_0000_0000 then Number(n) else NotANumber
  {
    assert Decimal(n)[0] in Decimal(n);
    LastSegmentOf(base, Decimal(n));
  }

  /** A last segment that is empty or holds anything but digits, a leading '+' apart, is no ordinal. */
  lemma NoOrdinal(base: string, segment: string)
    requires '-' !in segment
    requires segment == "" || exists i | 0 <= i < |segment| ::
                                !('0' <= segment[i] <= '9') && (i > 0 || segment[0] != '+')
    ensures OrdinalOf(base + "-" + segment).NotANumber?
  {
    LastSegmentOf(base, segment);
    if segment != "" {
      var i :| 0 <= i < |segment| && !('0' <= segment[i] <= '9') && (i > 0 || segment[0] != '+');
      if segment[0] == '+' { assert segment[1..][i - 1] == segment[i]; }
    }
  }

  // ---------------------------------------------------------------- the handlers

  datatype Retention = Never | For(seconds: int) | Unreadable

  /** A claim as a List call returned it, some time ago. */
  datatype Listed = Listed(name: Name, attached: bool, release: Retention, detachedAt: int)

  datatype StatefulSet = Replicas(n: int) | NoSts | StsError

  predicate Surplus(item: Listed, replicas: int, look: Name -> Lookup) {
    && item.attached && SeenIdle(look(item.name))
    && OrdinalOf(item.name.1).Number? && OrdinalOf(item.name.1).value > replicas - 1
  }

  /** The claim of pod n of a stateful set is detached by an update only if the set is scaled to n or fewer pods. */
  lemma SurplusOfPod(item: Listed, base: string, n: nat, replicas: int, look: Name -> Lookup)
    requires n < 0x8000_0000_0000_0000 && item.name.1 == base + "-" + Decimal(n)
    ensures Surplus(item, replicas, look) <==> item.attached && SeenIdle(look(item.name)) && n >= replicas
  {
    OrdinalOfPod(base, n);
  }

  predicate Expired(item: Listed, now: int) {
    item.release.For? && item.detachedAt + item.release.seconds < now
  }

  predicate Due(item: Listed, now: int, look: Name -> Lookup) {
    Expired(item, now) && SeenIdle(look(item.name))
  }

  predicate HasNoNumber(list: seq<Listed>) {
    exists item | item in list :: OrdinalOf(item.name.1).NotANumber?
  }

  /** onStsUpdate: detach the surplus claims in the order of the list; a name without an ordinal ends the handling. The
      claims that were `skipped` are no more than the calls that failed. */
  method OnStsUpdate(server: ApiServer, w: nat, list: seq<Listed>, sts: StatefulSet, look: Name -> Lookup)
      returns (asked: seq<Name>, failed: bool, ghost skipped: set<Name>)
    requires server.Valid() && w !in server.state.work
    modifies server
    ensures server.Valid() && |old(server.run)| <= |server.run|
    ensures OnlyMarks(server.run, |old(server.run)|, w, ToDetach, asked)
    ensures sts.Replicas? ==> forall name :: name in asked ==>
              exists item | item in list :: item.name == name && Surplus(item, sts.n, look)
    ensures sts.Replicas? && !failed ==> forall item | item in list && Surplus(item, sts.n, look) :: item.name in asked
    ensures sts.Replicas? && !FirstFails(old(server.calls)) ==>
              forall i | 0 <= i < |list| && Surplus(list[i], sts.n, look) && !HasNoNumber(list[..i]) ::
                list[i].name in asked
    ensures failed <==> FirstFails(old(server.calls)) || sts.StsError?
                        || (sts.Replicas? && exists item | item in list :: OrdinalOf(item.name.1).NotANumber?)
    ensures FirstFails(old(server.calls)) || !sts.Replicas? ==> asked == [] && server.run == old(server.run)
    ensures forall name | name in asked && name !in skipped ::
              Handled(server.run, |old(server.run)|, w, name, ToDetach)
    ensures |skipped| <= Failing(old(server.calls)) - Failing(server.calls)
  {
    hide OnlyMarks, IsRun, After, OrdinalOf, Handled, Failing, FirstFails;
    asked, skipped := [], {};
    assert OnlyMarks(server.run, |server.run|, w, ToDetach, []) by { NoMarks(server.run, |server.run|, w, ToDetach); }
    var call := server.NextCall();                         // List
    if !call.Answered? { return [], true, {}; }
    if !sts.Replicas? { return [], sts.StsError?, {}; }
    for i := 0 to |list|
      invariant server.Valid() && w !in server.state.work && |old(server.run)| <= |server.run|
      invariant OnlyMarks(server.run, |old(server.run)|, w, ToDetach, asked)
      invariant forall name | name in asked && name !in skipped ::
                  Handled(server.run, |old(server.run)|, w, name, ToDetach)
      invariant |skipped| <= Failing(old(server.calls)) - Failing(server.calls)
      invariant forall name :: name in asked ==>
                exists item | item in list :: item.name == name && Surplus(item, sts.n, look)
      invariant forall k | 0 <= k < i :: OrdinalOf(list[k].name.1).Number?
                    && (Surplus(list[k], sts.n, look) ==> list[k].name in asked)
    {
      var item := list[i];
      var ordinal := OrdinalOf(item.name.1);
      if ordinal.NotANumber? { return asked, true, skipped; }
      if ordinal.value > sts.n - 1 && item.attached {
        var notRunning, lookupFailed := EnsureStaticIpPodNotRunning(look(item.name));
        if !lookupFailed && notRunning {
          ghost var before := server.run;
          ghost var stored;
          var ok;
          ok, stored := server.Mark(w, item.name, ToDetach);
          MarkedOne(before, server.run, |old(server.run)|, w, ToDetach, asked, item.name, stored);
          skipped := AllHandled(before, server.run, |old(server.run)|, w, asked, skipped, item.name);
          asked := asked + [item.name];
        }
      }
    }
    failed := false;
  }

  lemma AllHandled(a: seq<Event>, b: seq<Event>, from: nat, w: nat, asked: seq<Name>, skipped: set<Name>, name: Name)
      returns (still: set<Name>)
    requires from <= |a| <= |b| && a == b[..|a|]
    requires forall n | n in asked && n !in skipped :: Handled(a, from, w, n, ToDetach)
    ensures still == if Handled(b, |a|, w, name, ToDetach) then skipped else skipped + {name}
    ensures forall n | n in asked + [name] && n !in still :: Handled(b, from, w, n, ToDetach)
  {
    hide Handled;
    still := if Handled(b, |a|, w, name, ToDetach) then skipped else skipped + {name};
    forall n | n in asked + [name] && n !in still ensures Handled(b, from, w, n, ToDetach) {
      if n in asked { HandledLater(a, b, from, from, w, n, ToDetach); }
      else { HandledLater(b, b, |a|, from, w, n, ToDetach); }
    }
  }

  lemma MarkedOne(a: seq<Event>, b: seq<Event>, from: nat, w: nat, intent: Intent, names: seq<Name>,
                  name: Name, stored: bool)
    requires from <= |a| <= |b| && a == b[..|a|]
    requires OnlyMarks(a, from, w, intent, names) && OnlyMarks(b, |a|, w, intent, if stored then [name] else [])
    ensures OnlyMarks(b, from, w, intent, names + [name])
  {
    OnlyMarksMore(a, b, from, |a|, w, intent, names, if stored then [name] else []);
    hide IsRun, After;
    forall i | from <= i < |b| && By(b[i], w) && !b[i].Read?
                  && !b[i].GiveUp? ensures MarkAt(b, i, w, intent, names + [name]) {
      assert MarkAt(b, i, w, intent, names + if stored then [name] else []);
    }
  }

  /** onStsDelete: detach every listed claim, running or not; nothing when they cannot be listed. */
  method OnStsDelete(server: ApiServer, w: nat, list: seq<Listed>)
      returns (asked: seq<Name>, failed: bool, ghost skipped: set<Name>)
    requires server.Valid() && w !in server.state.work
    modifies server
    ensures server.Valid() && |old(server.run)| <= |server.run|
    ensures OnlyMarks(server.run, |old(server.run)|, w, ToDetach, asked)
    ensures failed <==> FirstFails(old(server.calls))
    ensures failed ==> asked == [] && server.run == old(server.run)
    ensures !failed ==> |asked| == |list| && forall i | 0 <= i < |list| :: asked[i] == list[i].name
    ensures forall name | name in asked && name !in skipped ::
              Handled(server.run, |old(server.run)|, w, name, ToDetach)
    ensures |skipped| <= Failing(old(server.calls)) - Failing(server.calls)
  {
    hide OnlyMarks, IsRun, After, Handled, Failing, FirstFails;
    asked, skipped := [], {};
    assert OnlyMarks(server.run, |server.run|, w, ToDetach, []) by { NoMarks(server.run, |server.run|, w, ToDetach); }
    var call := server.NextCall();                         // List
    if !call.Answered? { return [], true, {}; }
    for i := 0 to |list|
      invariant server.Valid() && w !in server.state.work && |old(server.run)| <= |server.run|
      invariant OnlyMarks(server.run, |old(server.run)|, w, ToDetach, asked)
      invariant |asked| == i && forall k | 0 <= k < i :: asked[k] == list[k].name
      invariant forall name | name in asked && name !in skipped ::
                  Handled(server.run, |old(server.run)|, w, name, ToDetach)
      invariant |skipped| <= Failing(old(server.calls)) - Failing(server.calls)
    {
      ghost var before := server.run;
      ghost var stored;
      var ok;
      ok, stored := server.Mark(w, list[i].name, ToDetach);
      MarkedOne(before, server.run, |old(server.run)|, w, ToDetach, asked, list[i].name, stored);
      skipped := AllHandled(before, server.run, |old(server.run)|, w, asked, skipped, list[i].name);
      asked := asked + [list[i].name];
    }
    failed := false;
  }

  /** vipCheckAndClean: delete the claims that were detached long ago and whose pod does not run. The collector
      changes nothing else, and asks for every claim that is due, unless they cannot be listed; a failed deletion is
      only logged. */
  method VipCheckAndClean(server: ApiServer, list: seq<Listed>, now: int, look: Name -> Lookup)
      returns (asked: seq<Name>, ghost skipped: set<Name>)
    requires server.Valid()
    modifies server
    ensures server.Valid() && |old(server.run)| <= |server.run|
    ensures forall i | |old(server.run)| <= i < |server.run| && By(server.run[i], COLLECTOR) ::
              server.run[i].Delete? && server.run[i].name in asked
    ensures FirstFails(old(server.calls)) ==> asked == []
    ensures !FirstFails(old(server.calls)) ==>
              forall name :: name in asked <==> exists item | item in list :: item.name == name && Due(item, now, look)
    ensures forall name | name in asked && name !in skipped :: DeletedOrAbsent(server.run, |old(server.run)|, name)
    ensures |skipped| <= Failing(old(server.calls)) - Failing(server.calls)
  {
    hide IsRun, After, Enabled, Next, DeletedOrAbsent, Handled, Failing, FirstFails;
    asked, skipped := [], {};
    var call := server.NextCall();                         // List
    if !call.Answered? { return [], {}; }
    for i := 0 to |list|
      invariant server.Valid() && |old(server.run)| <= |server.run|
      invariant forall j | |old(server.run)| <= j < |server.run| && By(server.run[j], COLLECTOR) ::
                  server.run[j].Delete? && server.run[j].name in asked
      invariant forall name :: name in asked <==>
                exists item | item in list[..i] :: item.name == name && Due(item, now, look)
      invariant forall name | name in asked && name !in skipped :: DeletedOrAbsent(server.run, |old(server.run)|, name)
      invariant |skipped| <= Failing(old(server.calls)) - Failing(server.calls)
    {
      var item := list[i];
      assert list[..i + 1] == list[..i] + [item];
      if item.release.For? && item.detachedAt + item.release.seconds < now {
        var notRunning, lookupFailed := EnsureStaticIpPodNotRunning(look(item.name));
        if !lookupFailed && notRunning {
          ghost var before := server.run;
          Collect(server, item.name);
          skipped := AllDeleted(before, server.run, |old(server.run)|, asked, skipped, item.name);
          asked := asked + [item.name];
        }
      }
    }
    assert list[..|list|] == list;
  }

  /** The call that deletes one claim. */
  method Collect(server: ApiServer, name: Name)
    requires server.Valid()
    modifies server
    ensures server.Valid() && |old(server.run)| <= |server.run| && old(server.run) == server.run[..|old(server.run)|]
    ensures forall i | |old(server.run)| <= i < |server.run| && By(server.run[i], COLLECTOR) ::
              server.run[i] == Delete(name)
    ensures Failing(server.calls) <= Failing(old(server.calls))
    ensures DeletedOrAbsent(server.run, |old(server.run)|, name) || Failing(server.calls) < Failing(old(server.calls))
  {
    hide IsRun, After, Enabled, Next, DeletedOrAbsent, Failing, FirstFails;
    server.Others(COLLECTOR);
    var call := server.NextCall();
    if !call.Refused? {
      if Live(server.state, name) {
        LiveCanBeDeleted(server.state, name);
        DeletedNow(server.run, |old(server.run)|, name);
        server.Do(Delete(name));
      } else {
        AbsentIsFine(server.run, |old(server.run)|, name);
      }
    }
  }

  lemma DeletedNow(run: seq<Event>, from: nat, name: Name)
    requires from <= |run|
    ensures DeletedOrAbsent(run + [Delete(name)], from, name)
  {
    assert (run + [Delete(name)])[|run|] == Delete(name);
  }

  lemma AbsentIsFine(run: seq<Event>, from: nat, name: Name)
    requires from <= |run| && IsRun(Nothing, run) && !Live(After(Nothing, run), name)
    ensures DeletedOrAbsent(run, from, name)
  {
    AbsentNow(run, from, name);
  }

  lemma AllDeleted(a: seq<Event>, b: seq<Event>, from: nat, asked: seq<Name>, skipped: set<Name>, name: Name)
      returns (still: set<Name>)
    requires from <= |a| <= |b| && a == b[..|a|]
    requires forall n | n in asked && n !in skipped :: DeletedOrAbsent(a, from, n)
    ensures still == if DeletedOrAbsent(b, |a|, name) then skipped else skipped + {name}
    ensures forall n | n in asked + [name] && n !in still :: DeletedOrAbsent(b, from, n)
  {
    hide DeletedOrAbsent;
    still := if DeletedOrAbsent(b, |a|, name) then skipped else skipped + {name};
    forall n | n in asked + [name] && n !in still ensures DeletedOrAbsent(b, from, n) {
      if n in asked { DeletedLater(a, b, from, from, n); } else { DeletedLater(b, b, |a|, from, n); }
    }
  }

  lemma LiveCanBeDeleted(s: State, name: Name)
    requires Live(s, name)
    ensures Enabled(s, Delete(name))
  {
  }

  datatype ReleaseAnswer = ReleasedNow | WasReleased | NoClient | ReleaseFailed

  /** onVipDelete and releaseVPCIp, for a claim the API server removed: release its address unless its pod is seen
      to run. Without an API client the release is skipped and no error is reported. */
  method OnVipDelete(server: ApiServer, w: nat, uid: nat, lookup: Lookup, answer: ReleaseAnswer) returns (failed: bool)
    requires server.Valid() && w !in server.state.work && uid in server.state.objects && server.state.objects[uid].gone
    requires lookup.LookupFailed? || (SeenIdle(lookup) <==> server.state.objects[uid].name !in server.state.running)
    modifies server
    ensures server.Valid()
    ensures failed <==> !SeenIdle(lookup) || answer.ReleaseFailed?
    ensures SeenIdle(lookup) && (answer.ReleasedNow? || answer.WasReleased?) ==> uid !in server.state.objects
    ensures !(SeenIdle(lookup) && (answer.ReleasedNow? || answer.WasReleased?)) ==>
              forall i | |old(server.run)| <= i < |server.run| :: server.run[i] != Release(w)
  {
    hide IsRun, After, Next;
    var notRunning, lookupFailed := EnsureStaticIpPodNotRunning(lookup);
    if lookupFailed || !notRunning { return true; }
    ClearTakesWork(server.state, w, uid);
    server.Do(Clear(w, uid));
    server.Others(w);
    if (answer.ReleasedNow? || answer.WasReleased?) && uid in server.state.objects {
      ReleaseRemoves(server.state, w);
      server.Do(Release(w));
    } else {
      GiveUpWork(server.state, w);
      server.Do(GiveUp(w));
    }
    return answer.ReleaseFailed?;
  }

  lemma ClearTakesWork(s: State, w: nat, uid: nat)
    requires Enabled(s, Clear(w, uid))
    ensures Next(s, Clear(w, uid)).work == s.work[w := Cleared(uid)]
  {
  }

  lemma ReleaseRemoves(s: State, w: nat)
    requires Enabled(s, Release(w))
    ensures Next(s, Release(w)).objects == s.objects - {s.work[w].uid}
  {
  }
}
