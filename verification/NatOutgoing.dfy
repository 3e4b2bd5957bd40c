/** The ipset of pods whose outbound NAT is the NAT gateway's business, and its migration. */
module NatOutgoing {
  import opened Sequences

  /** A textual address as net.ParseIP reads it; To4 is nil for the last two. */
  datatype Addr = V4(n: nat) | V6(n: nat) | Unparsable

  datatype Record = NoRecord | Record(podNS: string, podName: string, podUID: string, vpcIP: Addr)

  datatype Pod = Pod(uid: string, annotations: map<string, string>)

  type PodKey = (string, string)

  const POD_NETWORKING_DISABLE := "network.kubernetes.io/ucloud-pod-networking-disable"
  const POD_NETWORKING_NAME := "network.kubernetes.io/ucloud-pod-networking-name"
  const DEFAULT_POD_NETWORKING := "default"

  /** Go's lookup in a map of annotations. */
  function Annotation(pod: Pod, key: string): string {
    if key in pod.annotations then pod.annotations[key] else ""
  }

  // ---------------------------------------------------------------- the desired set

  /** A record counts when its pod lives with the recorded UID, takes part in pod networking, and its policy, the
      default one unless named, exists and sends it through the NAT gateway; and when its address is an IPv4 one. */
  predicate Wanted(r: Record, pods: map<PodKey, Pod>, policies: map<string, bool>) {
    && r.Record? && r.vpcIP.V4? && (r.podNS, r.podName) in pods
    && var pod := pods[(r.podNS, r.podName)];
    && r.podUID in {"", pod.uid}
    && !OptedOut(pod) && PolicyOf(pod) in policies && policies[PolicyOf(pod)]
  }

  predicate OptedOut(pod: Pod) {
    var note := "network.kubernetes.io/ucloud-pod-networking-disable";
    note in pod.annotations && pod.annotations[note] == "true"
  }

  function PolicyOf(pod: Pod): string {
    var note := "network.kubernetes.io/ucloud-pod-networking-name";
    if note in pod.annotations && pod.annotations[note] != "" then pod.annotations[note] else "default"
  }

  function Desired(records: seq<Record>, pods: map<PodKey, Pod>, policies: map<string, bool>): set<Addr> {
    set r | r in records && Wanted(r, pods, policies) :: r.vpcIP
  }

  /** desiredNATGWOutgoingIPs */
  method DesiredIPs(records: seq<Record>, pods: map<PodKey, Pod>, policies: map<string,
                    bool>) returns (desired: set<Addr>)
    ensures desired == Desired(records, pods, policies)
  {
    desired := {};
    for i := 0 to |records|
      invariant desired == Desired(records[..i], pods, policies)
    {
      var r := records[i];
      assert records[..i + 1] == records[..i] + [r];
      if r.NoRecord? { continue; }
      if (r.podNS, r.podName) !in pods { continue; }
      var pod := pods[(r.podNS, r.podName)];
      if r.podUID != "" && r.podUID != pod.uid { continue; }
      if Annotation(pod, POD_NETWORKING_DISABLE) == "true" { continue; }
      var name := Annotation(pod, POD_NETWORKING_NAME);
      if name == "" { name := DEFAULT_POD_NETWORKING; }
      if name !in policies { continue; }
      if !policies[name] { continue; }
      if !r.vpcIP.V4? { continue; }
      desired := desired + {r.vpcIP};
    }
    assert records[..|records|] == records;
  }

  /** Neither the order of the records nor a repeated record matters. */
  lemma DesiredIgnoresOrder(a: seq<Record>, b: seq<Record>, pods: map<PodKey, Pod>, policies: map<string, bool>)
    requires forall r :: r in a <==> r in b
    ensures Desired(a, pods, policies) == Desired(b, pods, policies)
  {
    hide Wanted;
  }

  // ---------------------------------------------------------------- the kernel set

  function V4Only(s: set<Addr>): set<Addr> {
    set a | a in s && a.V4?
  }

  /** What separates a set from the desired one; other than IPv4 entries do not count. */
  function Gap(members: set<Addr>, desired: set<Addr>): set<Addr> {
    (V4Only(members) - desired) + (desired - V4Only(members))
  }

  /** Every step from history[from] on keeps the foreign entries and opens no gap. */
  ghost predicate Closing(history: seq<set<Addr>>, from: nat, desired: set<Addr>) {
    forall i | from < i < |history| ::
      && Gap(history[i], desired) <= Gap(history[i - 1], desired)
      && history[i] - V4Only(history[i]) == history[i - 1] - V4Only(history[i - 1])
  }

  lemma NothingYet(history: seq<set<Addr>>, desired: set<Addr>)
    requires history != []
    ensures Closing(history, |history| - 1, desired)
  {
  }

  lemma ClosingByAdding(history: seq<set<Addr>>, from: nat, desired: set<Addr>, ip: Addr, history': seq<set<Addr>>)
    requires history != [] && Closing(history, from, desired) && ip in desired && ip.V4?
    requires history' == history || history' == history + [history[|history| - 1] + {ip}]
    ensures Closing(history', from, desired)
    ensures var m := history[|history| - 1]; V4Only(m + {ip}) == V4Only(m) + {ip}
  {
  }

  lemma ClosingByDeleting(history: seq<set<Addr>>, from: nat, desired: set<Addr>, ip: Addr, history': seq<set<Addr>>)
    requires history != [] && Closing(history, from, desired) && ip !in desired && ip.V4?
    requires history' == history || history' == history + [history[|history| - 1] - {ip}]
    ensures Closing(history', from, desired)
    ensures var m := history[|history| - 1]; V4Only(m - {ip}) == V4Only(m) - {ip}
  {
  }

  class IpSet {
    var members: set<Addr>
    var faults: seq<bool>                 // which of the coming kernel calls fail
    ghost var history: seq<set<Addr>>     // the members after every call

    ghost predicate Valid()
      reads this
    {
      history != [] && history[|history| - 1] == members
    }

    constructor (members: set<Addr>, faults: seq<bool>)
      ensures Valid() && this.members == members && this.faults == faults
    {
      this.members, this.faults, history := members, faults, [members];
    }

    method Fault() returns (failed: bool)
      modifies `faults
      ensures Failures(faults) + (if failed then 1 else 0) == Failures(old(faults))
    {
      if faults == [] { return false; }
      failed := faults[0];
      faults := faults[1..];
    }

    /** syncNATGWOutgoingIP: says whether this very call added the address. */
    method Sync(ip: Addr, enabled: bool) returns (added: bool, failed: bool)
      requires Valid()
      modifies this
      ensures Valid() && history == if enabled && !failed then old(history) + [members] else old(history)
      ensures members == if enabled && !failed then old(members) + {ip} else old(members)
      ensures added <==> enabled && !failed && ip !in old(members)
      ensures enabled && !ip.V4? ==> failed
      ensures Failures(faults) + (if failed && ip.V4? then 1 else 0) <= Failures(old(faults))
      ensures failed ==> enabled
    {
      if !enabled { return false, false; }
      failed := Fault();                  // IpsetCreate, which leaves an existing set alone
      if failed || !ip.V4? { return false, true; }
      failed := Fault();                  // IpsetAdd
      if failed { return false, true; }
      added := ip !in members;            // it says so when the address is there already
      members := members + {ip};
      history := history + [members];
    }

    /** deleteNATGWOutgoingIP: an address that is not there is no error. */
    method Delete(ip: Addr) returns (failed: bool)
      requires Valid()
      modifies this
      ensures Valid() && history == if failed then old(history) else old(history) + [members]
      ensures members == if failed then old(members) else old(members) - {ip}
      ensures !ip.V4? ==> failed
      ensures Failures(faults) + (if failed && ip.V4? then 1 else 0) == Failures(old(faults))
    {
      if !ip.V4? { return true; }
      failed := Fault();
      if failed { return; }
      members := members - {ip};
      history := history + [members];
    }

    method AddAll(toAdd: set<Addr>, ghost desired: set<Addr>) returns (failed: bool)
      requires Valid() && toAdd <= desired && forall a | a in desired :: a.V4?
      modifies this
      ensures Valid() && |old(history)| <= |history| && old(history) == history[..|old(history)|]
      ensures Closing(history, |old(history)| - 1, desired)
      ensures !failed ==> members == old(members) + toAdd
      ensures Failures(faults) + (if failed then 1 else 0) <= Failures(old(faults))
    {
      hide Closing, Failures;
      NothingYet(history, desired);
      var todo := toAdd;
      while todo != {}
        invariant Valid() && |old(history)| <= |history| && old(history) == history[..|old(history)|]
        invariant Closing(history, |old(history)| - 1, desired)
        invariant todo <= toAdd && members == old(members) + (toAdd - todo)
        invariant Failures(faults) <= Failures(old(faults))
        decreases |todo|
      {
        var ip :| ip in todo;
        ghost var before := history;
        var added;
        added, failed := Sync(ip, true);
        ClosingByAdding(before, |old(history)| - 1, desired, ip, history);
        if failed { return; }
        todo := todo - {ip};
      }
      failed := false;
    }

    method DeleteAll(toDelete: set<Addr>, ghost desired: set<Addr>) returns (failed: bool)
      requires Valid() && toDelete !! desired && forall a | a in toDelete :: a.V4?
      modifies this
      ensures Valid() && |old(history)| <= |history| && old(history) == history[..|old(history)|]
      ensures Closing(history, |old(history)| - 1, desired)
      ensures !failed ==> members == old(members) - toDelete
      ensures Failures(faults) + (if failed then 1 else 0) <= Failures(old(faults))
    {
      hide Closing, Failures;
      NothingYet(history, desired);
      var todo := toDelete;
      while todo != {}
        invariant Valid() && |old(history)| <= |history| && old(history) == history[..|old(history)|]
        invariant Closing(history, |old(history)| - 1, desired)
        invariant todo <= toDelete && members == old(members) - (toDelete - todo)
        invariant Failures(faults) <= Failures(old(faults))
        decreases |todo|
      {
        var ip :| ip in todo;
        ghost var before := history;
        failed := Delete(ip);
        ClosingByDeleting(before, |old(history)| - 1, desired, ip, history);
        if failed { return; }
        todo := todo - {ip};
      }
      failed := false;
    }

    /** migrateLegacyNATGWOutgoingIPs: add what is missing, then delete what is not desired, each in any order. No
        step opens a gap to the desired set, whether the migration ends or not; a success closes it, and a run
        without faults, whatever an aborted one left behind, is a success. */
    method Migrate(desired: set<Addr>) returns (failed: bool)
      requires Valid() && forall a | a in desired :: a.V4?
      modifies this
      ensures Valid() && |old(history)| <= |history| && old(history) == history[..|old(history)|]
      ensures Closing(history, |old(history)| - 1, desired)
      ensures !failed ==> V4Only(members) == desired
      ensures Failures(faults) + (if failed then 1 else 0) <= Failures(old(faults))
    {
      hide Closing, Failures;
      NothingYet(history, desired);
      failed := Fault();                  // IpsetList
      if failed { return; }
      var current := V4Only(members);
      failed := AddAll(desired - current, desired);
      if failed { return; }
      ghost var middle := history;
      failed := DeleteAll(current - desired, desired);
      ClosingMore(middle, history, |old(history)| - 1, desired);
    }
  }

  lemma ClosingMore(a: seq<set<Addr>>, b: seq<set<Addr>>, from: nat, desired: set<Addr>)
    requires from < |a| <= |b| && a == b[..|a|]
    requires Closing(a, from, desired) && Closing(b, |a| - 1, desired)
    ensures Closing(b, from, desired)
  {
    forall i | from < i < |b| ensures Gap(b[i], desired) <= Gap(b[i - 1], desired)
                  && b[i] - V4Only(b[i]) == b[i - 1] - V4Only(b[i - 1]) {
      if i < |a| { assert b[i] == a[i] && b[i - 1] == a[i - 1]; }
    }
  }

  /** A closed gap is the migration's goal, for the IPv4 entries. */
  lemma NoGap(members: set<Addr>, desired: set<Addr>)
    ensures Gap(members, desired) == {} <==> V4Only(members) == desired
  {
    if Gap(members, desired) == {} {
      forall a ensures a in V4Only(members) <==> a in desired { assert a !in Gap(members, desired); }
    }
  }
}
