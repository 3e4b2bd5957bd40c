/** The record that travels with every secondary IP, and its key in every database. */
module PodNetworks {
  /** The fields the allocator reads or writes. */
  datatype PodNetwork = PodNetwork(
    vpcIp: string, vpcId: string, subnetId: string, mac: string, recycleTime: int, recycled: bool)

  /** Database key of an IP: the VPC id, a dash, the address. */
  function ReservedKey(pn: PodNetwork): string {
    pn.vpcId + "-" + pn.vpcIp
  }

  /** What the VPC backend guarantees of every record it hands out: there is an address, without a
      dash in it, and the subnet is named. */
  predicate WellFormed(pn: PodNetwork) {
    '-' !in pn.vpcIp && pn.vpcIp != "" && pn.subnetId != ""
  }

  /** Two records share a key exactly when they name the same address of the same VPC,
      although VPC ids themselves contain dashes. */
  lemma ReservedKeyInjective(a: PodNetwork, b: PodNetwork)
    requires WellFormed(a) && WellFormed(b)
    ensures ReservedKey(a) == ReservedKey(b) <==> a.vpcIp == b.vpcIp && a.vpcId == b.vpcId
  {
    if ReservedKey(a) == ReservedKey(b) {
      if |a.vpcId| < |b.vpcId| { LongerVpcId(b, a); }
      if |b.vpcId| < |a.vpcId| { LongerVpcId(a, b); }
      var k, n := ReservedKey(a), |a.vpcId|;
      assert k[..n] == a.vpcId && k[n + 1..] == a.vpcIp;
      assert ReservedKey(b)[..n] == b.vpcId && ReservedKey(b)[n + 1..] == b.vpcIp;
    }
  }

  /** If one key splits in two ways, the dash of the later split lies in the other address. */
  lemma LongerVpcId(a: PodNetwork, b: PodNetwork)
    requires ReservedKey(a) == ReservedKey(b) && |b.vpcId| < |a.vpcId|
    ensures '-' in b.vpcIp
  {
    var k := ReservedKey(a);
    assert k[|a.vpcId|] == '-';
    assert ReservedKey(b)[|a.vpcId|] == b.vpcIp[|a.vpcId| - |b.vpcId| - 1];
  }
}
