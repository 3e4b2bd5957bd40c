/** The databases of one node, and the places of the step system they stand for. */
module Coupling {
  import opened PodNetworks
  import opened Protocol
  import opened Footprints

  datatype CooldownItem = CooldownItem(network: PodNetwork, cooldownOver: int)

  type Pools = map<string, map<string, PodNetwork>>
  type CooldownSet = map<string, CooldownItem>

  // ---------------------------------------------------------------- pool names

  const POOL_DB_NAME := "cni-vpc-ip-pool"

  function PoolName(subnet: string): string {
    POOL_DB_NAME + "-" + subnet
  }

  function TrimPrefix(s: string, prefix: string): string {
    if prefix <= s then s[|prefix|..] else s
  }

  /** The subnet of a pool database, and whether it is the single pool of version 1. */
  function PoolSubnetId(key: string, defaultSubnet: string): (string, bool) {
    var rest := TrimPrefix(key, POOL_DB_NAME);
    if rest == "" then (defaultSubnet, true) else (TrimPrefix(rest, "-"), false)
  }

  /** The name of a pool determines its subnet, and only the old pool, or no name, reads as the default one. */
  lemma PoolNameRoundTrip(subnet: string, defaultSubnet: string, key: string)
    ensures PoolSubnetId(PoolName(subnet), defaultSubnet) == (subnet, false)
    ensures PoolSubnetId(key, defaultSubnet).1 <==> key in {POOL_DB_NAME, ""}
    ensures PoolSubnetId(key, defaultSubnet).1 ==> PoolSubnetId(key, defaultSubnet).0 == defaultSubnet
  {
    assert TrimPrefix(PoolName(subnet), POOL_DB_NAME) == "-" + subnet;
    assert TrimPrefix("-" + subnet, "-") == subnet;
    assert TrimPrefix(POOL_DB_NAME, POOL_DB_NAME) == "";
    if POOL_DB_NAME <= key && key[|POOL_DB_NAME|..] == "" { assert key == POOL_DB_NAME; }
  }

  lemma PoolNameInjective(a: string, b: string)
    requires PoolName(a) == PoolName(b)
    ensures a == b
  {
    PoolNameRoundTrip(a, "", "");
    PoolNameRoundTrip(b, "", "");
  }

  // ---------------------------------------------------------------- the coupling

  predicate InPool(pools: Pools, subnet: string, key: string) {
    PoolName(subnet) in pools && key in pools[PoolName(subnet)]
  }

  /** The databases of `node` hold exactly what the step system has at its places. */
  ghost predicate Coupled(node: string, pools: Pools, cooling: CooldownSet, s: State) {
    && (forall subnet, key :: Pool(node, subnet, key) in s.held <==> InPool(pools, subnet, key))
    && (forall subnet, key | Pool(node, subnet, key) in s.held ::
          s.held[Pool(node, subnet, key)].pn == pools[PoolName(subnet)][key])
    && (forall key :: Cooling(node, key) in s.held <==> key in cooling)
    && (forall key | Cooling(node, key) in s.held ::
          s.held[Cooling(node, key)] == Slot(cooling[key].network, cooling[key].cooldownOver))
  }

  predicate OnNode(p: Place, node: string) {
    (p.Pool? || p.Cooling?) && p.node == node
  }

  /** An event that touches no database of the node keeps the coupling. */
  lemma ElsewhereCoupled(node: string, pools: Pools, cooling: CooldownSet, s: State, e: Event)
    requires Coupled(node, pools, cooling, s) && Enabled(s, e)
    requires forall p | p in Footprint(s, e) :: !OnNode(p, node)
    ensures Coupled(node, pools, cooling, Next(s, e))
  {
    hide Enabled, Next;
    forall subnet, key
      ensures Pool(node, subnet, key) in Next(s, e).held <==> Pool(node, subnet, key) in s.held
      ensures Pool(node, subnet, key) in s.held ==>
                Next(s, e).held[Pool(node, subnet, key)] == s.held[Pool(node, subnet, key)]
    {
      assert OnNode(Pool(node, subnet, key), node);
      Frame(s, e, Pool(node, subnet, key));
    }
    forall key
      ensures Cooling(node, key) in Next(s, e).held <==> Cooling(node, key) in s.held
      ensures Cooling(node, key) in s.held ==> Next(s, e).held[Cooling(node, key)] == s.held[Cooling(node, key)]
    {
      assert OnNode(Cooling(node, key), node);
      Frame(s, e, Cooling(node, key));
    }
  }

  /** One place of the node changes, in the database and in the step system alike. */
  lemma PoolCoupled(node: string, pools: Pools, cooling: CooldownSet, s: State, s': State,
                    subnet: string, key: string, after: map<string, PodNetwork>)
    requires Coupled(node, pools, cooling, s) && PoolName(subnet) in pools
    requires forall p | OnNode(p, node) && p != Pool(node, subnet, key) ::
               (p in s'.held <==> p in s.held) && (p in s.held ==> s'.held[p] == s.held[p])
    requires forall k | k != key :: (k in after <==> k in pools[PoolName(subnet)])
                                    && (k in after ==> after[k] == pools[PoolName(subnet)][k])
    requires Pool(node, subnet, key) in s'.held <==> key in after
    requires key in after ==> s'.held[Pool(node, subnet, key)].pn == after[key]
    ensures Coupled(node, pools[PoolName(subnet) := after], cooling, s')
  {
    var pools' := pools[PoolName(subnet) := after];
    forall n, k
      ensures Pool(node, n, k) in s'.held <==> InPool(pools', n, k)
      ensures Pool(node, n, k) in s'.held ==> s'.held[Pool(node, n, k)].pn == pools'[PoolName(n)][k]
    {
      assert OnNode(Pool(node, n, k), node);
      if PoolName(n) == PoolName(subnet) { PoolNameInjective(n, subnet); }
      assert InPool(pools, n, k) <==> Pool(node, n, k) in s.held;
    }
    forall k
      ensures Cooling(node, k) in s'.held <==> k in cooling
      ensures k in cooling ==> s'.held[Cooling(node, k)] == Slot(cooling[k].network, cooling[k].cooldownOver)
    {
      assert OnNode(Cooling(node, k), node);
    }
  }

  lemma CoolingCoupled(node: string, pools: Pools, cooling: CooldownSet, s: State, s': State, key: string,
                       after: CooldownSet)
    requires Coupled(node, pools, cooling, s)
    requires forall p | OnNode(p, node) && p != Cooling(node, key) ::
               (p in s'.held <==> p in s.held) && (p in s.held ==> s'.held[p] == s.held[p])
    requires forall k | k != key :: (k in after <==> k in cooling) && (k in after ==> after[k] == cooling[k])
    requires Cooling(node, key) in s'.held <==> key in after
    requires key in after ==> s'.held[Cooling(node, key)] == Slot(after[key].network, after[key].cooldownOver)
    ensures Coupled(node, pools, after, s')
  {
    forall n, k
      ensures Pool(node, n, k) in s'.held <==> InPool(pools, n, k)
      ensures Pool(node, n, k) in s'.held ==> s'.held[Pool(node, n, k)].pn == pools[PoolName(n)][k]
    {
      assert OnNode(Pool(node, n, k), node);
    }
    forall k
      ensures Cooling(node, k) in s'.held <==> k in after
      ensures k in after ==> s'.held[Cooling(node, k)] == Slot(after[k].network, after[k].cooldownOver)
    {
      assert OnNode(Cooling(node, k), node);
    }
  }

  /** Outside its footprint an event changes no place of the node. */
  lemma RestOfNode(s: State, e: Event, node: string, q: Place)
    requires Enabled(s, e) && forall p | p in Footprint(s, e) && OnNode(p, node) :: p == q
    ensures forall p | OnNode(p, node) && p != q ::
              (p in Next(s, e).held <==> p in s.held) && (p in s.held ==> Next(s, e).held[p] == s.held[p])
  {
    hide Enabled, Next;
    forall p | OnNode(p, node) && p != q
      ensures (p in Next(s, e).held <==> p in s.held) && (p in s.held ==> Next(s, e).held[p] == s.held[p])
    {
      Frame(s, e, p);
    }
  }
}
