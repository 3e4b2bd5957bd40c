/** The upgrade from the single pool of version 1. */
module Migration {
  import opened PodNetworks
  import opened Bolt
  import opened Coupling
  import opened ServerSteps

  function Upgraded(pn: PodNetwork, subnet: string, mac: string): PodNetwork {
    pn.(subnetId := subnet, mac := mac)
  }

  /** What both pools hold together when the entries `moved` of the old pool have been moved. */
  ghost predicate Moved(was: map<string, PodNetwork>, isNow: map<string, PodNetwork>, target: map<string, PodNetwork>,
                        result: map<string, PodNetwork>, subnet: string, mac: string) {
    && isNow.Keys <= was.Keys && (forall key | key in isNow :: isNow[key] == was[key])
    && result.Keys == target.Keys + (was.Keys - isNow.Keys)
    && (forall key | key in result :: result[key] ==
          if key in was && key !in isNow then was[key].(subnetId := subnet, mac := mac) else target[key])
  }

  lemma MoveOne(was: map<string, PodNetwork>, isNow: map<string, PodNetwork>, target: map<string, PodNetwork>,
                result: map<string, PodNetwork>, subnet: string, mac: string, key: string)
    requires Moved(was, isNow, target, result, subnet, mac) && key in isNow
    ensures Moved(was, isNow - {key}, target, result[key := Upgraded(isNow[key], subnet, mac)], subnet, mac)
    ensures |isNow - {key}| < |isNow| && (isNow - {key})[key := was[key]] == isNow
  {
    var rest, more := isNow - {key}, result[key := Upgraded(isNow[key], subnet, mac)];
    assert rest.Keys == isNow.Keys - {key};
    assert was.Keys - rest.Keys == (was.Keys - isNow.Keys) + {key};
    assert more.Keys == target.Keys + (was.Keys - rest.Keys);
    forall k | k in more
      ensures more[k] == if k in was && k !in rest then Upgraded(was[k], subnet, mac) else target[k]
    {
      assert k != key ==> k in result && (k in rest <==> k in isNow);
    }
    assert rest[key := was[key]] == isNow;
  }

  lemma MovedNone(was: map<string, PodNetwork>, target: map<string, PodNetwork>, subnet: string, mac: string)
    ensures Moved(was, was, target, target, subnet, mac)
  {
  }

  /** The migrated pool is one of the allocator's: every record sits under its key in the pool of its subnet, if the old
      records sat under their keys and the new pool was one before. */
  lemma MigratedPoolIsHomogeneous(was: map<string, PodNetwork>, isNow: map<string, PodNetwork>,
                                  target: map<string, PodNetwork>, result: map<string, PodNetwork>, subnet: string,
                                  mac: string)
    requires Moved(was, isNow, target, result, subnet, mac) && subnet != ""
    requires forall key | key in was :: key == ReservedKey(was[key]) && was[key].vpcIp != "" && '-' !in was[key].vpcIp
    requires forall key | key in target :: RecordFits(PoolName(subnet), key, target[key])
    ensures forall key | key in result :: RecordFits(PoolName(subnet), key, result[key])
  {
    forall key | key in result ensures RecordFits(PoolName(subnet), key, result[key]) {
      assert key in was && key !in isNow ==> ReservedKey(Upgraded(was[key], subnet, mac)) == ReservedKey(was[key]);
    }
  }

  /** How the databases answer in one round. */
  datatype Round = Round(readable: bool, deletes: bool, writes: bool)

  /** migrateV1BoltDB: pop every entry of the old pool and put it into the pool of the default subnet, under the same
      key. A failed pop stops with both pools complete; a failed put loses the one entry in hand. */
  method MigrateV1(oldPool: Bucket<PodNetwork>, newPool: Bucket<PodNetwork>, subnet: string, mac: string,
                   rounds: nat -> Round)
    returns (ok: bool, lost: Option<string>)
    requires oldPool != newPool
    modifies oldPool, newPool
    ensures ok ==> oldPool.entries == map[] && lost.None?
    ensures var n := |old(oldPool.entries)| - |oldPool.entries|;
            if ok then n == |old(oldPool.entries)|
            else if lost.None? then n >= 0 && !(rounds(n).readable && rounds(n).deletes)
            else n > 0 && !rounds(n - 1).writes
    ensures lost.None? ==>
              Moved(old(oldPool.entries), oldPool.entries, old(newPool.entries), newPool.entries, subnet, mac)
    ensures lost.Some? ==>
              && lost.value in old(oldPool.entries) && lost.value !in oldPool.entries
              && Moved(old(oldPool.entries), oldPool.entries[lost.value := old(oldPool.entries)[lost.value]],
                       old(newPool.entries), newPool.entries, subnet, mac)
  {
    MovedNone(oldPool.entries, newPool.entries, subnet, mac);
    hide Moved, Less;
    var i := 0;
    while true
      invariant i >= 0 && i + |oldPool.entries| == |old(oldPool.entries)|
      invariant Moved(old(oldPool.entries), oldPool.entries, old(newPool.entries), newPool.entries, subnet, mac)
      decreases |oldPool.entries|
    {
      ghost var before, target := oldPool.entries, newPool.entries;
      var Round(readable, deletes, writes) := rounds(i);
      i := i + 1;
      var popped := oldPool.Pop(readable, deletes);
      match popped {
        case EOF => return true, None;
        case PopError => return false, None;
        case Popped(kv) =>
          MoveOne(old(oldPool.entries), before, old(newPool.entries), target, subnet, mac, kv.key);
          EntryOfOld(old(oldPool.entries), before, old(newPool.entries), target, subnet, mac, kv.key);
          var put := newPool.Put(kv.key, Upgraded(kv.value, subnet, mac), writes);
          if !put { return false, Some(kv.key); }
      }
    }
  }

  lemma EntryOfOld(was: map<string, PodNetwork>, isNow: map<string, PodNetwork>, target: map<string, PodNetwork>,
                   result: map<string, PodNetwork>, subnet: string, mac: string, key: string)
    requires Moved(was, isNow, target, result, subnet, mac) && key in isNow
    ensures key in was && isNow[key] == was[key]
  {
  }
}
