/** The Ipamd resources of the cluster: whom to borrow from, and which resources a node cleans up. */
module BorrowCandidates {

  /** A resource with the pool it stands for. */
  datatype Ipamd = Ipamd(name: string, node: string, subnet: string)

  type Identity = (string, string)

  function IdentityOf(r: Ipamd): Identity {
    (r.node, r.subnet)
  }

  /** getCanonicalIpamdName; the older name of a pool is the bare name of its node. */
  function CanonicalName(id: Identity): string {
    id.0 + "-" + id.1
  }

  /** Two resources stand for one pool exactly when they have the same node and subnet, which are its name. */
  lemma SamePool(a: Ipamd, b: Ipamd)
    ensures IdentityOf(a) == IdentityOf(b) <==> a.node == b.node && a.subnet == b.subnet
    ensures CanonicalName(IdentityOf(a)) == a.node + "-" + a.subnet
  {
  }

  lemma CanonicalIsNoAlias(id: Identity)
    ensures CanonicalName(id) != id.0
  {
    assert |CanonicalName(id)| > |id.0|;
  }

  // ---------------------------------------------------------------- choosing one resource per node

  function OfNode(rs: seq<Ipamd>, node: string): seq<Ipamd> {
    if rs == [] then [] else OfNode(rs[..|rs| - 1], node) + if rs[|rs| - 1].node == node then [rs[|rs| - 1]] else []
  }

  lemma {:induction false} OfNodeHolds(rs: seq<Ipamd>, node: string)
    ensures forall r :: r in OfNode(rs, node) <==> r in rs && r.node == node
  {
    if rs != [] {
      OfNodeHolds(rs[..|rs| - 1], node);
      assert rs == rs[..|rs| - 1] + [rs[|rs| - 1]];
    }
  }

  /** The resource with this name, or the first one. */
  function Named(rs: seq<Ipamd>, name: string): Ipamd
    requires rs != []
  {
    if exists r | r in rs :: r.name == name then First(rs, name) else rs[0]
  }

  function First(rs: seq<Ipamd>, name: string): (r: Ipamd)
    requires exists r | r in rs :: r.name == name
    ensures r in rs && r.name == name
  {
    if rs[0].name == name then rs[0] else
      assert rs == [rs[0]] + rs[1..];
      First(rs[1..], name)
  }

  function Candidate(rs: seq<Ipamd>, node: string): Ipamd
    requires OfNode(rs, node) != []
  {
    var own := OfNode(rs, node);
    Named(own, CanonicalName(IdentityOf(own[0])))
  }

  /** One candidate for each of these nodes. */
  ghost predicate Chosen(rs: seq<Ipamd>, filtered: seq<Ipamd>, nodes: set<string>) {
    && (forall i | 0 <= i < |filtered| :: filtered[i].node in nodes && OfNode(rs, filtered[i].node) != []
                                          && filtered[i] == Candidate(rs, filtered[i].node))
    && (forall node | node in nodes :: exists i | 0 <= i < |filtered| :: filtered[i].node == node)
    && (forall i, j | 0 <= i < j < |filtered| :: filtered[i].node != filtered[j].node)
  }

  lemma ChooseOne(rs: seq<Ipamd>, filtered: seq<Ipamd>, nodes: set<string>, r: Ipamd)
    requires Chosen(rs, filtered, nodes) && r.node !in nodes
    requires OfNode(rs, r.node) != [] && r == Candidate(rs, r.node)
    ensures Chosen(rs, filtered + [r], nodes + {r.node})
  {
    hide OfNode, Named;
    var more := filtered + [r];
    assert more[|filtered|] == r && forall i | 0 <= i < |filtered| :: more[i] == filtered[i];
  }

  /** filterBorrowCandidates: one resource of every node that has any, the canonical one if it is listed. */
  method FilterBorrowCandidates(rs: seq<Ipamd>) returns (filtered: seq<Ipamd>)
    ensures Chosen(rs, filtered, set r | r in rs :: r.node)
  {
    hide OfNode;
    var groups := GroupByNode(rs);
    filtered := [];
    var left := groups.Keys;
    hide Chosen, Candidate;
    NobodyChosen(rs);
    assert groups.Keys - left == {};
    while left != {}
      invariant left <= groups.Keys && Chosen(rs, filtered, groups.Keys - left)
      decreases |left|
    {
      var node :| node in left;
      var selected := Select(rs, node, groups[node]);
      ChooseOne(rs, filtered, groups.Keys - left, selected);
      assert groups.Keys - (left - {node}) == groups.Keys - left + {node};
      filtered := filtered + [selected];
      left := left - {node};
    }
    NodesOfGroups(rs, groups);
    assert groups.Keys - left == groups.Keys;
  }

  lemma NobodyChosen(rs: seq<Ipamd>)
    ensures Chosen(rs, [], {})
  {
  }

  lemma NodesOfGroups(rs: seq<Ipamd>, groups: map<string, seq<Ipamd>>)
    requires forall node :: OfNode(rs, node) == if node in groups then groups[node] else []
    requires forall node | node in groups :: groups[node] != []
    ensures groups.Keys == set r | r in rs :: r.node
  {
    hide OfNode;
    forall r | r in rs ensures r.node in groups { OfNodeHolds(rs, r.node); assert r in OfNode(rs, r.node); }
    forall node | node in groups ensures exists r | r in rs :: r.node == node {
      OfNodeHolds(rs, node);
      assert groups[node][0] in OfNode(rs, node);
    }
  }

  lemma OfNodeNext(rs: seq<Ipamd>, i: nat, node: string)
    requires i < |rs|
    ensures OfNode(rs[..i + 1], node) == OfNode(rs[..i], node) + if rs[i].node == node then [rs[i]] else []
  {
    assert rs[..i + 1][..i] == rs[..i];
  }

  method GroupByNode(rs: seq<Ipamd>) returns (groups: map<string, seq<Ipamd>>)
    ensures forall node :: OfNode(rs, node) == if node in groups then groups[node] else []
    ensures forall node | node in groups :: groups[node] != []
  {
    groups := map[];
    assert forall node :: OfNode(rs[..0], node) == [];
    hide OfNode;
    for i := 0 to |rs|
      invariant forall node :: OfNode(rs[..i], node) == if node in groups then groups[node] else []
      invariant forall node | node in groups :: groups[node] != []
    {
      var r := rs[i];
      forall node { OfNodeNext(rs, i, node); }
      groups := groups[r.node := (if r.node in groups then groups[r.node] else []) + [r]];
    }
    assert rs[..|rs|] == rs;
  }

  method Select(rs: seq<Ipamd>, node: string, own: seq<Ipamd>) returns (selected: Ipamd)
    requires own == OfNode(rs, node) && own != []
    ensures selected == Candidate(rs, node) && selected.node == node
  {
    OfNodeHolds(rs, node);
    selected := own[0];
    if |own| > 1 {
      var canonicalName := CanonicalName(IdentityOf(selected));
      for i := 0 to |own|
        invariant selected == own[0] && forall k | 0 <= k < i :: own[k].name != canonicalName
      {
        if own[i].name == canonicalName {
          FirstIs(own, i, canonicalName);
          return own[i];
        }
      }
    }
  }

  lemma {:induction false} FirstIs(rs: seq<Ipamd>, i: nat, name: string)
    requires i < |rs| && rs[i].name == name && forall k | 0 <= k < i :: rs[k].name != name
    ensures rs[i] in rs && First(rs, name) == rs[i]
  {
    if i > 0 {
      assert rs == [rs[0]] + rs[1..];
      FirstIs(rs[1..], i - 1, name);
    }
  }

  // ---------------------------------------------------------------- whom to ask

  /** An Ipamd resource with its status, as borrowIP lists it. */
  datatype Item = Item(ipamd: Ipamd, dry: bool)

  datatype NodeLookup = NodeFound | NodeMissing | NodeError

  /** A pool of the subnet on another node that is not known to be dry. */
  predicate Worthwhile(i: Item, self: string, subnet: string) {
    i.ipamd.node != self && !i.dry && i.ipamd.subnet == subnet
  }

  function Eligible(items: seq<Item>, self: string, subnet: string, nodes: string -> NodeLookup): seq<Ipamd> {
    if items == [] then [] else
      var i := items[|items| - 1];
      Eligible(items[..|items| - 1], self, subnet, nodes)
      + if Worthwhile(i, self, subnet) && nodes(i.ipamd.node).NodeFound? then [i.ipamd] else []
  }

  /** The first half of borrowIP: one candidate for each live node with a worthwhile pool. It fails when there is nobody
      else, nobody eligible, or a node that would be asked cannot be looked up. */
  method ListCandidates(items: seq<Item>, self: string, subnet: string, nodes: string -> NodeLookup)
    returns (failed: bool, candidates: seq<Ipamd>)
    ensures failed <==> |items| <= 1 || Eligible(items, self, subnet, nodes) == []
                        || exists i | i in items :: Worthwhile(i, self, subnet) && nodes(i.ipamd.node).NodeError?
    ensures !failed ==>
              var rs := Eligible(items, self, subnet, nodes);
              Chosen(rs, candidates, set r | r in rs :: r.node)
  {
    candidates := [];
    if |items| <= 1 { return true, []; }
    var ipamds: seq<Ipamd> := [];
    hide Chosen;
    for n := 0 to |items|
      invariant ipamds == Eligible(items[..n], self, subnet, nodes)
      invariant forall k | 0 <= k < n :: !(Worthwhile(items[k], self, subnet) && nodes(items[k].ipamd.node).NodeError?)
    {
      var item := items[n];
      assert items[..n + 1][..n] == items[..n];
      if item.ipamd.node == self { continue; }
      if item.dry { continue; }
      if item.ipamd.subnet != subnet { continue; }
      match nodes(item.ipamd.node) {
        case NodeMissing => continue;
        case NodeError => assert item in items; return true, [];
        case NodeFound => ipamds := ipamds + [item.ipamd];
      }
    }
    assert items[..|items|] == items;
    if |ipamds| == 0 { return true, []; }
    candidates := FilterBorrowCandidates(ipamds);
    failed := false;
  }

  // ---------------------------------------------------------------- cleaning up

  predicate UniqueNames(rs: seq<Ipamd>) {
    forall i, j | 0 <= i < |rs| && 0 <= j < |rs| && rs[i].name == rs[j].name :: i == j
  }

  predicate HasCanonical(rs: seq<Ipamd>, id: Identity) {
    exists r | r in rs :: IdentityOf(r) == id && r.name == CanonicalName(id)
  }

  /** What a cleanup removes: the resources of dead nodes, and on the nodes that clean up the bare alias of a pool that
      has its canonical resource. */
  predicate Removable(rs: seq<Ipamd>, nodes: set<string>, cleaning: set<string>, r: Ipamd) {
    r.node !in nodes || (r.node in cleaning && r.name == r.node && HasCanonical(rs, IdentityOf(r)))
  }

  predicate Listed(all: seq<Ipamd>, byName: map<string, Ipamd>) {
    forall r | r in all :: r.name in byName && byName[r.name] == r
  }

  /** A listing of everything the API server has. */
  predicate Listing(all: seq<Ipamd>, byName: map<string, Ipamd>) {
    UniqueNames(all) && Listed(all, byName) && forall name | name in byName :: byName[name] in all
  }

  /** Resources were only deleted, and only removable ones of the listing. */
  ghost predicate Shrunk(all: seq<Ipamd>, before: map<string, Ipamd>, after: map<string, Ipamd>,
                         nodes: set<string>, cleaning: set<string>) {
    && (forall name | name in after :: name in before && after[name] == before[name])
    && (forall name | name in before && name !in after ::
          exists r | r in all :: r.name == name && Removable(all, nodes, cleaning, r))
  }

  lemma RemainsUnlessRemovable(all: seq<Ipamd>, before: map<string, Ipamd>, after: map<string, Ipamd>,
                               nodes: set<string>, cleaning: set<string>, r: Ipamd)
    requires UniqueNames(all) && Listed(all, before) && Shrunk(all, before, after, nodes, cleaning)
    requires r in all && !Removable(all, nodes, cleaning, r)
    ensures r.name in after && after[r.name] == r
  {
    forall s | s in all && s.name == r.name ensures s == r { SameName(all, r, s); }
    hide UniqueNames, Removable;
  }

  /** Every pool of a live node that was listed still has a resource. */
  ghost predicate PoolsKept(all: seq<Ipamd>, after: map<string, Ipamd>, nodes: set<string>) {
    forall r | r in all && r.node in nodes ::
      exists s | s in all :: s.name in after && after[s.name] == s && IdentityOf(s) == IdentityOf(r)
  }

  /** A pool of a live node never loses its last resource. */
  lemma CleanupKeepsPools(all: seq<Ipamd>, before: map<string, Ipamd>, after: map<string, Ipamd>,
                          nodes: set<string>, cleaning: set<string>)
    requires UniqueNames(all) && Listed(all, before) && Shrunk(all, before, after, nodes, cleaning)
    ensures PoolsKept(all, after, nodes)
  {
    forall r | r in all && r.node in nodes
      ensures exists s | s in all :: s.name in after && after[s.name] == s && IdentityOf(s) == IdentityOf(r)
    {
      var s := r;
      CanonicalIsNoAlias(IdentityOf(r));
      if Removable(all, nodes, cleaning, r) {
        s :| s in all && IdentityOf(s) == IdentityOf(r) && s.name == CanonicalName(IdentityOf(r));
      }
      RemainsUnlessRemovable(all, before, after, nodes, cleaning, s);
    }
  }

  /** What of a list is still there. */
  function Remaining(list: seq<Ipamd>, after: map<string, Ipamd>): seq<Ipamd> {
    if list == [] then [] else
      Remaining(list[..|list| - 1], after) + if list[|list| - 1].name in after then [list[|list| - 1]] else []
  }

  lemma {:induction false} RemainingHolds(list: seq<Ipamd>, after: map<string, Ipamd>)
    ensures forall r :: r in Remaining(list, after) <==> r in list && r.name in after
  {
    if list != [] {
      RemainingHolds(list[..|list| - 1], after);
      assert list == list[..|list| - 1] + [list[|list| - 1]];
    }
  }

  /** A list of resources of one subnet that has lost no canonical one, as borrowIP makes it, with some of this node. */
  predicate Candidates(list: seq<Ipamd>, all: seq<Ipamd>, subnet: string, node: string) {
    && (forall r | r in list :: r in all && r.subnet == subnet)
    && (HasCanonical(all, (node, subnet)) ==> HasCanonical(list, (node, subnet)))
    && OfNode(list, node) != []
  }

  /** Whoever lists candidates finds the same one for every live node as before. */
  ghost predicate CandidatesKept(all: seq<Ipamd>, after: map<string, Ipamd>, nodes: set<string>) {
    forall list, subnet, node | Candidates(list, all, subnet, node) && node in nodes ::
      OfNode(Remaining(list, after), node) != [] && Candidate(Remaining(list, after), node) == Candidate(list, node)
  }

  /** Cleaning up, by any nodes, changes nobody's candidate. */
  lemma CleanupKeepsCandidates(all: seq<Ipamd>, before: map<string, Ipamd>, after: map<string, Ipamd>,
                               nodes: set<string>, cleaning: set<string>)
    requires UniqueNames(all) && Listed(all, before) && Shrunk(all, before, after, nodes, cleaning)
    ensures CandidatesKept(all, after, nodes)
  {
    hide Shrunk, UniqueNames, Candidate, OfNode;
    forall list, subnet, node | Candidates(list, all, subnet, node) && node in nodes
      ensures OfNode(Remaining(list, after), node) != []
           && Candidate(Remaining(list, after), node) == Candidate(list, node)
    {
      SameCandidate(list, all, before, after, nodes, cleaning, subnet, node);
    }
  }

  lemma SameCandidate(list: seq<Ipamd>, all: seq<Ipamd>, before: map<string, Ipamd>, after: map<string, Ipamd>,
                      nodes: set<string>, cleaning: set<string>, subnet: string, node: string)
    requires UniqueNames(all) && Listed(all, before) && Shrunk(all, before, after, nodes, cleaning)
    requires Candidates(list, all, subnet, node) && node in nodes
    ensures OfNode(Remaining(list, after), node) != []
         && Candidate(Remaining(list, after), node) == Candidate(list, node)
  {
    var rest, id := Remaining(list, after), (node, subnet);
    RemainingHolds(list, after);
    OfNodeHolds(list, node);
    OfNodeHolds(rest, node);
    CanonicalIsNoAlias(id);
    hide Shrunk, UniqueNames, OfNode, Remaining;
    if HasCanonical(list, id) {
      var c :| c in list && IdentityOf(c) == id && c.name == CanonicalName(id);
      RemainsUnlessRemovable(all, before, after, nodes, cleaning, c);
      assert c in OfNode(list, node) && c in OfNode(rest, node);
      SameName(all, c, Candidate(list, node));
      SameName(all, c, Candidate(rest, node));
    } else {
      assert !HasCanonical(all, id);
      forall r | r in list && r.node == node ensures r.name in after {
        RemainsUnlessRemovable(all, before, after, nodes, cleaning, r);
      }
      NothingOfNodeRemoved(list, after, node);
    }
  }

  lemma SameName(all: seq<Ipamd>, a: Ipamd, b: Ipamd)
    requires UniqueNames(all) && a in all && b in all && a.name == b.name
    ensures a == b
  {
  }

  lemma {:induction false} NothingOfNodeRemoved(list: seq<Ipamd>, after: map<string, Ipamd>, node: string)
    requires forall r | r in list && r.node == node :: r.name in after
    ensures OfNode(Remaining(list, after), node) == OfNode(list, node)
  {
    if list != [] {
      var front, r := list[..|list| - 1], list[|list| - 1];
      NothingOfNodeRemoved(front, after, node);
      var kept := Remaining(front, after);
      if r.name in after {
        assert (kept + [r])[..|kept|] == kept && Remaining(list, after) == kept + [r];
      } else {
        assert Remaining(list, after) == kept && r.node != node;
      }
    }
  }

  /** Resources were only deleted, and none whose deletion is refused. */
  predicate Fewer(before: map<string, Ipamd>, after: map<string, Ipamd>, refused: set<string>) {
    && (forall name | name in after :: name in before && after[name] == before[name])
    && (forall name | name in before && name in refused :: name in after)
  }

  /** A resource that is there and removable, for a listing of what is there. */
  ghost predicate Leftover(byName: map<string, Ipamd>, nodes: set<string>, cleaning: set<string>, name: string) {
    name in byName
    && (byName[name].node !in nodes
        || (byName[name].node in cleaning && name == byName[name].node
            && exists other | other in byName ::
                 IdentityOf(byName[other]) == IdentityOf(byName[name])
                   && other == CanonicalName(IdentityOf(byName[name]))))
  }

  lemma LeftoverIsRemovable(all: seq<Ipamd>, byName: map<string, Ipamd>, nodes: set<string>, cleaning: set<string>,
                            name: string)
    requires Listing(all, byName)
    requires forall other | other in byName :: byName[other].name == other
    ensures Leftover(byName, nodes, cleaning, name) <==> name in byName && Removable(all, nodes, cleaning, byName[name])
  {
    if name in byName && Removable(all, nodes, cleaning, byName[name]) && byName[name].node in nodes {
      var c :| c in all && IdentityOf(c) == IdentityOf(byName[name])
        && c.name == CanonicalName(IdentityOf(byName[name]));
      assert byName[c.name] == c;
    }
  }

  /** What is left over after a cleanup was left over before, and its deletion was refused. */
  lemma OnlyRefusedLeft(all: seq<Ipamd>, before: map<string, Ipamd>, after: map<string, Ipamd>, nodes: set<string>,
                        cleaning: set<string>, refused: set<string>)
    requires Listing(all, before) && Shrunk(all, before, after, nodes, cleaning)
    requires forall other | other in before :: before[other].name == other
    requires forall r | r in all && Removable(all, nodes, cleaning, r) && r.name !in refused :: r.name !in after
    ensures forall name | Leftover(after, nodes, cleaning, name) :: name in refused
  {
    hide UniqueNames;
    forall name | Leftover(after, nodes, cleaning, name) ensures name in refused {
      assert Leftover(before, nodes, cleaning, name);
      LeftoverIsRemovable(all, before, nodes, cleaning, name);
    }
  }

  /** A cleanup that finds only what is refused changes nothing. */
  lemma NothingToClean(all: seq<Ipamd>, before: map<string, Ipamd>, after: map<string, Ipamd>, nodes: set<string>,
                       cleaning: set<string>, refused: set<string>)
    requires Listing(all, before) && Shrunk(all, before, after, nodes, cleaning)
    requires forall other | other in before :: before[other].name == other
    requires Fewer(before, after, refused)
    requires forall name | Leftover(before, nodes, cleaning, name) :: name in refused
    ensures after == before
  {
    hide UniqueNames, Leftover, Removable;
    forall name | name in before ensures name in after {
      if name !in after {
        var r :| r in all && r.name == name && Removable(all, nodes, cleaning, r);
        LeftoverIsRemovable(all, before, nodes, cleaning, name);
      }
    }
  }

  // ---------------------------------------------------------------- recycleStatus

  /** The API server's Ipamd resources by name; it refuses to delete some. */
  class Resources {
    const refused: set<string>
    var byName: map<string, Ipamd>

    /** The API server keeps a resource under its name. */
    predicate Valid()
      reads this
    {
      forall name | name in byName :: byName[name].name == name
    }

    constructor (byName: map<string, Ipamd>, refused: set<string>)
      requires forall name | name in byName :: byName[name].name == name
      ensures Valid() && this.byName == byName && this.refused == refused
    {
      this.byName, this.refused := byName, refused;
    }

    /** A resource that is not there any more is no failure, and a failure is only logged. */
    method Delete(name: string)
      modifies this
      ensures byName == if name in refused then old(byName) else old(byName) - {name}
    {
      if name !in refused { byName := byName - {name}; }
    }

    /** The first loop of recycleStatus: resources of dead nodes go, the others are grouped by pool. */
    method DeleteDead(all: seq<Ipamd>, nodes: set<string>) returns (groups: map<Identity, seq<Ipamd>>)
      requires UniqueNames(all) && Listed(all, byName)
      modifies this
      ensures Shrunk(all, old(byName), byName, nodes, {}) && Fewer(old(byName), byName, refused)
      ensures forall r | r in all && r.node !in nodes && r.name !in refused :: r.name !in byName
      ensures Grouped(all, nodes, groups)
    {
      groups := map[];
      for i := 0 to |all|
        invariant Shrunk(all, old(byName), byName, nodes, {}) && Fewer(old(byName), byName, refused)
        invariant forall k | 0 <= k < i && all[k].node !in nodes && all[k].name !in refused :: all[k].name !in byName
        invariant Grouped(all[..i], nodes, groups)
      {
        var r := all[i];
        GroupOne(all, nodes, groups, i);
        if r.node in nodes {
          var id := IdentityOf(r);
          groups := groups[id := (if id in groups then groups[id] else []) + [r]];
          continue;
        }
        Delete(r.name);
      }
      assert all[..|all|] == all;
    }

    /** What happens to one pool of this node. */
    method DeleteAliases(all: seq<Ipamd>, nodes: set<string>, self: string, id: Identity, group: seq<Ipamd>)
      requires id.0 == self && forall r :: r in group <==> r in all && IdentityOf(r) == id && r.node in nodes
      modifies this
      ensures Shrunk(all, old(byName), byName, nodes, {self}) && Fewer(old(byName), byName, refused)
      ensures forall r | r in group && Removable(all, nodes, {self}, r) && r.name !in refused :: r.name !in byName
    {
      if |group| <= 1 { LonelyStays(all, nodes, self, id, group); return; }
      var canonicalExists := false;
      for i := 0 to |group|
        invariant canonicalExists ==> HasCanonical(all, id)
        invariant !canonicalExists ==> forall k | 0 <= k < i :: group[k].name != CanonicalName(id)
      {
        if group[i].name == CanonicalName(id) {
          assert group[i] in group;
          canonicalExists := true;
          break;
        }
      }
      if !canonicalExists { return; }
      for i := 0 to |group|
        invariant Shrunk(all, old(byName), byName, nodes, {self}) && Fewer(old(byName), byName, refused)
        invariant forall k | 0 <= k < i && group[k].name == self && self !in refused :: group[k].name !in byName
      {
        assert group[i] in group;
        if group[i].name != id.0 { continue; }
        Delete(group[i].name);
      }
    }

    /** recycleStatus: what it deletes is removable, and everything removable of the listing whose deletion is not
        refused is gone. No live pool loses its last resource and no live node its candidate; with a full listing only
        refused resources are left over, and when there are no others, as after a first cleanup, nothing changes. */
    method RecycleStatus(all: seq<Ipamd>, nodes: set<string>, self: string)
      requires Valid() && UniqueNames(all) && Listed(all, byName)
      modifies this
      ensures Valid() && Shrunk(all, old(byName), byName, nodes, {self})
      ensures forall r | r in all && Removable(all, nodes, {self}, r) && r.name !in refused :: r.name !in byName
      ensures PoolsKept(all, byName, nodes) && CandidatesKept(all, byName, nodes)
      ensures Listing(all, old(byName)) ==> forall name | Leftover(byName, nodes, {self}, name) :: name in refused
      ensures Listing(all, old(byName)) &&
              (forall name | Leftover(old(byName), nodes, {self}, name) :: name in refused) ==>
                byName == old(byName)
    {
      hide Shrunk, Removable, UniqueNames, Listed, Listing, Leftover, Done, PoolsKept, CandidatesKept;
      var groups := DeleteDead(all, nodes);
      var left := groups.Keys;
      DeadAreRemovable(all, old(byName), byName, nodes, self);
      DeadAreDone(all, byName, nodes, self, groups, refused);
      while left != {}
        invariant left <= groups.Keys
        invariant Shrunk(all, old(byName), byName, nodes, {self})
        invariant Done(all, byName, nodes, self, left, refused)
        invariant Fewer(old(byName), byName, refused)
        decreases |left|
      {
        var id :| id in left;
        ghost var before := byName;
        if id.0 == self {
          DeleteAliases(all, nodes, self, id, groups[id]);
          ShrunkTwice(all, old(byName), before, byName, nodes, {self});
        }
        DoneOne(all, before, byName, nodes, self, left, id, groups[id], refused);
        left := left - {id};
      }
      CleanupKeepsPools(all, old(byName), byName, nodes, {self});
      CleanupKeepsCandidates(all, old(byName), byName, nodes, {self});
      AllDone(all, byName, nodes, self, refused);
      if Listing(all, old(byName)) {
        OnlyRefusedLeft(all, old(byName), byName, nodes, {self}, refused);
        if forall name | Leftover(old(byName), nodes, {self}, name) :: name in refused {
          NothingToClean(all, old(byName), byName, nodes, {self}, refused);
        }
      }
    }
  }

  /** The resources of live nodes, by pool. */
  ghost predicate Grouped(rs: seq<Ipamd>, nodes: set<string>, groups: map<Identity, seq<Ipamd>>) {
    forall id, r :: (id in groups && r in groups[id]) <==> r in rs && IdentityOf(r) == id && r.node in nodes
  }

  lemma GroupOne(rs: seq<Ipamd>, nodes: set<string>, groups: map<Identity, seq<Ipamd>>, i: nat)
    requires i < |rs| && Grouped(rs[..i], nodes, groups)
    ensures var r, id := rs[i], IdentityOf(rs[i]);
            Grouped(rs[..i + 1], nodes,
                    if r.node in nodes then groups[id := (if id in groups then groups[id] else []) + [r]] else groups)
  {
    assert rs[..i + 1] == rs[..i] + [rs[i]];
  }

  /** Nothing removable is left, but for aliases in these pools. */
  ghost predicate Done(all: seq<Ipamd>, byName: map<string, Ipamd>, nodes: set<string>, self: string,
                       left: set<Identity>, refused: set<string>) {
    forall r | r in all && Removable(all, nodes, {self}, r) && r.name !in refused && !(r.node in nodes
                  && IdentityOf(r) in left) :: r.name !in byName
  }

  lemma AllDone(all: seq<Ipamd>, byName: map<string, Ipamd>, nodes: set<string>, self: string, refused: set<string>)
    requires Done(all, byName, nodes, self, {}, refused)
    ensures forall r | r in all && Removable(all, nodes, {self}, r) && r.name !in refused :: r.name !in byName
  {
  }

  lemma DeadAreRemovable(all: seq<Ipamd>, before: map<string, Ipamd>, after: map<string, Ipamd>,
                         nodes: set<string>, self: string)
    requires Shrunk(all, before, after, nodes, {})
    ensures Shrunk(all, before, after, nodes, {self})
  {
  }

  lemma ShrunkTwice(all: seq<Ipamd>, a: map<string, Ipamd>, b: map<string, Ipamd>, c: map<string, Ipamd>,
                    nodes: set<string>, cleaning: set<string>)
    requires Shrunk(all, a, b, nodes, cleaning) && Shrunk(all, b, c, nodes, cleaning)
    ensures Shrunk(all, a, c, nodes, cleaning)
  {
    hide Removable;
  }

  lemma DeadAreDone(all: seq<Ipamd>, byName: map<string, Ipamd>, nodes: set<string>, self: string,
                    groups: map<Identity, seq<Ipamd>>, refused: set<string>)
    requires forall r | r in all && r.node !in nodes && r.name !in refused :: r.name !in byName
    requires Grouped(all, nodes, groups)
    ensures Done(all, byName, nodes, self, groups.Keys, refused)
  {
    forall r | r in all && r.node in nodes ensures IdentityOf(r) in groups.Keys { assert r in groups[IdentityOf(r)]; }
  }

  lemma DoneOne(all: seq<Ipamd>, before: map<string, Ipamd>, after: map<string, Ipamd>, nodes: set<string>,
                self: string, left: set<Identity>, id: Identity, group: seq<Ipamd>, refused: set<string>)
    requires Done(all, before, nodes, self, left, refused) && forall name | name in after :: name in before
    requires forall r :: r in group <==> r in all && IdentityOf(r) == id && r.node in nodes
    requires id.0 == self ==> forall r | r in group && Removable(all, nodes, {self}, r)
                  && r.name !in refused :: r.name !in after
    ensures Done(all, after, nodes, self, left - {id}, refused)
  {
  }

  lemma LonelyStays(all: seq<Ipamd>, nodes: set<string>, self: string, id: Identity, group: seq<Ipamd>)
    requires |group| <= 1 && id.0 == self
    requires forall r :: r in group <==> r in all && IdentityOf(r) == id && r.node in nodes
    ensures forall r | r in group :: !Removable(all, nodes, {self}, r)
  {
    CanonicalIsNoAlias(id);
    forall r | r in group ensures !Removable(all, nodes, {self}, r) {
      if HasCanonical(all, id) {
        var c :| c in all && IdentityOf(c) == id && c.name == CanonicalName(id);
        assert c in group && c == group[0] && r == group[0];
      }
    }
  }
}
