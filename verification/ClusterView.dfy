/**
 * What one reconcile run sees of the cluster, and what it relies on: the node records are read anew
 * from Redis (helper.go, newRedisCluster), every statefulset below the current size has one slot
 * holder, and no other node has slots.
 */
module ClusterView {
  import opened Lists
  import opened SlotLists
  import opened Nodes
  import opened RedisModel
  import opened Ownership
  import opened Rebalance
  import opened StatefulSets
  import opened Grouping
  import M = MigrationPlan
  import P = PlacementV2

  // ---------------------------------------------------------------- records read from Redis

  /** The record lists what its node claims, and only masters claim slots. */
  ghost predicate Faithful(n: Node, claims: Claims)
    reads n
  {
    && NoDup(n.slots) && Elems(n.slots) == SlotsOf(claims, n.id)
    && (n.slots != [] ==> n.GetRole() == Master)
  }

  /** One faithful record per node, with every node that claims a slot among them. */
  ghost predicate View(all: seq<Node>, claims: Claims)
    reads all
  {
    && NoDup(all) && UniqueIds(Elems(all))
    && (forall n :: n in all ==> Faithful(n, claims))
    && (forall x :: SlotsOf(claims, x) != {} ==> x in IdList(all))
  }

  lemma RecordOf(all: seq<Node>, claims: Claims, x: string) returns (n: Node)
    requires View(all, claims) && SlotsOf(claims, x) != {}
    ensures n in all && n.id == x && n.slots != [] && n.IsMasterWithSlot()
  {
    assert x in IdList(all);
    var i :| 0 <= i < |all| && IdList(all)[i] == x;
    n := all[i];
    assert Faithful(n, claims);
    EmptyList(n.slots);
  }

  lemma EmptyList<T>(s: seq<T>)
    ensures s == [] <==> Elems(s) == {}
  {
    if s != [] {
      assert s[0] in Elems(s);
    }
  }

  lemma ViewAgree(all: seq<Node>, claims: Claims, some: seq<Node>)
    requires View(all, claims) && Elems(some) <= Elems(all)
    ensures Agree(claims, IdList(some), Snapshot(some))
  {
    forall i | 0 <= i < |some|
      ensures NoDup(Snapshot(some)[i]) && Elems(Snapshot(some)[i]) == SlotsOf(claims, IdList(some)[i])
    {
      assert some[i] in Elems(some);
      assert Faithful(some[i], claims);
    }
  }

  lemma AgreeDisjoint(claims: Claims, ids: seq<string>, lists: seq<seq<Slot>>)
    requires Agree(claims, ids, lists) && Functional(claims) && NoDup(ids)
    ensures PairwiseDisjoint(lists)
  {
    forall i, j, x | 0 <= i < j < |lists| && x in lists[i] ensures x !in lists[j] {
      assert x in Elems(lists[i]) && x in SlotsOf(claims, ids[i]);
      assert ids[i] != ids[j];
      assert x !in SlotsOf(claims, ids[j]);
    }
  }

  /** Every claim belongs to one of the ids. */
  ghost predicate ClaimedBy(claims: Claims, ids: seq<string>) {
    forall x :: SlotsOf(claims, x) != {} ==> x in ids
  }

  lemma AgreeMember(claims: Claims, ids: seq<string>, lists: seq<seq<Slot>>, hashSlots: nat, s: Slot)
    requires Agree(claims, ids, lists) && OneOwner(claims, hashSlots) && ClaimedBy(claims, ids)
    ensures s in Flatten(lists) <==> s < hashSlots
  {
    FlattenMember(lists, s);
    assert Owned(claims, s) <==> s < hashSlots;
    if i :| 0 <= i < |lists| && s in lists[i] {
      assert s in Elems(lists[i]) && s in SlotsOf(claims, ids[i]);
    }
    if x :| s in SlotsOf(claims, x) {
      assert x in ids;
      var i :| 0 <= i < |ids| && ids[i] == x;
      assert s in Elems(lists[i]);
    }
  }

  /** The lists of nodes that own everything add up to the number of slots. */
  lemma AgreeTotal(claims: Claims, ids: seq<string>, lists: seq<seq<Slot>>, hashSlots: nat)
    requires Agree(claims, ids, lists) && OneOwner(claims, hashSlots) && ClaimedBy(claims, ids) && NoDup(ids)
    ensures Sum(Lengths(lists)) == hashSlots
  {
    AgreeDisjoint(claims, ids, lists);
    FlattenDisjoint(lists);
    FlattenLength(lists);
    forall s: Slot ensures s in Flatten(lists) <==> s < hashSlots {
      AgreeMember(claims, ids, lists, hashSlots, s);
    }
    WholeRange(Flatten(lists), hashSlots);
  }

  lemma WholeRange(s: seq<Slot>, n: nat)
    requires NoDup(s) && forall x: Slot :: x in s <==> x < n
    ensures |s| == n
  {
    NoDupCardinality(s);
    BelowCardinality(n);
    assert Elems(s) == Below(n);
  }

  // ---------------------------------------------------------------- slot holders by statefulset

  /** To which statefulset, by number, a node id belongs; negative for none of the cluster's. */
  type Home = string -> int

  ghost predicate AtHome(home: Home, id: string, i: nat) {
    home(id) == i
  }

  /** The ids belong to the first statefulsets, in order. */
  ghost predicate Homes(home: Home, ids: seq<string>) {
    forall i :: 0 <= i < |ids| ==> AtHome(home, ids[i], i)
  }

  ghost predicate AllClaim(claims: Claims, ids: seq<string>) {
    forall i :: 0 <= i < |ids| ==> SlotsOf(claims, ids[i]) != {}
  }

  /** The slot holders are ids, one in each of the first statefulsets. */
  ghost predicate OnePerStatefulSet(claims: Claims, ids: seq<string>, home: Home) {
    Homes(home, ids) && AllClaim(claims, ids) && ClaimedBy(claims, ids)
  }

  lemma IdsDistinct(claims: Claims, ids: seq<string>, home: Home)
    requires OnePerStatefulSet(claims, ids, home)
    ensures NoDup(ids)
  {
    forall i, j | 0 <= i < j < |ids| ensures ids[i] != ids[j] {
      assert AtHome(home, ids[i], i) && AtHome(home, ids[j], j);
    }
  }

  /**
   * What holds between runs, with the slot holders listed by statefulset: before the first run
   * nobody owns a slot; afterwards every slot has one owner. Every key is with its owner.
   */
  ghost predicate Settled(claims: Claims, store: Store, hashSlots: nat, ids: seq<string>, home: Home) {
    && OnePerStatefulSet(claims, ids, home)
    && (ids != [] ==> OneOwner(claims, hashSlots))
    && KeysAtOwner(claims, store)
  }

  /** The cluster table lists the records themselves, each under the statefulset of its id. */
  ghost predicate AtHomeAll(all: seq<Node>, cluster: Cluster, clusterName: string, home: Home) {
    forall n :: n in all ==> n.id in cluster && IsNumber(clusterName, P.GroupName(cluster, n), home(n.id))
  }

  /** The slot holder of statefulset i is found in its group. */
  lemma HolderInGroup(all: seq<Node>, claims: Claims, cluster: Cluster, home: Home, groups: Groups, n: Node,
                      clusterName: string, i: nat, name: string)
    requires View(all, claims) && AtHomeAll(all, cluster, clusterName, home) && Grouped(groups, all, P.SetNames(cluster))
    requires n in all && n.IsMasterWithSlot() && AtHome(home, n.id, i) && name == StsName(clusterName, i)
    ensures n in P.GroupHolders(groups, name)
  {
    assert GroupIs(groups, name, MembersOf(all, P.SetNames(cluster), name));
    MembersOfMember(all, P.SetNames(cluster), name, n);
    SlotHoldersMember(Group(groups, name), n);
  }

  ghost predicate HasId(nodes: seq<Node>, id: string) {
    exists n :: n in nodes && n.id == id
  }

  /** The slot holder ids are found among the holders of their statefulsets. */
  ghost predicate HoldersKnown(ids: seq<string>, holders: seq<seq<Node>>) {
    forall i :: 0 <= i < |ids| && i < |holders| ==> HasId(holders[i], ids[i])
  }

  /** A slot holder stays master of its statefulset. */
  lemma KeptMaster(group: seq<Node>, holders: seq<Node>, master: Node, id: string)
    requires P.Choice(group, holders, master) && HasId(holders, id)
    ensures master.id == id
  {
  }

  lemma FindHolders(all: seq<Node>, claims: Claims, cluster: Cluster, home: Home, groups: Groups, clusterName: string,
                    ids: seq<string>, names: seq<string>, holders: seq<seq<Node>>)
    requires View(all, claims) && AtHomeAll(all, cluster, clusterName, home) && Grouped(groups, all, P.SetNames(cluster))
    requires OnePerStatefulSet(claims, ids, home) && NamesAre(names, clusterName)
    requires |holders| == |names| && forall i :: 0 <= i < |names| ==> holders[i] == P.GroupHolders(groups, names[i])
    ensures HoldersKnown(ids, holders)
  {
    forall i | 0 <= i < |ids| && i < |holders| ensures HasId(holders[i], ids[i]) {
      assert AtHome(home, ids[i], i) && NameIs(names, clusterName, i);
      var n := RecordOf(all, claims, ids[i]);
      HolderInGroup(all, claims, cluster, home, groups, n, clusterName, i, names[i]);
    }
  }

  /** A master of any other statefulset has no slots yet. */
  lemma VacantMaster(all: seq<Node>, claims: Claims, cluster: Cluster, home: Home, clusterName: string,
                     ids: seq<string>, m: Node, i: nat)
    requires View(all, claims) && AtHomeAll(all, cluster, clusterName, home) && m in all
    requires OnePerStatefulSet(claims, ids, home)
    requires P.GroupName(cluster, m) == StsName(clusterName, i) && i >= |ids|
    ensures m.slots == []
  {
    assert Faithful(m, claims);
    NumberUnique(clusterName, P.GroupName(cluster, m), home(m.id), i);
    EmptyList(m.slots);
    assert forall j :: 0 <= j < |ids| ==> AtHome(home, ids[j], j);
    assert m.id !in ids;
  }

  // ---------------------------------------------------------------- the cluster table

  /** Each record names the statefulset its id belongs to. */
  ghost predicate Placed(all: seq<Node>, clusterName: string, home: Home) {
    forall n :: n in all ==> IsNumber(clusterName, P.SetName(n), home(n.id))
  }

  ghost predicate ListsAll(cluster: Cluster, all: seq<Node>) {
    forall n :: n in all ==> n.id in cluster && cluster[n.id] == n
  }

  /** newRedisCluster: a table of the records; a node without zone is an error. */
  method NewRedisCluster(all: seq<Node>) returns (ok: bool, cluster: Cluster)
    requires UniqueIds(Elems(all))
    ensures ok <==> forall n :: n in all ==> n.zone != "" && n.zone != UNKNOWN_NAME
    ensures ok ==> ListsAll(cluster, all)
  {
    cluster := map[];
    for i := 0 to |all|
      invariant ListsAll(cluster, all[..i])
      invariant forall n :: n in all[..i] ==> n.zone != "" && n.zone != UNKNOWN_NAME
    {
      TableNext(cluster, all, i);
      cluster := cluster[all[i].id := all[i]];
      if all[i].zone == "" || all[i].zone == UNKNOWN_NAME {
        return false, cluster;
      }
      PrefixNext(all, i);
    }
    assert all[..|all|] == all;
    ok := true;
  }

  lemma TableNext(cluster: Cluster, all: seq<Node>, i: nat)
    requires UniqueIds(Elems(all)) && i < |all| && ListsAll(cluster, all[..i])
    ensures ListsAll(cluster[all[i].id := all[i]], all[..i + 1])
  {
    PrefixNext(all, i);
    forall n | n in all[..i + 1] ensures cluster[all[i].id := all[i]].Keys >= {n.id} && cluster[all[i].id := all[i]][n.id] == n {
      assert n in Elems(all) && all[i] in Elems(all);
    }
  }

  lemma TableAtHome(cluster: Cluster, all: seq<Node>, clusterName: string, home: Home)
    requires ListsAll(cluster, all) && Placed(all, clusterName, home)
    ensures AtHomeAll(all, cluster, clusterName, home)
  {
  }

  lemma {:induction false} KnownAll(all: seq<Node>, cluster: Cluster)
    requires forall n :: n in all ==> n.id in cluster
    ensures Known(all, cluster) == all
  {
    if all != [] {
      var init := all[..|all| - 1];
      KnownAll(init, cluster);
      assert all == init + [all[|all| - 1]];
    }
  }

  // ---------------------------------------------------------------- current and new masters

  /** The current masters are the records with slots, one per slot-holding id. */
  lemma CurrentMasters(all: seq<Node>, claims: Claims, cur: seq<Node>)
    requires View(all, claims) && cur == SlotHolders(all)
    ensures NoDup(cur) && Elems(cur) <= Elems(all)
    ensures forall n :: n in all ==> (n in cur <==> n.slots != [])
  {
    SlotHoldersNoDup(all);
    forall n ensures n in cur <==> n in all && n.IsMasterWithSlot() {
      SlotHoldersMember(all, n);
    }
    forall n | n in all ensures n in cur <==> n.slots != [] {
      assert Faithful(n, claims);
    }
  }

  lemma CurrentIds(all: seq<Node>, claims: Claims, cur: seq<Node>, ids: seq<string>)
    requires View(all, claims) && NoDup(cur) && Elems(cur) <= Elems(all) && NoDup(ids)
    requires forall n :: n in all ==> (n in cur <==> n.slots != [])
    requires AllClaim(claims, ids) && ClaimedBy(claims, ids)
    ensures Elems(IdList(cur)) == Elems(ids) && |cur| == |ids|
  {
    SubIds(all, cur);
    forall x ensures x in IdList(cur) <==> SlotsOf(claims, x) != {} {
      CurrentClaims(all, claims, cur, x);
    }
    SameHolders(IdList(cur), ids, claims);
  }

  lemma SameHolders(a: seq<string>, ids: seq<string>, claims: Claims)
    requires NoDup(a) && NoDup(ids) && AllClaim(claims, ids) && ClaimedBy(claims, ids)
    requires forall x :: x in a <==> SlotsOf(claims, x) != {}
    ensures Elems(a) == Elems(ids) && |a| == |ids|
  {
    forall x ensures x in ids <==> SlotsOf(claims, x) != {} {
      if x in ids {
        var i :| 0 <= i < |ids| && ids[i] == x;
      }
    }
    NoDupSameElems(a, ids);
  }

  lemma CurrentClaims(all: seq<Node>, claims: Claims, cur: seq<Node>, x: string)
    requires View(all, claims) && Elems(cur) <= Elems(all)
    requires forall n :: n in all ==> (n in cur <==> n.slots != [])
    ensures x in IdList(cur) <==> SlotsOf(claims, x) != {}
  {
    if x in IdList(cur) {
      var i :| 0 <= i < |cur| && IdList(cur)[i] == x;
      assert cur[i] in Elems(cur);
      assert Faithful(cur[i], claims);
      EmptyList(cur[i].slots);
    } else if SlotsOf(claims, x) != {} {
      var n := RecordOf(all, claims, x);
      M.IdListMember(cur, x);
      assert false;
    }
  }

  lemma SubIds(all: seq<Node>, some: seq<Node>)
    requires UniqueIds(Elems(all)) && Elems(some) <= Elems(all) && NoDup(some)
    ensures UniqueIds(Elems(some)) && NoDup(IdList(some))
  {
    IdListNoDup(some);
  }

  /** What the choice of masters gives, said about ids: slot holders stay, the others have no slots. */
  lemma NewMasters(all: seq<Node>, claims: Claims, cluster: Cluster, home: Home, groups: Groups, clusterName: string,
                   ids: seq<string>, names: seq<string>, holders: seq<seq<Node>>, masters: seq<Node>)
    requires View(all, claims) && AtHomeAll(all, cluster, clusterName, home) && Grouped(groups, all, P.SetNames(cluster))
    requires OnePerStatefulSet(claims, ids, home) && NamesAre(names, clusterName)
    requires |masters| == |names| && P.Chosen(groups, names, holders, masters) && HoldersKnown(ids, holders)
    ensures NoDup(masters) && Elems(masters) <= Elems(all)
    ensures Homes(home, IdList(masters))
    ensures forall i :: 0 <= i < |masters| && i < |ids| ==> masters[i].id == ids[i]
    ensures forall i :: |ids| <= i < |masters| ==> masters[i].slots == []
  {
    NamesDistinct(names, clusterName);
    P.MastersDistinct(groups, all, cluster, names, holders, masters);
    forall i | 0 <= i < |masters| ensures AtHome(home, IdList(masters)[i], i) {
      assert NameIs(names, clusterName, i);
      NumberUnique(clusterName, P.GroupName(cluster, masters[i]), home(masters[i].id), i);
    }
    forall i | 0 <= i < |masters| && i < |ids| ensures masters[i].id == ids[i] {
      KeptMaster(Group(groups, names[i]), holders[i], masters[i], ids[i]);
    }
    forall i | |ids| <= i < |masters| ensures masters[i].slots == [] {
      assert NameIs(names, clusterName, i);
      VacantMaster(all, claims, cluster, home, clusterName, ids, masters[i], i);
    }
  }
}
