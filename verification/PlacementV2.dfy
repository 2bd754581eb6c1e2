/** One master per statefulset: controllers/clustering/placement_v2.go. */
module PlacementV2 {
  import opened Lists
  import opened Nodes
  import opened StatefulSets
  import opened Grouping
  import opened Zones

  function SetName(n: Node): string {
    if n.statefulSet == "" then UNKNOWN_NAME else n.statefulSet
  }

  /** The statefulset the cluster's table gives for the node. */
  function GroupName(cluster: Cluster, n: Node): string
    requires n.id in cluster
  {
    SetName(cluster[n.id])
  }

  ghost function SetNames(cluster: Cluster): map<string, string> {
    map id | id in cluster :: SetName(cluster[id])
  }

  lemma SlotHoldersSnoc(nodes: seq<Node>, n: Node)
    ensures SlotHolders(nodes + [n]) == if n.IsMasterWithSlot() then SlotHolders(nodes) + [n] else SlotHolders(nodes)
  {
  }

  // ---------------------------------------------------------------- choosing masters

  ghost function GroupHolders(groups: Groups, name: string): seq<Node>
    reads All(groups)
  {
    assert forall n :: n in Group(groups, name) ==> n in All(groups);
    SlotHolders(Group(groups, name))
  }

  /** The slot holders of each of the statefulsets. */
  ghost function Holders(groups: Groups, names: seq<string>): (r: seq<seq<Node>>)
    reads All(groups)
    ensures |r| == |names| && forall i :: 0 <= i < |names| ==> r[i] == GroupHolders(groups, names[i])
  {
    if names == [] then []
    else Holders(groups, names[..|names| - 1]) + [GroupHolders(groups, names[|names| - 1])]
  }

  ghost predicate HoldersAre(groups: Groups, names: seq<string>, holders: seq<seq<Node>>)
    reads All(groups)
  {
    |holders| == |names| && forall i :: 0 <= i < |names| ==> holders[i] == GroupHolders(groups, names[i])
  }

  /** The only slot holder of a statefulset stays its master. */
  ghost predicate Choice(group: seq<Node>, holders: seq<Node>, master: Node) {
    master in group && |holders| <= 1 && (holders != [] ==> master == holders[0])
  }

  ghost predicate Chosen(groups: Groups, names: seq<string>, holders: seq<seq<Node>>, masters: seq<Node>) {
    && |holders| == |masters| <= |names|
    && forall j :: 0 <= j < |masters| ==> Choice(Group(groups, names[j]), holders[j], masters[j])
  }

  /** The table has exactly the first statefulsets, with these masters. */
  ghost predicate Table(bySts: map<string, Node>, names: seq<string>, masters: seq<Node>) {
    && |masters| <= |names| && bySts.Keys == Elems(names[..|masters|])
    && forall j :: 0 <= j < |masters| ==> TableAt(bySts, names[j], masters[j])
  }

  ghost predicate TableAt(bySts: map<string, Node>, name: string, master: Node) {
    name in bySts && bySts[name] == master
  }

  lemma TableExtend(bySts: map<string, Node>, names: seq<string>, masters: seq<Node>, m: Node)
    requires Table(bySts, names, masters) && |masters| < |names| && NoDup(names)
    ensures Table(bySts[names[|masters|] := m], names, masters + [m])
  {
  }

  /** Master number i is alone on its VM among the slot holders and the masters placed before it. */
  ghost predicate Alone(masters: seq<Node>, i: nat, current: seq<Node>)
    requires i < |masters|
  {
    && (forall c :: c in current ==> c.nodeName != masters[i].nodeName)
    && (forall j :: 0 <= j < i ==> masters[j].nodeName != masters[i].nodeName)
  }

  /** Masters of statefulsets without slot holder are alone on their VMs. */
  ghost predicate Spread(masters: seq<Node>, holders: seq<seq<Node>>, current: seq<Node>) {
    |holders| == |masters| && forall i :: 0 <= i < |masters| && holders[i] == [] ==> Alone(masters, i, current)
  }

  /** Masters of statefulsets without slot holder are in the zones their numbers call for. */
  ghost predicate InZone(masters: seq<Node>, holders: seq<seq<Node>>, zones: seq<string>) {
    && |holders| == |masters| && zones != []
    && forall i :: 0 <= i < |masters| && holders[i] == [] ==> masters[i].zone == ZoneFor(zones, i)
  }

  /** The node's VM hosts one of these. */
  ghost predicate Taken(n: Node, others: seq<Node>) {
    exists c :: c in others && c.nodeName == n.nodeName
  }

  ghost predicate AllTaken(group: seq<Node>, others: seq<Node>) {
    forall i :: 0 <= i < |group| ==> Taken(group[i], others)
  }

  /** The first node of the group on a VM that is not taken. */
  ghost predicate FirstFree(group: seq<Node>, m: Node, others: seq<Node>) {
    exists i :: 0 <= i < |group| && group[i] == m && !Taken(m, others) && AllTaken(group[..i], others)
  }

  ghost predicate FirstInZone(group: seq<Node>, m: Node, zone: string) {
    m in group && exists i :: 0 <= i < |group| && group[i] == m && m.zone == zone && forall j :: 0 <= j < i ==> group[j].zone != zone
  }

  /** The list has the slot holders and the masters of the table. */
  ghost predicate AllMasters(others: seq<Node>, current: seq<Node>, bySts: map<string, Node>) {
    Elems(others) == Elems(current) + bySts.Values
  }

  lemma VmsOf(vms: set<string>, current: seq<Node>, bySts: map<string, Node>, others: seq<Node>)
    requires AllMasters(others, current, bySts)
    requires vms == (set c | c in current :: c.nodeName) + (set k | k in bySts :: bySts[k].nodeName)
    ensures forall vm :: vm in vms <==> exists c :: c in others && c.nodeName == vm
  {
    assert forall c :: c in others ==> c in Elems(others);
    forall c | c in Elems(current) + bySts.Values ensures c in others {
      assert c in Elems(others);
    }
    forall k | k in bySts ensures bySts[k] in others {
      assert bySts[k] in bySts.Values;
    }
    forall c | c in current ensures c in others {
      assert c in Elems(current);
    }
  }

  lemma TableMasters(bySts: map<string, Node>, names: seq<string>, masters: seq<Node>, current: seq<Node>)
    requires Table(bySts, names, masters)
    ensures AllMasters(current + masters, current, bySts)
  {
    forall n | n in masters ensures n in bySts.Values {
      var j :| 0 <= j < |masters| && masters[j] == n;
      assert TableAt(bySts, names[j], masters[j]);
    }
    forall n | n in bySts.Values ensures n in masters {
      var k :| k in bySts && bySts[k] == n;
      assert k in Elems(names[..|masters|]);
      var j :| 0 <= j < |masters| && names[..|masters|][j] == k;
      assert TableAt(bySts, names[j], masters[j]);
    }
    assert Elems(current + masters) == Elems(current) + Elems(masters);
    assert Elems(masters) == bySts.Values;
  }

  /** Whether a master can be found for statefulset number i. */
  ghost predicate Placeable(group: seq<Node>, holders: seq<Node>, i: nat, byZone: bool, zones: seq<string>)
    requires byZone ==> zones != []
  {
    && group != [] && |holders| <= 1
    && (byZone && holders == [] ==> exists n :: n in group && n.zone == ZoneFor(zones, i))
  }

  ghost predicate AllPlaceable(groups: Groups, names: seq<string>, holders: seq<seq<Node>>, byZone: bool, zones: seq<string>)
    requires |holders| <= |names| && (byZone ==> zones != [])
  {
    forall i :: 0 <= i < |holders| ==> Placeable(Group(groups, names[i]), holders[i], i, byZone, zones)
  }

  /**
   * The node that a statefulset without slot holder gets: the first one in its zone, or the first one
   * on a VM that hosts none of the others, or just the first one if there is no such VM.
   */
  ghost predicate Site(m: Node, i: nat, group: seq<Node>, byZone: bool, zones: seq<string>, others: seq<Node>)
    requires byZone ==> zones != []
  {
    if byZone then FirstInZone(group, m, ZoneFor(zones, i))
    else if AllTaken(group, others) then group != [] && m == group[0]
    else FirstFree(group, m, others)
  }

  /** Newcomer number i is where it should be, given the slot holders and the masters chosen before it. */
  ghost predicate SiteAt(groups: Groups, names: seq<string>, holders: seq<seq<Node>>, masters: seq<Node>, i: nat, byZone: bool,
                         zones: seq<string>, current: seq<Node>)
    requires i < |masters| == |holders| <= |names| && (byZone ==> zones != [])
  {
    holders[i] == [] ==> Site(masters[i], i, Group(groups, names[i]), byZone, zones, current + masters[..i])
  }

  /** Newcomer number i had to share a VM. */
  ghost predicate Forced(groups: Groups, names: seq<string>, holders: seq<seq<Node>>, masters: seq<Node>, i: nat, current: seq<Node>)
    requires i < |masters| == |holders| <= |names|
  {
    holders[i] == [] && AllTaken(Group(groups, names[i]), current + masters[..i])
  }

  ghost predicate AnyForced(groups: Groups, names: seq<string>, holders: seq<seq<Node>>, masters: seq<Node>, current: seq<Node>)
    requires |masters| == |holders| <= |names|
  {
    exists i :: 0 <= i < |masters| && Forced(groups, names, holders, masters, i, current)
  }

  /**
   * What is known of the masters chosen so far: each is the one its statefulset calls for, and best
   * effort has been raised exactly if, without zones, some newcomer had to share a VM.
   */
  ghost predicate Placed(groups: Groups, names: seq<string>, holders: seq<seq<Node>>, masters: seq<Node>,
                         bySts: map<string, Node>, byZone: bool, zones: seq<string>, bestEffort: bool, current: seq<Node>)
  {
    && Table(bySts, names, masters) && Chosen(groups, names, holders, masters) && (byZone ==> zones != [])
    && (forall i :: 0 <= i < |masters| ==> SiteAt(groups, names, holders, masters, i, byZone, zones, current))
    && (bestEffort <==> !byZone && AnyForced(groups, names, holders, masters, current))
  }

  lemma SamePrefix(groups: Groups, names: seq<string>, holders: seq<seq<Node>>, masters: seq<Node>, m: Node, hs: seq<Node>,
                   byZone: bool, zones: seq<string>, current: seq<Node>, i: nat)
    requires i < |masters| == |holders| < |names| && (byZone ==> zones != [])
    ensures SiteAt(groups, names, holders + [hs], masters + [m], i, byZone, zones, current) <==>
            SiteAt(groups, names, holders, masters, i, byZone, zones, current)
    ensures Forced(groups, names, holders + [hs], masters + [m], i, current) <==>
            Forced(groups, names, holders, masters, i, current)
  {
    assert (masters + [m])[..i] == masters[..i];
  }

  lemma ForcedExtend(groups: Groups, names: seq<string>, holders: seq<seq<Node>>, masters: seq<Node>, m: Node, hs: seq<Node>,
                     current: seq<Node>)
    requires |masters| == |holders| < |names|
    ensures AnyForced(groups, names, holders + [hs], masters + [m], current) <==>
            AnyForced(groups, names, holders, masters, current) ||
            (hs == [] && AllTaken(Group(groups, names[|masters|]), current + masters))
  {
    var n := |masters|;
    assert (masters + [m])[..n] == masters;
    assert Forced(groups, names, holders + [hs], masters + [m], n, current) <==>
           hs == [] && AllTaken(Group(groups, names[n]), current + masters);
    if i: nat :| i < n && Forced(groups, names, holders, masters, i, current) {
      SamePrefix(groups, names, holders, masters, m, hs, false, [], current, i);
    }
    if i: nat :| i < n + 1 && Forced(groups, names, holders + [hs], masters + [m], i, current) {
      if i < n {
        SamePrefix(groups, names, holders, masters, m, hs, false, [], current, i);
      }
    }
  }

  /** The choice for one statefulset, and what it does to best effort. */
  ghost predicate Decided(group: seq<Node>, holders: seq<Node>, m: Node, i: nat, byZone: bool, zones: seq<string>, before: bool,
                          bestEffort: bool, others: seq<Node>)
    requires byZone ==> zones != []
  {
    && Choice(group, holders, m)
    && (holders == [] ==> Site(m, i, group, byZone, zones, others))
    && bestEffort == (before || (!byZone && holders == [] && AllTaken(group, others)))
  }

  lemma PlacedExtend(groups: Groups, names: seq<string>, holders: seq<seq<Node>>, masters: seq<Node>,
                     bySts: map<string, Node>, byZone: bool, zones: seq<string>, before: bool, bestEffort: bool,
                     current: seq<Node>, m: Node, hs: seq<Node>)
    requires Placed(groups, names, holders, masters, bySts, byZone, zones, before, current)
    requires |masters| < |names| && NoDup(names)
    requires Decided(Group(groups, names[|masters|]), hs, m, |masters|, byZone, zones, before, bestEffort, current + masters)
    ensures Placed(groups, names, holders + [hs], masters + [m], bySts[names[|masters|] := m],
                   byZone, zones, bestEffort, current)
  {
    TableExtend(bySts, names, masters, m);
    ForcedExtend(groups, names, holders, masters, m, hs, current);
    forall i: nat | i < |masters| + 1
      ensures SiteAt(groups, names, holders + [hs], masters + [m], i, byZone, zones, current)
    {
      if i < |masters| {
        SamePrefix(groups, names, holders, masters, m, hs, byZone, zones, current, i);
      } else {
        assert (masters + [m])[..i] == masters;
      }
    }
  }

  lemma AloneIsFree(masters: seq<Node>, current: seq<Node>, i: nat)
    requires i < |masters|
    ensures Alone(masters, i, current) <==> !Taken(masters[i], current + masters[..i])
  {
    var others, vm := current + masters[..i], masters[i].nodeName;
    if c :| c in others && c.nodeName == vm {
      if c !in current {
        var j :| 0 <= j < i && masters[..i][j] == c;
        assert masters[j] == c;
      }
    }
    if c :| c in current && c.nodeName == vm {
      assert c in others;
    }
    if j :| 0 <= j < i && masters[j].nodeName == vm {
      assert masters[..i][j] in others;
    }
  }

  /** So newcomers are in the zones their numbers call for; or exactly unless at best effort, alone on their VMs. */
  lemma PlacedMeans(groups: Groups, names: seq<string>, holders: seq<seq<Node>>, masters: seq<Node>,
                    bySts: map<string, Node>, byZone: bool, zones: seq<string>, bestEffort: bool, current: seq<Node>)
    requires Placed(groups, names, holders, masters, bySts, byZone, zones, bestEffort, current)
    ensures if byZone then InZone(masters, holders, zones) && !bestEffort
            else bestEffort <==> !Spread(masters, holders, current)
  {
    forall i: nat | i < |masters| && holders[i] == []
      ensures byZone ==> masters[i].zone == ZoneFor(zones, i)
      ensures !byZone ==> (Alone(masters, i, current) <==> !Forced(groups, names, holders, masters, i, current))
    {
      assert SiteAt(groups, names, holders, masters, i, byZone, zones, current);
      if !byZone {
        AloneIsFree(masters, current, i);
      }
    }
  }

  lemma StartPlaced(groups: Groups, names: seq<string>, byZone: bool, zones: seq<string>, current: seq<Node>)
    requires byZone ==> zones != []
    ensures Placed(groups, names, [], [], map[], byZone, zones, false, current)
  {
    assert names[..0] == [];
  }

  lemma PlaceableNext(groups: Groups, names: seq<string>, holders: seq<seq<Node>>, i: nat, byZone: bool, zones: seq<string>)
    requires i < |holders| <= |names| && (byZone ==> zones != []) && AllPlaceable(groups, names, holders[..i], byZone, zones)
    ensures if Placeable(Group(groups, names[i]), holders[i], i, byZone, zones)
            then AllPlaceable(groups, names, holders[..i + 1], byZone, zones)
            else !AllPlaceable(groups, names, holders, byZone, zones)
  {
    PrefixNext(holders, i);
  }

  /** Why no complete set of masters was found. */
  datatype DispatchError =
    | MissingStatefulSet(name: string)
    | CannotPlace(name: string)
    | SplitBrain(name: string)

  datatype DispatchResult = Dispatched | Failed(error: DispatchError)

  class Ctx {
    const expectedMasterNum: nat
    const clusterName: string
    const cluster: Cluster
    const haEnabled: bool
    const creating: bool          // HA status "creating"
    const zonesInfo: set<string>
    var nodes: Groups
    var currentMasters: seq<Node>
    var newMastersBySts: map<string, Node>
    var bestEffort: bool

    /** NewCtx with sortRedisNodeByStatefulSet. */
    constructor (expectedMasterNum: nat, clusterName: string, cluster: Cluster, haEnabled: bool, creating: bool,
                 zonesInfo: set<string>, all: seq<Node>)
      ensures this.expectedMasterNum == expectedMasterNum && this.clusterName == clusterName
      ensures this.cluster == cluster && this.haEnabled == haEnabled && this.creating == creating
      ensures this.zonesInfo == zonesInfo
      ensures Grouped(nodes, all, SetNames(cluster)) && currentMasters == SlotHolders(Known(all, cluster))
      ensures newMastersBySts == map[] && !bestEffort
    {
      this.expectedMasterNum, this.clusterName, this.cluster := expectedMasterNum, clusterName, cluster;
      this.haEnabled, this.creating, this.zonesInfo := haEnabled, creating, zonesInfo;
      newMastersBySts, bestEffort := map[], false;
      nodes, currentMasters := map[], [];
      new;
      nodes := SortRedisNodeByStatefulSet(all);
    }

    /** Groups the known nodes and remembers the slot holders among them. */
    method SortRedisNodeByStatefulSet(all: seq<Node>) returns (groups: Groups)
      requires currentMasters == []
      modifies this`currentMasters
      ensures Grouped(groups, all, SetNames(cluster)) && currentMasters == SlotHolders(Known(all, cluster))
    {
      groups := map[];
      var current: seq<Node> := [];
      for i := 0 to |all|
        invariant Grouped(groups, all[..i], SetNames(cluster))
        invariant current == SlotHolders(Known(all[..i], cluster))
      {
        var n := all[i];
        assert all[..i + 1] == all[..i] + [n];
        KnownSnoc(all[..i], n, cluster);
        if n.id !in cluster {
          GroupedSkip(groups, all[..i], SetNames(cluster), n);
          continue;
        }
        GroupedAdd(groups, all[..i], SetNames(cluster), n);
        SlotHoldersSnoc(Known(all[..i], cluster), n);
        var name := GroupName(cluster, n);
        groups := groups[name := Group(groups, name) + [n]];
        if n.IsMasterWithSlot() {
          current := current + [n];
        }
      }
      assert all[..|all|] == all;
      currentMasters := current;
    }

    /** The first node of the statefulset in the zone its number calls for. */
    method PlaceMastersHA(stsIndex: nat, name: string, ghost zones: seq<string>) returns (master: Node?)
      requires zonesInfo != {} && Ordered(zones) && Elems(zones) == zonesInfo && zones != []
      ensures master != null ==> FirstInZone(Group(nodes, name), master, ZoneFor(zones, stsIndex))
      ensures master == null ==> forall n :: n in Group(nodes, name) ==> n.zone != ZoneFor(zones, stsIndex)
    {
      var sorted := SortZones(zonesInfo);
      OrderedUnique(sorted, zones);
      var group, zone := Group(nodes, name), ZoneFor(sorted, stsIndex);
      for i := 0 to |group|
        invariant forall j :: 0 <= j < i ==> group[j].zone != zone
      {
        if group[i].zone == zone {
          assert group[i] in group;
          return group[i];
        }
      }
      return null;
    }

    /** The first node of the statefulset on a VM without master; else the first one, at best effort. */
    method PlaceMasters(name: string, ghost others: seq<Node>) returns (master: Node)
      requires Group(nodes, name) != [] && AllMasters(others, currentMasters, newMastersBySts)
      modifies this`bestEffort
      ensures master in Group(nodes, name)
      ensures if AllTaken(Group(nodes, name), others) then master == Group(nodes, name)[0] && bestEffort
              else FirstFree(Group(nodes, name), master, others) && bestEffort == old(bestEffort)
    {
      var vms := (set c | c in currentMasters :: c.nodeName) +
                 (set k | k in newMastersBySts :: newMastersBySts[k].nodeName);
      VmsOf(vms, currentMasters, newMastersBySts, others);
      var group := Group(nodes, name);
      for i := 0 to |group|
        invariant bestEffort == old(bestEffort) && AllTaken(group[..i], others)
      {
        assert group[i].nodeName in vms <==> Taken(group[i], others);
        if group[i].nodeName !in vms {
          assert group[i] == group[i] && AllTaken(group[..i], others);
          return group[i];
        }
        PrefixNext(group, i);
      }
      assert group[..|group|] == group;
      bestEffort := true;
      return group[0];
    }

    /** Masters go by zone while a highly available cluster is being created. */
    predicate ByZone() {
      haEnabled && creating
    }

    ghost predicate ZonesAre(zones: seq<string>) {
      Ordered(zones) && Elems(zones) == zonesInfo && (ByZone() ==> zones != [])
    }

    /** The master of statefulset number i. */
    method DispatchMaster(i: nat, ghost zones: seq<string>, ghost others: seq<Node>) returns (result: DispatchResult, master: Node?)
      requires ZonesAre(zones) && forall name :: name in nodes ==> nodes[name] != []
      requires AllMasters(others, currentMasters, newMastersBySts)
      modifies this`bestEffort
      ensures result.Dispatched? <==>
              Placeable(Group(nodes, StsName(clusterName, i)), GroupHolders(nodes, StsName(clusterName, i)), i, ByZone(), zones)
      ensures result.Dispatched? ==>
                && master != null
                && Decided(Group(nodes, StsName(clusterName, i)), GroupHolders(nodes, StsName(clusterName, i)), master, i,
                           ByZone(), zones, old(bestEffort), bestEffort, others)
    {
      var name := StsName(clusterName, i);
      if name !in nodes {
        return Failed(MissingStatefulSet(name)), null;
      }
      var holders := FilterMastersWithSlot(nodes[name]);
      if |holders| == 0 {
        if haEnabled && creating {
          assert zonesInfo != {} by { assert zones[0] in Elems(zones); }
          master := PlaceMastersHA(i, name, zones);
        } else {
          master := PlaceMasters(name, others);
        }
        return if master == null then Failed(CannotPlace(name)) else Dispatched, master;
      } else if |holders| == 1 {
        SlotHoldersMember(nodes[name], holders[0]);
        return Dispatched, holders[0];
      } else {
        return Failed(SplitBrain(name)), null;
      }
    }

    ghost function StsNames(): seq<string> {
      NameList(clusterName, expectedMasterNum)
    }

    /**
     * Succeeds exactly if every expected statefulset has nodes, at most one slot holder, and, where
     * the zone decides, a node in its zone. The masters then come each from its own statefulset; slot
     * holders stay; a newcomer is the first node in its zone or the first one on a VM without slot
     * holder and earlier master, or the first of all if there is none, which is what best effort says.
     * So newcomers are in their zone or, exactly unless at best effort, alone on their VM.
     */
    method DispatchMasters(ghost zones: seq<string>) returns (result: DispatchResult, ghost masters: seq<Node>)
      requires ZonesAre(zones) && forall name :: name in nodes ==> nodes[name] != []
      requires newMastersBySts == map[] && !bestEffort
      modifies this`newMastersBySts, this`bestEffort
      ensures result.Dispatched? <==>
              AllPlaceable(nodes, StsNames(), old(Holders(nodes, StsNames())), ByZone(), zones)
      ensures result.Dispatched? ==>
                && |masters| == expectedMasterNum
                && Placed(nodes, StsNames(), old(Holders(nodes, StsNames())), masters, newMastersBySts, ByZone(), zones,
                          bestEffort, currentMasters)
                && if ByZone() then InZone(masters, old(Holders(nodes, StsNames())), zones) && !bestEffort
                   else bestEffort <==> !Spread(masters, old(Holders(nodes, StsNames())), currentMasters)
    {
      NameListFacts(clusterName, expectedMasterNum);
      ghost var holders := Holders(nodes, StsNames());
      result, masters := DispatchEach(zones, StsNames(), holders);
      if result.Dispatched? {
        PlacedMeans(nodes, StsNames(), holders, masters, newMastersBySts, ByZone(), zones, bestEffort, currentMasters);
      }
    }

    /** One round of the loop: statefulset number |masters|. */
    method DispatchNext(i: nat, ghost zones: seq<string>, ghost names: seq<string>, ghost holders: seq<seq<Node>>,
                        ghost masters: seq<Node>)
      returns (result: DispatchResult, ghost masters': seq<Node>)
      requires ZonesAre(zones) && forall name :: name in nodes ==> nodes[name] != []
      requires i == |masters| < |names| && NamesAre(names, clusterName) && NoDup(names)
      requires Placed(nodes, names, holders, masters, newMastersBySts, ByZone(), zones, bestEffort, currentMasters)
      modifies this`newMastersBySts, this`bestEffort
      ensures result.Dispatched? <==> Placeable(Group(nodes, names[i]), old(GroupHolders(nodes, names[i])), i, ByZone(), zones)
      ensures result.Dispatched? ==>
                && |masters'| == i + 1
                && Placed(nodes, names, holders + [old(GroupHolders(nodes, names[i]))], masters', newMastersBySts, ByZone(), zones,
                          bestEffort, currentMasters)
    {
      var name := StsName(clusterName, i);
      assert NameIs(names, clusterName, i);
      ghost var hs, before := GroupHolders(nodes, name), bestEffort;
      TableMasters(newMastersBySts, names, masters, currentMasters);
      var master;
      result, master := DispatchMaster(i, zones, currentMasters + masters);
      masters' := masters;
      if result.Failed? {
        return;
      }
      PlacedExtend(nodes, names, holders, masters, newMastersBySts, ByZone(), zones, before, bestEffort, currentMasters,
                   master, hs);
      newMastersBySts := newMastersBySts[name := master];
      masters' := masters + [master];
    }

    method DispatchEach(ghost zones: seq<string>, ghost names: seq<string>, ghost holders: seq<seq<Node>>)
      returns (result: DispatchResult, ghost masters: seq<Node>)
      requires ZonesAre(zones) && forall name :: name in nodes ==> nodes[name] != []
      requires newMastersBySts == map[] && !bestEffort
      requires |names| == expectedMasterNum && NamesAre(names, clusterName) && NoDup(names)
      requires HoldersAre(nodes, names, holders)
      modifies this`newMastersBySts, this`bestEffort
      ensures result.Dispatched? <==> AllPlaceable(nodes, names, holders, ByZone(), zones)
      ensures result.Dispatched? ==>
                && |masters| == expectedMasterNum
                && Placed(nodes, names, holders, masters, newMastersBySts, ByZone(), zones, bestEffort, currentMasters)
    {
      masters := [];
      StartPlaced(nodes, names, ByZone(), zones, currentMasters);
      assert holders[..0] == [];
      for i := 0 to expectedMasterNum
        invariant |masters| == i
        invariant Placed(nodes, names, holders[..i], masters, newMastersBySts, ByZone(), zones, bestEffort, currentMasters)
        invariant AllPlaceable(nodes, names, holders[..i], ByZone(), zones)
      {
        assert holders[i] == old(GroupHolders(nodes, names[i]));
        PrefixNext(holders, i);
        PlaceableNext(nodes, names, holders, i, ByZone(), zones);
        result, masters := DispatchNext(i, zones, names, holders[..i], masters);
        if result.Failed? {
          return;
        }
      }
      assert holders[..expectedMasterNum] == holders;
      result := Dispatched;
    }

    /** The chosen masters in whatever order the table yields them. */
    method GetNewMasters(ghost names: seq<string>, ghost masters: seq<Node>) returns (r: seq<Node>)
      requires Table(newMastersBySts, names, masters) && |masters| == |names| && NoDup(masters)
      ensures NoDup(r) && Elems(r) == Elems(masters) && |r| == |masters|
    {
      ghost var bySts := newMastersBySts;
      TableInjective(bySts, names, masters);
      r := [];
      var todo := newMastersBySts.Keys;
      while todo != {}
        invariant todo <= bySts.Keys && NoDup(r)
        invariant forall n :: n in r <==> exists k :: k in bySts && k !in todo && bySts[k] == n
        decreases todo
      {
        var k :| k in todo;
        assert newMastersBySts[k] !in r;
        NoDupExtend(r, newMastersBySts[k]);
        r := r + [newMastersBySts[k]];
        todo := todo - {k};
      }
      TableValues(bySts, names, masters, r);
      NoDupSameElems(r, masters);
    }
  }

  lemma TableInjective(bySts: map<string, Node>, names: seq<string>, masters: seq<Node>)
    requires Table(bySts, names, masters) && |masters| == |names| && NoDup(masters)
    ensures forall k, l :: k in bySts && l in bySts && bySts[k] == bySts[l] ==> k == l
  {
  }

  lemma TableValues(bySts: map<string, Node>, names: seq<string>, masters: seq<Node>, r: seq<Node>)
    requires Table(bySts, names, masters) && |masters| == |names|
    requires forall n :: n in r <==> exists k :: k in bySts && bySts[k] == n
    ensures Elems(r) == Elems(masters)
  {
  }

  /** A node belongs to one statefulset only, so masters of different statefulsets differ. */
  lemma MastersDistinct(groups: Groups, all: seq<Node>, cluster: Cluster, names: seq<string>,
                        holders: seq<seq<Node>>, masters: seq<Node>)
    requires Grouped(groups, all, SetNames(cluster)) && NoDup(names) && Chosen(groups, names, holders, masters)
    ensures NoDup(masters)
    ensures forall j :: 0 <= j < |masters| ==>
              masters[j] in all && masters[j].id in cluster && GroupName(cluster, masters[j]) == names[j]
  {
    forall j | 0 <= j < |masters|
      ensures masters[j] in all && masters[j].id in cluster && GroupName(cluster, masters[j]) == names[j]
    {
      assert Choice(Group(groups, names[j]), holders[j], masters[j]);
      assert GroupIs(groups, names[j], MembersOf(all, SetNames(cluster), names[j]));
      MembersOfMember(all, SetNames(cluster), names[j], masters[j]);
    }
  }
}
