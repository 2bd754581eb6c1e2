/** One reconcile run: syncCluster in controllers/distributedrediscluster/sync_handler.go. */
module SyncCluster {
  import opened Lists
  import opened SlotLists
  import opened Nodes
  import opened Grouping
  import opened RedisModel
  import opened Ownership
  import opened CrashPoints
  import opened StatefulSets
  import opened ClusterView
  import opened ScalingDown
  import A = AllocSlots
  import B = Rebalance
  import E = MigrationExec
  import G = MigrationBatches
  import M = MigrationPlan
  import P = PlacementV2
  import R = Arithmetic
  import Z = Zones

  // ---------------------------------------------------------------- the owners a branch leaves behind

  /** Exactly these nodes own slots, together all of them, and they have the keys. */
  ghost predicate OwnedByAll(claims: Claims, store: Store, hashSlots: nat, nodes: seq<Node>) {
    && OneOwner(claims, hashSlots) && KeysAtOwner(claims, store)
    && (forall n :: n in nodes ==> SlotsOf(claims, n.id) != {})
    && ClaimedBy(claims, IdList(nodes))
  }

  ghost predicate NobodyOwns(claims: Claims) {
    forall x :: SlotsOf(claims, x) == {}
  }

  lemma {:induction false} ShareAt(h: nat, n: nat, k: nat, j: nat)
    requires 1 <= n <= h && j < k <= n
    ensures A.Shares(h, n, k)[j] == A.Share(h, n, j)
  {
    if j < k - 1 {
      ShareAt(h, n, k - 1, j);
    }
  }

  lemma ShareMember(h: nat, n: nat, j: nat, s: Slot)
    requires 1 <= n <= h && j < n
    ensures s in A.Shares(h, n, n)[j] <==> A.InShare(h, n, j, s)
  {
    ShareAt(h, n, n, j);
    A.CutBounds(h, n, j);
    RangeSlotsMembers(A.Cut(h, n, j), A.Cut(h, n, j + 1) - 1);
  }

  lemma AllocClaim(claims: Claims, before: Claims, nodes: seq<Node>, h: nat, x: string, s: Slot)
    requires 1 <= |nodes| <= h && NobodyOwns(before)
    requires A.Allocated(claims, before, nodes, A.Shares(h, |nodes|, |nodes|))
    ensures s in SlotsOf(claims, x) <==> exists j :: 0 <= j < |nodes| && nodes[j].id == x && A.InShare(h, |nodes|, j, s)
  {
    var lists := A.Shares(h, |nodes|, |nodes|);
    assert SlotsOf(before, x) == {};
    if s in SlotsOf(claims, x) {
      var j :| 0 <= j < |lists| && nodes[j].id == x && s in lists[j];
      ShareMember(h, |nodes|, j, s);
    }
    if j :| 0 <= j < |nodes| && nodes[j].id == x && A.InShare(h, |nodes|, j, s) {
      ShareMember(h, |nodes|, j, s);
      assert nodes[j].id == x && s in lists[j];
    }
  }

  /** Handing out the shares to masters without slots gives every slot one owner. */
  lemma AllocOwns(claims: Claims, before: Claims, nodes: seq<Node>, h: nat)
    requires 1 <= |nodes| <= h && NobodyOwns(before) && NoDup(IdList(nodes))
    requires A.Allocated(claims, before, nodes, A.Shares(h, |nodes|, |nodes|))
    ensures OneOwner(claims, h)
  {
    var n := |nodes|;
    forall x, y, s | s in SlotsOf(claims, x) && s in SlotsOf(claims, y) ensures x == y {
      AllocClaim(claims, before, nodes, h, x, s);
      AllocClaim(claims, before, nodes, h, y, s);
      A.SharesPartition(h, n, s);
    }
    forall s: Slot ensures Owned(claims, s) <==> s < h {
      A.SharesPartition(h, n, s);
      if s < h {
        var j :| 0 <= j < n && A.InShare(h, n, j, s);
        AllocClaim(claims, before, nodes, h, nodes[j].id, s);
        assert s in SlotsOf(claims, nodes[j].id);
      }
      if x :| s in SlotsOf(claims, x) {
        AllocClaim(claims, before, nodes, h, x, s);
      }
    }
  }

  lemma AllocNotEmpty(claims: Claims, before: Claims, nodes: seq<Node>, h: nat, j: nat)
    requires 1 <= |nodes| <= h && NobodyOwns(before) && j < |nodes|
    requires A.Allocated(claims, before, nodes, A.Shares(h, |nodes|, |nodes|))
    ensures SlotsOf(claims, nodes[j].id) != {}
  {
    A.CutStep(h, |nodes|, j);
    A.CutBounds(h, |nodes|, j);
    var s: Slot := A.Cut(h, |nodes|, j);
    assert A.InShare(h, |nodes|, j, s);
    AllocClaim(claims, before, nodes, h, nodes[j].id, s);
  }

  lemma AllocSettles(claims: Claims, before: Claims, store: Store, nodes: seq<Node>, h: nat)
    requires 1 <= |nodes| <= h && NobodyOwns(before) && NoDup(IdList(nodes)) && KeysAtOwner(before, store)
    requires A.Allocated(claims, before, nodes, A.Shares(h, |nodes|, |nodes|))
    ensures OwnedByAll(claims, store, h, nodes)
  {
    AllocOwns(claims, before, nodes, h);
    NoKeysAnywhere(before, store);
    AllocAll(claims, before, nodes, h);
    AllocNoOther(claims, before, nodes, h);
  }

  lemma AllocAll(claims: Claims, before: Claims, nodes: seq<Node>, h: nat)
    requires 1 <= |nodes| <= h && NobodyOwns(before)
    requires A.Allocated(claims, before, nodes, A.Shares(h, |nodes|, |nodes|))
    ensures forall n :: n in nodes ==> SlotsOf(claims, n.id) != {}
  {
    forall n | n in nodes ensures SlotsOf(claims, n.id) != {} {
      var j :| 0 <= j < |nodes| && nodes[j] == n;
      AllocNotEmpty(claims, before, nodes, h, j);
    }
  }

  lemma AllocNoOther(claims: Claims, before: Claims, nodes: seq<Node>, h: nat)
    requires 1 <= |nodes| <= h && NobodyOwns(before)
    requires A.Allocated(claims, before, nodes, A.Shares(h, |nodes|, |nodes|))
    ensures ClaimedBy(claims, IdList(nodes))
  {
  }

  lemma NoKeysAnywhere(claims: Claims, store: Store)
    requires NobodyOwns(claims) && KeysAtOwner(claims, store)
    ensures store == {}
  {
    forall e: (string, Slot, string) ensures e !in store {
      assert (e.0, e.1, e.2) == e;
      assert SlotsOf(claims, e.0) == {};
    }
  }

  lemma RebalanceSettles(claims: Claims, store: Store, nodes: seq<Node>, h: nat, expected: int, base: seq<int>,
                         shares: seq<int>)
    requires expected >= 1 && B.Sound(claims, store, h, IdList(nodes))
    requires B.Spread(claims, nodes, expected, shares) && exists c, p :: B.RoundRobin(base, shares, c, p)
    ensures OwnedByAll(claims, store, h, nodes)
  {
  }

  lemma AtLeastOne(h: nat, n: nat)
    requires 1 <= n <= h
    ensures h / n >= 1
  {
  }

  lemma DispatchSettles(claims: Claims, store: Store, h: nat, own: G.OwnerMap, nodes: seq<Node>)
    requires E.Consistent(claims, store, own, h) && E.OwnedByNew(own, nodes, h)
    requires forall n :: n in nodes ==> exists s :: s in own && own[s] == n
    ensures OwnedByAll(claims, store, h, nodes)
  {
    E.MatchFunctional(claims, own);
    forall s: Slot ensures Owned(claims, s) <==> s < h {
      if s in own {
        assert E.ClaimOk(claims, own, own[s].id, s);
      }
      if x :| s in SlotsOf(claims, x) {
        assert E.ClaimOk(claims, own, x, s);
      }
    }
    forall n | n in nodes ensures SlotsOf(claims, n.id) != {} {
      var s :| s in own && own[s] == n;
      assert E.ClaimOk(claims, own, n.id, s);
    }
    forall x | SlotsOf(claims, x) != {} ensures x in IdList(nodes) {
      var s :| s in SlotsOf(claims, x);
      assert E.ClaimOk(claims, own, x, s);
      M.IdListMember(nodes, x);
    }
  }

  /** Owners of all slots that are the masters of the first statefulsets are a settled cluster. */
  lemma OwnersSettled(claims: Claims, store: Store, hashSlots: nat, nodes: seq<Node>, masters: seq<Node>,
                      home: Home)
    requires OwnedByAll(claims, store, hashSlots, nodes) && Elems(nodes) == Elems(masters)
    requires Homes(home, IdList(masters))
    ensures Settled(claims, store, hashSlots, IdList(masters), home)
  {
    OwnersAre(claims, nodes, masters);
  }

  lemma OwnersAre(claims: Claims, nodes: seq<Node>, masters: seq<Node>)
    requires Elems(nodes) == Elems(masters) && ClaimedBy(claims, IdList(nodes))
    requires forall n :: n in nodes ==> SlotsOf(claims, n.id) != {}
    ensures AllClaim(claims, IdList(masters)) && ClaimedBy(claims, IdList(masters))
  {
    forall i | 0 <= i < |masters| ensures SlotsOf(claims, IdList(masters)[i]) != {} {
      assert masters[i] in Elems(nodes);
    }
    forall x | SlotsOf(claims, x) != {} ensures x in IdList(masters) {
      SameIds(nodes, masters, x);
    }
  }

  lemma SameIds(nodes: seq<Node>, masters: seq<Node>, x: string)
    requires Elems(nodes) == Elems(masters)
    ensures x in IdList(nodes) <==> x in IdList(masters)
  {
    M.IdListMember(nodes, x);
    M.IdListMember(masters, x);
    assert forall n :: n in nodes <==> n in Elems(nodes);
    assert forall n :: n in masters <==> n in Elems(masters);
  }

  // ---------------------------------------------------------------- how many slots each master gets

  ghost predicate AtLeast(claims: Claims, ids: seq<string>, low: nat) {
    forall i :: 0 <= i < |ids| ==> |SlotsOf(claims, ids[i])| >= low
  }

  ghost predicate AtMost(claims: Claims, ids: seq<string>, high: nat) {
    forall i :: 0 <= i < |ids| ==> |SlotsOf(claims, ids[i])| <= high
  }

  lemma SameBounds(claims: Claims, nodes: seq<Node>, masters: seq<Node>, low: nat, high: nat)
    requires Elems(nodes) == Elems(masters)
    ensures AtLeast(claims, IdList(nodes), low) ==> AtLeast(claims, IdList(masters), low)
    ensures AtMost(claims, IdList(nodes), high) ==> AtMost(claims, IdList(masters), high)
  {
    forall i | 0 <= i < |masters| ensures exists j :: 0 <= j < |nodes| && IdList(nodes)[j] == IdList(masters)[i] {
      assert masters[i] in Elems(nodes);
      var j :| 0 <= j < |nodes| && nodes[j] == masters[i];
      assert IdList(nodes)[j] == IdList(masters)[i];
    }
  }

  /** Shares that are handed out are the floor or the ceiling of the average. */
  lemma AllocBounds(claims: Claims, before: Claims, nodes: seq<Node>, h: nat)
    requires 1 <= |nodes| <= h && NobodyOwns(before) && NoDup(IdList(nodes))
    requires A.Allocated(claims, before, nodes, A.Shares(h, |nodes|, |nodes|))
    ensures AtLeast(claims, IdList(nodes), h / |nodes|) && AtMost(claims, IdList(nodes), R.CeilDiv(h, |nodes|))
  {
    forall j | 0 <= j < |nodes|
      ensures h / |nodes| <= |SlotsOf(claims, IdList(nodes)[j])| <= R.CeilDiv(h, |nodes|)
    {
      AllocShare(claims, before, nodes, h, j);
      A.CutStep(h, |nodes|, j);
    }
  }

  lemma AllocShare(claims: Claims, before: Claims, nodes: seq<Node>, h: nat, j: nat)
    requires 1 <= |nodes| <= h && NobodyOwns(before) && NoDup(IdList(nodes)) && j < |nodes|
    requires A.Allocated(claims, before, nodes, A.Shares(h, |nodes|, |nodes|))
    ensures |SlotsOf(claims, IdList(nodes)[j])| == A.Cut(h, |nodes|, j + 1) - A.Cut(h, |nodes|, j)
  {
    var n, x := |nodes|, IdList(nodes)[j];
    forall s: Slot ensures s in SlotsOf(claims, x) <==> A.InShare(h, n, j, s) {
      AllocClaim(claims, before, nodes, h, x, s);
      OnlyOne(nodes, j);
    }
    ShareSize(h, n, j, SlotsOf(claims, x));
  }

  lemma OnlyOne(nodes: seq<Node>, j: nat)
    requires NoDup(IdList(nodes)) && j < |nodes|
    ensures forall i :: 0 <= i < |nodes| && nodes[i].id == nodes[j].id ==> i == j
  {
    forall i | 0 <= i < |nodes| && nodes[i].id == nodes[j].id ensures i == j {
      assert IdList(nodes)[i] == IdList(nodes)[j];
    }
  }

  lemma ShareSize(h: nat, n: nat, j: nat, slots: set<Slot>)
    requires 1 <= n <= h && j < n && forall s: Slot :: s in slots <==> A.InShare(h, n, j, s)
    ensures |slots| == A.Cut(h, n, j + 1) - A.Cut(h, n, j)
  {
    A.CutBounds(h, n, j);
    var share := A.Share(h, n, j);
    RangeSlotsMembers(A.Cut(h, n, j), A.Cut(h, n, j + 1) - 1);
    assert forall s :: s in share <==> A.InShare(h, n, j, s);
    assert slots == Elems(share);
    NoDupCardinality(share);
  }

  /** After a rebalancing everyone has the rounded-down average. */
  lemma RebalanceBounds(claims: Claims, nodes: seq<Node>, expected: nat, base: seq<int>, shares: seq<int>)
    requires B.Spread(claims, nodes, expected, shares) && exists c, p :: B.RoundRobin(base, shares, c, p)
    ensures AtLeast(claims, IdList(nodes), expected)
  {
  }

  /** After a dispatch nobody has more than the rounded-up average and one. */
  lemma DispatchBounds(claims: Claims, own: G.OwnerMap, nodes: seq<Node>, lists: seq<seq<Slot>>, quota: nat)
    requires E.ClaimsMatch(claims, own) && |lists| == |nodes| && M.Balanced(lists, quota) && UniqueIds(Elems(nodes))
    requires forall i :: 0 <= i < |nodes| ==> E.Held(nodes[i], lists[i], own)
    requires forall s: Slot :: s in own ==> own[s] in nodes
    ensures AtMost(claims, IdList(nodes), quota + 1)
  {
    forall i | 0 <= i < |nodes| ensures |SlotsOf(claims, IdList(nodes)[i])| <= quota + 1 {
      forall s: Slot ensures s in SlotsOf(claims, nodes[i].id) <==> s in Elems(lists[i]) {
        assert E.ClaimOk(claims, own, nodes[i].id, s) && E.HeldBy(nodes[i], lists[i], own, s);
        if s in own && own[s].id == nodes[i].id {
          assert own[s] in Elems(nodes) && nodes[i] in Elems(nodes);
        }
      }
      assert SlotsOf(claims, IdList(nodes)[i]) == Elems(lists[i]);
      NoDupCardinality(lists[i]);
    }
  }

  // ---------------------------------------------------------------- choosing masters

  datatype Spec = Spec(clusterName: string, masterSize: nat, haEnabled: bool, creating: bool, zonesInfo: set<string>,
                       lowReplication: bool)

  datatype SyncResult =
    | Synced
    | NoZone
    | NoMasters(error: P.DispatchError)
    | SlavesNotAttached
    | SlotsNotMoved
    | ScaleDownStopped(outcome: Outcome)

  /** The chosen masters against the slot holders ids. */
  ghost predicate Selection(all: seq<Node>, ids: seq<string>, masters: seq<Node>, newMasters: seq<Node>,
                            curMasters: seq<Node>, home: Home)
  {
    && NoDup(newMasters) && Elems(newMasters) == Elems(masters) && |newMasters| == |masters|
    && NoDup(curMasters) && Elems(curMasters) <= Elems(all) && |curMasters| == |ids|
    && Elems(IdList(curMasters)) == Elems(ids) && Elems(masters) <= Elems(all)
    && Homes(home, IdList(masters))
    && (forall i :: 0 <= i < |masters| && i < |ids| ==> masters[i].id == ids[i])
  }

  ghost predicate SlotsWhere(all: seq<Node>, ids: seq<string>, masters: seq<Node>, curMasters: seq<Node>)
    reads all, masters
  {
    && (forall n :: n in all ==> (n in curMasters <==> n.slots != []))
    && (forall i :: |ids| <= i < |masters| ==> masters[i].slots == [])
  }

  // ---------------------------------------------------------------- when masters can be chosen

  ghost predicate ZonesNamed(all: seq<Node>) {
    forall n :: n in all ==> n.zone != "" && n.zone != UNKNOWN_NAME
  }

  /** The nodes that name this statefulset, in order. */
  ghost function NodesOf(all: seq<Node>, name: string): (r: seq<Node>)
    ensures forall i :: 0 <= i < |r| ==> r[i] in all
  {
    if all == [] then []
    else
      var n := all[|all| - 1];
      NodesOf(all[..|all| - 1], name) + (if P.SetName(n) == name then [n] else [])
  }

  lemma {:induction false} NodesOfAreMembers(all: seq<Node>, cluster: Cluster, name: string)
    requires ListsAll(cluster, all)
    ensures MembersOf(all, P.SetNames(cluster), name) == NodesOf(all, name)
  {
    if all != [] {
      NodesOfAreMembers(all[..|all| - 1], cluster, name);
      assert all[|all| - 1] in all;
    }
  }

  ghost function MembersIn(all: seq<Node>, names: seq<string>): (r: seq<seq<Node>>)
    ensures |r| == |names| && forall i :: 0 <= i < |names| ==> r[i] == NodesOf(all, names[i])
  {
    seq(|names|, i requires 0 <= i < |names| => NodesOf(all, names[i]))
  }

  lemma MembersAreIn(all: seq<Node>, cluster: Cluster, groups: Groups, names: seq<string>)
    requires ListsAll(cluster, all) && Grouped(groups, all, P.SetNames(cluster))
    ensures MembersList(groups, names) == MembersIn(all, names)
  {
    forall i | 0 <= i < |names| ensures MembersList(groups, names)[i] == MembersIn(all, names)[i] {
      NodesOfAreMembers(all, cluster, names[i]);
      assert GroupIs(groups, names[i], MembersOf(all, P.SetNames(cluster), names[i]));
    }
  }

  predicate ByZone(spec: Spec) {
    spec.haEnabled && spec.creating
  }

  ghost predicate ReadyAt(all: seq<Node>, name: string, i: nat, byZone: bool, zones: seq<string>)
    requires byZone ==> zones != []
    reads all
  {
    P.Placeable(NodesOf(all, name), SlotHolders(NodesOf(all, name)), i, byZone, zones)
  }

  /** Every expected statefulset has nodes, at most one slot holder and, where the zone decides, a node in its zone. */
  ghost predicate Ready(all: seq<Node>, names: seq<string>, byZone: bool, zones: seq<string>)
    requires byZone ==> zones != []
    reads all
  {
    forall i :: 0 <= i < |names| ==> ReadyAt(all, names[i], i, byZone, zones)
  }

  lemma ReadyIsPlaceable(all: seq<Node>, cluster: Cluster, groups: Groups, names: seq<string>, holders: seq<seq<Node>>,
                         byZone: bool, zones: seq<string>)
    requires ListsAll(cluster, all) && Grouped(groups, all, P.SetNames(cluster)) && (byZone ==> zones != [])
    requires holders == P.Holders(groups, names)
    ensures P.AllPlaceable(groups, names, holders, byZone, zones) <==> Ready(all, names, byZone, zones)
  {
    forall i | 0 <= i < |names|
      ensures P.Placeable(Group(groups, names[i]), holders[i], i, byZone, zones) <==>
              ReadyAt(all, names[i], i, byZone, zones)
    {
      NodesOfAreMembers(all, cluster, names[i]);
      assert GroupIs(groups, names[i], MembersOf(all, P.SetNames(cluster), names[i]));
    }
  }

  /** NewCtx over the nodes of the run. */
  method NewContext(all: seq<Node>, spec: Spec, cluster: Cluster, ghost claims: Claims, ghost ids: seq<string>,
                    ghost home: Home, ghost zones: seq<string>) returns (ctx: P.Ctx, ghost holders: seq<seq<Node>>)
    requires View(all, claims) && AtHomeAll(all, cluster, spec.clusterName, home) && ListsAll(cluster, all)
    requires OnePerStatefulSet(claims, ids, home) && ZonesOk(spec, zones)
    ensures fresh(ctx) && Grouped(ctx.nodes, all, P.SetNames(cluster)) && ctx.currentMasters == SlotHolders(all)
    ensures ctx.expectedMasterNum == spec.masterSize && ctx.clusterName == spec.clusterName
    ensures ctx.haEnabled == spec.haEnabled && ctx.creating == spec.creating && ctx.zonesInfo == spec.zonesInfo
    ensures ctx.newMastersBySts == map[] && !ctx.bestEffort && forall name :: name in ctx.nodes ==> ctx.nodes[name] != []
    ensures holders == P.Holders(ctx.nodes, ctx.StsNames()) && HoldersKnown(ids, holders)
    ensures P.AllPlaceable(ctx.nodes, ctx.StsNames(), holders, ByZone(spec), zones) <==>
            Ready(all, NameList(spec.clusterName, spec.masterSize), ByZone(spec), zones)
  {
    ctx := new P.Ctx(spec.masterSize, spec.clusterName, cluster, spec.haEnabled, spec.creating, spec.zonesInfo, all);
    KnownAll(all, cluster);
    GroupsNotEmpty(ctx.nodes, all, cluster);
    NameListFacts(spec.clusterName, spec.masterSize);
    holders := P.Holders(ctx.nodes, ctx.StsNames());
    FindHolders(all, claims, cluster, home, ctx.nodes, spec.clusterName, ids, ctx.StsNames(), holders);
    ReadyIsPlaceable(all, cluster, ctx.nodes, ctx.StsNames(), holders, ByZone(spec), zones);
  }

  /** Builds the context and dispatches the masters. */
  method RunDispatch(all: seq<Node>, spec: Spec, cluster: Cluster, ghost claims: Claims, ghost ids: seq<string>,
                     ghost home: Home, ghost zones: seq<string>)
    returns (dispatched: P.DispatchResult, ctx: P.Ctx, ghost holders: seq<seq<Node>>, ghost masters: seq<Node>)
    requires View(all, claims) && AtHomeAll(all, cluster, spec.clusterName, home) && ListsAll(cluster, all)
    requires OnePerStatefulSet(claims, ids, home) && ZonesOk(spec, zones)
    ensures dispatched.Dispatched? <==> old(Ready(all, NameList(spec.clusterName, spec.masterSize), ByZone(spec), zones))
    ensures fresh(ctx) && Grouped(ctx.nodes, all, P.SetNames(cluster))
    ensures ctx.currentMasters == old(SlotHolders(all))
    ensures dispatched.Dispatched? ==>
              && |masters| == spec.masterSize && HoldersKnown(ids, holders)
              && P.Chosen(ctx.nodes, NameList(spec.clusterName, spec.masterSize), holders, masters)
              && P.Table(ctx.newMastersBySts, NameList(spec.clusterName, spec.masterSize), masters)
  {
    ctx, holders := NewContext(all, spec, cluster, claims, ids, home, zones);
    dispatched, masters := ctx.DispatchMasters(zones);
  }

  /** Current and new masters of a run. */
  method Select(all: seq<Node>, spec: Spec, cluster: Cluster, ghost claims: Claims, ghost ids: seq<string>,
                ghost home: Home, ghost zones: seq<string>)
    returns (result: SyncResult, newMasters: seq<Node>, curMasters: seq<Node>, groups: Groups, ghost masters: seq<Node>)
    requires View(all, claims) && AtHomeAll(all, cluster, spec.clusterName, home) && ListsAll(cluster, all)
    requires OnePerStatefulSet(claims, ids, home)
    requires ZonesOk(spec, zones)
    ensures result.Synced? || result.NoMasters?
    ensures result.Synced? <==> old(Ready(all, NameList(spec.clusterName, spec.masterSize), ByZone(spec), zones))
    ensures result.Synced? ==>
              && |masters| == spec.masterSize && Grouped(groups, all, P.SetNames(cluster))
              && Selection(all, ids, masters, newMasters, curMasters, home)
              && SlotsWhere(all, ids, masters, curMasters)
  {
    ghost var holders;
    var dispatched, ctx;
    dispatched, ctx, holders, masters := RunDispatch(all, spec, cluster, claims, ids, home, zones);
    groups, curMasters, newMasters := ctx.nodes, ctx.currentMasters, [];
    if dispatched.Failed? {
      return NoMasters(dispatched.error), newMasters, curMasters, groups, masters;
    }
    SelectFacts(all, claims, cluster, home, groups, spec.clusterName, ids, NameList(spec.clusterName, spec.masterSize),
                holders, masters, curMasters);
    newMasters := ctx.GetNewMasters(NameList(spec.clusterName, spec.masterSize), masters);
    result := Synced;
  }

  ghost predicate ZonesOk(spec: Spec, zones: seq<string>) {
    && Z.Ordered(zones) && Elems(zones) == spec.zonesInfo
    && (spec.haEnabled && spec.creating ==> zones != [])
  }

  lemma GroupsNotEmpty(groups: Groups, all: seq<Node>, cluster: Cluster)
    requires Grouped(groups, all, P.SetNames(cluster))
    ensures forall name :: name in groups ==> groups[name] != []
  {
    forall name | name in groups ensures groups[name] != [] {
      assert GroupIs(groups, name, MembersOf(all, P.SetNames(cluster), name));
    }
  }

  lemma SelectFacts(all: seq<Node>, claims: Claims, cluster: Cluster, home: Home, groups: Groups, clusterName: string,
                    ids: seq<string>, names: seq<string>, holders: seq<seq<Node>>, masters: seq<Node>, cur: seq<Node>)
    requires View(all, claims) && AtHomeAll(all, cluster, clusterName, home) && Grouped(groups, all, P.SetNames(cluster))
    requires OnePerStatefulSet(claims, ids, home) && names == NameList(clusterName, |masters|)
    requires P.Chosen(groups, names, holders, masters) && HoldersKnown(ids, holders)
    requires cur == SlotHolders(all)
    ensures NoDup(masters) && Selection(all, ids, masters, masters, cur, home)
    ensures SlotsWhere(all, ids, masters, cur)
  {
    NameListFacts(clusterName, |masters|);
    NewMasters(all, claims, cluster, home, groups, clusterName, ids, names, holders, masters);
    CurrentMasters(all, claims, cur);
    IdsDistinct(claims, ids, home);
    CurrentIds(all, claims, cur, ids);
  }

  // ---------------------------------------------------------------- creating

  /** AllocSlots for a cluster in which nobody owns a slot. */
  method Create(redis: Redis, newMasters: seq<Node>, hashSlots: nat, ghost masters: seq<Node>, ghost home: Home) returns (ok: bool)
    requires 1 <= |newMasters| <= hashSlots && 2 * hashSlots < UINT64_LIMIT - 1
    requires NoDup(newMasters) && UniqueIds(Elems(newMasters)) && Elems(newMasters) == Elems(masters)
    requires Homes(home, IdList(masters))
    requires NobodyOwns(redis.claims) && KeysAtOwner(redis.claims, redis.store)
    modifies redis, newMasters
    ensures redis.store == old(redis.store)
    ensures Careful(old(redis.Now()), redis.Now()) && redis.failed == (old(redis.failed) || !ok)
    ensures !redis.failed ==> Settled(redis.claims, redis.store, hashSlots, IdList(masters), home)
    ensures !redis.failed ==> AtLeast(redis.claims, IdList(masters), hashSlots / |newMasters|)
    ensures !redis.failed ==> AtMost(redis.claims, IdList(masters), R.CeilDiv(hashSlots, |newMasters|))
  {
    ghost var before, lists := redis.claims, [];
    IdListNoDup(newMasters);
    ok, lists := A.AllocSlots(redis, newMasters, hashSlots);
    if ok {
      AllocSettles(redis.claims, before, redis.store, newMasters, hashSlots);
      AllocBounds(redis.claims, before, newMasters, hashSlots);
      SameBounds(redis.claims, newMasters, masters, hashSlots / |newMasters|, R.CeilDiv(hashSlots, |newMasters|));
      OwnersSettled(redis.claims, redis.store, hashSlots, newMasters, masters, home);
    }
  }

  // ---------------------------------------------------------------- scaling up

  /** With more masters than slot holders, all slot holders are among the masters. */
  lemma HoldersStay(claims: Claims, ids: seq<string>, masters: seq<Node>, newMasters: seq<Node>)
    requires ClaimedBy(claims, ids) && Elems(newMasters) == Elems(masters) && |ids| <= |masters|
    requires forall i :: 0 <= i < |masters| && i < |ids| ==> masters[i].id == ids[i]
    ensures ClaimedBy(claims, IdList(newMasters))
  {
    forall x | SlotsOf(claims, x) != {} ensures x in IdList(newMasters) {
      var i :| 0 <= i < |ids| && ids[i] == x;
      assert IdList(masters)[i] == x;
      SameIds(newMasters, masters, x);
    }
  }

  /** What RebalancedCluster is called with. */
  lemma ReadyToRebalance(all: seq<Node>, claims: Claims, store: Store, hashSlots: nat, ids: seq<string>, masters: seq<Node>,
                         newMasters: seq<Node>)
    requires View(all, claims) && OneOwner(claims, hashSlots) && KeysAtOwner(claims, store) && ClaimedBy(claims, ids)
    requires NoDup(newMasters) && Elems(newMasters) == Elems(masters) && Elems(masters) <= Elems(all)
    requires |ids| <= |masters| && forall i :: 0 <= i < |masters| && i < |ids| ==> masters[i].id == ids[i]
    ensures UniqueIds(Elems(newMasters)) && Sum(Lengths(Snapshot(newMasters))) == hashSlots
    ensures forall n :: n in newMasters ==> NoDup(n.slots)
    ensures B.Agree(claims, IdList(newMasters), Snapshot(newMasters))
    ensures B.Sound(claims, store, hashSlots, IdList(newMasters))
  {
    SubIds(all, newMasters);
    HoldersStay(claims, ids, masters, newMasters);
    ViewAgree(all, claims, newMasters);
    AgreeTotal(claims, IdList(newMasters), Snapshot(newMasters), hashSlots);
    forall n | n in newMasters ensures NoDup(n.slots) {
      assert n in Elems(all);
      assert Faithful(n, claims);
    }
  }

  /** The branch of the first run: slaves first, then slots. */
  method CreateBranch(redis: Redis, newMasters: seq<Node>, hashSlots: nat, attached: bool, ghost masters: seq<Node>, ghost home: Home)
    returns (result: SyncResult, ghost ids': seq<string>)
    requires 1 <= |newMasters| <= hashSlots && 2 * hashSlots < UINT64_LIMIT - 1
    requires NoDup(newMasters) && UniqueIds(Elems(newMasters)) && Elems(newMasters) == Elems(masters)
    requires Homes(home, IdList(masters))
    requires Settled(redis.claims, redis.store, hashSlots, [], home)
    modifies redis, newMasters
    ensures redis.store == old(redis.store) && Careful(old(redis.Now()), redis.Now())
    ensures ids' == if attached then IdList(masters) else []
    ensures if attached then result.Synced? || (result.SlotsNotMoved? && redis.failed) else result.SlavesNotAttached?
    ensures !old(redis.failed) ==> (result.SlotsNotMoved? <==> redis.failed)
    ensures !redis.failed ==> Settled(redis.claims, redis.store, hashSlots, ids', home)
    ensures !redis.failed && attached ==>
              && AtLeast(redis.claims, ids', hashSlots / |newMasters|)
              && AtMost(redis.claims, ids', R.CeilDiv(hashSlots, |newMasters|))
  {
    if !attached {
      CarefulNothing(redis.Now(), redis.Now());
      return SlavesNotAttached, [];
    }
    NobodyYet(redis.claims, []);
    var ok := Create(redis, newMasters, hashSlots, masters, home);
    return if ok then Synced else SlotsNotMoved, IdList(masters);
  }

  /** RebalancedCluster for more masters than slot holders. */
  method ScaleUp(redis: Redis, all: seq<Node>, newMasters: seq<Node>, hashSlots: nat, ghost ids: seq<string>,
                 ghost masters: seq<Node>, ghost home: Home) returns (ok: bool)
    requires View(all, redis.claims) && Settled(redis.claims, redis.store, hashSlots, ids, home)
    requires 0 < |ids| < |masters| == |newMasters| <= hashSlots && Homes(home, IdList(masters))
    requires NoDup(newMasters) && Elems(newMasters) == Elems(masters) && Elems(masters) <= Elems(all)
    requires forall i :: 0 <= i < |masters| && i < |ids| ==> masters[i].id == ids[i]
    requires masters[|ids|].slots == []
    modifies redis, newMasters
    ensures SameKeys(old(redis.store), redis.store)
    ensures Careful(old(redis.Now()), redis.Now()) && (!ok ==> redis.failed)
    ensures ok ==> forall n :: n in newMasters ==> n.balance == 0
    ensures !redis.failed ==> Settled(redis.claims, redis.store, hashSlots, IdList(masters), home)
    ensures !redis.failed ==> AtLeast(redis.claims, IdList(masters), hashSlots / |newMasters|)
  {
    ghost var expected := hashSlots / |newMasters|;
    ghost var base := B.Surplus(Snapshot(newMasters), expected);
    AtLeastOne(hashSlots, |newMasters|);
    ReadyToRebalance(all, redis.claims, redis.store, hashSlots, ids, masters, newMasters);
    B.SurplusSum(Snapshot(newMasters), hashSlots);
    assert masters[|ids|] in Elems(newMasters) && |masters[|ids|].slots| < expected;
    ghost var shares;
    ok, shares := B.RebalancedCluster(redis, newMasters, hashSlots);
    if !redis.failed {
      RebalanceSettles(redis.claims, redis.store, newMasters, hashSlots, expected, base, shares);
      RebalanceBounds(redis.claims, newMasters, expected, base, shares);
      SameBounds(redis.claims, newMasters, masters, expected, 0);
      OwnersSettled(redis.claims, redis.store, hashSlots, newMasters, masters, home);
    }
  }

  /** The branch for more masters: slaves first, then slots. */
  method ScaleUpBranch(redis: Redis, all: seq<Node>, newMasters: seq<Node>, hashSlots: nat, attached: bool, ghost ids: seq<string>,
                       ghost masters: seq<Node>, ghost home: Home) returns (result: SyncResult, ghost ids': seq<string>)
    requires View(all, redis.claims) && Settled(redis.claims, redis.store, hashSlots, ids, home)
    requires 0 < |ids| < |masters| == |newMasters| <= hashSlots && Homes(home, IdList(masters))
    requires NoDup(newMasters) && Elems(newMasters) == Elems(masters) && Elems(masters) <= Elems(all)
    requires forall i :: 0 <= i < |masters| && i < |ids| ==> masters[i].id == ids[i]
    requires masters[|ids|].slots == []
    modifies redis, newMasters
    ensures SameKeys(old(redis.store), redis.store)
    ensures Careful(old(redis.Now()), redis.Now())
    ensures ids' == if attached then IdList(masters) else ids
    ensures if attached then result.Synced? || (result.SlotsNotMoved? && redis.failed) else result.SlavesNotAttached?
    ensures result.Synced? ==> forall n :: n in newMasters ==> n.balance == 0
    ensures !redis.failed ==> Settled(redis.claims, redis.store, hashSlots, ids', home)
    ensures !redis.failed && attached ==> AtLeast(redis.claims, ids', hashSlots / |newMasters|)
  {
    if !attached {
      CarefulNothing(redis.Now(), redis.Now());
      SameKeysRefl(redis.store);
      return SlavesNotAttached, ids;
    }
    var ok := ScaleUp(redis, all, newMasters, hashSlots, ids, masters, home);
    return if ok then Synced else SlotsNotMoved, IdList(masters);
  }

  // ---------------------------------------------------------------- scaling down

  /** With fewer masters than slot holders, every master is one of them. */
  lemma MastersAreHolders(all: seq<Node>, claims: Claims, ids: seq<string>, masters: seq<Node>, curMasters: seq<Node>)
    requires View(all, claims) && AllClaim(claims, ids) && Elems(masters) <= Elems(all)
    requires |masters| <= |ids| && forall i :: 0 <= i < |masters| && i < |ids| ==> masters[i].id == ids[i]
    requires forall n :: n in all ==> (n in curMasters <==> n.slots != [])
    ensures Elems(masters) <= Elems(curMasters)
  {
  }

  lemma OwnersClaims(claims: Claims, nodes: seq<Node>, lists: seq<seq<Slot>>, x: string, s: Slot)
    requires |nodes| == |lists| && B.Agree(claims, IdList(nodes), lists) && PairwiseDisjoint(lists)
    requires ClaimedBy(claims, IdList(nodes))
    ensures E.ClaimOk(claims, G.Owners(nodes, lists), x, s)
  {
    var own := G.Owners(nodes, lists);
    G.OwnersMember(nodes, lists, s);
    if s in SlotsOf(claims, x) {
      assert x in IdList(nodes);
      var i :| 0 <= i < |nodes| && IdList(nodes)[i] == x;
      assert s in Elems(lists[i]);
      G.OwnersAt(nodes, lists, i, s);
    }
    if s in own && own[s].id == x {
      var i :| 0 <= i < |nodes| && s in lists[i] && own[s] == nodes[i];
      assert s in Elems(lists[i]) && IdList(nodes)[i] == x;
    }
  }

  /** Records that list all claims agree with Redis about every slot. */
  lemma StartConsistent(claims: Claims, store: Store, hashSlots: nat, nodes: seq<Node>, lists: seq<seq<Slot>>)
    requires |nodes| == |lists| && B.Agree(claims, IdList(nodes), lists) && PairwiseDisjoint(lists)
    requires ClaimedBy(claims, IdList(nodes)) && OneOwner(claims, hashSlots) && KeysAtOwner(claims, store)
    ensures E.Consistent(claims, store, G.Owners(nodes, lists), hashSlots)
    ensures forall j, s :: 0 <= j < |lists| && s in lists[j] ==> s < hashSlots
  {
    var own := G.Owners(nodes, lists);
    forall x, s ensures E.ClaimOk(claims, own, x, s) {
      OwnersClaims(claims, nodes, lists, x, s);
    }
    forall s: Slot | s < hashSlots ensures s in own {
      assert Owned(claims, s);
      var x :| s in SlotsOf(claims, x);
      assert E.ClaimOk(claims, own, x, s);
    }
    forall j, s | 0 <= j < |lists| && s in lists[j] ensures s < hashSlots {
      assert s in Elems(lists[j]) && s in SlotsOf(claims, IdList(nodes)[j]);
      assert Owned(claims, s);
    }
  }

  lemma ListsStand(all: seq<Node>, nm: seq<Node>, cur: seq<Node>, nbSlots: nat)
    requires UniqueIds(Elems(all)) && NoDup(nm) && NoDup(cur) && Elems(nm) <= Elems(cur) <= Elems(all)
    requires PairwiseDisjoint(Snapshot(cur))
    requires forall j, s :: 0 <= j < |cur| && s in Snapshot(cur)[j] ==> s < nbSlots
    ensures M.Standing(IdList(nm), Snapshot(nm), IdList(cur), Snapshot(cur), nbSlots)
    ensures G.SameRecords(nm, cur)
  {
    SubIds(all, nm);
    SubIds(all, cur);
    IdsNotEmpty(all, nm);
    IdsNotEmpty(all, cur);
    assert forall n :: n in nm ==> n in Elems(nm);
    assert forall n :: n in cur ==> n in Elems(cur);
    forall i | 0 <= i < |nm| ensures IdList(nm)[i] in IdList(cur) {
      assert nm[i] in Elems(cur);
      M.IdListMember(cur, nm[i].id);
    }
    forall i, j | 0 <= i < |nm| && 0 <= j < |cur| && IdList(nm)[i] == IdList(cur)[j]
      ensures Snapshot(nm)[i] == Snapshot(cur)[j]
    {
      assert nm[i] in Elems(all) && cur[j] in Elems(all);
    }
  }

  lemma IdsNotEmpty(all: seq<Node>, some: seq<Node>)
    requires UniqueIds(Elems(all)) && Elems(some) <= Elems(all)
    ensures "" !in IdList(some)
  {
  }

  /** What DispatchSlotToNewMasters is called with. */
  lemma ReadyToDispatch(all: seq<Node>, claims: Claims, store: Store, hashSlots: nat, ids: seq<string>, masters: seq<Node>,
                        nm: seq<Node>, cur: seq<Node>)
    requires View(all, claims) && OneOwner(claims, hashSlots) && KeysAtOwner(claims, store)
    requires AllClaim(claims, ids) && ClaimedBy(claims, ids)
    requires NoDup(nm) && NoDup(cur) && Elems(nm) == Elems(masters) && Elems(masters) <= Elems(all)
    requires Elems(cur) <= Elems(all) && Elems(IdList(cur)) == Elems(ids)
    requires |masters| <= |ids| && forall i :: 0 <= i < |masters| && i < |ids| ==> masters[i].id == ids[i]
    requires forall n :: n in all ==> (n in cur <==> n.slots != [])
    ensures Elems(nm) <= Elems(cur)
    ensures M.Standing(IdList(nm), Snapshot(nm), IdList(cur), Snapshot(cur), hashSlots) && G.SameRecords(nm, cur)
    ensures E.Consistent(claims, store, G.Owners(cur, Snapshot(cur)), hashSlots)
  {
    MastersAreHolders(all, claims, ids, masters, cur);
    SubIds(all, cur);
    ViewAgree(all, claims, cur);
    AgreeDisjoint(claims, IdList(cur), Snapshot(cur));
    assert forall x :: x in ids ==> x in Elems(IdList(cur));
    StartConsistent(claims, store, hashSlots, cur, Snapshot(cur));
    ListsStand(all, nm, cur, hashSlots);
  }

  /** A master that keeps some of its slots is still an owner. */
  lemma StillOwner(n: Node, before: seq<Slot>, after: seq<Slot>, quota: nat, own: G.OwnerMap)
    requires before != [] && quota > 0 && Elems(M.Kept(before, quota)) <= Elems(after) && E.Held(n, after, own)
    ensures exists s :: s in own && own[s] == n
  {
    var s := M.Kept(before, quota)[0];
    assert s in Elems(M.Kept(before, quota));
    assert E.HeldBy(n, after, own, s);
  }

  lemma AllStillOwners(nodes: seq<Node>, before: seq<seq<Slot>>, after: seq<seq<Slot>>, quota: nat, nbSlots: nat, own: G.OwnerMap)
    requires quota > 0 && |before| == |nodes| && E.Dispatched(nodes, after, before, nbSlots, quota)
    requires forall i :: 0 <= i < |nodes| ==> before[i] != []
    requires forall i :: 0 <= i < |nodes| ==> E.Held(nodes[i], after[i], own)
    ensures forall n :: n in nodes ==> exists s :: s in own && own[s] == n
  {
    forall n | n in nodes ensures exists s :: s in own && own[s] == n {
      var i :| 0 <= i < |nodes| && nodes[i] == n;
      StillOwner(n, before[i], after[i], quota, own);
    }
  }

  lemma SubRecords(all: seq<Node>, some: seq<Node>)
    requires UniqueIds(Elems(all)) && E.UniqueAddresses(Elems(all)) && Elems(some) <= Elems(all)
    ensures UniqueIds(Elems(some)) && E.UniqueAddresses(Elems(some))
  {
  }

  lemma BothWithin(all: seq<Node>, a: seq<Node>, b: seq<Node>)
    requires Elems(a) <= Elems(all) && Elems(b) <= Elems(all)
    ensures Elems(a + b) <= Elems(all)
  {
  }

  lemma OutsideBoth(nm: seq<Node>, cur: seq<Node>)
    requires Elems(nm) <= Elems(cur)
    ensures forall n :: n !in cur ==> n !in Elems(nm + cur)
  {
    forall n | n in Elems(nm + cur) ensures n in cur {
      assert n in Elems(nm) || n in Elems(cur);
    }
  }

  /** What a successful dispatch means for Redis. */
  lemma DispatchedSettles(claims: Claims, store: Store, h: nat, own: G.OwnerMap, nm: seq<Node>, before: seq<seq<Slot>>,
                          after: seq<seq<Slot>>, quota: nat, masters: seq<Node>, home: Home)
    requires E.Consistent(claims, store, own, h) && E.OwnedByNew(own, nm, h)
    requires quota > 0 && |before| == |nm| && E.Dispatched(nm, after, before, h, quota)
    requires forall i :: 0 <= i < |nm| ==> before[i] != []
    requires forall i :: 0 <= i < |nm| ==> E.Held(nm[i], after[i], own)
    requires Elems(nm) == Elems(masters) && Homes(home, IdList(masters))
    ensures Settled(claims, store, h, IdList(masters), home)
  {
    AllStillOwners(nm, before, after, quota, h, own);
    DispatchSettles(claims, store, h, own, nm);
    OwnersSettled(claims, store, h, nm, masters, home);
  }

  /** DispatchSlotToNewMasters for fewer masters than slot holders. */
  method MoveSlotsAway(redis: Redis, all: seq<Node>, nm: seq<Node>, cur: seq<Node>, hashSlots: nat, ghost ids: seq<string>,
                       ghost masters: seq<Node>, ghost home: Home) returns (ok: bool)
    requires View(all, redis.claims) && Settled(redis.claims, redis.store, hashSlots, ids, home)
    requires 0 < hashSlots && 2 * hashSlots < UINT64_LIMIT - 1 && E.UniqueAddresses(Elems(all))
    requires Selection(all, ids, masters, nm, cur, home) && 0 < |masters| < |ids|
    requires forall n :: n in all ==> (n in cur <==> n.slots != [])
    modifies redis, Elems(nm + cur)`slots
    ensures SameKeys(old(redis.store), redis.store)
    ensures Careful(old(redis.Now()), redis.Now()) && (!ok ==> redis.failed)
    ensures !redis.failed ==> Settled(redis.claims, redis.store, hashSlots, IdList(masters), home)
    ensures !redis.failed ==> AtMost(redis.claims, IdList(masters), R.CeilDiv(hashSlots, |masters|) + 1)
    ensures ok ==> forall n :: n in cur && n !in nm ==> n.slots == []
    ensures forall n :: n in all && n !in cur ==> n.slots == []
  {
    ReadyToDispatch(all, redis.claims, redis.store, hashSlots, ids, masters, nm, cur);
    BothWithin(all, nm, cur);
    SubRecords(all, nm + cur);
    ghost var before := Snapshot(nm);
    HoldersHaveSlots(all, nm, cur, before);
    OutsideBoth(nm, cur);
    ghost var own, plan;
    ok, own, plan := E.DispatchSlotToNewMasters(redis, nm, cur, hashSlots);
    if !redis.failed {
      ghost var quota := Quota(hashSlots, |nm|);
      HeldLists(nm, cur, own);
      DispatchedSettles(redis.claims, redis.store, hashSlots, own, nm, before, Snapshot(nm), quota, masters, home);
      SubIds(all, nm);
      DispatchBounds(redis.claims, own, nm, Snapshot(nm), quota);
      SameBounds(redis.claims, nm, masters, 0, quota + 1);
    }
  }

  lemma HeldLists(nm: seq<Node>, cur: seq<Node>, own: G.OwnerMap)
    requires E.AllHeld(Elems(nm + cur), own)
    ensures forall i :: 0 <= i < |nm| ==> E.Held(nm[i], Snapshot(nm)[i], own)
  {
  }

  lemma HoldersHaveSlots(all: seq<Node>, nm: seq<Node>, cur: seq<Node>, lists: seq<seq<Slot>>)
    requires Elems(nm) <= Elems(cur) <= Elems(all) && lists == Snapshot(nm)
    requires forall n :: n in all ==> (n in cur <==> n.slots != [])
    ensures forall i :: 0 <= i < |nm| ==> lists[i] != []
  {
    forall i | 0 <= i < |nm| ensures lists[i] != [] {
      assert nm[i] in Elems(nm) && nm[i] in Elems(all);
      assert nm[i] in Elems(cur);
    }
  }

  ghost function Quota(h: nat, n: nat): (r: nat)
    requires h > 0 && n > 0
    ensures r == R.CeilDiv(h, n) && r > 0
  {
    R.CeilDivFacts(h, n);
    R.CeilDiv(h, n)
  }

  lemma GroupAtHome(all: seq<Node>, cluster: Cluster, home: Home, groups: Groups, clusterName: string, i: nat, name: string,
                    n: Node)
    requires AtHomeAll(all, cluster, clusterName, home) && Grouped(groups, all, P.SetNames(cluster))
    requires name == StsName(clusterName, i) && n in Group(groups, name)
    ensures n in all && AtHome(home, n.id, i)
  {
    assert GroupIs(groups, name, MembersOf(all, P.SetNames(cluster), name));
    MembersOfMember(all, P.SetNames(cluster), name, n);
    NumberUnique(clusterName, name, home(n.id), i);
  }

  /** The nodes belong to the first k statefulsets. */
  ghost predicate Inside(home: Home, nodes: seq<Node>, k: nat) {
    forall n :: n in nodes ==> home(n.id) < k
  }

  lemma MastersInside(home: Home, masters: seq<Node>, nm: seq<Node>)
    requires Homes(home, IdList(masters)) && Elems(nm) == Elems(masters)
    ensures Inside(home, nm, |masters|)
  {
    forall n | n in nm ensures home(n.id) < |masters| {
      assert n in Elems(masters);
      var j :| 0 <= j < |masters| && masters[j] == n;
      assert AtHome(home, IdList(masters)[j], j);
    }
  }

  lemma RemovedIsEmpty(all: seq<Node>, cluster: Cluster, home: Home, groups: Groups, clusterName: string,
                       nm: seq<Node>, cur: seq<Node>, k: nat, i: nat, name: string)
    requires AtHomeAll(all, cluster, clusterName, home) && Grouped(groups, all, P.SetNames(cluster)) && Inside(home, nm, k)
    requires name == StsName(clusterName, i) && i >= k
    requires forall n :: n in all && n !in cur ==> n.slots == []
    requires forall n :: n in cur && n !in nm ==> n.slots == []
    ensures EmptyGroup(groups, name)
  {
    forall n | n in Group(groups, name) ensures n.slots == [] {
      GroupAtHome(all, cluster, home, groups, clusterName, i, name, n);
    }
  }

  /** After the dispatch no node of a statefulset that goes has slots. */
  lemma RemovedAreEmpty(all: seq<Node>, cluster: Cluster, home: Home, groups: Groups, clusterName: string,
                        nm: seq<Node>, cur: seq<Node>, k: nat, names: seq<string>)
    requires AtHomeAll(all, cluster, clusterName, home) && Grouped(groups, all, P.SetNames(cluster)) && Inside(home, nm, k)
    requires NamesAre(names, clusterName)
    requires forall n :: n in all && n !in cur ==> n.slots == []
    requires forall n :: n in cur && n !in nm ==> n.slots == []
    ensures EmptyFrom(names, k, groups)
  {
    forall i | k <= i < |names| ensures EmptyGroup(groups, names[i]) {
      assert NameIs(names, clusterName, i);
      RemovedIsEmpty(all, cluster, home, groups, clusterName, nm, cur, k, i, names[i]);
    }
  }

  /** The removal of statefulsets down to this size went as far as the outcome says. */
  ghost predicate TookAway(log: seq<Request>, names: seq<string>, members: seq<seq<Node>>, size: nat, outcome: Outcome) {
    exists k: nat, j: nat :: TookAwayTo(log, names, members, size, outcome, k, j)
  }

  ghost predicate TookAwayTo(log: seq<Request>, names: seq<string>, members: seq<seq<Node>>, size: nat, outcome: Outcome,
                             k: nat, j: nat)
  {
    RunIs([], log, names, members, size, k, j, outcome) && Removed([], log, names, members, size, k)
  }

  /**
   * What a run with that result asks of Kubernetes: after a success with more statefulsets than
   * wanted, everything that removes those from the top down to the wanted size, and so their
   * deletion, all of them in this order; if it stopped on the way, the part up to there;
   * nothing in all other cases.
   */
  ghost predicate Removes(log: seq<Request>, names: seq<string>, members: seq<seq<Node>>, spec: Spec, result: SyncResult) {
    if result.ScaleDownStopped? then
      !result.outcome.Done? && TookAway(log, names, members, spec.masterSize, result.outcome)
    else if result.Synced? && |names| > spec.masterSize && !spec.lowReplication then
      TookAway(log, names, members, spec.masterSize, Done) && Deletions(log) == Downward(names, spec.masterSize)
    else
      log == []
  }

  /** The same for a cluster of this size and its nodes. */
  ghost predicate RemovesFrom(log: seq<Request>, all: seq<Node>, size: nat, spec: Spec, result: SyncResult) {
    var names := NameList(spec.clusterName, size);
    Removes(log, names, MembersIn(all, names), spec, result)
  }

  /** scalingDown, once no node that goes has slots: it never stops at one that has. */
  method TakeAway(kube: Kube, clusterName: string, current: nat, expected: nat, groups: Groups, ghost names: seq<string>)
    returns (outcome: Outcome)
    requires expected <= current == |names| && NamesAre(names, clusterName) && kube.log == []
    requires EmptyFrom(names, expected, groups)
    modifies kube
    ensures !outcome.NotEmpty? && TookAway(kube.log, names, MembersList(groups, names), expected, outcome)
    ensures outcome.Done? ==> Deletions(kube.log) == Downward(names, expected)
  {
    ghost var members := MembersList(groups, names);
    ghost var full := ReadFulls(members);
    NoneFull(names, groups, members, full, expected);
    ghost var k, j;
    outcome, k, j := ScaleDown(kube, clusterName, current, expected, groups, names, members, full);
    assert TookAwayTo(kube.log, names, members, expected, outcome, k, j);
  }

  /** The scale-down branch: slots first, then statefulsets. A node that still has slots is never met. */
  method ScaleDownBranch(redis: Redis, kube: Kube, all: seq<Node>, nm: seq<Node>, cur: seq<Node>, hashSlots: nat, spec: Spec,
                         groups: Groups, ghost cluster: Cluster, ghost ids: seq<string>, ghost names: seq<string>,
                         ghost masters: seq<Node>, ghost home: Home) returns (result: SyncResult)
    requires View(all, redis.claims) && Settled(redis.claims, redis.store, hashSlots, ids, home)
    requires 0 < hashSlots && 2 * hashSlots < UINT64_LIMIT - 1 && E.UniqueAddresses(Elems(all))
    requires Selection(all, ids, masters, nm, cur, home)
    requires 0 < spec.masterSize == |masters| < |ids|
    requires forall n :: n in all ==> (n in cur <==> n.slots != [])
    requires AtHomeAll(all, cluster, spec.clusterName, home) && Grouped(groups, all, P.SetNames(cluster))
    requires kube.log == [] && |names| == |ids| && NamesAre(names, spec.clusterName) && !spec.lowReplication
    modifies redis, kube, Elems(nm + cur)`slots
    ensures Careful(old(redis.Now()), redis.Now())
    ensures RunDone(redis.claims, redis.store, old(redis.store), redis.failed, hashSlots, ids, IdList(masters), spec, home, result)
    ensures result.Synced? || (result.SlotsNotMoved? && redis.failed) ||
            (result.ScaleDownStopped? && !result.outcome.NotEmpty?)
    ensures Removes(kube.log, names, MembersList(groups, names), spec, result)
  {
    var ok := MoveSlotsAway(redis, all, nm, cur, hashSlots, ids, masters, home);
    if ok {
      MastersInside(home, masters, nm);
      RemovedAreEmpty(all, cluster, home, groups, spec.clusterName, nm, cur, |masters|, names);
      var outcome := TakeAway(kube, spec.clusterName, |cur|, spec.masterSize, groups, names);
      result := if outcome.Done? then Synced else ScaleDownStopped(outcome);
    } else {
      result := SlotsNotMoved;
    }
    SlotsMoved(redis.claims, redis.store, old(redis.store), redis.failed, hashSlots, ids, IdList(masters), spec, home, result);
  }

  // ---------------------------------------------------------------- one run

  /** How many masters there are after a run; with too few replicas the slaves of a large enough cluster come first. */
  function NextSize(size: nat, spec: Spec, result: SyncResult): nat {
    match result
    case Synced => if spec.lowReplication && spec.masterSize <= size then size else spec.masterSize
    case ScaleDownStopped(_) => spec.masterSize
    case _ => size
  }

  /**
   * How many slots each master has after slots were handed out or moved: between the rounded averages
   * in a new cluster, at least the rounded-down one after scaling up, and at most one above the rounded-up
   * one after scaling down.
   */
  ghost predicate Shared(claims: Claims, hashSlots: nat, size: nat, ids': seq<string>, spec: Spec, result: SyncResult) {
    if ids' == [] || !(result.Synced? || result.ScaleDownStopped?) then true
    else if size == 0 then
      AtLeast(claims, ids', hashSlots / |ids'|) && AtMost(claims, ids', R.CeilDiv(hashSlots, |ids'|))
    else if size < spec.masterSize then AtLeast(claims, ids', hashSlots / |ids'|)
    else size > spec.masterSize && !spec.lowReplication ==> AtMost(claims, ids', R.CeilDiv(hashSlots, |ids'|) + 1)
  }

  /** What a run leaves behind: all keys and, without a failure, a settled cluster of the size that goes with the result. */
  ghost predicate RunDone(claims: Claims, store: Store, store0: Store, failed: bool, hashSlots: nat, ids: seq<string>,
                          ids': seq<string>, spec: Spec, home: Home, result: SyncResult)
  {
    && SameKeys(store0, store)
    && (!failed ==> Settled(claims, store, hashSlots, ids', home) && |ids'| == NextSize(|ids|, spec, result)
                    && Shared(claims, hashSlots, |ids|, ids', spec, result))
  }

  lemma SlotsMoved(claims: Claims, store: Store, store0: Store, failed: bool, hashSlots: nat, ids: seq<string>,
                   ids': seq<string>, spec: Spec, home: Home, result: SyncResult)
    requires SameKeys(store0, store) && 0 < spec.masterSize == |ids'| < |ids| && !spec.lowReplication
    requires !failed ==> Settled(claims, store, hashSlots, ids', home)
    requires !failed ==> AtMost(claims, ids', R.CeilDiv(hashSlots, |ids'|) + 1)
    requires result.Synced? || result.ScaleDownStopped? || (result.SlotsNotMoved? && failed)
    ensures RunDone(claims, store, store0, failed, hashSlots, ids, ids', spec, home, result)
  {
  }

  lemma NothingDone(claims: Claims, store: Store, failed: bool, hashSlots: nat, ids: seq<string>, spec: Spec, home: Home,
                    result: SyncResult)
    requires Settled(claims, store, hashSlots, ids, home) && !result.ScaleDownStopped?
    requires result.Synced? ==> spec.masterSize <= |ids| && (spec.lowReplication || |ids| == spec.masterSize)
    ensures RunDone(claims, store, store, failed, hashSlots, ids, ids, spec, home, result)
  {
    SameKeysRefl(store);
  }

  lemma SameKeysRefl(store: Store)
    ensures SameKeys(store, store)
  {
  }

  lemma NobodyYet(claims: Claims, ids: seq<string>)
    requires ClaimedBy(claims, ids) && ids == []
    ensures NobodyOwns(claims)
  {
  }

  /** The branches for a cluster that has as many masters as wanted, or more: slaves, else scale-down, else nothing. */
  method WithEnoughMasters(redis: Redis, kube: Kube, all: seq<Node>, spec: Spec, hashSlots: nat, nm: seq<Node>, cur: seq<Node>,
                           groups: Groups, attached: bool, ghost cluster: Cluster, ghost ids: seq<string>,
                           ghost names: seq<string>, ghost masters: seq<Node>, ghost home: Home)
    returns (result: SyncResult, ghost ids': seq<string>)
    requires View(all, redis.claims) && Settled(redis.claims, redis.store, hashSlots, ids, home)
    requires 1 <= spec.masterSize == |masters| <= |ids| && 0 < hashSlots && 2 * hashSlots < UINT64_LIMIT - 1
    requires E.UniqueAddresses(Elems(all)) && AtHomeAll(all, cluster, spec.clusterName, home)
    requires Selection(all, ids, masters, nm, cur, home)
    requires forall n :: n in all ==> (n in cur <==> n.slots != [])
    requires Grouped(groups, all, P.SetNames(cluster)) && kube.log == []
    requires |names| == |ids| && NamesAre(names, spec.clusterName)
    modifies redis, kube, Elems(nm + cur)`slots
    ensures Careful(old(redis.Now()), redis.Now())
    ensures RunDone(redis.claims, redis.store, old(redis.store), redis.failed, hashSlots, ids, ids', spec, home, result)
    ensures !result.NoZone? && !result.NoMasters? && (result.SlotsNotMoved? ==> redis.failed)
    ensures result.SlavesNotAttached? <==> !attached && spec.lowReplication
    ensures result.ScaleDownStopped? ==>
              !result.outcome.NotEmpty? && |ids| > spec.masterSize && !spec.lowReplication
    ensures Removes(kube.log, names, MembersList(groups, names), spec, result)
  {
    CarefulNothing(redis.Now(), redis.Now());
    ids' := ids;
    if spec.lowReplication {
      result := if attached then Synced else SlavesNotAttached;
      NothingDone(redis.claims, redis.store, redis.failed, hashSlots, ids, spec, home, result);
    } else if |cur| > spec.masterSize {
      result := ScaleDownBranch(redis, kube, all, nm, cur, hashSlots, spec, groups, cluster, ids, names, masters, home);
      ids' := IdList(masters);
    } else {
      result := Synced;
      NothingDone(redis.claims, redis.store, redis.failed, hashSlots, ids, spec, home, result);
    }
  }

  /** The branches, once the masters are chosen. */
  method Reconcile(redis: Redis, kube: Kube, all: seq<Node>, spec: Spec, hashSlots: nat, nm: seq<Node>, cur: seq<Node>,
                   groups: Groups, attached: bool, ghost cluster: Cluster, ghost ids: seq<string>, ghost names: seq<string>,
                   ghost masters: seq<Node>, ghost home: Home) returns (result: SyncResult, ghost ids': seq<string>)
    requires View(all, redis.claims) && Settled(redis.claims, redis.store, hashSlots, ids, home)
    requires 1 <= spec.masterSize == |masters| <= hashSlots && 2 * hashSlots < UINT64_LIMIT - 1
    requires E.UniqueAddresses(Elems(all)) && AtHomeAll(all, cluster, spec.clusterName, home)
    requires Selection(all, ids, masters, nm, cur, home) && SlotsWhere(all, ids, masters, cur)
    requires Grouped(groups, all, P.SetNames(cluster)) && kube.log == []
    requires |names| == |ids| && NamesAre(names, spec.clusterName)
    modifies redis, kube, nm, Elems(nm + cur)`slots
    ensures Careful(old(redis.Now()), redis.Now())
    ensures RunDone(redis.claims, redis.store, old(redis.store), redis.failed, hashSlots, ids, ids', spec, home, result)
    ensures !result.NoZone? && !result.NoMasters? && (result.SlotsNotMoved? ==> redis.failed)
    ensures result.SlavesNotAttached? <==> !attached && (|ids| < spec.masterSize || spec.lowReplication)
    ensures result.ScaleDownStopped? ==>
              !result.outcome.NotEmpty? && |ids| > spec.masterSize && !spec.lowReplication
    ensures ids == [] && !old(redis.failed) ==> (result.SlotsNotMoved? <==> redis.failed)
    ensures 0 < |ids| < spec.masterSize && result.Synced? ==> forall n :: n in nm ==> n.balance == 0
    ensures Removes(kube.log, names, MembersList(groups, names), spec, result)
  {
    SameKeysRefl(redis.store);
    CarefulNothing(redis.Now(), redis.Now());
    ids' := ids;
    if |cur| == 0 {
      SubIds(all, nm);
      result, ids' := CreateBranch(redis, nm, hashSlots, attached, masters, home);
    } else if |nm| > |cur| {
      result, ids' := ScaleUpBranch(redis, all, nm, hashSlots, attached, ids, masters, home);
    } else {
      result, ids' := WithEnoughMasters(redis, kube, all, spec, hashSlots, nm, cur, groups, attached, cluster, ids, names,
                                        masters, home);
    }
  }

  /**
   * syncCluster on a settled cluster; attached tells whether attaching slaves succeeds. The result is
   * NoZone exactly if some node has no zone, else NoMasters exactly if some statefulset is not ready,
   * else SlavesNotAttached exactly if slaves were to be attached in vain; else it is success, unless a
   * Redis command or a step of removing statefulsets failed. If no Redis command fails it leaves a
   * settled cluster of the size that goes with the result, with the slots shared out, and no node was
   * told of another owner of a slot while it had keys of it. In any case no key is lost, all commands
   * were in an order that is safe against crashes, scaling down never meets a node with slots, and
   * exactly the statefulsets that go with the result were asked to be deleted.
   */
  method Sync(redis: Redis, kube: Kube, all: seq<Node>, spec: Spec, hashSlots: nat, attached: bool, ghost ids: seq<string>,
              ghost home: Home, ghost zones: seq<string>) returns (result: SyncResult, ghost ids': seq<string>)
    requires View(all, redis.claims) && Settled(redis.claims, redis.store, hashSlots, ids, home)
    requires 1 <= spec.masterSize <= hashSlots && 2 * hashSlots < UINT64_LIMIT - 1 && ZonesOk(spec, zones)
    requires E.UniqueAddresses(Elems(all)) && Placed(all, spec.clusterName, home) && kube.log == []
    modifies redis, kube, all
    ensures Careful(old(redis.Now()), redis.Now())
    ensures RunDone(redis.claims, redis.store, old(redis.store), redis.failed, hashSlots, ids, ids', spec, home, result)
    ensures result.NoZone? <==> !ZonesNamed(all)
    ensures result.NoMasters? <==>
            ZonesNamed(all) && !old(Ready(all, NameList(spec.clusterName, spec.masterSize), ByZone(spec), zones))
    ensures result.SlavesNotAttached? <==>
            && ZonesNamed(all) && old(Ready(all, NameList(spec.clusterName, spec.masterSize), ByZone(spec), zones))
            && !attached && (|ids| < spec.masterSize || spec.lowReplication)
    ensures result.SlotsNotMoved? ==> redis.failed
    ensures ids == [] && !old(redis.failed) ==> (result.SlotsNotMoved? <==> redis.failed)
    ensures result.ScaleDownStopped? ==>
              !result.outcome.NotEmpty? && |ids| > spec.masterSize && !spec.lowReplication
    ensures RemovesFrom(kube.log, all, |ids|, spec, result)
  {
    CarefulNothing(redis.Now(), redis.Now());
    ids' := ids;
    NothingDone(redis.claims, redis.store, redis.failed, hashSlots, ids, spec, home, NoZone);
    var ok, cluster := NewRedisCluster(all);
    if !ok {
      return NoZone, ids';
    }
    TableAtHome(cluster, all, spec.clusterName, home);
    var nm, cur, groups;
    ghost var masters;
    result, nm, cur, groups, masters := Select(all, spec, cluster, redis.claims, ids, home, zones);
    if result.NoMasters? {
      NothingDone(redis.claims, redis.store, redis.failed, hashSlots, ids, spec, home, result);
      return;
    }
    WithinAll(all, nm, cur);
    ghost var names := NameList(spec.clusterName, |ids|);
    NameListFacts(spec.clusterName, |ids|);
    MembersAreIn(all, cluster, groups, names);
    result, ids' := Reconcile(redis, kube, all, spec, hashSlots, nm, cur, groups, attached, cluster, ids, names, masters,
                              home);
  }

  lemma WithinAll(all: seq<Node>, nm: seq<Node>, cur: seq<Node>)
    requires Elems(nm) <= Elems(all) && Elems(cur) <= Elems(all)
    ensures forall i :: 0 <= i < |nm| ==> nm[i] in all
    ensures forall n :: n in Elems(nm + cur) ==> n in all
  {
    forall i | 0 <= i < |nm| ensures nm[i] in all {
      assert nm[i] in Elems(nm);
    }
    BothWithin(all, nm, cur);
  }
}
