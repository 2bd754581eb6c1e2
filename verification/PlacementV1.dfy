/** Spreading masters and slaves over VMs: controllers/clustering/placement.go. */
module PlacementV1 {
  import opened Lists
  import opened Nodes
  import opened Grouping

  function VmName(n: Node): string {
    if n.nodeName == "" then UNKNOWN_NAME else n.nodeName
  }

  /** The VM of each node that the cluster knows. */
  ghost function VmNames(cluster: Cluster): map<string, string> {
    map id | id in cluster :: VmName(cluster[id])
  }

  method SortRedisNodeByVM(cluster: Cluster, nodes: seq<Node>) returns (groups: Groups)
    ensures Grouped(groups, nodes, VmNames(cluster))
  {
    groups := map[];
    for i := 0 to |nodes|
      invariant Grouped(groups, nodes[..i], VmNames(cluster))
    {
      var n := nodes[i];
      PrefixNext(nodes, i);
      if n.id !in cluster {
        GroupedSkip(groups, nodes[..i], VmNames(cluster), n);
        continue;
      }
      GroupedAdd(groups, nodes[..i], VmNames(cluster), n);
      var vm := VmName(cluster[n.id]);
      groups := groups[vm := Group(groups, vm) + [n]];
    }
    assert nodes[..|nodes|] == nodes;
  }

  // ---------------------------------------------------------------- masters

  ghost predicate OnVm(vms: map<string, string>, n: Node, vm: string) {
    n.id in vms && vms[n.id] == vm
  }

  /** A list of candidates on one VM. */
  ghost predicate PoolOk(list: seq<Node>, vm: string, candidates: seq<Node>, vms: map<string, string>) {
    NoDup(list) && forall n :: n in list ==> n in candidates && OnVm(vms, n, vm)
  }

  ghost predicate Sided(n: Node, picks: seq<Node>, pool: Groups, vms: map<string, string>)
    requires n.id in vms
  {
    n in picks <==> n !in Group(pool, vms[n.id])
  }

  /** Every known candidate is either picked or still in the pool. */
  ghost predicate Halves(picks: seq<Node>, pool: Groups, candidates: seq<Node>, vms: map<string, string>) {
    && NoDup(picks) && (forall n :: n in picks ==> n in candidates && n.id in vms)
    && (forall vm :: vm in pool ==> PoolOk(pool[vm], vm, candidates, vms))
    && (forall n :: n in candidates && n.id in vms ==> Sided(n, picks, pool, vms))
  }

  lemma StartHalves(groups: Groups, candidates: seq<Node>, vms: map<string, string>)
    requires NoDup(candidates) && Grouped(groups, candidates, vms)
    ensures Halves([], groups, candidates, vms) && Stocked(groups, groups.Keys)
  {
    forall vm | vm in groups ensures PoolOk(groups[vm], vm, candidates, vms) {
      assert GroupIs(groups, vm, MembersOf(candidates, vms, vm));
      MembersOfNoDup(candidates, vms, vm);
      forall n | n in groups[vm] ensures n in candidates && OnVm(vms, n, vm) {
        MembersOfMember(candidates, vms, vm, n);
      }
    }
    forall vm | vm in groups ensures groups[vm] != [] {
      assert GroupIs(groups, vm, MembersOf(candidates, vms, vm));
    }
    forall n | n in candidates && n.id in vms ensures Sided(n, [], groups, vms) {
      assert GroupIs(groups, vms[n.id], MembersOf(candidates, vms, vms[n.id]));
      MembersOfMember(candidates, vms, vms[n.id], n);
    }
  }

  lemma HalvesTake(picks: seq<Node>, pool: Groups, candidates: seq<Node>, vms: map<string, string>, vm: string)
    requires Halves(picks, pool, candidates, vms) && vm in pool && pool[vm] != []
    ensures Halves(picks + [pool[vm][0]], pool[vm := pool[vm][1..]], candidates, vms)
    ensures OnVm(vms, pool[vm][0], vm)
  {
  }

  /** The nodes are on different VMs, none of them among the occupied ones. */
  ghost predicate Apart(picks: seq<Node>, vms: map<string, string>, occupied: set<string>) {
    && (forall n :: n in picks ==> n.id in vms && vms[n.id] !in occupied)
    && (forall i, j :: 0 <= i < j < |picks| && picks[i].id in vms && picks[j].id in vms ==> vms[picks[i].id] != vms[picks[j].id])
  }

  /** The VMs in todo have not been used. */
  ghost predicate Unused(picks: seq<Node>, vms: map<string, string>, todo: set<string>) {
    forall n :: n in picks && n.id in vms ==> vms[n.id] !in todo
  }

  lemma ApartExtend(picks: seq<Node>, vms: map<string, string>, occupied: set<string>, todo: set<string>, x: Node, vm: string)
    requires Apart(picks, vms, occupied) && Unused(picks, vms, todo) && OnVm(vms, x, vm) && vm in todo && vm !in occupied
    ensures Apart(picks + [x], vms, occupied) && Unused(picks + [x], vms, todo - {vm})
  {
  }

  ghost predicate Exhausted(pool: Groups, done: set<string>) {
    forall vm :: vm in pool && vm in done ==> pool[vm] == []
  }

  ghost predicate Stocked(pool: Groups, names: set<string>) {
    forall vm :: vm in pool && vm in names ==> pool[vm] != []
  }

  /** How many unoccupied VMs have been seen once vm has been, and that they are not more than there are. */
  lemma CountVm(all: set<string>, todo: set<string>, occupied: set<string>, vm: string)
    requires vm in todo && todo <= all
    ensures |(all - (todo - {vm})) - occupied| == |(all - todo) - occupied| + (if vm in occupied then 0 else 1)
    ensures |(all - (todo - {vm})) - occupied| <= |all - occupied|
  {
    var before, after := (all - todo) - occupied, (all - (todo - {vm})) - occupied;
    assert after == before + (if vm in occupied then {} else {vm});
    SubsetCardinality(after, all - occupied);
  }

  /**
   * The first pass, with the VMs of todo still to come: one node has been picked from each free VM
   * seen, the others have not been touched.
   */
  ghost predicate FirstPass(picks: seq<Node>, pool: Groups, pool0: Groups, vms: map<string, string>, occupied: set<string>,
                            todo: set<string>)
  {
    && Apart(picks, vms, occupied) && Unused(picks, vms, todo)
    && (Stocked(pool0, pool0.Keys) ==> Stocked(pool, todo) && |picks| == |(pool0.Keys - todo) - occupied|)
  }

  lemma FirstPassSkip(picks: seq<Node>, pool: Groups, pool0: Groups, vms: map<string, string>, occupied: set<string>,
                      todo: set<string>, vm: string)
    requires FirstPass(picks, pool, pool0, vms, occupied, todo) && vm in todo && todo <= pool0.Keys == pool.Keys
    requires vm in occupied || pool[vm] == []
    ensures FirstPass(picks, pool, pool0, vms, occupied, todo - {vm})
  {
    CountVm(pool0.Keys, todo, occupied, vm);
  }

  lemma FirstPassTake(picks: seq<Node>, pool: Groups, pool0: Groups, vms: map<string, string>, occupied: set<string>,
                      todo: set<string>, vm: string)
    requires FirstPass(picks, pool, pool0, vms, occupied, todo) && vm in todo && todo <= pool0.Keys == pool.Keys
    requires vm !in occupied && pool[vm] != [] && OnVm(vms, pool[vm][0], vm)
    ensures FirstPass(picks + [pool[vm][0]], pool[vm := pool[vm][1..]], pool0, vms, occupied, todo - {vm})
    ensures Stocked(pool0, pool0.Keys) ==> |picks| + 1 <= |pool0.Keys - occupied|
  {
    CountVm(pool0.Keys, todo, occupied, vm);
    ApartExtend(picks, vms, occupied, todo, pool[vm][0], vm);
  }

  /** One VM: its first node is taken, unless the VM is to be left out or has none left. */
  method VisitVm(pool0: Groups, picks0: seq<Node>, vm: string, leaveOut: bool, ghost candidates: seq<Node>,
                 ghost vms: map<string, string>) returns (pool: Groups, picks: seq<Node>)
    requires Halves(picks0, pool0, candidates, vms) && vm in pool0
    ensures Halves(picks, pool, candidates, vms) && pool.Keys == pool0.Keys
    ensures if leaveOut || pool0[vm] == [] then pool == pool0 && picks == picks0
            else pool == pool0[vm := pool0[vm][1..]] && picks == picks0 + [pool0[vm][0]] && OnVm(vms, pool0[vm][0], vm)
  {
    pool, picks := pool0, picks0;
    if !leaveOut && |pool0[vm]| > 0 {
      HalvesTake(picks, pool, candidates, vms, vm);
      picks := picks + [pool[vm][0]];
      pool := pool[vm := pool[vm][1..]];
    }
  }

  /** One pass over the VMs, in any order, taking at most one node from each. */
  method Pass(pool0: Groups, picks0: seq<Node>, bestEffort: bool, occupied: set<string>, need: nat,
              ghost candidates: seq<Node>, ghost vms: map<string, string>)
    returns (pool: Groups, picks: seq<Node>)
    requires Halves(picks0, pool0, candidates, vms) && |picks0| < need
    ensures Halves(picks, pool, candidates, vms) && |picks0| <= |picks| <= need
    ensures |picks| == |picks0| ==> picks == picks0
    ensures bestEffort && picks == picks0 ==> Exhausted(pool, pool.Keys)
    ensures !bestEffort && picks0 == [] ==> Apart(picks, vms, occupied)
    ensures !bestEffort && picks0 == [] && Stocked(pool0, pool0.Keys) ==>
              |picks| == if |pool0.Keys - occupied| < need then |pool0.Keys - occupied| else need
  {
    pool, picks := pool0, picks0;
    ghost var first := !bestEffort && picks0 == [];
    var todo := pool0.Keys;
    assert (pool0.Keys - todo) - occupied == {};
    while todo != {}
      invariant todo <= pool.Keys == pool0.Keys && Halves(picks, pool, candidates, vms)
      invariant |picks0| <= |picks| < need && (|picks| == |picks0| ==> picks == picks0)
      invariant bestEffort && picks == picks0 ==> Exhausted(pool, pool.Keys - todo)
      invariant first ==> FirstPass(picks, pool, pool0, vms, occupied, todo)
      decreases todo
    {
      var vm :| vm in todo;
      ghost var pool1, picks1 := pool, picks;
      pool, picks := VisitVm(pool, picks, vm, !bestEffort && vm in occupied, candidates, vms);
      if first {
        if vm in occupied || pool1[vm] == [] {
          FirstPassSkip(picks1, pool1, pool0, vms, occupied, todo, vm);
        } else {
          FirstPassTake(picks1, pool1, pool0, vms, occupied, todo, vm);
        }
      }
      todo := todo - {vm};
      if |picks| >= need {
        return;
      }
    }
    assert pool0.Keys - todo == pool0.Keys;
  }

  lemma PicksBounded(picks: seq<Node>, pool: Groups, candidates: seq<Node>, cluster: Cluster)
    requires NoDup(candidates) && Halves(picks, pool, candidates, VmNames(cluster))
    ensures |picks| <= |Known(candidates, cluster)|
    ensures Exhausted(pool, pool.Keys) ==> |picks| == |Known(candidates, cluster)|
  {
    var known := Known(candidates, cluster);
    KnownNoDup(candidates, cluster);
    NoDupCardinality(picks);
    NoDupCardinality(known);
    forall n | n in Elems(picks) ensures n in Elems(known) {
      KnownMember(candidates, cluster, n);
    }
    SubsetCardinality(Elems(picks), Elems(known));
    if Exhausted(pool, pool.Keys) {
      forall n | n in Elems(known) ensures n in Elems(picks) {
        KnownMember(candidates, cluster, n);
        assert Sided(n, picks, pool, VmNames(cluster));
      }
      assert Elems(picks) == Elems(known);
    }
  }

  /** The VMs of the nodes, as far as the cluster knows them. */
  ghost function VmsOf(nodes: seq<Node>, cluster: Cluster): set<string> {
    set n | n in nodes && n.id in cluster :: VmName(cluster[n.id])
  }

  lemma OccupiedVms(groups: Groups, nodes: seq<Node>, cluster: Cluster)
    requires Grouped(groups, nodes, VmNames(cluster))
    ensures groups.Keys == VmsOf(nodes, cluster)
  {
    forall vm ensures vm in groups <==> vm in VmsOf(nodes, cluster) {
      assert GroupIs(groups, vm, MembersOf(nodes, VmNames(cluster), vm));
      if vm in groups {
        MembersOfMember(nodes, VmNames(cluster), vm, groups[vm][0]);
      }
      if n :| n in nodes && n.id in cluster && VmName(cluster[n.id]) == vm {
        MembersOfMember(nodes, VmNames(cluster), vm, n);
      }
    }
  }

  /**
   * Picks up to the wanted number of candidates: the first pass takes one from each VM without
   * current master, later passes at best effort one from each VM, until nothing is left.
   */
  method Pick(cluster: Cluster, pool0: Groups, occupied: set<string>, need: nat, ghost candidates: seq<Node>)
    returns (picks: seq<Node>, bestEffort: bool)
    requires NoDup(candidates) && Halves([], pool0, candidates, VmNames(cluster)) && Stocked(pool0, pool0.Keys)
    ensures bestEffort <==> |pool0.Keys - occupied| < need
    ensures NoDup(picks) && forall n :: n in picks ==> n in candidates && n.id in cluster
    ensures |picks| == if |Known(candidates, cluster)| < need then |Known(candidates, cluster)| else need
    ensures !bestEffort ==> Apart(picks, VmNames(cluster), occupied)
  {
    ghost var vms := VmNames(cluster);
    var pool := pool0;
    picks, bestEffort := [], false;
    PicksBounded(picks, pool, candidates, cluster);
    while |picks| < need
      invariant Halves(picks, pool, candidates, vms) && |picks| <= need && |picks| <= |Known(candidates, cluster)|
      invariant !bestEffort ==> Apart(picks, vms, occupied) && (|picks| < need ==> picks == [] && pool == pool0)
      invariant if bestEffort then |pool0.Keys - occupied| < need
                else picks != [] || need == 0 ==> |pool0.Keys - occupied| >= need
      decreases |Known(candidates, cluster)| - |picks| + if bestEffort then 0 else 1
    {
      var before := |picks|;
      pool, picks := Pass(pool, picks, bestEffort, occupied, need, candidates, vms);
      PicksBounded(picks, pool, candidates, cluster);
      if |picks| >= need {
        return;
      }
      if bestEffort && |picks| == before {
        return;
      }
      bestEffort := true;
    }
  }

  function Truncated(nodes: seq<Node>, n: nat): seq<Node> {
    if |nodes| > n then nodes[..n] else nodes
  }

  /**
   * Exactly the wanted number of masters, or an error exactly if current masters and known candidates
   * are too few. Current masters come first; unless at best effort, the added ones are on different
   * VMs that host no current master. Best effort is reported exactly if there are fewer such VMs with
   * candidates than masters are wanting.
   */
  method PlaceMasters(cluster: Cluster, current: seq<Node>, candidates: seq<Node>, nbMaster: nat)
    returns (selection: seq<Node>, bestEffort: bool, ok: bool, ghost picks: seq<Node>)
    requires NoDup(candidates)
    ensures ok <==> |current| + |Known(candidates, cluster)| >= nbMaster
    ensures ok ==> |selection| == nbMaster
    ensures |selection| == |picks| + if |current| < nbMaster then |current| else nbMaster
    ensures forall i :: 0 <= i < |current| && i < nbMaster ==> selection[i] == current[i]
    ensures selection == Truncated(current, nbMaster) + picks
    ensures NoDup(picks) && forall n :: n in picks ==> n in candidates && n.id in cluster
    ensures !bestEffort ==> Apart(picks, VmNames(cluster), VmsOf(current, cluster))
    ensures bestEffort <==>
              |VmsOf(candidates, cluster) - VmsOf(current, cluster)| < nbMaster - |Truncated(current, nbMaster)|
  {
    selection := Truncated(current, nbMaster);
    var masterByVM := SortRedisNodeByVM(cluster, candidates);
    var vmWithAlreadyMaster := SortRedisNodeByVM(cluster, current);
    OccupiedVms(vmWithAlreadyMaster, current, cluster);
    OccupiedVms(masterByVM, candidates, cluster);
    StartHalves(masterByVM, candidates, VmNames(cluster));
    var added;
    added, bestEffort := Pick(cluster, masterByVM, vmWithAlreadyMaster.Keys, nbMaster - |selection|, candidates);
    picks := added;
    selection := selection + added;
    ok := |selection| >= nbMaster;
  }
}
