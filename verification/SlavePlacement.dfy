/** Attaching slaves to masters: PlaceSlaves in controllers/clustering/placement.go. */
module SlavePlacement {
  import opened Lists
  import opened Nodes
  import opened Grouping
  import opened PlacementV1

  // ---------------------------------------------------------------- slaves by master

  ghost predicate Somewhere(att: Groups, n: Node) {
    exists id :: id in att && n in att[id]
  }

  function Most(rf: int): nat {
    if rf > 0 then rf else 0
  }

  ghost predicate ListOk(list: seq<Node>, rf: int, bound: set<Node>) {
    |list| <= Most(rf) && NoDup(list) && forall n :: n in list ==> n in bound
  }

  /** No master has too many slaves, no slave is attached twice, and only nodes of bound are. */
  ghost predicate Tidy(att: Groups, ids: set<string>, rf: int, bound: set<Node>) {
    && att.Keys == ids && (forall id :: id in att ==> ListOk(att[id], rf, bound))
    && (forall a, b, n :: a in att && b in att && n in att[a] && n in att[b] ==> a == b)
  }

  ghost predicate Full(att: Groups, rf: int) {
    forall id :: id in att ==> |att[id]| >= rf
  }

  function Append(att: Groups, id: string, n: Node): Groups
    requires id in att
  {
    att[id := att[id] + [n]]
  }

  lemma TidyAppend(att: Groups, ids: set<string>, rf: int, bound: set<Node>, id: string, n: Node)
    requires Tidy(att, ids, rf, bound) && id in att && |att[id]| < rf && n !in bound
    ensures Tidy(Append(att, id, n), ids, rf, bound + {n})
  {
    var after := Append(att, id, n);
    assert ListOk(att[id], rf, bound);
    NoDupExtend(att[id], n);
    forall k | k in after ensures ListOk(after[k], rf, bound + {n}) {
      assert ListOk(att[k], rf, bound);
    }
    forall a, b, m | a in after && b in after && m in after[a] && m in after[b] ensures a == b {
      assert ListOk(att[a], rf, bound) && ListOk(att[b], rf, bound);
      assert m in att[a] || (a == id && m == n);
      assert m in att[b] || (b == id && m == n);
    }
  }

  lemma TidyWiden(att: Groups, ids: set<string>, rf: int, bound: set<Node>, more: set<Node>)
    requires Tidy(att, ids, rf, bound) && bound <= more
    ensures Tidy(att, ids, rf, more)
  {
  }

  lemma StillSomewhere(att: Groups, id: string, x: Node, n: Node)
    requires id in att
    ensures Somewhere(Append(att, id, x), n) <==> Somewhere(att, n) || n == x
  {
    var after := Append(att, id, x);
    assert x in after[id];
    if k :| k in att && n in att[k] {
      assert n in after[k];
    }
    if k :| k in after && n in after[k] {
      assert n == x || n in att[k];
    }
  }

  // ---------------------------------------------------------------- VMs

  /** The VM of a master, as checkIfSameVM sees it. */
  function HostOf(cluster: Cluster, id: string): string {
    if id in cluster then cluster[id].nodeName else UNKNOWN_NAME
  }

  /** The slave's VM is neither its master's nor that of the slaves attached before it. */
  ghost predicate ApartFrom(cluster: Cluster, id: string, before: seq<Node>, n: Node) {
    && n.id in cluster && HostOf(cluster, id) != VmName(cluster[n.id])
    && forall i :: 0 <= i < |before| && before[i].id in cluster ==>
         cluster[before[i].id].nodeName != VmName(cluster[n.id])
  }

  ghost predicate SpreadAt(att: Groups, cluster: Cluster, news: seq<Node>, id: string, j: nat) {
    id in att && j < |att[id]| && att[id][j] in news ==> ApartFrom(cluster, id, att[id][..j], att[id][j])
  }

  /** Every new slave is apart from its master and the slaves before it. */
  ghost predicate SpreadOut(att: Groups, cluster: Cluster, news: seq<Node>) {
    forall id, j :: SpreadAt(att, cluster, news, id, j)
  }

  lemma SpreadAppend(att: Groups, cluster: Cluster, news: seq<Node>, id: string, n: Node)
    requires SpreadOut(att, cluster, news) && id in att && ApartFrom(cluster, id, att[id], n)
    ensures SpreadOut(Append(att, id, n), cluster, news)
  {
    var after := Append(att, id, n);
    forall k, j: nat ensures SpreadAt(after, cluster, news, k, j) {
      assert SpreadAt(att, cluster, news, k, j);
      if k == id && j < |att[id]| {
        assert after[id][..j] == att[id][..j];
      } else if k == id && j == |att[id]| {
        assert after[id][..j] == att[id];
      }
    }
  }

  /** Whether a slave attached to the master already runs on the VM. */
  method VmUsed(cluster: Cluster, slaves: seq<Node>, vm: string) returns (used: bool)
    ensures used <==> exists i :: 0 <= i < |slaves| && slaves[i].id in cluster && cluster[slaves[i].id].nodeName == vm
  {
    for i := 0 to |slaves|
      invariant forall j :: 0 <= j < i && slaves[j].id in cluster ==> cluster[slaves[j].id].nodeName != vm
    {
      if slaves[i].id in cluster && cluster[slaves[i].id].nodeName == vm {
        return true;
      }
    }
    return false;
  }

  // ---------------------------------------------------------------- attaching one slave

  /** Some master with room, none of whose nodes is on the slave's VM, in any order. */
  method AttachApart(cluster: Cluster, slave: Node, att: Groups, rf: int) returns (attached: bool, id: string)
    requires slave.id in cluster
    ensures attached ==> id in att && |att[id]| < rf && ApartFrom(cluster, id, att[id], slave)
    ensures !attached ==> forall k :: k in att && |att[k]| < rf ==> !ApartFrom(cluster, k, att[k], slave)
  {
    var todo, vm := att.Keys, VmName(cluster[slave.id]);
    while todo != {}
      invariant forall k :: k in att && k !in todo && |att[k]| < rf ==> !ApartFrom(cluster, k, att[k], slave)
      decreases todo
    {
      id :| id in todo;
      todo := todo - {id};
      if id in att && |att[id]| < rf && HostOf(cluster, id) != vm {
        var used := VmUsed(cluster, att[id], vm);
        if !used {
          return true, id;
        }
      }
    }
    return false, "";
  }

  /** Some master with room, in any order. */
  method AttachAnywhere(att: Groups, rf: int) returns (attached: bool, id: string)
    ensures attached ==> id in att && |att[id]| < rf
    ensures !attached ==> Full(att, rf)
  {
    var todo := att.Keys;
    while todo != {}
      invariant todo <= att.Keys
      invariant forall k :: k in att && k !in todo ==> |att[k]| >= rf
      decreases todo
    {
      id :| id in todo;
      todo := todo - {id};
      if |att[id]| < rf {
        return true, id;
      }
    }
    return false, "";
  }

  /** No master with room would take the slave and still be spread out. */
  ghost predicate Blocked(att: Groups, cluster: Cluster, rf: int, n: Node) {
    forall k :: k in att && |att[k]| < rf ==> !ApartFrom(cluster, k, att[k], n)
  }

  // ---------------------------------------------------------------- old slaves

  ghost function IdSet(nodes: seq<Node>): set<string> {
    set n | n in nodes :: n.id
  }

  method NoSlaves(masters: seq<Node>) returns (att: Groups)
    ensures att.Keys == IdSet(masters) && forall id :: id in att ==> att[id] == []
  {
    att := map[];
    for i := 0 to |masters|
      invariant att.Keys == IdSet(masters[..i]) && forall id :: id in att ==> att[id] == []
    {
      PrefixNext(masters, i);
      att := att[masters[i].id := []];
    }
    assert masters[..|masters|] == masters;
  }

  /** Whether an old slave stays: its master is one of the masters and has room. */
  method Stays(masters: seq<Node>, slave: Node, att: Groups, rf: int) returns (stays: bool)
    requires att.Keys == IdSet(masters)
    ensures stays <==> slave.masterReferent in att && |att[slave.masterReferent]| < rf
  {
    for i := 0 to |masters|
      invariant forall j :: 0 <= j < i ==> masters[j].id != slave.masterReferent || |att[masters[j].id]| >= rf
    {
      assert masters[i].id in IdSet(masters);
      if slave.masterReferent == masters[i].id && |att[slave.masterReferent]| < rf {
        return true;
      }
    }
    return false;
  }

  /** The slave is still with its master, unless that is not one of the masters or is full. */
  ghost predicate Stayed(att: Groups, slave: Node, referent: string, rf: int) {
    referent in att ==> slave in att[referent] || |att[referent]| >= rf
  }

  /** Lists have only grown. */
  ghost predicate Grown(before: Groups, after: Groups) {
    before.Keys <= after.Keys && forall id :: id in before ==> before[id] <= after[id]
  }

  lemma GrownAppend(before: Groups, att: Groups, id: string, n: Node)
    requires Grown(before, att) && id in att
    ensures Grown(before, Append(att, id, n))
  {
  }

  /** With more slaves attached a slave that was not wanted is wanted even less. */
  lemma StillBlocked(before: Groups, after: Groups, cluster: Cluster, rf: int, n: Node)
    requires Grown(before, after) && before.Keys == after.Keys && Blocked(before, cluster, rf, n)
    ensures Blocked(after, cluster, rf, n)
  {
    forall k | k in after && |after[k]| < rf ensures !ApartFrom(cluster, k, after[k], n) {
      assert before[k] <= after[k];
      assert forall i :: 0 <= i < |before[k]| ==> after[k][i] == before[k][i];
    }
  }

  lemma GrownTransitive(a: Groups, b: Groups, c: Groups)
    requires Grown(a, b) && Grown(b, c)
    ensures Grown(a, c)
  {
  }

  lemma StillStayed(before: Groups, after: Groups, slave: Node, referent: string, rf: int)
    requires Grown(before, after) && before.Keys == after.Keys && Stayed(before, slave, referent, rf)
    ensures Stayed(after, slave, referent, rf)
  {
  }

  /** Old slaves stay with their masters as far as there is room; the others are dropped. */
  method AttachOld(masters: seq<Node>, oldSlaves: seq<Node>, att0: Groups, rf: int) returns (att: Groups)
    requires att0.Keys == IdSet(masters) && (forall id :: id in att0 ==> att0[id] == []) && NoDup(oldSlaves)
    ensures Tidy(att, IdSet(masters), rf, Elems(oldSlaves))
    ensures forall id, n :: id in att && n in att[id] ==> n.masterReferent == id
    ensures forall j :: 0 <= j < |oldSlaves| ==> Stayed(att, oldSlaves[j], oldSlaves[j].masterReferent, rf)
  {
    att := att0;
    for i := 0 to |oldSlaves|
      invariant Tidy(att, IdSet(masters), rf, Elems(oldSlaves[..i]))
      invariant forall id, n :: id in att && n in att[id] ==> n.masterReferent == id
      invariant forall j :: 0 <= j < i ==> Stayed(att, oldSlaves[j], oldSlaves[j].masterReferent, rf)
    {
      var slave := oldSlaves[i];
      PrefixNext(oldSlaves, i);
      assert Elems(oldSlaves[..i + 1]) == Elems(oldSlaves[..i]) + {slave};
      var stays := Stays(masters, slave, att, rf);
      if stays {
        TidyAppend(att, IdSet(masters), rf, Elems(oldSlaves[..i]), slave.masterReferent, slave);
        att := Append(att, slave.masterReferent, slave);
      } else {
        TidyWiden(att, IdSet(masters), rf, Elems(oldSlaves[..i]), Elems(oldSlaves[..i + 1]));
      }
    }
    assert oldSlaves[..|oldSlaves|] == oldSlaves;
  }

  // ---------------------------------------------------------------- new slaves

  /** VM by VM, in any order of the VMs. */
  method LayOut(groups: Groups, ghost nodes: seq<Node>, ghost vms: map<string, string>) returns (order: seq<Node>)
    requires NoDup(nodes) && Grouped(groups, nodes, vms)
    ensures NoDup(order) && forall n :: n in order <==> n in nodes && n.id in vms
  {
    order := [];
    var todo := groups.Keys;
    StartHalves(groups, nodes, vms);
    while todo != {}
      invariant todo <= groups.Keys && NoDup(order)
      invariant forall n :: n in order <==> n in nodes && n.id in vms && vms[n.id] !in todo
      decreases todo
    {
      var vm :| vm in todo;
      NextVm(groups, nodes, vms, vm);
      NoDupConcat(order, groups[vm]);
      order := order + groups[vm];
      todo := todo - {vm};
    }
    forall n | n in nodes && n.id in vms ensures n in order {
      assert Sided(n, [], groups, vms);
    }
  }

  lemma NextVm(groups: Groups, nodes: seq<Node>, vms: map<string, string>, vm: string)
    requires NoDup(nodes) && Grouped(groups, nodes, vms) && vm in groups
    ensures NoDup(groups[vm]) && forall n :: n in groups[vm] <==> n in nodes && OnVm(vms, n, vm)
  {
    assert GroupIs(groups, vm, MembersOf(nodes, vms, vm));
    MembersOfNoDup(nodes, vms, vm);
    forall n ensures n in groups[vm] <==> n in nodes && OnVm(vms, n, vm) {
      MembersOfMember(nodes, vms, vm, n);
    }
  }

  /** Of the first i new slaves each is attached or free, not both. */
  ghost predicate Accounted(att: Groups, order: seq<Node>, i: nat, free: set<Node>)
    requires i <= |order|
  {
    forall j :: 0 <= j < i ==> (order[j] in free <==> !Somewhere(att, order[j]))
  }

  lemma AccountedAppend(att: Groups, order: seq<Node>, i: nat, free: set<Node>, id: string)
    requires NoDup(order) && i < |order| && Accounted(att, order, i, free) && id in att && order[i] !in free
    ensures Accounted(Append(att, id, order[i]), order, i + 1, free)
  {
    forall j | 0 <= j < i + 1 ensures order[j] in free <==> !Somewhere(Append(att, id, order[i]), order[j]) {
      StillSomewhere(att, id, order[i], order[j]);
    }
  }

  lemma NotAttached(att: Groups, ids: set<string>, rf: int, bound: set<Node>, n: Node)
    requires Tidy(att, ids, rf, bound) && n !in bound
    ensures !Somewhere(att, n)
  {
  }

  /** Attaches new slaves where their VM is free of the master and its slaves; the others are set aside. */
  method AttachNew(cluster: Cluster, order: seq<Node>, att0: Groups, rf: int, ghost ids: set<string>, ghost olds: seq<Node>)
    returns (att: Groups, free: set<Node>)
    requires NoDup(order) && Elems(order) !! Elems(olds) && Tidy(att0, ids, rf, Elems(olds))
    requires forall n :: n in order ==> n.id in cluster
    ensures Tidy(att, ids, rf, Elems(olds) + Elems(order) - free)
    ensures free <= Elems(order) && Accounted(att, order, |order|, free)
    ensures SpreadOut(att, cluster, order)
    ensures Grown(att0, att) && forall n :: n in free ==> Blocked(att, cluster, rf, n)
  {
    att, free := att0, {};
    StartSpread(att, cluster, order, ids, rf, olds);
    ghost var bound := Elems(olds);
    for i := 0 to |order|
      invariant bound == Elems(olds) + Elems(order[..i]) - free && free <= Elems(order[..i])
      invariant Tidy(att, ids, rf, bound) && Accounted(att, order, i, free) && SpreadOut(att, cluster, order)
      invariant Grown(att0, att) && forall n :: n in free ==> Blocked(att, cluster, rf, n)
    {
      var slave := order[i];
      StepBound(order, i, olds, free);
      NotAttached(att, ids, rf, bound, slave);
      var attached, id := AttachApart(cluster, slave, att, rf);
      if attached {
        TidyAppend(att, ids, rf, bound, id, slave);
        AccountedAppend(att, order, i, free, id);
        SpreadAppend(att, cluster, order, id, slave);
        GrownAppend(att0, att, id, slave);
        AllStillBlocked(att, id, slave, cluster, rf, free);
        att, bound := Append(att, id, slave), bound + {slave};
      } else {
        free := free + {slave};
      }
    }
    assert order[..|order|] == order;
  }

  lemma AllStillBlocked(att: Groups, id: string, slave: Node, cluster: Cluster, rf: int, free: set<Node>)
    requires id in att && forall n :: n in free ==> Blocked(att, cluster, rf, n)
    ensures forall n :: n in free ==> Blocked(Append(att, id, slave), cluster, rf, n)
  {
    GrownAppend(att, att, id, slave);
    forall n | n in free ensures Blocked(Append(att, id, slave), cluster, rf, n) {
      StillBlocked(att, Append(att, id, slave), cluster, rf, n);
    }
  }

  lemma StartSpread(att: Groups, cluster: Cluster, news: seq<Node>, ids: set<string>, rf: int, olds: seq<Node>)
    requires Tidy(att, ids, rf, Elems(olds)) && Elems(news) !! Elems(olds)
    ensures SpreadOut(att, cluster, news)
  {
    forall id, j: nat ensures SpreadAt(att, cluster, news, id, j) {
      if id in att && j < |att[id]| {
        assert ListOk(att[id], rf, Elems(olds));
        assert att[id][j] in Elems(olds);
        assert att[id][j] !in Elems(news);
      }
    }
  }

  lemma StepBound(order: seq<Node>, i: nat, olds: seq<Node>, free: set<Node>)
    requires NoDup(order) && i < |order| && Elems(order) !! Elems(olds) && free <= Elems(order[..i])
    ensures order[i] !in free && order[i] !in Elems(olds) && order[i] !in Elems(order[..i])
    ensures Elems(order[..i + 1]) == Elems(order[..i]) + {order[i]}
  {
  }

  // ---------------------------------------------------------------- best effort

  ghost predicate Served(att: Groups, order: seq<Node>, todo: set<Node>, rf: int) {
    forall n :: n in order ==> n in todo || Somewhere(att, n) || Full(att, rf)
  }

  lemma ServedAppend(att: Groups, order: seq<Node>, todo: set<Node>, rf: int, id: string, x: Node)
    requires Served(att, order, todo, rf) && id in att && |att[id]| < rf
    ensures Served(Append(att, id, x), order, todo - {x}, rf)
  {
    forall n | n in order ensures n in todo - {x} || Somewhere(Append(att, id, x), n) {
      StillSomewhere(att, id, x, n);
    }
  }

  /** Slaves that were set aside go to any master with room. */
  method AttachFree(att0: Groups, free: set<Node>, rf: int, ghost ids: set<string>, ghost bound0: set<Node>, ghost order: seq<Node>)
    returns (att: Groups)
    requires Tidy(att0, ids, rf, bound0) && free !! bound0 && Served(att0, order, free, rf)
    ensures Tidy(att, ids, rf, bound0 + free) && Served(att, order, {}, rf) && Grown(att0, att)
  {
    att := att0;
    var todo := free;
    ghost var bound := bound0;
    while todo != {}
      invariant todo <= free && bound == bound0 + (free - todo) && Tidy(att, ids, rf, bound)
      invariant Served(att, order, todo, rf) && Grown(att0, att)
      decreases todo
    {
      var slave :| slave in todo;
      var attached, id := AttachAnywhere(att, rf);
      if attached {
        TidyAppend(att, ids, rf, bound, id, slave);
        ServedAppend(att, order, todo, rf, id, slave);
        GrownAppend(att0, att, id, slave);
        att := Append(att, id, slave);
      } else {
        TidyWiden(att, ids, rf, bound, bound + {slave});
      }
      todo, bound := todo - {slave}, bound + {slave};
    }
    assert bound == bound0 + free;
  }

  /** With nothing set aside, new slaves in the lists are among those laid out. */
  lemma SpreadAll(att: Groups, cluster: Cluster, news: seq<Node>, order: seq<Node>, olds: seq<Node>, ids: set<string>, rf: int)
    requires Tidy(att, ids, rf, Elems(olds) + Elems(order)) && Elems(news) !! Elems(olds) && SpreadOut(att, cluster, order)
    ensures SpreadOut(att, cluster, news)
  {
    forall id, j: nat ensures SpreadAt(att, cluster, news, id, j) {
      assert SpreadAt(att, cluster, order, id, j);
      if id in att && j < |att[id]| && att[id][j] in news {
        assert ListOk(att[id], rf, Elems(olds) + Elems(order));
        assert att[id][j] in Elems(olds) + Elems(order) && att[id][j] in Elems(news);
      }
    }
  }

  lemma StartServed(att: Groups, order: seq<Node>, free: set<Node>, rf: int)
    requires Accounted(att, order, |order|, free)
    ensures Served(att, order, free, rf)
  {
  }

  /**
   * No slave is attached twice and no master has more than the replication factor. An old slave stays
   * with its master as long as that has room. A new slave that
   * the cluster knows stays unattached only if every master is full. Unless at best effort, every
   * known new slave is attached, on a VM that is neither its master's nor that of the slaves
   * attached to this master before it. Best effort is reported only if some new slave could not be
   * attached in this way, and still could not be.
   */
  method PlaceSlaves(cluster: Cluster, masters: seq<Node>, oldSlaves: seq<Node>, newSlaves: seq<Node>, replicationFactor: int)
    returns (slavesByMaster: Groups, bestEffort: bool)
    requires NoDup(oldSlaves) && NoDup(newSlaves) && Elems(newSlaves) !! Elems(oldSlaves)
    requires forall n :: n in oldSlaves ==> n.id in cluster
    ensures Tidy(slavesByMaster, IdSet(masters), replicationFactor, Elems(oldSlaves) + Elems(newSlaves))
    ensures forall n :: n in newSlaves && n.id in cluster ==>
              Somewhere(slavesByMaster, n) || (bestEffort && Full(slavesByMaster, replicationFactor))
    ensures !bestEffort ==> SpreadOut(slavesByMaster, cluster, newSlaves)
    ensures bestEffort ==>
              exists n :: n in newSlaves && n.id in cluster && Blocked(slavesByMaster, cluster, replicationFactor, n)
    ensures forall j :: 0 <= j < |oldSlaves| ==>
              Stayed(slavesByMaster, oldSlaves[j], oldSlaves[j].masterReferent, replicationFactor)
  {
    var newSlavesByVM := SortRedisNodeByVM(cluster, newSlaves);
    var att := NoSlaves(masters);
    att := AttachOld(masters, oldSlaves, att, replicationFactor);
    ghost var kept := att;
    ghost var ids := IdSet(masters);
    var order := LayOut(newSlavesByVM, newSlaves, VmNames(cluster));
    var free;
    att, free := AttachNew(cluster, order, att, replicationFactor, ids, oldSlaves);
    bestEffort := free != {};
    ghost var bound := Elems(oldSlaves) + Elems(order) - free;
    StartServed(att, order, free, replicationFactor);
    if bestEffort {
      ghost var spread := att;
      att := AttachFree(att, free, replicationFactor, ids, bound, order);
      GrownTransitive(kept, spread, att);
      var n :| n in free;
      assert n in Elems(order) && n in newSlaves && n.id in cluster;
      StillBlocked(spread, att, cluster, replicationFactor, n);
    } else {
      assert bound == Elems(oldSlaves) + Elems(order);
      SpreadAll(att, cluster, newSlaves, order, oldSlaves, ids, replicationFactor);
    }
    TidyWiden(att, ids, replicationFactor, bound + free, Elems(oldSlaves) + Elems(newSlaves));
    forall j | 0 <= j < |oldSlaves| ensures Stayed(att, oldSlaves[j], oldSlaves[j].masterReferent, replicationFactor) {
      StillStayed(kept, att, oldSlaves[j], oldSlaves[j].masterReferent, replicationFactor);
    }
    slavesByMaster := att;
  }

  /** What the spreading means where every slave is known and every VM has a name. */
  lemma SpreadMeans(att: Groups, cluster: Cluster, news: seq<Node>, id: string, i: nat, j: nat)
    requires SpreadOut(att, cluster, news) && id in att && id in cluster && i < j < |att[id]| && att[id][j] in news
    requires att[id][i].id in cluster && att[id][j].id in cluster && cluster[att[id][j].id].nodeName != ""
    ensures cluster[att[id][j].id].nodeName != cluster[id].nodeName
    ensures cluster[att[id][j].id].nodeName != cluster[att[id][i].id].nodeName
  {
    assert SpreadAt(att, cluster, news, id, j);
    assert att[id][..j][i] == att[id][i];
  }
}
