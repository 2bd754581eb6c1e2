/**
 * Any finite sequence of reconcile runs, starting from nothing. Between runs clients write keys and
 * pods come and go; each run reads the node records anew from Redis.
 */
module ClusterRuns {
  import opened Lists
  import opened SlotLists
  import opened Nodes
  import opened Grouping
  import opened RedisModel
  import opened KeyMigration
  import opened Ownership
  import opened CrashPoints
  import opened StatefulSets
  import opened ClusterView
  import opened SyncCluster
  import K = ScalingDown
  import E = MigrationExec
  import Z = Zones

  datatype Pod = Pod(id: string, ip: string, nodeName: string, zone: string, statefulSet: string, role: string,
                     masterReferent: string)

  /**
   * What happens before a run and what the run is asked for: slaves promoted in place of their
   * masters, clients' writes, the pods there are, the wanted cluster, and whether slaves can be attached.
   */
  datatype Step = Step(failovers: seq<(string, string)>, writes: seq<(Slot, string)>, pods: seq<Pod>, spec: Spec, attached: bool)

  // ---------------------------------------------------------------- clients

  /** A client writes a key: the owner of the slot stores it, without owner nobody does. */
  method Write(redis: Redis, slot: Slot, key: string)
    requires KeysAtOwner(redis.claims, redis.store)
    modifies redis`store
    ensures KeysAtOwner(redis.claims, redis.store)
    ensures old(redis.store) <= redis.store
    ensures Owned(redis.claims, slot) ==> Somewhere(redis.store, slot, key)
  {
    var owners := set x | x in redis.claims && slot in redis.claims[x];
    if owners != {} {
      var x :| x in owners;
      assert slot in SlotsOf(redis.claims, x);
      redis.store := redis.store + {(x, slot, key)};
      assert (x, slot, key) in redis.store;
    } else {
      assert forall x :: slot in SlotsOf(redis.claims, x) ==> x in owners;
    }
  }

  /** All these keys are stored somewhere. */
  ghost predicate Kept(store: Store, keys: set<(Slot, string)>) {
    forall s, k :: (s, k) in keys ==> Somewhere(store, s, k)
  }

  lemma KeptGrows(store: Store, store': Store, keys: set<(Slot, string)>)
    requires Kept(store, keys) && store <= store'
    ensures Kept(store', keys)
  {
  }

  lemma KeptMoves(store: Store, store': Store, keys: set<(Slot, string)>)
    requires Kept(store, keys) && SameKeys(store, store')
    ensures Kept(store', keys)
  {
  }

  /** The clients' writes; those to slots with an owner are accepted. */
  method WriteAll(redis: Redis, writes: seq<(Slot, string)>, ghost before: set<(Slot, string)>)
    returns (ghost accepted: set<(Slot, string)>)
    requires KeysAtOwner(redis.claims, redis.store) && Kept(redis.store, before)
    modifies redis`store
    ensures KeysAtOwner(redis.claims, redis.store)
    ensures before <= accepted && Kept(redis.store, accepted)
    ensures forall i :: 0 <= i < |writes| && Owned(redis.claims, writes[i].0) ==> writes[i] in accepted
  {
    accepted := before;
    for i := 0 to |writes|
      invariant KeysAtOwner(redis.claims, redis.store)
      invariant before <= accepted && Kept(redis.store, accepted)
      invariant forall j :: 0 <= j < i && Owned(redis.claims, writes[j].0) ==> writes[j] in accepted
    {
      ghost var was := redis.store;
      Write(redis, writes[i].0, writes[i].1);
      KeptGrows(was, redis.store, accepted);
      if Owned(redis.claims, writes[i].0) {
        accepted := accepted + {(writes[i].0, writes[i].1)};
      }
    }
  }

  // ---------------------------------------------------------------- reading the records

  method SlotList(slots: set<Slot>) returns (list: seq<Slot>)
    ensures NoDup(list) && Elems(list) == slots
  {
    list := [];
    var left := slots;
    while left != {}
      invariant left <= slots && NoDup(list) && Elems(list) == slots - left
      decreases left
    {
      var s :| s in left;
      assert s !in Elems(list);
      NoDupExtend(list, s);
      assert Elems(list + [s]) == Elems(list) + {s};
      list := list + [s];
      left := left - {s};
    }
  }

  ghost predicate Unlike(a: Pod, b: Pod) {
    a.id != b.id && a.ip != b.ip
  }

  /** Ids and addresses identify pods, and each pod names the statefulset of its id. */
  ghost predicate PodsOk(pods: seq<Pod>, clusterName: string, home: Home) {
    && (forall i, j :: 0 <= i < j < |pods| ==> Unlike(pods[i], pods[j]))
    && (forall i :: 0 <= i < |pods| ==> pods[i].id != "" && PodAtHome(pods[i], clusterName, home))
  }

  ghost predicate PodAtHome(pod: Pod, clusterName: string, home: Home) {
    IsNumber(clusterName, SetOf(pod), home(pod.id))
  }

  /** The record made from a pod. */
  ghost predicate RecordFor(n: Node, pod: Pod) {
    n.id == pod.id && n.ip == pod.ip && n.zone == pod.zone && n.statefulSet == pod.statefulSet
  }

  method ReadNode(pod: Pod, claims: Claims) returns (n: Node)
    ensures fresh(n) && RecordFor(n, pod) && Faithful(n, claims)
  {
    var slots := SlotList(SlotsOf(claims, pod.id));
    n := new Node(pod.id, pod.ip, pod.nodeName, pod.zone, pod.statefulSet,
                  if slots != [] then "master" else pod.role, pod.masterReferent, slots);
  }

  ghost predicate Records(all: seq<Node>, pods: seq<Pod>) {
    |all| == |pods| && forall i :: 0 <= i < |all| ==> RecordFor(all[i], pods[i])
  }

  /** One fresh record per pod. */
  method ReadNodes(pods: seq<Pod>, claims: Claims) returns (all: seq<Node>)
    ensures Records(all, pods)
    ensures forall i :: 0 <= i < |all| ==> fresh(all[i]) && Faithful(all[i], claims)
  {
    all := [];
    for i := 0 to |pods|
      invariant |all| == i && forall j :: 0 <= j < i ==> RecordFor(all[j], pods[j])
      invariant forall j :: 0 <= j < i ==> fresh(all[j]) && Faithful(all[j], claims)
    {
      var n := ReadNode(pods[i], claims);
      all := all + [n];
    }
  }

  lemma RecordsIds(all: seq<Node>, pods: seq<Pod>, clusterName: string, home: Home)
    requires Records(all, pods) && PodsOk(pods, clusterName, home)
    ensures NoDup(all) && UniqueIds(Elems(all)) && E.UniqueAddresses(Elems(all))
  {
    forall i, j | 0 <= i < j < |all| ensures all[i].id != all[j].id && all[i].ip != all[j].ip {
      assert Unlike(pods[i], pods[j]) && RecordFor(all[i], pods[i]) && RecordFor(all[j], pods[j]);
    }
    forall a, b | a in Elems(all) && b in Elems(all) ensures (a.ip == b.ip <==> a.id == b.id) && (a.id == b.id ==> a == b) {
      var i :| 0 <= i < |all| && all[i] == a;
      var j :| 0 <= j < |all| && all[j] == b;
    }
    forall a | a in Elems(all) ensures a.id != "" {
      var i :| 0 <= i < |all| && all[i] == a;
      assert RecordFor(all[i], pods[i]);
    }
  }

  lemma RecordsPlaced(all: seq<Node>, pods: seq<Pod>, clusterName: string, home: Home)
    requires Records(all, pods) && PodsOk(pods, clusterName, home)
    ensures Placed(all, clusterName, home)
  {
  }

  lemma RecordsZones(all: seq<Node>, pods: seq<Pod>)
    requires Records(all, pods)
    ensures ZonesNamed(all) <==> !ZoneMissing(pods)
  {
    forall i | 0 <= i < |pods| ensures all[i] in all && RecordFor(all[i], pods[i]) {
    }
  }

  /** Every node that claims a slot has its pod in the list. */
  ghost predicate OwnersListed(claims: Claims, pods: seq<Pod>) {
    forall x :: SlotsOf(claims, x) != {} ==> exists i :: 0 <= i < |pods| && pods[i].id == x
  }

  lemma RecordsView(all: seq<Node>, pods: seq<Pod>, claims: Claims)
    requires Records(all, pods) && NoDup(all) && UniqueIds(Elems(all)) && OwnersListed(claims, pods)
    requires forall i :: 0 <= i < |all| ==> Faithful(all[i], claims)
    ensures View(all, claims)
  {
  }

  // ---------------------------------------------------------------- failover

  /** ids with the promoted node in place of the one that failed. */
  ghost function Promoted(ids: seq<string>, gone: string, promoted: string): (r: seq<string>)
    ensures |r| == |ids| && forall i :: 0 <= i < |ids| ==> r[i] == if ids[i] == gone then promoted else ids[i]
  {
    seq(|ids|, i requires 0 <= i < |ids| => if ids[i] == gone then promoted else ids[i])
  }

  lemma PromotionSettled(claims: Claims, claims': Claims, ids: seq<string>, home: Home, gone: string, promoted: string)
    requires OnePerStatefulSet(claims, ids, home) && gone != promoted && home(gone) == home(promoted)
    requires SlotsOf(claims, gone) != {} && SlotsOf(claims, promoted) == {}
    requires claims' == Reassign(claims, gone, promoted, SlotsOf(claims, gone))
    ensures OnePerStatefulSet(claims', Promoted(ids, gone, promoted), home)
  {
    var ids' := Promoted(ids, gone, promoted);
    forall i: nat | i < |ids'| ensures AtHome(home, ids'[i], i) && SlotsOf(claims', ids'[i]) != {} {
      assert AtHome(home, ids[i], i) && SlotsOf(claims, ids[i]) != {};
      ReassignSlotsOf(claims, gone, promoted, SlotsOf(claims, gone), ids'[i]);
    }
    forall x | SlotsOf(claims', x) != {} ensures x in ids' {
      ReassignSlotsOf(claims, gone, promoted, SlotsOf(claims, gone), x);
      var y := if x == promoted then gone else x;
      assert y in ids;
      var i :| 0 <= i < |ids| && ids[i] == y;
      assert ids'[i] == x;
    }
  }

  lemma PromotionKeepsKeys(store: Store, gone: string, promoted: string, slots: set<Slot>)
    ensures SameKeys(store, Drained(store, gone, promoted, slots))
  {
    forall s: Slot, k: string
      ensures Somewhere(store, s, k) <==> Somewhere(Drained(store, gone, promoted, slots), s, k)
    {
      if x :| (x, s, k) in store {
        DrainedMember(store, gone, promoted, slots, x, s, k);
        DrainedMember(store, gone, promoted, slots, promoted, s, k);
      }
      if x :| (x, s, k) in Drained(store, gone, promoted, slots) {
        DrainedMember(store, gone, promoted, slots, x, s, k);
      }
    }
  }

  /** Redis promotes a slave of the same statefulset, which has the keys; anything else changes nothing. */
  method Failover(redis: Redis, gone: string, promoted: string, ghost hashSlots: nat, ghost ids: seq<string>, ghost home: Home)
    returns (ghost ids': seq<string>)
    requires Settled(redis.claims, redis.store, hashSlots, ids, home)
    requires gone != promoted && home(gone) == home(promoted)
    modifies redis`claims, redis`store
    ensures Settled(redis.claims, redis.store, hashSlots, ids', home) && |ids'| == |ids|
    ensures SameKeys(old(redis.store), redis.store)
    ensures ids' == if SlotsOf(old(redis.claims), gone) != {} && SlotsOf(old(redis.claims), promoted) == {}
                    then Promoted(ids, gone, promoted) else ids
  {
    ids' := ids;
    var slots := SlotsOf(redis.claims, gone);
    if slots == {} || SlotsOf(redis.claims, promoted) != {} {
      return;
    }
    ids' := Promoted(ids, gone, promoted);
    PromotionSettled(redis.claims, Reassign(redis.claims, gone, promoted, slots), ids, home, gone, promoted);
    PromotionKeepsKeys(redis.store, gone, promoted, slots);
    DrainKeysAtOwner(redis.claims, redis.store, gone, promoted, slots);
    assert ids != [] by { assert gone in ids; }
    ReassignOneOwner(redis.claims, hashSlots, gone, promoted, slots);
    redis.store := set e | e in redis.store :: if e.0 == gone && e.1 in slots then (promoted, e.1, e.2) else e;
    redis.claims := Lose(Gain(redis.claims, promoted, slots), gone, slots);
  }

  method FailoverAll(redis: Redis, failovers: seq<(string, string)>, ghost hashSlots: nat, ghost ids0: seq<string>, ghost home: Home)
    returns (ghost ids: seq<string>)
    requires Settled(redis.claims, redis.store, hashSlots, ids0, home)
    requires forall i :: 0 <= i < |failovers| ==> FailoverOk(failovers[i], home)
    modifies redis`claims, redis`store
    ensures Settled(redis.claims, redis.store, hashSlots, ids, home) && |ids| == |ids0|
    ensures SameKeys(old(redis.store), redis.store)
  {
    ids := ids0;
    SameKeysRefl(redis.store);
    for i := 0 to |failovers|
      invariant Settled(redis.claims, redis.store, hashSlots, ids, home) && |ids| == |ids0|
      invariant SameKeys(old(redis.store), redis.store)
    {
      ghost var was := redis.store;
      assert FailoverOk(failovers[i], home);
      ids := Failover(redis, failovers[i].0, failovers[i].1, hashSlots, ids, home);
      SameKeysTransitive(old(redis.store), was, redis.store);
    }
  }

  ghost predicate FailoverOk(failover: (string, string), home: Home) {
    failover.0 != failover.1 && home(failover.0) == home(failover.1)
  }

  // ---------------------------------------------------------------- readiness, said of the pods

  function SetOf(pod: Pod): string {
    if pod.statefulSet == "" then UNKNOWN_NAME else pod.statefulSet
  }

  ghost predicate HasPod(pods: seq<Pod>, name: string) {
    exists p :: 0 <= p < |pods| && SetOf(pods[p]) == name
  }

  ghost predicate HasPodIn(pods: seq<Pod>, name: string, zone: string) {
    exists p :: 0 <= p < |pods| && SetOf(pods[p]) == name && pods[p].zone == zone
  }

  ghost predicate PodsReadyAt(pods: seq<Pod>, name: string, i: nat, size: nat, byZone: bool, zones: seq<string>)
    requires byZone ==> zones != []
  {
    HasPod(pods, name) && (byZone && i >= size ==> HasPodIn(pods, name, Z.ZoneFor(zones, i)))
  }

  ghost predicate PodsReadyIn(pods: seq<Pod>, names: seq<string>, size: nat, byZone: bool, zones: seq<string>)
    requires byZone ==> zones != []
  {
    forall i :: 0 <= i < |names| ==> PodsReadyAt(pods, names[i], i, size, byZone, zones)
  }

  /**
   * Every expected statefulset has a pod, and where the zone decides, each one beyond the current
   * size has a pod in the zone its number calls for.
   */
  ghost predicate PodsReady(step: Step, size: nat) {
    exists zones :: ZonesOk(step.spec, zones) &&
      PodsReadyIn(step.pods, NameList(step.spec.clusterName, step.spec.masterSize), size, ByZone(step.spec), zones)
  }

  ghost predicate ZoneMissing(pods: seq<Pod>) {
    exists i :: 0 <= i < |pods| && (pods[i].zone == "" || pods[i].zone == UNKNOWN_NAME)
  }

  lemma {:induction false} NodesOfMember(all: seq<Node>, name: string, n: Node)
    ensures n in NodesOf(all, name) <==> n in all && P.SetName(n) == name
  {
    if all != [] {
      NodesOfMember(all[..|all| - 1], name, n);
      assert all == all[..|all| - 1] + [all[|all| - 1]];
    }
  }

  lemma {:induction false} NodesOfNoDup(all: seq<Node>, name: string)
    requires NoDup(all)
    ensures NoDup(NodesOf(all, name))
  {
    if all != [] {
      var init, last := all[..|all| - 1], all[|all| - 1];
      NodesOfNoDup(init, name);
      NodesOfMember(init, name, last);
      assert last !in init;
    }
  }

  /** The slot holder of a statefulset, seen in a settled cluster, is the one of its number. */
  lemma HolderIs(all: seq<Node>, claims: Claims, clusterName: string, home: Home, ids: seq<string>, name: string, i: nat, n: Node)
    requires View(all, claims) && Placed(all, clusterName, home) && OnePerStatefulSet(claims, ids, home)
    requires name == StsName(clusterName, i) && n in SlotHolders(NodesOf(all, name))
    ensures n in all && i < |ids| && n.id == ids[i]
  {
    SlotHoldersMember(NodesOf(all, name), n);
    NodesOfMember(all, name, n);
    NumberUnique(clusterName, name, home(n.id), i);
    assert Faithful(n, claims);
    EmptyList(n.slots);
    var j :| 0 <= j < |ids| && ids[j] == n.id;
    assert AtHome(home, ids[j], j);
  }

  lemma JustOne(nodes: seq<Node>, n: Node)
    requires NoDup(nodes) && n in nodes && forall m :: m in nodes ==> m == n
    ensures |nodes| == 1
  {
    NoDupCardinality(nodes);
    assert Elems(nodes) == {n};
  }

  /** A statefulset below the current size has exactly one slot holder. */
  lemma OneHolder(all: seq<Node>, claims: Claims, clusterName: string, home: Home, ids: seq<string>, name: string, i: nat)
    requires View(all, claims) && Placed(all, clusterName, home) && OnePerStatefulSet(claims, ids, home)
    requires name == StsName(clusterName, i) && i < |ids|
    ensures |SlotHolders(NodesOf(all, name))| == 1
  {
    var holders := SlotHolders(NodesOf(all, name));
    NodesOfNoDup(all, name);
    SlotHoldersNoDup(NodesOf(all, name));
    assert AtHome(home, ids[i], i);
    var n := RecordOf(all, claims, ids[i]);
    NodesOfMember(all, name, n);
    SlotHoldersMember(NodesOf(all, name), n);
    forall m | m in holders ensures m == n {
      HolderIs(all, claims, clusterName, home, ids, name, i, m);
      assert m in Elems(all) && n in Elems(all);
    }
    JustOne(holders, n);
  }

  /** Any other statefulset has none. */
  lemma NoHolder(all: seq<Node>, claims: Claims, clusterName: string, home: Home, ids: seq<string>, name: string, i: nat)
    requires View(all, claims) && Placed(all, clusterName, home) && OnePerStatefulSet(claims, ids, home)
    requires name == StsName(clusterName, i) && i >= |ids|
    ensures SlotHolders(NodesOf(all, name)) == []
  {
    var holders := SlotHolders(NodesOf(all, name));
    if holders != [] {
      HolderIs(all, claims, clusterName, home, ids, name, i, holders[0]);
      assert false;
    }
  }

  lemma NodesFromPods(all: seq<Node>, pods: seq<Pod>, name: string)
    requires Records(all, pods)
    ensures NodesOf(all, name) != [] <==> HasPod(pods, name)
    ensures forall zone :: (exists n :: n in NodesOf(all, name) && n.zone == zone) <==> HasPodIn(pods, name, zone)
  {
    forall n ensures n in NodesOf(all, name) <==>
                     exists p :: 0 <= p < |pods| && all[p] == n && SetOf(pods[p]) == name {
      NodesOfMember(all, name, n);
      if n in all {
        var p :| 0 <= p < |all| && all[p] == n;
        assert RecordFor(all[p], pods[p]);
      }
      if p :| 0 <= p < |pods| && all[p] == n && SetOf(pods[p]) == name {
        assert RecordFor(all[p], pods[p]) && all[p] in all;
      }
    }
    NodesFromPod(all, pods, name);
  }

  lemma NodesFromPod(all: seq<Node>, pods: seq<Pod>, name: string)
    requires Records(all, pods)
    requires forall n :: n in NodesOf(all, name) <==> exists p :: 0 <= p < |pods| && all[p] == n && SetOf(pods[p]) == name
    ensures NodesOf(all, name) != [] <==> HasPod(pods, name)
    ensures forall zone :: (exists n :: n in NodesOf(all, name) && n.zone == zone) <==> HasPodIn(pods, name, zone)
  {
    if NodesOf(all, name) != [] {
      assert NodesOf(all, name)[0] in NodesOf(all, name);
    }
    if p :| 0 <= p < |pods| && SetOf(pods[p]) == name {
      assert all[p] in NodesOf(all, name);
    }
    forall zone ensures (exists n :: n in NodesOf(all, name) && n.zone == zone) <==> HasPodIn(pods, name, zone) {
      if n :| n in NodesOf(all, name) && n.zone == zone {
        var p :| 0 <= p < |pods| && all[p] == n && SetOf(pods[p]) == name;
        assert RecordFor(all[p], pods[p]);
      }
      if p :| 0 <= p < |pods| && SetOf(pods[p]) == name && pods[p].zone == zone {
        assert RecordFor(all[p], pods[p]) && all[p] in NodesOf(all, name);
      }
    }
  }

  /** What the records say of readiness is what the pods say. */
  lemma ReadyFromPods(all: seq<Node>, step: Step, claims: Claims, home: Home, ids: seq<string>, names: seq<string>, zones: seq<string>)
    requires View(all, claims) && Placed(all, step.spec.clusterName, home) && OnePerStatefulSet(claims, ids, home)
    requires Records(all, step.pods) && ZonesOk(step.spec, zones)
    requires names == NameList(step.spec.clusterName, step.spec.masterSize)
    ensures Ready(all, names, ByZone(step.spec), zones) <==> PodsReady(step, |ids|)
  {
    NameListFacts(step.spec.clusterName, step.spec.masterSize);
    forall i | 0 <= i < |names|
      ensures ReadyAt(all, names[i], i, ByZone(step.spec), zones) <==>
              PodsReadyAt(step.pods, names[i], i, |ids|, ByZone(step.spec), zones)
    {
      assert NameIs(names, step.spec.clusterName, i);
      if i < |ids| {
        OneHolder(all, claims, step.spec.clusterName, home, ids, names[i], i);
      } else {
        NoHolder(all, claims, step.spec.clusterName, home, ids, names[i], i);
      }
      NodesFromPods(all, step.pods, names[i]);
    }
    assert Ready(all, names, ByZone(step.spec), zones) <==>
           PodsReadyIn(step.pods, names, |ids|, ByZone(step.spec), zones);
    if PodsReady(step, |ids|) {
      var order :| ZonesOk(step.spec, order) && PodsReadyIn(step.pods, names, |ids|, ByZone(step.spec), order);
      Z.OrderedUnique(order, zones);
    }
  }

  // ---------------------------------------------------------------- runs

  /**
   * Which statefulsets the run deleted: after a success all from the top down to the wanted size, after
   * a removal that stopped some from the top down, and nothing was asked of Kubernetes in all other cases.
   */
  ghost predicate Deletes(spec: Spec, size: nat, result: SyncResult, log: seq<K.Request>) {
    var names := NameList(spec.clusterName, size);
    if result.ScaleDownStopped? then
      exists k :: spec.masterSize < k <= size && K.Deletions(log) == K.Downward(names, k)
    else if result.Synced? && size > spec.masterSize && !spec.lowReplication then
      K.Deletions(log) == K.Downward(names, spec.masterSize)
    else
      log == []
  }

  lemma DeletesBy(all: seq<Node>, spec: Spec, size: nat, result: SyncResult, log: seq<K.Request>)
    requires RemovesFrom(log, all, size, spec, result)
    ensures Deletes(spec, size, result, log)
  {
    var names := NameList(spec.clusterName, size);
    if result.ScaleDownStopped? {
      StoppedAbove(log, names, MembersIn(all, names), spec.masterSize, result.outcome);
    }
  }

  lemma StoppedAbove(log: seq<K.Request>, names: seq<string>, members: seq<seq<Node>>, size: nat, outcome: K.Outcome)
    requires TookAway(log, names, members, size, outcome) && !outcome.Done?
    ensures exists k :: size < k <= |names| && K.Deletions(log) == K.Downward(names, k)
  {
    var k: nat, j: nat :| TookAwayTo(log, names, members, size, outcome, k, j);
    assert K.Deletions(log) == [] + K.Downward(names, k) == K.Downward(names, k);
  }

  /**
   * How a run of the step ends in a cluster of this size: each kind of failure exactly in its case,
   * in the order in which the run meets them; otherwise with success, unless a command failed or the
   * removal of statefulsets stopped half-way. What it asked of Kubernetes goes with that.
   */
  ghost predicate Ends(step: Step, size: nat, result: SyncResult, failed: bool, log: seq<K.Request>) {
    && Deletes(step.spec, size, result, log)
    && (result.NoZone? <==> ZoneMissing(step.pods))
    && (result.NoMasters? <==> !ZoneMissing(step.pods) && !PodsReady(step, size))
    && (result.SlavesNotAttached? <==>
          && !ZoneMissing(step.pods) && PodsReady(step, size)
          && !step.attached && (size < step.spec.masterSize || step.spec.lowReplication))
    && (if size == 0 then result.SlotsNotMoved? <==> failed else result.SlotsNotMoved? ==> failed)
    && (result.ScaleDownStopped? ==>
          !result.outcome.NotEmpty? && size > step.spec.masterSize && !step.spec.lowReplication)
  }

  ghost predicate StepOk(step: Step, clusterName: string, hashSlots: nat, home: Home) {
    && step.spec.clusterName == clusterName && 1 <= step.spec.masterSize <= hashSlots
    && (step.spec.haEnabled && step.spec.creating ==> step.spec.zonesInfo != {})
    && PodsOk(step.pods, clusterName, home)
    && forall i :: 0 <= i < |step.failovers| ==> FailoverOk(step.failovers[i], home)
  }

  /** Reads the records and reconciles. */
  method Run(redis: Redis, step: Step, hashSlots: nat, ghost clusterName: string, ghost ids: seq<string>, ghost home: Home)
    returns (result: SyncResult, ghost ids': seq<string>, ghost log: seq<K.Request>, ghost all: seq<Node>)
    requires Settled(redis.claims, redis.store, hashSlots, ids, home) && OwnersListed(redis.claims, step.pods)
    requires StepOk(step, clusterName, hashSlots, home) && 2 * hashSlots < UINT64_LIMIT - 1 && !redis.failed
    modifies redis
    ensures Careful(old(redis.Now()), redis.Now())
    ensures RunDone(redis.claims, redis.store, old(redis.store), redis.failed, hashSlots, ids, ids', step.spec, home, result)
    ensures Ends(step, |ids|, result, redis.failed, log)
    ensures Records(all, step.pods) && RemovesFrom(log, all, |ids|, step.spec, result)
  {
    var nodes := ReadNodes(step.pods, redis.claims);
    all := nodes;
    RecordsIds(all, step.pods, clusterName, home);
    RecordsPlaced(all, step.pods, clusterName, home);
    RecordsView(all, step.pods, redis.claims);
    RecordsZones(all, step.pods);
    var zones := Z.SortZones(step.spec.zonesInfo);
    ReadyFromPods(all, step, redis.claims, home, ids, NameList(step.spec.clusterName, step.spec.masterSize), zones);
    var kube := new K.Kube();
    result, ids' := Sync(redis, kube, nodes, step.spec, hashSlots, step.attached, ids, home, zones);
    log := kube.log;
    DeletesBy(all, step.spec, |ids|, result, log);
  }

  method AllListed(claims: Claims, pods: seq<Pod>) returns (ok: bool)
    ensures ok <==> OwnersListed(claims, pods)
  {
    var podIds := set i | 0 <= i < |pods| :: pods[i].id;
    ok := forall x :: x in claims && claims[x] != {} ==> x in podIds;
    if ok {
      forall x | SlotsOf(claims, x) != {} ensures exists i :: 0 <= i < |pods| && pods[i].id == x {
        assert x in claims && claims[x] != {};
      }
    } else {
      var x :| x in claims && claims[x] != {} && x !in podIds;
      assert SlotsOf(claims, x) != {};
    }
  }

  /** How many masters there are after runs with these results. */
  ghost function SizeAfter(steps: seq<Step>, results: seq<SyncResult>): nat
    requires |results| <= |steps|
  {
    if results == [] then 0
    else
      var n := |results| - 1;
      NextSize(SizeAfter(steps, results[..n]), steps[n].spec, results[n])
  }

  /** Every run ended as it had to; a failed command can only have been in the last one. */
  ghost predicate AllEnd(steps: seq<Step>, results: seq<SyncResult>, logs: seq<seq<K.Request>>, failed: bool)
    requires |logs| == |results| <= |steps|
  {
    forall i :: 0 <= i < |results| ==> EndsAt(steps, results, logs[i], i, failed)
  }

  ghost predicate EndsAt(steps: seq<Step>, results: seq<SyncResult>, log: seq<K.Request>, i: nat, failed: bool)
    requires i < |results| <= |steps|
  {
    Ends(steps[i], SizeAfter(steps, results[..i]), results[i], failed && i == |results| - 1, log)
  }

  lemma {:induction false} EndsNext(steps: seq<Step>, results: seq<SyncResult>, logs: seq<seq<K.Request>>, result: SyncResult,
                                    failed: bool, log: seq<K.Request>)
    requires |logs| == |results| < |steps| && AllEnd(steps, results, logs, false)
    requires Ends(steps[|results|], SizeAfter(steps, results), result, failed, log)
    ensures AllEnd(steps, results + [result], logs + [log], failed)
  {
    forall i | 0 <= i < |results| + 1 ensures EndsAt(steps, results + [result], (logs + [log])[i], i, failed) {
      if i < |results| {
        EndsStill(steps, results, logs[i], result, i, failed);
      } else {
        assert (results + [result])[..i] == results;
      }
    }
  }

  lemma EndsStill(steps: seq<Step>, results: seq<SyncResult>, log: seq<K.Request>, result: SyncResult, i: nat, failed: bool)
    requires i < |results| < |steps| && EndsAt(steps, results, log, i, false)
    ensures EndsAt(steps, results + [result], log, i, failed)
  {
    assert (results + [result])[..i] == results[..i];
  }

  ghost predicate Succeeded(results: seq<SyncResult>, i: nat) {
    i < |results| && results[i].Synced?
  }

  /** After a success there are masters for ever; a success gives the wanted number unless slaves came first. */
  lemma {:induction false} SizeFacts(steps: seq<Step>, results: seq<SyncResult>, i: nat)
    requires |results| <= |steps| && forall j :: 0 <= j < |steps| ==> steps[j].spec.masterSize >= 1
    ensures Succeeded(results, i) ==> SizeAfter(steps, results) >= 1
    ensures Succeeded(results, i) && i == |results| - 1 && !steps[i].spec.lowReplication ==>
              SizeAfter(steps, results) == steps[i].spec.masterSize
  {
    if results != [] && i < |results| - 1 {
      var init := results[..|results| - 1];
      assert Succeeded(results, i) ==> Succeeded(init, i);
      SizeFacts(steps, init, i);
    }
  }

  /** The writes of the step that belong to slots of the cluster have been accepted. */
  ghost predicate Accepted(step: Step, hashSlots: nat, accepted: set<(Slot, string)>) {
    forall i :: 0 <= i < |step.writes| && step.writes[i].0 < hashSlots ==> step.writes[i] in accepted
  }

  /** So have those of all steps up to n, from the first one after a success on. */
  ghost predicate AllAccepted(steps: seq<Step>, results: seq<SyncResult>, n: nat, hashSlots: nat, accepted: set<(Slot, string)>)
    requires n <= |steps|
  {
    forall i, j :: 0 <= i < j < n && Succeeded(results, i) ==> Accepted(steps[j], hashSlots, accepted)
  }

  lemma AcceptedNext(steps: seq<Step>, results: seq<SyncResult>, n: nat, hashSlots: nat, before: set<(Slot, string)>,
                     accepted: set<(Slot, string)>)
    requires n < |steps| && |results| <= n && AllAccepted(steps, results, n, hashSlots, before) && before <= accepted
    requires (exists i :: Succeeded(results, i)) ==> Accepted(steps[n], hashSlots, accepted)
    ensures AllAccepted(steps, results, n + 1, hashSlots, accepted)
  {
    forall i, j | 0 <= i < j < n + 1 && Succeeded(results, i) ensures Accepted(steps[j], hashSlots, accepted) {
      if j < n {
        assert Accepted(steps[j], hashSlots, before);
      }
    }
  }

  lemma AcceptedResult(steps: seq<Step>, results: seq<SyncResult>, result: SyncResult, hashSlots: nat, accepted: set<(Slot, string)>)
    requires |results| < |steps| && AllAccepted(steps, results, |results| + 1, hashSlots, accepted)
    ensures AllAccepted(steps, results + [result], |results| + 1, hashSlots, accepted)
  {
    forall i, j | 0 <= i < j < |results| + 1 && Succeeded(results + [result], i) ensures Accepted(steps[j], hashSlots, accepted) {
      assert Succeeded(results, i);
    }
  }

  /** Before each run: promotions, then writes. */
  method Between(redis: Redis, step: Step, hashSlots: nat, ghost ids0: seq<string>, ghost before: set<(Slot, string)>, ghost home: Home)
    returns (ghost ids: seq<string>, ghost accepted: set<(Slot, string)>)
    requires Settled(redis.claims, redis.store, hashSlots, ids0, home) && Kept(redis.store, before)
    requires forall i :: 0 <= i < |step.failovers| ==> FailoverOk(step.failovers[i], home)
    modifies redis`claims, redis`store
    ensures Settled(redis.claims, redis.store, hashSlots, ids, home) && |ids| == |ids0|
    ensures before <= accepted && Kept(redis.store, accepted)
    ensures ids != [] ==> Accepted(step, hashSlots, accepted)
  {
    ghost var was := redis.store;
    ids := FailoverAll(redis, step.failovers, hashSlots, ids0, home);
    KeptMoves(was, redis.store, before);
    accepted := WriteAll(redis, step.writes, before);
  }

  /**
   * Runs until the steps are used up, a command fails, or the pod of a slot owner is missing. Each run
   * ends as Ends says: with success, if pods, zones, slaves and statefulsets allow it. Where
   * commands do not fail, or as long as none has: the cluster is settled, of the size that the results
   * call for; once a run has succeeded every slot has exactly one owner, the owners are one node in
   * each of the first statefulsets, and every key is with its owner. From then on every write to a slot
   * of the cluster is accepted, and even after a failure every accepted key is still stored somewhere.
   * All commands ever sent were in an order that is safe against crashes, and unless one failed no node
   * was told of another owner of a slot while it had keys of it.
   */
  method Runs(faulty: bool, clusterName: string, hashSlots: nat, steps: seq<Step>, ghost home: Home)
    returns (redis: Redis, results: seq<SyncResult>, ghost logs: seq<seq<K.Request>>, ghost ids: seq<string>,
             ghost accepted: set<(Slot, string)>)
    requires forall i :: 0 <= i < |steps| ==> StepOk(steps[i], clusterName, hashSlots, home)
    requires 2 * hashSlots < UINT64_LIMIT - 1
    ensures |logs| == |results| <= |steps| && (redis.failed ==> faulty) && AllEnd(steps, results, logs, redis.failed)
    ensures !redis.failed ==> |results| == |steps| || !OwnersListed(redis.claims, steps[|results|].pods)
    ensures !redis.failed ==>
              Settled(redis.claims, redis.store, hashSlots, ids, home) && |ids| == SizeAfter(steps, results)
    ensures !redis.failed && (exists i :: Succeeded(results, i)) ==> OneOwner(redis.claims, hashSlots)
    ensures Kept(redis.store, accepted) && AllAccepted(steps, results, |results|, hashSlots, accepted)
    ensures !redis.failed && |results| < |steps| ==> AllAccepted(steps, results, |results| + 1, hashSlots, accepted)
    ensures Orderly(redis.trace, redis.failed)
  {
    redis := new Redis(faulty);
    ids, accepted, results, logs := [], {}, [], [];
    NothingYet(hashSlots, home);
    while |results| < |steps| && !redis.failed
      invariant |logs| == |results| <= |steps| && fresh(redis) && redis.faulty == faulty && (redis.failed ==> faulty)
      invariant AllEnd(steps, results, logs, redis.failed) && Orderly(redis.trace, redis.failed)
      invariant !redis.failed ==>
                  Settled(redis.claims, redis.store, hashSlots, ids, home) && |ids| == SizeAfter(steps, results)
      invariant Kept(redis.store, accepted) && AllAccepted(steps, results, |results|, hashSlots, accepted)
      decreases |steps| - |results|
    {
      ghost var step, before := steps[|results|], accepted;
      ids, accepted := Between(redis, steps[|results|], hashSlots, ids, accepted, home);
      MastersOnceSynced(steps, results);
      AcceptedNext(steps, results, |results|, hashSlots, before, accepted);
      var listed := AllListed(redis.claims, steps[|results|].pods);
      if !listed {
        return;
      }
      ghost var was, past := redis.store, redis.Now();
      var result;
      ghost var log, all;
      result, ids, log, all := Run(redis, steps[|results|], hashSlots, clusterName, ids, home);
      StillOrderly(past, redis.Now());
      KeptMoves(was, redis.store, accepted);
      AcceptedResult(steps, results, result, hashSlots, accepted);
      EndsNext(steps, results, logs, result, redis.failed, log);
      assert (results + [result])[..|results|] == results;
      results, logs := results + [result], logs + [log];
    }
    MastersOnceSynced(steps, results);
  }

  lemma MastersOnceSynced(steps: seq<Step>, results: seq<SyncResult>)
    requires |results| <= |steps| && forall j :: 0 <= j < |steps| ==> steps[j].spec.masterSize >= 1
    ensures (exists i :: Succeeded(results, i)) ==> SizeAfter(steps, results) >= 1
  {
    if i: nat :| Succeeded(results, i) {
      SizeFacts(steps, results, i);
    }
  }

  lemma NothingYet(hashSlots: nat, home: Home)
    ensures Settled(map[], {}, hashSlots, [], home)
  {
  }
}
