/** From the plan to (from, to) batches: feedMigInfo in controllers/clustering/migration.go. */
module MigrationBatches {
  import opened Arithmetic
  import opened Lists
  import opened SlotLists
  import opened Nodes
  import opened SlotPacking
  import opened MigrationPlan

  // ---------------------------------------------------------------- owner maps

  type OwnerMap = map<Slot, Node>

  /** Slot to owner, read off the lists. */
  ghost function Owners(nodes: seq<Node>, lists: seq<seq<Slot>>): OwnerMap
    requires |nodes| == |lists|
  {
    if nodes == [] then map[]
    else
      var n := |nodes| - 1;
      var rest := Owners(nodes[..n], lists[..n]);
      map s | s in rest.Keys + Elems(lists[n]) :: if s in lists[n] then nodes[n] else rest[s]
  }

  lemma {:induction false} OwnersMember(nodes: seq<Node>, lists: seq<seq<Slot>>, s: Slot)
    requires |nodes| == |lists|
    ensures s in Owners(nodes, lists) <==> OwnedBySome(lists, s)
    ensures s in Owners(nodes, lists) ==>
              exists i :: 0 <= i < |nodes| && s in lists[i] && Owners(nodes, lists)[s] == nodes[i]
  {
    if nodes != [] {
      var n := |nodes| - 1;
      OwnersMember(nodes[..n], lists[..n], s);
      if s in lists[n] {
        assert Owners(nodes, lists)[s] == nodes[n];
      } else {
        if OwnedBySome(lists[..n], s) {
          var i :| 0 <= i < n && s in lists[..n][i] && Owners(nodes[..n], lists[..n])[s] == nodes[..n][i];
          assert s in lists[i] && Owners(nodes, lists)[s] == nodes[i];
        }
        if i :| 0 <= i < |lists| && s in lists[i] {
          assert s in lists[..n][i];
        }
      }
    }
  }

  lemma OwnersAt(nodes: seq<Node>, lists: seq<seq<Slot>>, i: nat, s: Slot)
    requires |nodes| == |lists| && PairwiseDisjoint(lists) && i < |nodes| && s in lists[i]
    ensures s in Owners(nodes, lists) && Owners(nodes, lists)[s] == nodes[i]
  {
  }

  /** The owner of a slot, or null for a lost one. */
  ghost function From(own: OwnerMap, s: Slot): Node? {
    if s in own then own[s] else null
  }

  // ---------------------------------------------------------------- batches

  /** A null source stands for slots that were lost. */
  datatype MigrationInfo = MigrationInfo(from: Node?, to: Node)

  type Batches = map<MigrationInfo, seq<Slot>>

  ghost function KeyOf(own: OwnerMap, dest: OwnerMap, s: Slot): MigrationInfo
    requires s in dest
  {
    MigrationInfo(From(own, s), dest[s])
  }

  ghost predicate Clean(batches: Batches) {
    forall k :: k in batches ==> NoDup(batches[k]) && batches[k] != []
  }

  /** Only slots whose owner changes are in a batch, and in the right one. */
  ghost predicate Justified(batches: Batches, own: OwnerMap, dest: OwnerMap) {
    forall k, s :: k in batches && s in batches[k] ==> Fits(own, dest, k, s)
  }

  ghost predicate Fits(own: OwnerMap, dest: OwnerMap, k: MigrationInfo, s: Slot) {
    s in dest && k == KeyOf(own, dest, s) && k.from != k.to
  }

  ghost predicate Recorded(batches: Batches, own: OwnerMap, dest: OwnerMap, s: Slot)
    requires s in dest
  {
    From(own, s) != dest[s] ==> KeyOf(own, dest, s) in batches && s in batches[KeyOf(own, dest, s)]
  }

  /** Every slot whose owner changes is in its batch. */
  ghost predicate Complete(batches: Batches, own: OwnerMap, dest: OwnerMap) {
    forall s :: s in dest ==> Recorded(batches, own, dest, s)
  }

  /**
   * The batches are the exact difference between two ownerships: each slot whose owner changes is
   * once in the batch from its old owner (null if lost) to its new one, and nothing else is in any.
   */
  ghost predicate BatchesMatch(batches: Batches, own: OwnerMap, dest: OwnerMap) {
    Clean(batches) && Justified(batches, own, dest) && Complete(batches, own, dest)
  }

  ghost function Entries(batches: Batches): set<(MigrationInfo, Slot)> {
    set k, s | k in batches && s in batches[k] :: (k, s)
  }

  function Batch(batches: Batches, k: MigrationInfo): seq<Slot> {
    if k in batches then batches[k] else []
  }

  lemma EntriesAppend(batches: Batches, k: MigrationInfo, s: Slot)
    requires s !in Batch(batches, k)
    ensures |Entries(batches[k := Batch(batches, k) + [s]])| == |Entries(batches)| + 1
  {
    var after := batches[k := Batch(batches, k) + [s]];
    assert (k, s) !in Entries(batches);
    forall l, t ensures (l, t) in Entries(after) <==> (l, t) in Entries(batches) || (l, t) == (k, s) {
      assert l in after && t in after[l] <==> (l in batches && t in batches[l]) || (l == k && t == s);
    }
    assert Entries(after) == Entries(batches) + {(k, s)};
  }

  /** A slot planned for its own owner needs no batch. */
  lemma MatchStay(batches: Batches, own: OwnerMap, dest: OwnerMap, s: Slot, to: Node, dest': OwnerMap)
    requires BatchesMatch(batches, own, dest) && s !in dest && From(own, s) == to && dest' == dest[s := to]
    ensures BatchesMatch(batches, own, dest')
  {
  }

  lemma MatchMove(batches: Batches, own: OwnerMap, dest: OwnerMap, s: Slot, to: Node, k: MigrationInfo,
                  batches': Batches, dest': OwnerMap)
    requires BatchesMatch(batches, own, dest) && s !in dest && From(own, s) != to
    requires k == MigrationInfo(From(own, s), to)
    requires batches' == batches[k := Batch(batches, k) + [s]] && dest' == dest[s := to]
    ensures s !in Batch(batches, k) && BatchesMatch(batches', own, dest')
  {
    assert s !in Batch(batches, k);
    NoDupExtend(Batch(batches, k), s);
    assert Clean(batches');
    MoveJustified(batches, own, dest, s, to, k, batches', dest');
    forall t | t in dest' ensures Recorded(batches', own, dest', t) {
      if t != s { assert Recorded(batches, own, dest, t); }
    }
  }

  lemma MoveJustified(batches: Batches, own: OwnerMap, dest: OwnerMap, s: Slot, to: Node, k: MigrationInfo,
                      batches': Batches, dest': OwnerMap)
    requires Justified(batches, own, dest) && s !in dest && From(own, s) != to
    requires k == MigrationInfo(From(own, s), to)
    requires batches' == batches[k := Batch(batches, k) + [s]] && dest' == dest[s := to]
    ensures Justified(batches', own, dest')
  {
  }

  /** Looks through the old masters for the owner of s; own tells that it is the master id itself. */
  method FindSource(oldMasters: seq<Node>, id: string, s: Slot) returns (own: bool, source: Node?)
    ensures own ==> exists j :: 0 <= j < |oldMasters| && oldMasters[j].id == id && s in oldMasters[j].slots
    ensures source != null ==> !own && source.id != id
    ensures source != null ==> exists j :: 0 <= j < |oldMasters| && oldMasters[j] == source && s in source.slots
    ensures !own && source == null ==> forall j :: 0 <= j < |oldMasters| ==> s !in oldMasters[j].slots
  {
    for j := 0 to |oldMasters|
      invariant forall i :: 0 <= i < j ==> s !in oldMasters[i].slots
    {
      var holds := Contains(oldMasters[j].slots, s);
      if oldMasters[j].id == id {
        if holds {
          return true, null;
        }
        continue;
      }
      if holds {
        return false, oldMasters[j];
      }
    }
    return false, null;
  }

  lemma SourceIs(oldMasters: seq<Node>, lists: seq<seq<Slot>>, to: Node, own: bool, source: Node?, s: Slot)
    requires lists == Snapshot(oldMasters) && PairwiseDisjoint(lists)
    requires forall n :: n in oldMasters && n.id == to.id ==> n == to
    requires own ==> exists j :: 0 <= j < |oldMasters| && oldMasters[j].id == to.id && s in oldMasters[j].slots
    requires source != null ==> !own && source.id != to.id
    requires source != null ==> exists j :: 0 <= j < |oldMasters| && oldMasters[j] == source && s in source.slots
    requires !own && source == null ==> forall j :: 0 <= j < |oldMasters| ==> s !in oldMasters[j].slots
    ensures own <==> From(Owners(oldMasters, lists), s) == to
    ensures !own ==> From(Owners(oldMasters, lists), s) == source
  {
    OwnersMember(oldMasters, lists, s);
    if own {
      var j :| 0 <= j < |oldMasters| && oldMasters[j].id == to.id && s in oldMasters[j].slots;
      OwnersAt(oldMasters, lists, j, s);
    } else if source != null {
      var j :| 0 <= j < |oldMasters| && oldMasters[j] == source && s in source.slots;
      OwnersAt(oldMasters, lists, j, s);
    }
  }

  /** Lost slots are in ascending order in their batches. */
  ghost predicate LostInOrder(batches: Batches) {
    forall k :: k in batches && k.from == null ==> StrictlyAscending(batches[k])
  }

  /** The slots of the node's batch of lost slots come before s. */
  ghost predicate ComesLast(batches: Batches, to: Node, s: Slot) {
    forall t :: t in Batch(batches, MigrationInfo(null, to)) ==> t < s
  }

  lemma LostNext(batches: Batches, k: MigrationInfo, s: Slot, batches': Batches)
    requires LostInOrder(batches) && batches' == batches[k := Batch(batches, k) + [s]]
    requires k.from == null ==> ComesLast(batches, k.to, s)
    ensures LostInOrder(batches')
  {
    if k.from == null {
      assert k == MigrationInfo(null, k.to);
      var was := Batch(batches, k);
      forall i, j | 0 <= i < j < |was| + 1 ensures (was + [s])[i] < (was + [s])[j] {
        assert j == |was| ==> was[i] in was;
      }
    }
  }

  /** The next slot of an ascending list comes after all that were fed before it. */
  lemma NextComesLast(batches: Batches, own: OwnerMap, dest: OwnerMap, slots: seq<Slot>, i: nat, to: Node, lists: seq<seq<Slot>>)
    requires i < |slots| && LostAscend(slots, lists) && forall s :: s in own <==> OwnedBySome(lists, s)
    requires forall s :: s in dest ==> dest[s] != to
    requires BatchesMatch(batches, own, Assign(dest, slots[..i], to))
    ensures slots[i] !in own ==> ComesLast(batches, to, slots[i])
  {
    var k := MigrationInfo(null, to);
    if slots[i] !in own {
      forall t | t in Batch(batches, k) ensures t < slots[i] {
        assert Fits(own, Assign(dest, slots[..i], to), k, t);
        AssignMember(dest, slots[..i], to, t);
        assert t in slots[..i];
      }
    }
  }

  /** One planned slot. */
  method FeedSlot(oldMasters: seq<Node>, newNode: Node, s: Slot, mapOut: Batches, nb: nat, ghost own: OwnerMap,
                  ghost dest: OwnerMap) returns (mapOut': Batches, nb': nat)
    requires PairwiseDisjoint(Snapshot(oldMasters)) && own == Owners(oldMasters, Snapshot(oldMasters))
    requires forall n :: n in oldMasters && n.id == newNode.id ==> n == newNode
    requires BatchesMatch(mapOut, own, dest) && nb == |Entries(mapOut)| && s !in dest
    requires LostInOrder(mapOut) && (s !in own ==> ComesLast(mapOut, newNode, s))
    ensures BatchesMatch(mapOut', own, dest[s := newNode]) && nb' == |Entries(mapOut')|
    ensures LostInOrder(mapOut')
  {
    var mine, source := FindSource(oldMasters, newNode.id, s);
    SourceIs(oldMasters, Snapshot(oldMasters), newNode, mine, source, s);
    mapOut', nb' := mapOut, nb;
    if mine {
      MatchStay(mapOut, own, dest, s, newNode, dest[s := newNode]);
    } else {
      var k := MigrationInfo(source, newNode);
      mapOut' := mapOut[k := Batch(mapOut, k) + [s]];
      MatchMove(mapOut, own, dest, s, newNode, k, mapOut', dest[s := newNode]);
      EntriesAppend(mapOut, k, s);
      LostNext(mapOut, k, s, mapOut');
      nb' := nb + 1;
    }
  }

  /** dest after the slots have been planned for to. */
  ghost function Assign(dest: OwnerMap, slots: seq<Slot>, to: Node): OwnerMap {
    if slots == [] then dest else Assign(dest, slots[..|slots| - 1], to)[slots[|slots| - 1] := to]
  }

  lemma {:induction false} AssignMember(dest: OwnerMap, slots: seq<Slot>, to: Node, s: Slot)
    ensures s in Assign(dest, slots, to) <==> s in dest || s in slots
    ensures s in slots ==> Assign(dest, slots, to)[s] == to
    ensures s in dest && s !in slots ==> Assign(dest, slots, to)[s] == dest[s]
  {
    if slots != [] {
      var n := |slots| - 1;
      AssignMember(dest, slots[..n], to, s);
      assert slots == slots[..n] + [slots[n]];
    }
  }

  lemma OwnersKeys(nodes: seq<Node>, lists: seq<seq<Slot>>)
    requires |nodes| == |lists|
    ensures forall s :: s in Owners(nodes, lists) <==> OwnedBySome(lists, s)
  {
    forall s: Slot ensures s in Owners(nodes, lists) <==> OwnedBySome(lists, s) {
      OwnersMember(nodes, lists, s);
    }
  }

  /** All slots planned for one master. */
  method FeedNode(oldMasters: seq<Node>, newNode: Node, slots: seq<Slot>, mapOut0: Batches, nb0: nat, ghost own: OwnerMap,
                  ghost dest: OwnerMap) returns (mapOut: Batches, nb: nat)
    requires PairwiseDisjoint(Snapshot(oldMasters)) && own == Owners(oldMasters, Snapshot(oldMasters))
    requires forall n :: n in oldMasters && n.id == newNode.id ==> n == newNode
    requires BatchesMatch(mapOut0, own, dest) && nb0 == |Entries(mapOut0)|
    requires NoDup(slots) && forall s :: s in slots ==> s !in dest
    requires LostInOrder(mapOut0) && LostAscend(slots, Snapshot(oldMasters)) && forall s :: s in dest ==> dest[s] != newNode
    ensures BatchesMatch(mapOut, own, Assign(dest, slots, newNode)) && nb == |Entries(mapOut)|
    ensures LostInOrder(mapOut)
  {
    mapOut, nb := mapOut0, nb0;
    OwnersKeys(oldMasters, Snapshot(oldMasters));
    for i := 0 to |slots|
      invariant BatchesMatch(mapOut, own, Assign(dest, slots[..i], newNode)) && nb == |Entries(mapOut)|
      invariant LostInOrder(mapOut)
    {
      NextComesLast(mapOut, own, dest, slots, i, newNode, Snapshot(oldMasters));
      AssignMember(dest, slots[..i], newNode, slots[i]);
      assert slots[..i + 1][..i] == slots[..i];
      mapOut, nb := FeedSlot(oldMasters, newNode, slots[i], mapOut, nb, own, Assign(dest, slots[..i], newNode));
    }
    assert slots[..|slots|] == slots;
  }

  // ---------------------------------------------------------------- all planned slots

  ghost predicate Planned(dest: OwnerMap, news: seq<Node>, segs: seq<seq<Slot>>, todo: set<string>, i: nat, s: Slot)
    requires i < |news| == |segs|
  {
    s in segs[i] ==> if news[i].id in todo then s !in dest else s in dest && dest[s] == news[i]
  }

  /** The masters outside todo have been fed, the others not at all. */
  ghost predicate Fed(dest: OwnerMap, news: seq<Node>, segs: seq<seq<Slot>>, todo: set<string>) {
    && |news| == |segs|
    && (forall i, s :: 0 <= i < |news| ==> Planned(dest, news, segs, todo, i, s))
    && (forall s :: s in dest ==> OwnedBySome(segs, s))
  }

  lemma FeedOne(dest: OwnerMap, news: seq<Node>, segs: seq<seq<Slot>>, todo: set<string>, i: nat)
    requires Fed(dest, news, segs, todo) && PairwiseDisjoint(segs) && i < |news| && news[i].id in todo
    requires NoDup(IdList(news))
    ensures Fed(Assign(dest, segs[i], news[i]), news, segs, todo - {news[i].id})
    ensures forall s :: s in segs[i] ==> s !in dest
    ensures forall s :: s in dest ==> dest[s] != news[i]
  {
    forall s | s in dest ensures dest[s] != news[i] {
      var j :| 0 <= j < |segs| && s in segs[j];
      assert Planned(dest, news, segs, todo, j, s);
    }
    var dest', todo' := Assign(dest, segs[i], news[i]), todo - {news[i].id};
    forall j: nat, s: Slot | j < |news| ensures Planned(dest', news, segs, todo', j, s) {
      AssignMember(dest, segs[i], news[i], s);
      assert Planned(dest, news, segs, todo, j, s);
      if j != i {
        assert IdList(news)[j] != IdList(news)[i];
      }
    }
    forall s | s in dest' ensures OwnedBySome(segs, s) {
      AssignMember(dest, segs[i], news[i], s);
    }
    forall s | s in segs[i] ensures s !in dest {
      assert Planned(dest, news, segs, todo, i, s);
    }
  }

  lemma FedAll(dest: OwnerMap, news: seq<Node>, segs: seq<seq<Slot>>)
    requires Fed(dest, news, segs, {}) && PairwiseDisjoint(segs)
    ensures dest == Owners(news, segs)
  {
    forall s: Slot ensures s in dest <==> s in Owners(news, segs) {
      OwnersMember(news, segs, s);
      if i :| 0 <= i < |segs| && s in segs[i] {
        assert Planned(dest, news, segs, {}, i, s);
      }
    }
    forall s | s in dest ensures dest[s] == Owners(news, segs)[s] {
      OwnersMember(news, segs, s);
      var i :| 0 <= i < |news| && s in segs[i] && Owners(news, segs)[s] == news[i];
      assert Planned(dest, news, segs, {}, i, s);
    }
  }

  /** The loop over the plan, in any order. */
  method FeedPlan(newMasters: seq<Node>, oldMasters: seq<Node>, plan: SlotMap, ghost segs: seq<seq<Slot>>,
                  ghost own: OwnerMap) returns (mapOut: Batches, nb: nat)
    requires PairwiseDisjoint(Snapshot(oldMasters)) && own == Owners(oldMasters, Snapshot(oldMasters))
    requires forall m, n :: m in newMasters && n in oldMasters && n.id == m.id ==> n == m
    requires NoDup(IdList(newMasters)) && PlanIs(plan, IdList(newMasters), segs) && PairwiseDisjoint(segs)
    requires forall i :: 0 <= i < |segs| ==> LostAscend(segs[i], Snapshot(oldMasters))
    ensures BatchesMatch(mapOut, own, Owners(newMasters, segs)) && nb == |Entries(mapOut)|
    ensures LostInOrder(mapOut)
  {
    mapOut, nb := map[], 0;
    assert Entries(mapOut) == {};
    ghost var dest: OwnerMap := map[];
    var todo := plan.Keys;
    ghost var absent := StartFeed(newMasters, plan, segs);
    while todo != {}
      invariant todo <= plan.Keys
      invariant Fed(dest, newMasters, segs, todo)
      invariant BatchesMatch(mapOut, own, dest) && nb == |Entries(mapOut)| && LostInOrder(mapOut)
      decreases todo
    {
      var id :| id in todo;
      var newNode := GetNodeByID(newMasters, id);
      if newNode != null {
        ghost var i := IndexOf(newMasters, newNode, plan, segs);
        FeedOne(dest, newMasters, segs, todo, i);
        mapOut, nb := FeedNode(oldMasters, newNode, plan[id], mapOut, nb, own, dest);
        dest := Assign(dest, plan[id], newNode);
      } else {
        IdListMember(newMasters, id);
      }
      todo := todo - {id};
    }
    FedAll(dest, newMasters, segs);
  }

  lemma StartFeed(news: seq<Node>, plan: SlotMap, segs: seq<seq<Slot>>) returns (dest: OwnerMap)
    requires PlanIs(plan, IdList(news), segs)
    ensures dest == map[] && Fed(dest, news, segs, plan.Keys)
  {
    dest := map[];
    forall i: nat, s: Slot | i < |news| ensures Planned(dest, news, segs, plan.Keys, i, s) {
      assert PlanOf(plan, IdList(news)[i]) == segs[i];
    }
  }

  lemma IndexOf(news: seq<Node>, n: Node, plan: SlotMap, segs: seq<seq<Slot>>) returns (i: nat)
    requires n in news && PlanIs(plan, IdList(news), segs) && n.id in plan
    ensures i < |news| && news[i] == n && segs[i] == plan[n.id]
  {
    i :| 0 <= i < |news| && news[i] == n;
    assert PlanOf(plan, IdList(news)[i]) == segs[i];
  }

  // ---------------------------------------------------------------- the result against the planned lists

  /** A new master and an old master with the same id are the same record. */
  ghost predicate SameRecords(newMasters: seq<Node>, oldMasters: seq<Node>) {
    forall m, n :: m in newMasters && n in oldMasters && n.id == m.id ==> n == m
  }

  lemma KeptStays(newMasters: seq<Node>, oldMasters: seq<Node>, newLists: seq<seq<Slot>>, oldLists: seq<seq<Slot>>,
                  nbSlots: nat, quota: nat, i: nat, s: Slot)
    requires Standing(IdList(newMasters), newLists, IdList(oldMasters), oldLists, nbSlots)
    requires SameRecords(newMasters, oldMasters) && i < |newMasters| && s in Kept(newLists[i], quota)
    ensures From(Owners(oldMasters, oldLists), s) == newMasters[i]
  {
    var j := KeptOwner(IdList(newMasters), newLists, IdList(oldMasters), oldLists, nbSlots, quota, i, s);
    OwnersAt(oldMasters, oldLists, j, s);
    assert oldMasters[j] in oldMasters && newMasters[i] in newMasters;
  }

  lemma SegsDisjoint(newLists: seq<seq<Slot>>, quota: nat, segs: seq<seq<Slot>>)
    requires |segs| == |newLists| && PairwiseDisjoint(FinalLists(newLists, quota, segs))
    ensures PairwiseDisjoint(segs)
  {
    var final := FinalLists(newLists, quota, segs);
    forall i | 0 <= i < |segs| ensures NoDup(segs[i]) {
      var k := |Kept(newLists[i], quota)|;
      assert forall a :: 0 <= a < |segs[i]| ==> segs[i][a] == final[i][k + a];
    }
    forall i, j, x | 0 <= i < j < |segs| && x in segs[i] ensures x !in segs[j] {
      assert x in final[i];
    }
  }

  /** Planned lists and planned segments call for the same batches. */
  lemma MatchFinal(batches: Batches, newMasters: seq<Node>, oldMasters: seq<Node>, newLists: seq<seq<Slot>>,
                   oldLists: seq<seq<Slot>>, nbSlots: nat, quota: nat, segs: seq<seq<Slot>>)
    requires Standing(IdList(newMasters), newLists, IdList(oldMasters), oldLists, nbSlots)
    requires SameRecords(newMasters, oldMasters) && |segs| == |newMasters|
    requires PairwiseDisjoint(FinalLists(newLists, quota, segs)) && PairwiseDisjoint(segs)
    requires BatchesMatch(batches, Owners(oldMasters, oldLists), Owners(newMasters, segs))
    ensures BatchesMatch(batches, Owners(oldMasters, oldLists), Owners(newMasters, FinalLists(newLists, quota, segs)))
  {
    var own, final := Owners(oldMasters, oldLists), FinalLists(newLists, quota, segs);
    var planned, dest := Owners(newMasters, segs), Owners(newMasters, final);
    forall k, s | k in batches && s in batches[k] ensures Fits(own, dest, k, s) {
      assert Fits(own, planned, k, s);
      OwnersMember(newMasters, segs, s);
      var i :| 0 <= i < |newMasters| && s in segs[i] && planned[s] == newMasters[i];
      OwnersAt(newMasters, final, i, s);
    }
    forall s | s in dest ensures Recorded(batches, own, dest, s) {
      OwnersMember(newMasters, final, s);
      var i :| 0 <= i < |newMasters| && s in final[i] && dest[s] == newMasters[i];
      if s in segs[i] {
        OwnersAt(newMasters, segs, i, s);
        assert Recorded(batches, own, planned, s);
      } else {
        KeptStays(newMasters, oldMasters, newLists, oldLists, nbSlots, quota, i, s);
      }
    }
  }

  /** What the planner promises about the lists it plans. */
  ghost predicate GoodPlan(final: seq<seq<Slot>>, newLists: seq<seq<Slot>>, nbSlots: nat, quota: nat) {
    && |final| == |newLists| && Partition(final, nbSlots) && Balanced(final, quota)
    && forall i :: 0 <= i < |final| ==> Kept(newLists[i], quota) <= final[i]
  }

  /**
   * The batches realise exactly the change from the old ownership to the planned lists, and the
   * counter is the number of slots in all batches. Lost slots are in ascending order in their batches.
   * Without new masters nothing is planned.
   */
  method FeedMigInfo(newMasters: seq<Node>, oldMasters: seq<Node>, nbSlots: nat)
    returns (mapOut: Batches, nbSlotsToMigrate: nat, ghost final: seq<seq<Slot>>)
    requires 0 < nbSlots < UINT64_LIMIT && SameRecords(newMasters, oldMasters)
    requires Standing(IdList(newMasters), Snapshot(newMasters), IdList(oldMasters), Snapshot(oldMasters), nbSlots)
    ensures newMasters == [] ==> mapOut == map[]
    ensures nbSlotsToMigrate == |Entries(mapOut)| && LostInOrder(mapOut)
    ensures newMasters != [] ==>
              && GoodPlan(final, Snapshot(newMasters), nbSlots, CeilDiv(nbSlots, |newMasters|))
              && BatchesMatch(mapOut, Owners(oldMasters, Snapshot(oldMasters)), Owners(newMasters, final))
  {
    var plan, over;
    ghost var segs;
    plan, over, segs := BuildSlotsByNode(newMasters, oldMasters, nbSlots);
    if |newMasters| == 0 {
      mapOut, nbSlotsToMigrate, final := map[], 0, [];
      assert Entries(mapOut) == {};
      return;
    }
    mapOut, nbSlotsToMigrate, final :=
      FeedBatches(newMasters, oldMasters, plan, nbSlots, CeilDiv(nbSlots, |newMasters|), segs);
  }

  method FeedBatches(newMasters: seq<Node>, oldMasters: seq<Node>, plan: SlotMap, ghost nbSlots: nat,
                     ghost quota: nat, ghost segs: seq<seq<Slot>>)
    returns (mapOut: Batches, nb: nat, ghost final: seq<seq<Slot>>)
    requires SameRecords(newMasters, oldMasters)
    requires Standing(IdList(newMasters), Snapshot(newMasters), IdList(oldMasters), Snapshot(oldMasters), nbSlots)
    requires PlanIs(plan, IdList(newMasters), segs)
    requires Partition(FinalLists(Snapshot(newMasters), quota, segs), nbSlots)
    requires Balanced(FinalLists(Snapshot(newMasters), quota, segs), quota)
    requires forall i :: 0 <= i < |segs| ==> LostAscend(segs[i], Snapshot(oldMasters))
    ensures GoodPlan(final, Snapshot(newMasters), nbSlots, quota) && nb == |Entries(mapOut)| && LostInOrder(mapOut)
    ensures BatchesMatch(mapOut, Owners(oldMasters, Snapshot(oldMasters)), Owners(newMasters, final))
  {
    ghost var newLists := Snapshot(newMasters);
    final := FinalLists(newLists, quota, segs);
    SegsDisjoint(newLists, quota, segs);
    mapOut, nb := FeedPlan(newMasters, oldMasters, plan, segs, Owners(oldMasters, Snapshot(oldMasters)));
    MatchFinal(mapOut, newMasters, oldMasters, newLists, Snapshot(oldMasters), nbSlots, quota, segs);
  }
}
