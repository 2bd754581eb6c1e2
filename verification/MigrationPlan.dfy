/** The scale-down planner: which slot goes to which master (controllers/clustering/migration.go). */
module MigrationPlan {
  import opened Arithmetic
  import opened Lists
  import opened SlotLists
  import opened Nodes
  import opened SlotPacking

  // ---------------------------------------------------------------- lost slots

  ghost predicate OwnedBySome(lists: seq<seq<Slot>>, s: Slot) {
    exists i :: 0 <= i < |lists| && s in lists[i]
  }

  /** Exactly the slots up to last that are not in the sorted list. */
  ghost predicate GapsUpTo(lost: seq<Slot>, sorted: seq<Slot>, last: Slot) {
    && StrictlyAscending(lost)
    && forall s :: s in lost <==> 0 <= s <= last && s !in sorted
  }

  lemma AscendingAppend(lost: seq<Slot>, low: Slot, high: int)
    requires StrictlyAscending(lost) && forall s :: s in lost ==> s < low
    ensures StrictlyAscending(lost + RangeSlots(low, high))
  {
    RangeSlotsMembers(low, high);
    forall i | 0 <= i < |lost| ensures lost[i] < low {
      assert lost[i] in lost;
    }
    AscendingConcat(lost, RangeSlots(low, high));
  }

  lemma GapsExtend(lost: seq<Slot>, sorted: seq<Slot>, last: Slot, next: Slot)
    requires GapsUpTo(lost, sorted, last) && last <= next
    requires forall s :: last < s < next ==> s !in sorted
    ensures next in sorted && last < next ==> GapsUpTo(lost + RangeSlots(last + 1, next - 1), sorted, next)
    ensures next !in sorted && last < next ==> GapsUpTo(lost + RangeSlots(last + 1, next), sorted, next)
  {
    RangeSlotsMembers(last + 1, next - 1);
    RangeSlotsMembers(last + 1, next);
    AscendingAppend(lost, last + 1, next - 1);
    AscendingAppend(lost, last + 1, next);
  }

  method AppendRange(lost: seq<Slot>, low: Slot, high: int) returns (r: seq<Slot>)
    ensures r == lost + RangeSlots(low, high)
  {
    r := lost;
    var i: int := low;
    while i <= high
      invariant low <= i && (low <= high + 1 ==> i <= high + 1) && (low > high ==> i == low)
      invariant r == lost + RangeSlots(low, i - 1)
      decreases high + 1 - i
    {
      assert RangeSlots(low, i) == RangeSlots(low, i - 1) + [i];
      r := r + [i];
      i := i + 1;
    }
  }

  /** All slots of the nodes, one list after the other. */
  method AllSlots(nodes: seq<Node>) returns (all: seq<Slot>)
    ensures all == Flatten(Snapshot(nodes))
  {
    all := [];
    for i := 0 to |nodes|
      invariant all == Flatten(Snapshot(nodes)[..i])
    {
      assert Snapshot(nodes)[..i + 1][..i] == Snapshot(nodes)[..i];
      all := all + nodes[i].slots;
    }
    assert Snapshot(nodes)[..|nodes|] == Snapshot(nodes);
  }

  lemma NothingBetween(sorted: seq<Slot>, k: nat, last: Slot)
    requires Ascending(sorted) && k < |sorted| && last == if k == 0 then 0 else sorted[k - 1]
    ensures last <= sorted[k]
    ensures forall s :: last < s < sorted[k] ==> s !in sorted
  {
  }

  lemma FirstGap(sorted: seq<Slot>)
    requires Ascending(sorted)
    ensures GapsUpTo(if sorted == [] || sorted[0] != 0 then [0] else [], sorted, 0)
  {
  }

  lemma NextGap(lost: seq<Slot>, sorted: seq<Slot>, k: nat, last: Slot)
    requires Ascending(sorted) && k < |sorted| && last == if k == 0 then 0 else sorted[k - 1]
    requires GapsUpTo(lost, sorted, last)
    ensures last <= sorted[k]
    ensures GapsUpTo(lost + RangeSlots(last + 1, (sorted[k] as int) - 1), sorted, sorted[k])
  {
    NothingBetween(sorted, k, last);
    GapsExtend(lost, sorted, last, sorted[k]);
    if last == sorted[k] {
      assert lost + RangeSlots(last + 1, (sorted[k] as int) - 1) == lost;
    }
  }

  /** The last slot that the walk examines. */
  ghost function Reach(sorted: seq<Slot>, nbSlots: nat): Slot {
    var last := if sorted == [] then 0 else sorted[|sorted| - 1];
    if nbSlots > last + 1 then nbSlots - 1 else last
  }

  lemma LastGap(lost: seq<Slot>, sorted: seq<Slot>, last: Slot, nbSlots: nat)
    requires Ascending(sorted) && last == if sorted == [] then 0 else sorted[|sorted| - 1]
    requires GapsUpTo(lost, sorted, last)
    ensures GapsUpTo(lost + RangeSlots(last + 1, nbSlots - 1), sorted, Reach(sorted, nbSlots))
  {
    assert forall i :: 0 <= i < |sorted| ==> sorted[i] <= last;
    if nbSlots > last + 1 {
      GapsExtend(lost, sorted, last, nbSlots - 1);
    } else {
      assert lost + RangeSlots(last + 1, nbSlots - 1) == lost;
    }
  }

  /** The walk over the sorted slots. */
  method Gaps(sorted: seq<Slot>, nbSlots: nat) returns (lost: seq<Slot>)
    requires Ascending(sorted)
    ensures GapsUpTo(lost, sorted, Reach(sorted, nbSlots))
  {
    lost := [];
    var last: Slot := 0;
    FirstGap(sorted);
    if |sorted| == 0 || sorted[0] != 0 {
      lost := [0];
    }
    for k := 0 to |sorted|
      invariant last == if k == 0 then 0 else sorted[k - 1]
      invariant GapsUpTo(lost, sorted, last)
    {
      var slot := sorted[k];
      NextGap(lost, sorted, k, last);
      if slot > last + 1 {
        lost := AppendRange(lost, last + 1, slot - 1);
      } else {
        assert lost + RangeSlots(last + 1, slot - 1) == lost;
      }
      last := slot;
    }
    LastGap(lost, sorted, last, nbSlots);
    lost := AppendRange(lost, last + 1, nbSlots - 1);
  }

  ghost predicate BelowOwned(lists: seq<seq<Slot>>, s: Slot) {
    exists t: Slot :: s < t && OwnedBySome(lists, t)
  }

  /** The unowned slots among those below nbSlots or below an owned slot; slot 0 always counts. */
  ghost predicate IsLost(lists: seq<seq<Slot>>, nbSlots: nat, s: Slot) {
    !OwnedBySome(lists, s) && (s < nbSlots || s == 0 || BelowOwned(lists, s))
  }

  lemma LostMember(lists: seq<seq<Slot>>, sorted: seq<Slot>, lost: seq<Slot>, nbSlots: nat, s: Slot)
    requires Ascending(sorted) && multiset(sorted) == multiset(Flatten(lists))
    requires GapsUpTo(lost, sorted, Reach(sorted, nbSlots))
    ensures s in lost <==> IsLost(lists, nbSlots, s)
  {
    SortedOwned(lists, sorted, s);
    if t: Slot :| s < t && OwnedBySome(lists, t) {
      SortedOwned(lists, sorted, t);
      assert t <= sorted[|sorted| - 1];
    }
    if sorted != [] && s < sorted[|sorted| - 1] {
      SortedOwned(lists, sorted, sorted[|sorted| - 1]);
      assert BelowOwned(lists, s);
    }
  }

  lemma SortedOwned(lists: seq<seq<Slot>>, sorted: seq<Slot>, s: Slot)
    requires multiset(sorted) == multiset(Flatten(lists))
    ensures s in sorted <==> OwnedBySome(lists, s)
  {
    FlattenMember(lists, s);
    assert s in sorted <==> s in multiset(sorted);
    assert s in Flatten(lists) <==> s in multiset(Flatten(lists));
  }

  /** Strictly ascending and exactly the lost slots; duplicates in the lists do no harm. */
  method RetrieveLostSlots(oldMasters: seq<Node>, nbSlots: nat) returns (lost: seq<Slot>)
    requires forall n :: n in oldMasters ==> forall s :: s in n.slots ==> s < UINT64_LIMIT - 1
    ensures StrictlyAscending(lost)
    ensures forall s: Slot :: s in lost <==> IsLost(Snapshot(oldMasters), nbSlots, s)
  {
    var all := AllSlots(oldMasters);
    var sorted := Sort(all);
    lost := Gaps(sorted, nbSlots);
    forall s: Slot ensures s in lost <==> IsLost(Snapshot(oldMasters), nbSlots, s) {
      LostMember(Snapshot(oldMasters), sorted, lost, nbSlots, s);
    }
  }

  // ---------------------------------------------------------------- slots that must move

  /** What a master of the new layout keeps of its own list. */
  function Kept(list: seq<Slot>, quota: nat): seq<Slot> {
    if |list| > quota then list[..quota] else list
  }

  ghost function KeptLists(lists: seq<seq<Slot>>, quota: nat): (r: seq<seq<Slot>>)
    ensures |r| == |lists| && forall i :: 0 <= i < |lists| ==> r[i] == Kept(lists[i], quota)
  {
    if lists == [] then [] else KeptLists(lists[..|lists| - 1], quota) + [Kept(lists[|lists| - 1], quota)]
  }

  /**
   * What the planner may assume: ids are unique and not empty, the old masters own disjoint sets of
   * existing slots, and a new master holds slots only if it is an old master (the same record).
   */
  ghost predicate Standing(newIds: seq<string>, newLists: seq<seq<Slot>>, oldIds: seq<string>,
                           oldLists: seq<seq<Slot>>, nbSlots: nat)
  {
    && |newIds| == |newLists| && |oldIds| == |oldLists|
    && NoDup(newIds) && NoDup(oldIds) && "" !in newIds && "" !in oldIds
    && PairwiseDisjoint(oldLists)
    && (forall j, s :: 0 <= j < |oldLists| && s in oldLists[j] ==> s < nbSlots)
    && (forall i :: 0 <= i < |newIds| && newLists[i] != [] ==> newIds[i] in oldIds)
    && (forall i, j :: 0 <= i < |newIds| && 0 <= j < |oldIds| && newIds[i] == oldIds[j] ==> newLists[i] == oldLists[j])
  }

  /** The surplus of each old master above the quota. */
  ghost predicate IsSurplus(m: SlotMap, oldIds: seq<string>, oldLists: seq<seq<Slot>>, quota: nat, k: nat)
    requires |oldIds| == |oldLists| && k <= |oldIds|
  {
    && (forall j :: 0 <= j < k && |oldLists[j]| > quota ==> oldIds[j] in m && m[oldIds[j]] == oldLists[j][quota..])
    && (forall id :: id in m ==> exists j :: 0 <= j < k && oldIds[j] == id && |oldLists[j]| > quota)
  }

  lemma SurplusStep(m: SlotMap, oldIds: seq<string>, oldLists: seq<seq<Slot>>, quota: nat, k: nat)
    requires |oldIds| == |oldLists| && k < |oldIds| && NoDup(oldIds) && IsSurplus(m, oldIds, oldLists, quota, k)
    ensures |oldLists[k]| > quota ==>
              PlanOf(m, oldIds[k]) == [] &&
              IsSurplus(m[oldIds[k] := [] + oldLists[k][quota..]], oldIds, oldLists, quota, k + 1)
    ensures |oldLists[k]| <= quota ==> IsSurplus(m, oldIds, oldLists, quota, k + 1)
  {
  }

  method RetrieveSlotToMigrateFrom(oldMasters: seq<Node>, quota: nat) returns (m: SlotMap)
    requires NoDup(IdList(oldMasters))
    ensures IsSurplus(m, IdList(oldMasters), Snapshot(oldMasters), quota, |oldMasters|)
  {
    m := map[];
    ghost var ids, lists := IdList(oldMasters), Snapshot(oldMasters);
    for k := 0 to |oldMasters|
      invariant IsSurplus(m, ids, lists, quota, k)
    {
      var node := oldMasters[k];
      SurplusStep(m, ids, lists, quota, k);
      if |node.slots| >= quota {
        if |node.slots[quota..]| > 0 {
          m := m[node.id := PlanOf(m, node.id) + node.slots[quota..]];
        }
      }
    }
  }

  /** All slots of each old master that is not a new one. */
  ghost predicate IsRemoved(m: SlotMap, newIds: seq<string>, oldIds: seq<string>, oldLists: seq<seq<Slot>>)
    requires |oldIds| == |oldLists|
  {
    && (forall j :: 0 <= j < |oldIds| && oldIds[j] !in newIds ==> oldIds[j] in m && m[oldIds[j]] == oldLists[j])
    && (forall id :: id in m ==> id !in newIds && id in oldIds)
  }

  method RemovedNodes(newMasters: seq<Node>, oldMasters: seq<Node>) returns (removed: seq<Node>)
    ensures forall n :: n in removed <==> n in oldMasters && n.id !in IdList(newMasters)
  {
    removed := [];
    for j := 0 to |oldMasters|
      invariant forall n :: n in removed <==> n in oldMasters[..j] && n.id !in IdList(newMasters)
    {
      var present := GetNodeByID(newMasters, oldMasters[j].id);
      assert present == null <==> oldMasters[j].id !in IdList(newMasters) by {
        IdListMember(newMasters, oldMasters[j].id);
      }
      if present == null {
        removed := removed + [oldMasters[j]];
      }
    }
    assert oldMasters[..|oldMasters|] == oldMasters;
  }

  lemma IdListMember(nodes: seq<Node>, id: string)
    ensures id in IdList(nodes) <==> exists n :: n in nodes && n.id == id
  {
  }

  method RetrieveSlotToMigrateFromRemovedNodes(newMasters: seq<Node>, oldMasters: seq<Node>) returns (m: SlotMap)
    requires UniqueIds(Elems(oldMasters))
    ensures IsRemoved(m, IdList(newMasters), IdList(oldMasters), Snapshot(oldMasters))
  {
    var removed := RemovedNodes(newMasters, oldMasters);
    m := map[];
    for i := 0 to |removed|
      invariant forall n :: n in removed[..i] ==> n.id in m
      invariant forall n :: n in oldMasters && n.id in m ==> m[n.id] == n.slots
      invariant forall id :: id in m ==> exists n :: n in removed && n.id == id
    {
      assert removed[i] in oldMasters && removed[i] in Elems(oldMasters);
      assert forall n :: n in oldMasters ==> n in Elems(oldMasters);
      m := m[removed[i].id := removed[i].slots];
    }
    RemovedComplete(m, newMasters, oldMasters, removed);
  }

  lemma RemovedComplete(m: SlotMap, newMasters: seq<Node>, oldMasters: seq<Node>, removed: seq<Node>)
    requires forall n :: n in removed <==> n in oldMasters && n.id !in IdList(newMasters)
    requires forall n :: n in removed ==> n.id in m
    requires forall n :: n in oldMasters && n.id in m ==> m[n.id] == n.slots
    requires forall id :: id in m ==> exists n :: n in removed && n.id == id
    ensures IsRemoved(m, IdList(newMasters), IdList(oldMasters), Snapshot(oldMasters))
  {
  }

  // ---------------------------------------------------------------- the pool

  /** Surplus of kept masters, everything of removed masters, and lost slots under the empty id. */
  ghost predicate IsPool(pool: SlotMap, newIds: seq<string>, oldIds: seq<string>, oldLists: seq<seq<Slot>>, quota: nat,
                         lost: seq<Slot>)
    requires |oldIds| == |oldLists|
  {
    && "" in pool && pool[""] == lost
    && (forall j :: 0 <= j < |oldIds| && oldIds[j] !in newIds ==> oldIds[j] in pool && pool[oldIds[j]] == oldLists[j])
    && (forall j :: 0 <= j < |oldIds| && oldIds[j] in newIds && |oldLists[j]| > quota ==>
          oldIds[j] in pool && pool[oldIds[j]] == oldLists[j][quota..])
    && (forall k :: k in pool && k != "" ==>
          exists j :: 0 <= j < |oldIds| && oldIds[j] == k && (k !in newIds || |oldLists[j]| > quota))
  }

  lemma PoolOf(surplus: SlotMap, removed: SlotMap, lost: seq<Slot>, newIds: seq<string>, oldIds: seq<string>,
               oldLists: seq<seq<Slot>>, quota: nat)
    requires |oldIds| == |oldLists| && NoDup(oldIds) && "" !in oldIds
    requires IsSurplus(surplus, oldIds, oldLists, quota, |oldIds|) && IsRemoved(removed, newIds, oldIds, oldLists)
    ensures IsPool((surplus + removed)["" := lost], newIds, oldIds, oldLists, quota, lost)
  {
  }

  /** Where the slots under a key of the pool come from. */
  lemma PoolKey(pool: SlotMap, newIds: seq<string>, oldIds: seq<string>, oldLists: seq<seq<Slot>>, quota: nat,
                lost: seq<Slot>, k: string) returns (j: nat)
    requires |oldIds| == |oldLists| && IsPool(pool, newIds, oldIds, oldLists, quota, lost)
    requires k in pool && k != ""
    ensures j < |oldIds| && oldIds[j] == k
    ensures pool[k] == if k !in newIds then oldLists[j] else oldLists[j][if |oldLists[j]| > quota then quota else 0..]
    ensures k in newIds ==> |oldLists[j]| > quota
  {
    j :| 0 <= j < |oldIds| && oldIds[j] == k && (k !in newIds || |oldLists[j]| > quota);
  }

  lemma SuffixNoDup(s: seq<Slot>, q: nat)
    requires NoDup(s) && q <= |s|
    ensures NoDup(s[q..])
    ensures forall x :: x in s[q..] ==> x in s && x !in s[..q]
  {
  }

  /** No slot is in two entries of the pool or twice in one. */
  lemma PoolDisjoint(pool: SlotMap, newIds: seq<string>, newLists: seq<seq<Slot>>, oldIds: seq<string>,
                     oldLists: seq<seq<Slot>>, nbSlots: nat, quota: nat, lost: seq<Slot>)
    requires Standing(newIds, newLists, oldIds, oldLists, nbSlots)
    requires IsPool(pool, newIds, oldIds, oldLists, quota, lost)
    requires NoDup(lost) && forall s :: s in lost ==> !OwnedBySome(oldLists, s)
    ensures Disjoint(pool)
  {
    forall k | k in pool ensures NoDup(pool[k]) {
      if k != "" {
        var j := PoolKey(pool, newIds, oldIds, oldLists, quota, lost, k);
        if k in newIds { SuffixNoDup(oldLists[j], quota); }
      }
    }
    forall k, l, s | k in pool && l in pool && k != l && s in pool[k] ensures s !in pool[l] {
      PoolPair(pool, newIds, newLists, oldIds, oldLists, nbSlots, quota, lost, k, l, s);
    }
  }

  lemma PoolPair(pool: SlotMap, newIds: seq<string>, newLists: seq<seq<Slot>>, oldIds: seq<string>,
                 oldLists: seq<seq<Slot>>, nbSlots: nat, quota: nat, lost: seq<Slot>, k: string, l: string, s: Slot)
    requires Standing(newIds, newLists, oldIds, oldLists, nbSlots)
    requires IsPool(pool, newIds, oldIds, oldLists, quota, lost)
    requires forall s :: s in lost ==> !OwnedBySome(oldLists, s)
    requires k in pool && l in pool && k != l && s in pool[k]
    ensures s !in pool[l]
  {
    if k == "" {
      var j := PoolKey(pool, newIds, oldIds, oldLists, quota, lost, l);
      assert s in oldLists[j] ==> OwnedBySome(oldLists, s);
    } else {
      var i := PoolKey(pool, newIds, oldIds, oldLists, quota, lost, k);
      assert s in oldLists[i];
      if l != "" {
        var j := PoolKey(pool, newIds, oldIds, oldLists, quota, lost, l);
        assert s !in oldLists[j];
      }
    }
  }

  ghost predicate InKept(newLists: seq<seq<Slot>>, quota: nat, s: Slot) {
    exists i :: 0 <= i < |newLists| && s in Kept(newLists[i], quota)
  }

  /** A kept slot is owned by the old master of the same id, and by no other. */
  lemma KeptOwner(newIds: seq<string>, newLists: seq<seq<Slot>>, oldIds: seq<string>, oldLists: seq<seq<Slot>>,
                  nbSlots: nat, quota: nat, i: nat, s: Slot) returns (j: nat)
    requires Standing(newIds, newLists, oldIds, oldLists, nbSlots) && i < |newIds| && s in newLists[i]
    ensures j < |oldIds| && oldIds[j] == newIds[i] && oldLists[j] == newLists[i] && s < nbSlots
    ensures forall l :: 0 <= l < |oldIds| && s in oldLists[l] ==> l == j
  {
    j :| 0 <= j < |oldIds| && oldIds[j] == newIds[i];
    assert s in oldLists[j];
  }

  /** A slot is offered exactly when it is not kept by its owner. */
  lemma PoolMembers(pool: SlotMap, newIds: seq<string>, newLists: seq<seq<Slot>>, oldIds: seq<string>,
                    oldLists: seq<seq<Slot>>, nbSlots: nat, quota: nat, lost: seq<Slot>, s: Slot)
    requires nbSlots > 0 && Standing(newIds, newLists, oldIds, oldLists, nbSlots)
    requires IsPool(pool, newIds, oldIds, oldLists, quota, lost)
    requires s in lost <==> IsLost(oldLists, nbSlots, s)
    ensures InPool(pool, pool.Keys, s) <==> s < nbSlots && !InKept(newLists, quota, s)
  {
    LostBelow(newIds, newLists, oldIds, oldLists, nbSlots, s);
    if OwnedBySome(oldLists, s) {
      var j :| 0 <= j < |oldLists| && s in oldLists[j];
      OwnedMember(pool, newIds, newLists, oldIds, oldLists, nbSlots, quota, lost, s, j);
    } else {
      assert forall j :: 0 <= j < |oldLists| ==> s !in oldLists[j];
      if InPool(pool, pool.Keys, s) {
        var k :| k in pool && s in pool[k];
        if k != "" {
          var j := PoolKey(pool, newIds, oldIds, oldLists, quota, lost, k);
        }
      }
      if InKept(newLists, quota, s) {
        var i :| 0 <= i < |newLists| && s in Kept(newLists[i], quota);
        var j := KeptOwner(newIds, newLists, oldIds, oldLists, nbSlots, quota, i, s);
      }
    }
  }

  lemma LostBelow(newIds: seq<string>, newLists: seq<seq<Slot>>, oldIds: seq<string>, oldLists: seq<seq<Slot>>,
                  nbSlots: nat, s: Slot)
    requires nbSlots > 0 && Standing(newIds, newLists, oldIds, oldLists, nbSlots)
    ensures IsLost(oldLists, nbSlots, s) <==> !OwnedBySome(oldLists, s) && s < nbSlots
  {
  }

  lemma OwnedMember(pool: SlotMap, newIds: seq<string>, newLists: seq<seq<Slot>>, oldIds: seq<string>,
                    oldLists: seq<seq<Slot>>, nbSlots: nat, quota: nat, lost: seq<Slot>, s: Slot, j: nat)
    requires Standing(newIds, newLists, oldIds, oldLists, nbSlots)
    requires IsPool(pool, newIds, oldIds, oldLists, quota, lost)
    requires j < |oldIds| && s in oldLists[j] && s !in lost
    ensures s < nbSlots
    ensures InPool(pool, pool.Keys, s) <==> !InKept(newLists, quota, s)
  {
    var id := oldIds[j];
    if InKept(newLists, quota, s) {
      var i :| 0 <= i < |newLists| && s in Kept(newLists[i], quota);
      var l := KeptOwner(newIds, newLists, oldIds, oldLists, nbSlots, quota, i, s);
      assert l == j && newLists[i] == oldLists[j] && id in newIds;
      NotOffered(pool, newIds, newLists, oldIds, oldLists, nbSlots, quota, lost, s, j);
    } else if id !in newIds {
      assert pool[id] == oldLists[j];
    } else {
      var i :| 0 <= i < |newIds| && newIds[i] == id;
      assert newLists[i] == oldLists[j];
      assert s !in Kept(newLists[i], quota);
      KeptOrSurplus(oldLists[j], quota, s);
      assert s in pool[id];
    }
  }

  lemma KeptOrSurplus(list: seq<Slot>, quota: nat, s: Slot)
    requires s in list
    ensures s in Kept(list, quota) || (|list| > quota && s in list[quota..])
  {
  }

  lemma NotOffered(pool: SlotMap, newIds: seq<string>, newLists: seq<seq<Slot>>, oldIds: seq<string>,
                   oldLists: seq<seq<Slot>>, nbSlots: nat, quota: nat, lost: seq<Slot>, s: Slot, j: nat)
    requires Standing(newIds, newLists, oldIds, oldLists, nbSlots)
    requires IsPool(pool, newIds, oldIds, oldLists, quota, lost)
    requires j < |oldIds| && oldIds[j] in newIds && s in Kept(oldLists[j], quota) && s !in lost
    ensures !InPool(pool, pool.Keys, s)
  {
    forall k | k in pool ensures s !in pool[k] {
      if k != "" {
        var l := PoolKey(pool, newIds, oldIds, oldLists, quota, lost, k);
        if l == j {
          SuffixNoDup(oldLists[j], quota);
        } else {
          assert s in oldLists[j] && s !in oldLists[l];
        }
      }
    }
  }

  // ---------------------------------------------------------------- the planned lists

  /** What each new master will own: what it keeps, then what is planned for it. */
  ghost function FinalLists(newLists: seq<seq<Slot>>, quota: nat, segs: seq<seq<Slot>>): (r: seq<seq<Slot>>)
    requires |segs| == |newLists|
    ensures |r| == |newLists| && forall i :: 0 <= i < |r| ==> r[i] == Kept(newLists[i], quota) + segs[i]
  {
    if newLists == [] then []
    else
      var n := |newLists| - 1;
      FinalLists(newLists[..n], quota, segs[..n]) + [Kept(newLists[n], quota) + segs[n]]
  }

  /** Every slot is in exactly one list, once. */
  ghost predicate Partition(lists: seq<seq<Slot>>, nbSlots: nat) {
    && PairwiseDisjoint(lists)
    && forall s: Slot :: OwnedBySome(lists, s) <==> s < nbSlots
  }

  /** Nobody gets more than one slot above the quota, and the first and the last nothing above it. */
  ghost predicate Balanced(lists: seq<seq<Slot>>, quota: nat) {
    && lists != []
    && (forall i :: 0 <= i < |lists| ==> |lists[i]| <= quota + 1)
    && |lists[0]| <= quota && |lists[|lists| - 1]| <= quota
  }

  /** The drawn slots are exactly those that nobody keeps. */
  ghost predicate Complements(flat: seq<Slot>, newLists: seq<seq<Slot>>, quota: nat, nbSlots: nat) {
    NoDup(flat) && forall s: Slot :: s in flat <==> s < nbSlots && !InKept(newLists, quota, s)
  }

  lemma KeptDisjoint(newIds: seq<string>, newLists: seq<seq<Slot>>, oldIds: seq<string>, oldLists: seq<seq<Slot>>,
                     nbSlots: nat, quota: nat)
    requires Standing(newIds, newLists, oldIds, oldLists, nbSlots)
    ensures PairwiseDisjoint(KeptLists(newLists, quota))
    ensures forall s: Slot :: InKept(newLists, quota, s) ==> s < nbSlots
  {
    var kept := KeptLists(newLists, quota);
    forall i | 0 <= i < |kept| ensures NoDup(kept[i]) {
      if kept[i] != [] {
        var j := KeptOwner(newIds, newLists, oldIds, oldLists, nbSlots, quota, i, kept[i][0]);
      }
    }
    forall i, j, x | 0 <= i < j < |kept| && x in kept[i] ensures x !in kept[j] {
      var a := KeptOwner(newIds, newLists, oldIds, oldLists, nbSlots, quota, i, x);
      if x in kept[j] {
        var b := KeptOwner(newIds, newLists, oldIds, oldLists, nbSlots, quota, j, x);
        assert false;
      }
    }
    forall s: Slot | InKept(newLists, quota, s) ensures s < nbSlots {
      var i :| 0 <= i < |newLists| && s in Kept(newLists[i], quota);
      var j := KeptOwner(newIds, newLists, oldIds, oldLists, nbSlots, quota, i, s);
    }
  }

  lemma InKeptFlatten(newLists: seq<seq<Slot>>, quota: nat, s: Slot)
    ensures InKept(newLists, quota, s) <==> s in Flatten(KeptLists(newLists, quota))
  {
  }

  /** What is kept and what is drawn fit together below nbSlots. */
  lemma KeptAndDrawn(newLists: seq<seq<Slot>>, quota: nat, nbSlots: nat, flat: seq<Slot>)
    requires PairwiseDisjoint(KeptLists(newLists, quota)) && Complements(flat, newLists, quota, nbSlots)
    requires forall s: Slot :: InKept(newLists, quota, s) ==> s < nbSlots
    ensures |Flatten(KeptLists(newLists, quota))| + |flat| <= nbSlots
  {
    var kept := Flatten(KeptLists(newLists, quota));
    FlattenDisjoint(KeptLists(newLists, quota));
    forall s: Slot ensures InKept(newLists, quota, s) <==> s in kept {
      InKeptFlatten(newLists, quota, s);
    }
    NoDupConcat(kept, flat);
    BoundedLength(kept + flat, nbSlots);
  }

  lemma KeptAndRoom(list: seq<Slot>, quota: nat)
    ensures |Kept(list, quota)| + Room(|list|, quota) == quota
  {
  }

  lemma RoomSuffices(newLists: seq<seq<Slot>>, quota: nat, nbSlots: nat, flat: seq<Slot>)
    requires PairwiseDisjoint(KeptLists(newLists, quota)) && Complements(flat, newLists, quota, nbSlots)
    requires forall s: Slot :: InKept(newLists, quota, s) ==> s < nbSlots
    requires |newLists| * quota >= nbSlots
    ensures |flat| <= Sum(Rooms(Lengths(newLists), quota))
  {
    var n, kept, rooms := |newLists|, KeptLists(newLists, quota), Rooms(Lengths(newLists), quota);
    KeptAndDrawn(newLists, quota, nbSlots, flat);
    FlattenLength(kept);
    forall i | 0 <= i < n ensures Lengths(kept)[i] + rooms[i] == seq(n, i => quota)[i] {
      RoomsAt(Lengths(newLists), quota, i);
      KeptAndRoom(newLists[i], quota);
    }
    SumPointwise(Lengths(kept), rooms, seq(n, i => quota));
    SumConstant(n, quota);
  }

  lemma FinalBalanced(newLists: seq<seq<Slot>>, quota: nat, segs: seq<seq<Slot>>, id: nat, over: bool)
    requires Packed(Lengths(newLists), quota, segs, id, over)
    requires |Flatten(segs)| <= Sum(Rooms(Lengths(newLists), quota))
    ensures !over && Balanced(FinalLists(newLists, quota, segs), quota)
  {
    EnoughRoom(Lengths(newLists), quota, segs, id, over);
    var final := FinalLists(newLists, quota, segs);
    forall i | 0 <= i < |final| ensures |final[i]| <= quota + 1 && (i == 0 || i == |final| - 1 ==> |final[i]| <= quota) {
      KeptAndRoom(newLists[i], quota);
      assert |segs[i]| <= Limit(Lengths(newLists)[i], quota, i);
    }
  }

  lemma FinalPartition(newLists: seq<seq<Slot>>, quota: nat, segs: seq<seq<Slot>>, nbSlots: nat)
    requires |segs| == |newLists|
    requires PairwiseDisjoint(KeptLists(newLists, quota)) && Complements(Flatten(segs), newLists, quota, nbSlots)
    requires forall s: Slot :: InKept(newLists, quota, s) ==> s < nbSlots
    ensures Partition(FinalLists(newLists, quota, segs), nbSlots)
  {
    var final, kept := FinalLists(newLists, quota, segs), KeptLists(newLists, quota);
    FlattenNoDup(segs);
    forall i | 0 <= i < |final| ensures NoDup(final[i]) {
      forall x | x in Elems(kept[i]) ensures x !in Elems(segs[i]) {
        KeptNotDrawn(newLists, quota, segs, nbSlots, i, i, x);
      }
      NoDupConcat(kept[i], segs[i]);
    }
    forall i, j, x | 0 <= i < j < |final| && x in final[i] ensures x !in final[j] {
      if x in kept[i] {
        KeptNotDrawn(newLists, quota, segs, nbSlots, i, j, x);
        assert x !in kept[j];
      } else {
        assert x in segs[i];
        if x in kept[j] { KeptNotDrawn(newLists, quota, segs, nbSlots, j, i, x); }
      }
    }
    forall s: Slot ensures OwnedBySome(final, s) <==> s < nbSlots {
      FinalMember(newLists, quota, segs, nbSlots, s);
    }
  }

  lemma KeptNotDrawn(newLists: seq<seq<Slot>>, quota: nat, segs: seq<seq<Slot>>, nbSlots: nat, i: nat, j: nat, x: Slot)
    requires |segs| == |newLists| && Complements(Flatten(segs), newLists, quota, nbSlots)
    requires i < |newLists| && j < |newLists| && x in Kept(newLists[i], quota)
    ensures x !in segs[j]
  {
    assert InKept(newLists, quota, x);
    FlattenMember(segs, x);
  }

  lemma FinalMember(newLists: seq<seq<Slot>>, quota: nat, segs: seq<seq<Slot>>, nbSlots: nat, s: Slot)
    requires |segs| == |newLists| && Complements(Flatten(segs), newLists, quota, nbSlots)
    requires InKept(newLists, quota, s) ==> s < nbSlots
    ensures OwnedBySome(FinalLists(newLists, quota, segs), s) <==> s < nbSlots
  {
    var final := FinalLists(newLists, quota, segs);
    FlattenMember(segs, s);
    if i :| 0 <= i < |final| && s in final[i] {
      if s in Kept(newLists[i], quota) {
        assert InKept(newLists, quota, s);
      } else {
        assert s in segs[i];
      }
    }
    if s < nbSlots {
      if InKept(newLists, quota, s) {
        var i :| 0 <= i < |newLists| && s in Kept(newLists[i], quota);
        assert s in final[i];
      } else {
        var i :| 0 <= i < |segs| && s in segs[i];
        assert s in final[i];
      }
    }
  }

  // ---------------------------------------------------------------- the order of lost slots

  /** The slots of the list that nobody owns are in ascending order. */
  ghost predicate LostAscend(s: seq<Slot>, lists: seq<seq<Slot>>) {
    forall a, b :: 0 <= a < b < |s| && !OwnedBySome(lists, s[a]) && !OwnedBySome(lists, s[b]) ==> s[a] < s[b]
  }

  ghost predicate AllOwned(s: seq<Slot>, lists: seq<seq<Slot>>) {
    forall a :: 0 <= a < |s| ==> OwnedBySome(lists, s[a])
  }

  /** Lost slots are under one key of the pool, in ascending order. */
  ghost predicate LostApart(pool: SlotMap, lists: seq<seq<Slot>>) {
    && ("" in pool ==> StrictlyAscending(pool[""]))
    && forall k :: k in pool && k != "" ==> AllOwned(pool[k], lists)
  }

  lemma PoolApart(pool: SlotMap, newIds: seq<string>, oldIds: seq<string>, oldLists: seq<seq<Slot>>, quota: nat, lost: seq<Slot>)
    requires |oldIds| == |oldLists| && IsPool(pool, newIds, oldIds, oldLists, quota, lost) && StrictlyAscending(lost)
    ensures LostApart(pool, oldLists)
  {
    forall k | k in pool && k != "" ensures AllOwned(pool[k], oldLists) {
      var j := PoolKey(pool, newIds, oldIds, oldLists, quota, lost, k);
      forall a | 0 <= a < |pool[k]| ensures OwnedBySome(oldLists, pool[k][a]) {
        assert pool[k][a] in oldLists[j];
      }
    }
  }

  lemma {:induction false} ChainAscends(pool: SlotMap, order: seq<string>, lists: seq<seq<Slot>>)
    requires NoDup(order) && (forall k :: k in order ==> k in pool) && LostApart(pool, lists)
    ensures LostAscend(Chain(pool, order), lists)
    ensures "" !in order ==> AllOwned(Chain(pool, order), lists)
  {
    if order != [] {
      var init, k := order[..|order| - 1], order[|order| - 1];
      assert k in order && k !in init;
      ChainAscends(pool, init, lists);
      assert AllOwned(pool[k], lists) || AllOwned(Chain(pool, init), lists);
    }
  }

  lemma {:induction false} PartAscends(segs: seq<seq<Slot>>, lists: seq<seq<Slot>>, i: nat)
    requires LostAscend(Flatten(segs), lists) && i < |segs|
    ensures LostAscend(segs[i], lists)
  {
    var n := |segs| - 1;
    var flat := Flatten(segs[..n]);
    assert forall a :: 0 <= a < |flat| ==> flat[a] == Flatten(segs)[a];
    if i < n {
      PartAscends(segs[..n], lists, i);
    } else {
      assert forall a :: 0 <= a < |segs[n]| ==> segs[n][a] == Flatten(segs)[|flat| + a];
    }
  }

  lemma SegsAscend(segs: seq<seq<Slot>>, pool: SlotMap, lists: seq<seq<Slot>>)
    requires Walked(Flatten(segs), pool, pool.Keys) && LostApart(pool, lists)
    ensures forall i :: 0 <= i < |segs| ==> LostAscend(segs[i], lists)
  {
    var order: seq<string> :| WalkedIn(Flatten(segs), pool, pool.Keys, order);
    ChainAscends(pool, order, lists);
    forall i | 0 <= i < |segs| ensures LostAscend(segs[i], lists) {
      PartAscends(segs, lists, i);
    }
  }

  // ---------------------------------------------------------------- the planner

  lemma IdsUnique(nodes: seq<Node>)
    requires NoDup(IdList(nodes)) && "" !in IdList(nodes)
    ensures UniqueIds(Elems(nodes))
  {
  }

  lemma AscendingNoDup(s: seq<Slot>)
    requires StrictlyAscending(s)
    ensures NoDup(s)
  {
  }

  /** The slots to hand out: surplus, removed masters' slots, and lost slots. */
  method AvailableSlots(newMasters: seq<Node>, oldMasters: seq<Node>, nbSlots: nat, quota: nat) returns (pool: SlotMap)
    requires 0 < nbSlots < UINT64_LIMIT
    requires Standing(IdList(newMasters), Snapshot(newMasters), IdList(oldMasters), Snapshot(oldMasters), nbSlots)
    ensures Disjoint(pool)
    ensures forall s: Slot :: InPool(pool, pool.Keys, s) <==> s < nbSlots && !InKept(Snapshot(newMasters), quota, s)
    ensures LostApart(pool, Snapshot(oldMasters))
  {
    ghost var newIds, newLists := IdList(newMasters), Snapshot(newMasters);
    ghost var oldIds, oldLists := IdList(oldMasters), Snapshot(oldMasters);
    IdsUnique(oldMasters);
    var surplus := RetrieveSlotToMigrateFrom(oldMasters, quota);
    var removed := RetrieveSlotToMigrateFromRemovedNodes(newMasters, oldMasters);
    SlotsInRange(oldMasters, nbSlots);
    var lost := RetrieveLostSlots(oldMasters, nbSlots);
    pool := (surplus + removed)["" := lost];
    PoolOf(surplus, removed, lost, newIds, oldIds, oldLists, quota);
    AscendingNoDup(lost);
    PoolApart(pool, newIds, oldIds, oldLists, quota, lost);
    PoolDisjoint(pool, newIds, newLists, oldIds, oldLists, nbSlots, quota, lost);
    forall s: Slot ensures InPool(pool, pool.Keys, s) <==> s < nbSlots && !InKept(newLists, quota, s) {
      PoolMembers(pool, newIds, newLists, oldIds, oldLists, nbSlots, quota, lost, s);
    }
  }

  lemma SlotsInRange(nodes: seq<Node>, nbSlots: nat)
    requires nbSlots < UINT64_LIMIT
    requires forall j, s :: 0 <= j < |nodes| && s in Snapshot(nodes)[j] ==> s < nbSlots
    ensures forall n :: n in nodes ==> forall s :: s in n.slots ==> s < UINT64_LIMIT - 1
  {
    forall n | n in nodes ensures forall s :: s in n.slots ==> s < UINT64_LIMIT - 1 {
      var j :| 0 <= j < |nodes| && nodes[j] == n;
      assert Snapshot(nodes)[j] == n.slots;
    }
  }

  /**
   * For every map order: the planned lists partition the slots, every master ends within one slot
   * of the quota, the first and the last within it, and nobody is over-filled. Lost slots are planned
   * in ascending order.
   */
  method BuildSlotsByNode(newMasters: seq<Node>, oldMasters: seq<Node>, nbSlots: nat)
    returns (slotToAdd: SlotMap, over: bool, ghost segs: seq<seq<Slot>>)
    requires 0 < nbSlots < UINT64_LIMIT
    requires Standing(IdList(newMasters), Snapshot(newMasters), IdList(oldMasters), Snapshot(oldMasters), nbSlots)
    ensures !over
    ensures newMasters == [] ==> slotToAdd == map[]
    ensures newMasters != [] ==>
              var quota := CeilDiv(nbSlots, |newMasters|);
              && PlanIs(slotToAdd, IdList(newMasters), segs)
              && Partition(FinalLists(Snapshot(newMasters), quota, segs), nbSlots)
              && Balanced(FinalLists(Snapshot(newMasters), quota, segs), quota)
    ensures forall i :: 0 <= i < |segs| ==> LostAscend(segs[i], Snapshot(oldMasters))
  {
    if |newMasters| == 0 {
      return map[], false, [];
    }
    var quota := CeilDiv(nbSlots, |newMasters|);
    assert |newMasters| * quota >= nbSlots by { CeilDivFacts(nbSlots, |newMasters|); }
    slotToAdd, over, segs := PlanWithQuota(newMasters, oldMasters, nbSlots, quota);
  }

  method PlanWithQuota(newMasters: seq<Node>, oldMasters: seq<Node>, nbSlots: nat, quota: nat)
    returns (slotToAdd: SlotMap, over: bool, ghost segs: seq<seq<Slot>>)
    requires 0 < nbSlots < UINT64_LIMIT && newMasters != [] && |newMasters| * quota >= nbSlots
    requires Standing(IdList(newMasters), Snapshot(newMasters), IdList(oldMasters), Snapshot(oldMasters), nbSlots)
    ensures !over && PlanIs(slotToAdd, IdList(newMasters), segs)
    ensures Partition(FinalLists(Snapshot(newMasters), quota, segs), nbSlots)
    ensures Balanced(FinalLists(Snapshot(newMasters), quota, segs), quota)
    ensures forall i :: 0 <= i < |segs| ==> LostAscend(segs[i], Snapshot(oldMasters))
  {
    ghost var newLists := Snapshot(newMasters);
    var pool := AvailableSlots(newMasters, oldMasters, nbSlots, quota);
    ghost var id;
    slotToAdd, over, id, segs := BuildSlotByNodeFromAvailableSlots(newMasters, quota, pool);
    assert Complements(Flatten(segs), newLists, quota, nbSlots);
    KeptDisjoint(IdList(newMasters), newLists, IdList(oldMasters), Snapshot(oldMasters), nbSlots, quota);
    RoomSuffices(newLists, quota, nbSlots, Flatten(segs));
    FinalBalanced(newLists, quota, segs, id, over);
    FinalPartition(newLists, quota, segs, nbSlots);
    SegsAscend(segs, pool, Snapshot(oldMasters));
  }
}
