/** Packing free slots into masters with a moving cursor: buildSlotByNodeFromAvailableSlots (migration.go). */
module SlotPacking {
  import opened Lists
  import opened SlotLists
  import opened Nodes

  type SlotMap = map<string, seq<Slot>>

  // ---------------------------------------------------------------- how full the masters get

  /** Room in a master that starts with len slots. */
  function Room(len: int, quota: nat): nat {
    if len >= quota then 0 else quota - len
  }

  ghost function Rooms(lens: seq<int>, quota: nat): (r: seq<int>)
    ensures |r| == |lens|
  {
    if lens == [] then [] else Rooms(lens[..|lens| - 1], quota) + [Room(lens[|lens| - 1], quota)]
  }

  lemma {:induction false} RoomsAt(lens: seq<int>, quota: nat, i: nat)
    requires i < |lens|
    ensures Rooms(lens, quota)[i] == Room(lens[i], quota)
  {
    if i < |lens| - 1 {
      RoomsAt(lens[..|lens| - 1], quota, i);
    }
  }

  /** The state of the packing: segs[i] went to master i, the cursor is at id, over tells of over-filling. */
  ghost predicate Packed(lens: seq<int>, quota: nat, segs: seq<seq<Slot>>, id: nat, over: bool) {
    && |segs| == |lens| && id < |lens|
    && (forall i :: 0 <= i < id ==> |segs[i]| >= Room(lens[i], quota))
    && (forall i :: id < i < |lens| ==> segs[i] == [])
    && (!over ==> forall i :: 0 <= i < |lens| ==> |segs[i]| <= Limit(lens[i], quota, i))
    && (over ==> |Flatten(segs)| > Sum(Rooms(lens, quota)) && id == |lens| - 1)
  }

  /** Master 0 is never visited when full; a later master takes one slot even when full. */
  function Limit(len: int, quota: nat, i: nat): nat {
    if Room(len, quota) == 0 && i > 0 then 1 else Room(len, quota)
  }

  lemma PackInto(lens: seq<int>, quota: nat, segs: seq<seq<Slot>>, id: nat, over: bool, s: Slot)
    requires Packed(lens, quota, segs, id, over) && lens[id] + |segs[id]| < quota
    ensures Packed(lens, quota, segs[id := segs[id] + [s]], id, over)
    ensures Flatten(segs[id := segs[id] + [s]]) == Flatten(segs) + [s]
  {
    FlattenAppend(segs, id, s);
  }

  lemma PackNext(lens: seq<int>, quota: nat, segs: seq<seq<Slot>>, id: nat, over: bool, s: Slot)
    requires Packed(lens, quota, segs, id, over) && lens[id] + |segs[id]| >= quota && id + 1 < |lens|
    ensures Packed(lens, quota, segs[id + 1 := segs[id + 1] + [s]], id + 1, over)
    ensures Flatten(segs[id + 1 := segs[id + 1] + [s]]) == Flatten(segs) + [s]
  {
    FlattenAppend(segs, id + 1, s);
  }

  lemma PackOver(lens: seq<int>, quota: nat, segs: seq<seq<Slot>>, id: nat, over: bool, s: Slot)
    requires Packed(lens, quota, segs, id, over) && lens[id] + |segs[id]| >= quota && id + 1 == |lens|
    ensures Packed(lens, quota, segs[id := segs[id] + [s]], id, true)
    ensures Flatten(segs[id := segs[id] + [s]]) == Flatten(segs) + [s]
  {
    FlattenAppend(segs, id, s);
    EveryoneFull(lens, quota, segs);
  }

  lemma EveryoneFull(lens: seq<int>, quota: nat, segs: seq<seq<Slot>>)
    requires |segs| == |lens| && forall i :: 0 <= i < |lens| ==> |segs[i]| >= Room(lens[i], quota)
    ensures |Flatten(segs)| >= Sum(Rooms(lens, quota))
  {
  }

  /** If there is room for all slots nobody is over-filled, and the last master is not even topped up by one. */
  lemma EnoughRoom(lens: seq<int>, quota: nat, segs: seq<seq<Slot>>, id: nat, over: bool)
    requires Packed(lens, quota, segs, id, over) && |Flatten(segs)| <= Sum(Rooms(lens, quota))
    ensures !over
    ensures |segs[|lens| - 1]| <= Room(lens[|lens| - 1], quota)
  {
    var n := |lens| - 1;
    if id == n {
      EveryoneFull(lens[..n], quota, segs[..n]);
      RoomsAt(lens, quota, n);
      assert Rooms(lens, quota)[..n] == Rooms(lens[..n], quota);
    }
  }

  // ---------------------------------------------------------------- what is drawn from the pool

  ghost predicate InPool(pool: SlotMap, keys: set<string>, s: Slot) {
    exists k :: k in keys && k in pool && s in pool[k]
  }

  /** No slot is offered twice. */
  ghost predicate Disjoint(pool: SlotMap) {
    && (forall k :: k in pool ==> NoDup(pool[k]))
    && (forall k, l, s :: k in pool && l in pool && k != l && s in pool[k] ==> s !in pool[l])
  }

  ghost predicate Drawn(flat: seq<Slot>, pool: SlotMap, keys: set<string>) {
    && (forall s: Slot :: s in flat <==> InPool(pool, keys, s))
    && (Disjoint(pool) ==> NoDup(flat))
  }

  lemma DrawKey(flat: seq<Slot>, pool: SlotMap, keys: set<string>, k: string)
    requires Drawn(flat, pool, keys) && k in pool && k !in keys && keys <= pool.Keys
    ensures Drawn(flat + pool[k], pool, keys + {k})
  {
    forall s: Slot ensures s in flat + pool[k] <==> InPool(pool, keys + {k}, s) {
      assert InPool(pool, keys, s) ==> InPool(pool, keys + {k}, s);
      if s in pool[k] {
        assert k in keys + {k};
      }
      if l :| l in keys + {k} && l in pool && s in pool[l] {
        assert l in keys ==> InPool(pool, keys, s);
      }
    }
    if Disjoint(pool) {
      forall s | s in Elems(flat) ensures s !in Elems(pool[k]) {
        assert InPool(pool, keys, s);
        var l :| l in keys && l in pool && s in pool[l];
      }
      NoDupConcat(flat, pool[k]);
    }
  }

  /** The pool's lists one after the other, in this order of the keys. */
  ghost function Chain(pool: SlotMap, order: seq<string>): seq<Slot>
    requires forall k :: k in order ==> k in pool
  {
    if order == [] then [] else Chain(pool, order[..|order| - 1]) + pool[order[|order| - 1]]
  }

  /** The slots are the lists of these keys, one after the other in some order of the keys. */
  ghost predicate Walked(flat: seq<Slot>, pool: SlotMap, keys: set<string>) {
    exists order: seq<string> :: WalkedIn(flat, pool, keys, order)
  }

  ghost predicate WalkedIn(flat: seq<Slot>, pool: SlotMap, keys: set<string>, order: seq<string>) {
    NoDup(order) && Elems(order) == keys && (forall k :: k in order ==> k in pool) && flat == Chain(pool, order)
  }

  lemma WalkKey(flat: seq<Slot>, pool: SlotMap, keys: set<string>, k: string)
    requires Walked(flat, pool, keys) && k in pool && k !in keys
    ensures Walked(flat + pool[k], pool, keys + {k})
  {
    var order: seq<string> :| WalkedIn(flat, pool, keys, order);
    NoDupExtend(order, k);
    assert (order + [k])[..|order|] == order;
    assert WalkedIn(flat + pool[k], pool, keys + {k}, order + [k]);
  }

  lemma WalkNothing(pool: SlotMap)
    ensures Walked([], pool, {})
  {
    assert WalkedIn([], pool, {}, []);
  }

  // ---------------------------------------------------------------- the plan

  function PlanOf(plan: SlotMap, id: string): seq<Slot> {
    if id in plan then plan[id] else []
  }

  /** The plan's entries are the segments of the masters. */
  ghost predicate PlanIs(plan: SlotMap, ids: seq<string>, segs: seq<seq<Slot>>) {
    && |ids| == |segs|
    && (forall i :: 0 <= i < |ids| ==> PlanOf(plan, ids[i]) == segs[i])
    && (forall k :: k in plan ==> k in ids)
  }

  lemma PlanAppend(plan: SlotMap, ids: seq<string>, segs: seq<seq<Slot>>, i: nat, s: Slot)
    requires PlanIs(plan, ids, segs) && NoDup(ids) && i < |ids|
    ensures PlanIs(plan[ids[i] := PlanOf(plan, ids[i]) + [s]], ids, segs[i := segs[i] + [s]])
  {
  }

  /** Everything the loop holds, against the segments handed out so far. */
  ghost predicate PackState(slotOfNode: seq<seq<Slot>>, plan: SlotMap, id: nat, over: bool, ids: seq<string>,
                            lens: seq<int>, quota: nat, segs: seq<seq<Slot>>)
  {
    && |ids| == |lens| == |slotOfNode|
    && Packed(lens, quota, segs, id, over) && PlanIs(plan, ids, segs)
    && forall i :: 0 <= i < |lens| ==> |slotOfNode[i]| == lens[i] + |segs[i]|
  }

  /** Where the next slot goes. */
  method Advance(n: nat, quota: nat, filled: nat, idNode: nat, over: bool, ghost lens: seq<int>,
                 ghost segs: seq<seq<Slot>>, ghost slot: Slot) returns (idNode': nat, over': bool)
    requires n == |lens| && Packed(lens, quota, segs, idNode, over) && filled == lens[idNode] + |segs[idNode]|
    ensures idNode' < n && Packed(lens, quota, segs[idNode' := segs[idNode'] + [slot]], idNode', over')
    ensures Flatten(segs[idNode' := segs[idNode'] + [slot]]) == Flatten(segs) + [slot]
  {
    idNode', over' := idNode, over;
    var missingSlots := quota - filled;
    if missingSlots > 0 {
      PackInto(lens, quota, segs, idNode, over, slot);
    } else {
      idNode' := idNode' + 1;
      if idNode' > n - 1 {
        idNode' := idNode' - 1;
        over' := true;
        PackOver(lens, quota, segs, idNode, over, slot);
      } else {
        PackNext(lens, quota, segs, idNode, over, slot);
      }
    }
  }

  /** One slot: move the cursor if need be, then record the slot at it. */
  method Place(newMasters: seq<Node>, quota: nat, slot: Slot, slotOfNode: seq<seq<Slot>>, slotToAdd: SlotMap, idNode: nat,
               over: bool, ghost ids: seq<string>, ghost lens: seq<int>, ghost segs: seq<seq<Slot>>)
    returns (slotOfNode': seq<seq<Slot>>, slotToAdd': SlotMap, idNode': nat, over': bool, ghost segs': seq<seq<Slot>>)
    requires |ids| == |newMasters| && NoDup(ids) && forall i :: 0 <= i < |ids| ==> newMasters[i].id == ids[i]
    requires PackState(slotOfNode, slotToAdd, idNode, over, ids, lens, quota, segs)
    ensures PackState(slotOfNode', slotToAdd', idNode', over', ids, lens, quota, segs')
    ensures Flatten(segs') == Flatten(segs) + [slot]
  {
    idNode', over' := Advance(|newMasters|, quota, |slotOfNode[idNode]|, idNode, over, lens, segs, slot);
    var id := newMasters[idNode'].id;
    slotOfNode' := slotOfNode[idNode' := slotOfNode[idNode'] + [slot]];
    PlanAppend(slotToAdd, ids, segs, idNode', slot);
    slotToAdd' := slotToAdd[id := PlanOf(slotToAdd, id) + [slot]];
    segs' := segs[idNode' := segs[idNode'] + [slot]];
  }

  /** The inner loop: the slots that come from one key of the pool. */
  method PlaceAll(newMasters: seq<Node>, quota: nat, slots: seq<Slot>, slotOfNode0: seq<seq<Slot>>, slotToAdd0: SlotMap,
                  idNode0: nat, over0: bool, ghost ids: seq<string>, ghost lens: seq<int>, ghost segs0: seq<seq<Slot>>)
    returns (slotOfNode: seq<seq<Slot>>, slotToAdd: SlotMap, idNode: nat, over: bool, ghost segs: seq<seq<Slot>>)
    requires |ids| == |newMasters| && NoDup(ids) && forall i :: 0 <= i < |ids| ==> newMasters[i].id == ids[i]
    requires PackState(slotOfNode0, slotToAdd0, idNode0, over0, ids, lens, quota, segs0)
    ensures PackState(slotOfNode, slotToAdd, idNode, over, ids, lens, quota, segs)
    ensures Flatten(segs) == Flatten(segs0) + slots
  {
    slotOfNode, slotToAdd, idNode, over, segs := slotOfNode0, slotToAdd0, idNode0, over0, segs0;
    ghost var flat0 := Flatten(segs0);
    ghost var flat := flat0;
    for j := 0 to |slots|
      invariant PackState(slotOfNode, slotToAdd, idNode, over, ids, lens, quota, segs)
      invariant Flatten(segs) == flat && flat == flat0 + slots[..j]
    {
      TakeNext(flat0, slots, j);
      flat := flat + [slots[j]];
      slotOfNode, slotToAdd, idNode, over, segs :=
        Place(newMasters, quota, slots[j], slotOfNode, slotToAdd, idNode, over, ids, lens, segs);
    }
    assert slots[..|slots|] == slots;
  }

  lemma StartState(ids: seq<string>, lists: seq<seq<Slot>>, quota: nat, segs: seq<seq<Slot>>)
    requires |ids| == |lists| == |segs| > 0 && forall i :: 0 <= i < |segs| ==> segs[i] == []
    ensures PackState(lists, map[], 0, false, ids, Lengths(lists), quota, segs)
    ensures Flatten(segs) == []
  {
    FlattenEmpty(segs);
  }

  method ListsOf(nodes: seq<Node>) returns (lists: seq<seq<Slot>>)
    ensures lists == Snapshot(nodes)
  {
    lists := [];
    for i := 0 to |nodes|
      invariant lists == Snapshot(nodes)[..i]
    {
      lists := lists + [nodes[i].slots];
    }
  }

  /** The outer loop: the keys of the pool in any order. */
  method PackPool(newMasters: seq<Node>, quota: nat, pool: SlotMap, lists: seq<seq<Slot>>, ghost ids: seq<string>)
    returns (slotToAdd: SlotMap, over: bool, ghost id: nat, ghost segs: seq<seq<Slot>>)
    requires newMasters != [] && |ids| == |newMasters| == |lists| && NoDup(ids)
    requires forall i :: 0 <= i < |ids| ==> newMasters[i].id == ids[i]
    ensures Packed(Lengths(lists), quota, segs, id, over) && PlanIs(slotToAdd, ids, segs)
    ensures Drawn(Flatten(segs), pool, pool.Keys) && Walked(Flatten(segs), pool, pool.Keys)
  {
    var slotOfNode, idNode: nat := lists, 0;
    slotToAdd, over, segs := map[], false, seq(|newMasters|, i => []);
    ghost var lens := Lengths(lists);
    StartState(ids, lists, quota, segs);
    var todo := pool.Keys;
    WalkNothing(pool);
    assert pool.Keys - todo == {};
    while todo != {}
      invariant todo <= pool.Keys
      invariant PackState(slotOfNode, slotToAdd, idNode, over, ids, lens, quota, segs)
      invariant Drawn(Flatten(segs), pool, pool.Keys - todo) && Walked(Flatten(segs), pool, pool.Keys - todo)
      decreases todo
    {
      var k :| k in todo;
      DrawKey(Flatten(segs), pool, pool.Keys - todo, k);
      WalkKey(Flatten(segs), pool, pool.Keys - todo, k);
      assert pool.Keys - todo + {k} == pool.Keys - (todo - {k});
      slotOfNode, slotToAdd, idNode, over, segs :=
        PlaceAll(newMasters, quota, pool[k], slotOfNode, slotToAdd, idNode, over, ids, lens, segs);
      todo := todo - {k};
    }
    id := idNode;
    assert pool.Keys - todo == pool.Keys;
  }

  /**
   * For every order in which the pool is walked: the lists of the pool are handed out one after the
   * other, so each offered slot is planned exactly once; the masters get consecutive segments of
   * this, within the limits of Packed.
   */
  method BuildSlotByNodeFromAvailableSlots(newMasters: seq<Node>, quota: nat, pool: SlotMap)
    returns (slotToAdd: SlotMap, over: bool, ghost id: nat, ghost segs: seq<seq<Slot>>)
    requires NoDup(IdList(newMasters))
    ensures newMasters == [] ==> slotToAdd == map[] && !over
    ensures newMasters != [] ==> Packed(Lengths(Snapshot(newMasters)), quota, segs, id, over)
    ensures newMasters != [] ==> PlanIs(slotToAdd, IdList(newMasters), segs)
    ensures newMasters != [] ==> Drawn(Flatten(segs), pool, pool.Keys) && Walked(Flatten(segs), pool, pool.Keys)
  {
    if |newMasters| == 0 {
      return map[], false, 0, [];
    }
    var slotOfNode := ListsOf(newMasters);
    slotToAdd, over, id, segs := PackPool(newMasters, quota, pool, slotOfNode, IdList(newMasters));
  }
}
