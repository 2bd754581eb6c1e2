/** The first distribution of the slots: AllocSlots in controllers/clustering/rebalance.go. */
module AllocSlots {
  import opened Arithmetic
  import opened Lists
  import opened SlotLists
  import opened Nodes
  import opened RedisModel
  import opened CrashPoints

  /** A float64 turned into an int loses its fraction. */
  function Truncate(x: real): int {
    if x >= 0.0 then x.Floor else -(-x).Floor
  }

  /** utils/commonutils/math.go: half a unit away from zero, then truncation. */
  function Round(num: real): int {
    Truncate(if num >= 0.0 then num + 0.5 else num - 0.5)
  }

  /** x added up k times, as the loop's cursor does. */
  ghost function Times(k: nat, x: real): real {
    if k == 0 then 0.0 else Times(k - 1, x) + x
  }

  lemma {:induction false} TimesIsProduct(k: nat, x: real)
    ensures Times(k, x) == k as real * x
  {
    if k > 0 {
      TimesIsProduct(k - 1, x);
      assert k as real * x == (k - 1) as real * x + x;
    }
  }

  /** Where the list of master k starts: k slots-per-node, rounded to the nearest integer. */
  ghost function Cut(hashSlots: nat, n: nat, k: nat): int
    requires n > 0
  {
    (Times(k, hashSlots as real / n as real) + 0.5).Floor
  }

  // ---------------------------------------------------------------- arithmetic

  /** Every master's share is the floor or the ceiling of the average. */
  lemma CutStep(h: nat, n: nat, k: nat)
    requires 1 <= n <= h
    ensures h / n <= Cut(h, n, k + 1) - Cut(h, n, k) <= CeilDiv(h, n)
    ensures Cut(h, n, k) < Cut(h, n, k + 1)
  {
    var x := h as real / n as real;
    RatioFacts(h, n);
    FloorStep(Times(k, x) + 0.5, x, h / n);
    CeilDivFacts(h, n);
    QuotientPositive(h, n);
  }

  lemma CutEnds(h: nat, n: nat)
    requires n > 0
    ensures Cut(h, n, 0) == 0 && Cut(h, n, n) == h
  {
    TimesIsProduct(n, h as real / n as real);
    RatioTimes(h as real, n as real);
  }

  lemma {:induction false} CutMonotone(h: nat, n: nat, i: nat, j: nat)
    requires 1 <= n <= h && i <= j
    ensures Cut(h, n, i) <= Cut(h, n, j)
    decreases j - i
  {
    if i < j {
      CutStep(h, n, i);
      CutMonotone(h, n, i + 1, j);
    }
  }

  /** The bound the loop computes for master k is one below the next cut. */
  lemma LastIsNextCut(h: nat, n: nat, k: nat, x: real, cursor: real)
    requires 1 <= n <= h && k < n
    requires x == h as real / n as real && cursor == Times(k, x)
    ensures Round(cursor + x - 1.0) == Cut(h, n, k + 1) - 1
  {
    RatioFacts(h, n);
    QuotientPositive(h, n);
    TimesNonNegative(k, x);
    RoundShift(cursor + x);
  }

  lemma {:induction false} TimesNonNegative(k: nat, x: real)
    requires x >= 0.0
    ensures Times(k, x) >= 0.0
  {
    if k > 0 {
      TimesNonNegative(k - 1, x);
    }
  }

  lemma RoundShift(y: real)
    requires y >= 1.0
    ensures Round(y - 1.0) == (y + 0.5).Floor - 1
  {
  }

  lemma CutBounds(h: nat, n: nat, k: nat)
    requires 1 <= n <= h && k < n
    ensures 0 <= Cut(h, n, k) <= Cut(h, n, k + 1) - 1 <= h - 1
    ensures k == n - 1 ==> Cut(h, n, k + 1) == h
  {
    CutEnds(h, n);
    CutMonotone(h, n, 0, k);
    CutMonotone(h, n, k + 1, n);
    CutStep(h, n, k);
  }

  // ---------------------------------------------------------------- the allocation

  /** The slots between two neighbouring cuts. */
  ghost function Share(h: nat, n: nat, j: nat): seq<Slot>
    requires 1 <= n <= h && j < n
  {
    CutBounds(h, n, j);
    RangeSlots(Cut(h, n, j), Cut(h, n, j + 1) - 1)
  }

  /** The shares of the first k masters. */
  ghost function Shares(h: nat, n: nat, k: nat): (r: seq<seq<Slot>>)
    requires 1 <= n <= h && k <= n
    ensures |r| == k
  {
    if k == 0 then [] else Shares(h, n, k - 1) + [Share(h, n, k - 1)]
  }

  ghost predicate Holds(nodes: seq<Node>, lists: seq<seq<Slot>>)
    requires |lists| <= |nodes|
    reads nodes
  {
    forall j :: 0 <= j < |lists| ==> nodes[j].slots == lists[j]
  }

  /** Each of the first masters claims exactly its list, beside the claims there were. */
  ghost predicate Allocated(claims: Claims, before: Claims, nodes: seq<Node>, lists: seq<seq<Slot>>)
    requires |lists| <= |nodes|
  {
    forall x, s :: s in SlotsOf(claims, x) <==>
      s in SlotsOf(before, x) || exists j :: 0 <= j < |lists| && nodes[j].id == x && s in lists[j]
  }

  lemma ExtendAllocated(claims: Claims, claims': Claims, before: Claims, nodes: seq<Node>, lists: seq<seq<Slot>>,
                        list: seq<Slot>)
    requires |lists| < |nodes|
    requires Allocated(claims, before, nodes, lists)
    requires claims' == Gain(claims, nodes[|lists|].id, Elems(list))
    ensures Allocated(claims', before, nodes, lists + [list])
  {
    var k, all := |lists|, lists + [list];
    forall x, s
      ensures s in SlotsOf(claims', x) <==>
              s in SlotsOf(before, x) || exists j :: 0 <= j < |all| && nodes[j].id == x && s in all[j]
    {
      assert s in SlotsOf(claims', x) <==> s in SlotsOf(claims, x) || (x == nodes[k].id && s in list);
      if s in SlotsOf(claims, x) && s !in SlotsOf(before, x) {
        var j :| 0 <= j < k && nodes[j].id == x && s in lists[j];
        assert nodes[j].id == x && s in all[j];
      }
      if x == nodes[k].id && s in list {
        assert nodes[k].id == x && s in all[k];
      }
      if j :| 0 <= j < |all| && nodes[j].id == x && s in all[j] {
        if j < k { assert s in lists[j]; }
      }
    }
  }

  /** The command for a range names its first and last slot, and so denotes the whole list. */
  lemma CommandDenotesList(first: Slot, last: Slot)
    requires first <= last
    ensures var l := RangeSlots(first, last);
            l != [] && l[0] == first && l[|l| - 1] == last && RangeSlots(l[0], l[|l| - 1]) == l
  {
  }

  /** For any ascending list the command denotes exactly the list if and only if the list has no gap. */
  lemma CommandExact(list: seq<Slot>)
    requires list != [] && StrictlyAscending(list)
    ensures Elems(RangeSlots(list[0], list[|list| - 1])) == Elems(list) <==> |list| == list[|list| - 1] - list[0] + 1
  {
    var first, last := list[0], list[|list| - 1];
    var range := RangeSlots(first, last);
    RangeSlotsMembers(first, last);
    NoDupCardinality(list);
    NoDupCardinality(range);
    forall s | s in Elems(list) ensures s in Elems(range) {
      var i :| 0 <= i < |list| && list[i] == s;
      assert i < |list| - 1 ==> list[i] < last;
      assert i > 0 ==> first < list[i];
    }
    SubsetSameSize(Elems(list), Elems(range));
  }

  /** With a gap the command names slots that were not meant, here slot 1 for the lost slots 0 and 2. */
  lemma GapCommandNamesMore()
    ensures var lost := [0, 2]; 1 in RangeSlots(lost[0], lost[1]) && 1 !in lost
  {
    RangeSlotsMembers(0, 2);
  }

  /** The body's computation of the last slot of a master. */
  method LastOf(hashSlots: nat, n: nat, index: nat, slotsPerNode: real, cursor: real, first: Slot)
    returns (last: Slot)
    requires index < n && cursor == Times(index, slotsPerNode) && slotsPerNode == hashSlots as real / n as real
    requires n <= hashSlots ==> first == Cut(hashSlots, n, index)
    ensures first <= last && (last <= hashSlots || last == first)
    ensures n <= hashSlots ==> last + 1 == Cut(hashSlots, n, index + 1)
    ensures n <= hashSlots ==> RangeSlots(first, last) == Share(hashSlots, n, index)
  {
    var l := Round(cursor + slotsPerNode - 1.0);
    if n <= hashSlots {
      LastIsNextCut(hashSlots, n, index, slotsPerNode, cursor);
      CutBounds(hashSlots, n, index);
    }
    if l > hashSlots || index == n - 1 {
      l := hashSlots - 1;
    }
    if l < first {
      l := first;
    }
    last := l;
  }

  /** Gives one master its range and announces it with a single command. */
  method Assign(redis: Redis, node: Node, first: Slot, last: Slot) returns (ok: bool)
    requires first <= last < UINT64_LIMIT - 1
    modifies redis`claims, redis`trace, redis`failed, node`slots
    ensures node.slots == RangeSlots(first, last)
    ensures redis.failed == (old(redis.failed) || !ok) && Careful(old(redis.Now()), redis.Now())
    ensures ok ==> redis.claims == Gain(old(redis.claims), node.id, Elems(node.slots))
  {
    node.slots := BuildSlotSlice(first, last);
    CommandDenotesList(first, last);
    ok := redis.AddSlots(node.id, node.slots);
    AddedCareful(old(redis.Now()), redis.Now());
  }

  ghost predicate Reaches(list: seq<Slot>, bound: int) {
    exists s :: s in list && s >= bound
  }

  /** Where the walk stands before master k. */
  ghost predicate Progress(lists: seq<seq<Slot>>, first: Slot, h: nat, n: nat) {
    && |lists| <= n && |lists| <= first <= h + |lists|
    && (1 <= n <= h ==> lists == Shares(h, n, |lists|) && first == Cut(h, n, |lists|))
    && (forall j :: 0 <= j < |lists| ==> Reaches(lists[j], j))
  }

  lemma ProgressStep(lists: seq<seq<Slot>>, first: Slot, last: Slot, h: nat, n: nat)
    requires Progress(lists, first, h, n) && |lists| < n
    requires first <= last && (last <= h || last == first)
    requires n <= h ==> last + 1 == Cut(h, n, |lists| + 1) && RangeSlots(first, last) == Share(h, n, |lists|)
    ensures Progress(lists + [RangeSlots(first, last)], last + 1, h, n)
  {
    var k, all := |lists|, lists + [RangeSlots(first, last)];
    RangeSlotsMembers(first, last);
    assert first in all[k] && first >= k;
    assert Reaches(all[k], k);
  }

  /** One master: the next range, its command, and what can then be said of the first masters. */
  method AllocNext(redis: Redis, newMasters: seq<Node>, node: Node, hashSlots: nat, index: nat, slotsPerNode: real,
                   cursor: real, first: Slot, ghost lists: seq<seq<Slot>>, ghost past: History) returns (ok: bool, next: Slot, ghost lists': seq<seq<Slot>>)
    requires NoDup(newMasters) && index == |lists| < |newMasters| && node == newMasters[index]
    requires hashSlots + |newMasters| < UINT64_LIMIT - 1
    requires slotsPerNode == hashSlots as real / |newMasters| as real && cursor == Times(index, slotsPerNode)
    requires Progress(lists, first, hashSlots, |newMasters|) && Holds(newMasters, lists)
    requires Allocated(redis.claims, past.claims, newMasters, lists) && Careful(past, redis.Now())
    modifies redis`claims, redis`trace, redis`failed, node`slots
    ensures redis.failed == (old(redis.failed) || !ok) && Careful(past, redis.Now())
    ensures ok ==> |lists'| == index + 1 && Progress(lists', next, hashSlots, |newMasters|)
    ensures ok ==> Holds(newMasters, lists') && Allocated(redis.claims, past.claims, newMasters, lists')
  {
    ghost var claims, now := redis.claims, redis.Now();
    var last := LastOf(hashSlots, |newMasters|, index, slotsPerNode, cursor, first);
    ok := Assign(redis, node, first, last);
    CarefulTransitive(past, now, redis.Now());
    next, lists' := last + 1, lists + [RangeSlots(first, last)];
    if ok {
      ExtendAllocated(claims, redis.claims, past.claims, newMasters, lists, RangeSlots(first, last));
      ProgressStep(lists, first, last, hashSlots, |newMasters|);
    }
  }

  /**
   * With at most as many masters as slots the lists are the even shares; with more masters some
   * list leaves the slot range. If no command fails each master claims exactly its list.
   */
  method AllocSlots(redis: Redis, newMasters: seq<Node>, hashSlots: nat)
    returns (ok: bool, ghost lists: seq<seq<Slot>>)
    requires NoDup(newMasters)
    requires hashSlots + |newMasters| < UINT64_LIMIT - 1
    modifies redis`claims, redis`trace, redis`failed, set n | n in newMasters
    ensures redis.failed == (old(redis.failed) || !ok) && Careful(old(redis.Now()), redis.Now())
    ensures ok ==> |lists| == |newMasters| && Holds(newMasters, lists)
    ensures ok ==> Allocated(redis.claims, old(redis.claims), newMasters, lists)
    ensures ok && 1 <= |newMasters| <= hashSlots ==> lists == Shares(hashSlots, |newMasters|, |newMasters|)
    ensures ok && |newMasters| > hashSlots ==> Reaches(lists[|newMasters| - 1], hashSlots)
  {
    var mastersNum := |newMasters|;
    lists := [];
    CarefulNothing(redis.Now(), redis.Now());
    if mastersNum == 0 {
      return true, lists;
    }
    var slotsPerNode := hashSlots as real / mastersNum as real;
    var first: Slot := 0;
    var cursor := 0.0;
    CutEnds(hashSlots, mastersNum);
    for index := 0 to mastersNum
      invariant |lists| == index && Progress(lists, first, hashSlots, mastersNum)
      invariant cursor == Times(index, slotsPerNode)
      invariant redis.failed == old(redis.failed) && Careful(old(redis.Now()), redis.Now())
      invariant Holds(newMasters, lists)
      invariant Allocated(redis.claims, old(redis.claims), newMasters, lists)
    {
      ok, first, lists :=
        AllocNext(redis, newMasters, newMasters[index], hashSlots, index, slotsPerNode, cursor, first, lists, old(redis.Now()));
      if !ok {
        return;
      }
      cursor := cursor + slotsPerNode;
    }
    ok := true;
  }

  /** Master j's share of the slots. */
  ghost predicate InShare(h: nat, n: nat, j: nat, s: int)
    requires n > 0
  {
    Cut(h, n, j) <= s < Cut(h, n, j + 1)
  }

  /** The shares cover every slot, and nothing else, exactly once. */
  lemma SharesPartition(h: nat, n: nat, s: int)
    requires 1 <= n <= h
    ensures 0 <= s < h <==> exists j :: 0 <= j < n && InShare(h, n, j, s)
    ensures forall i, j :: 0 <= i < n && 0 <= j < n && InShare(h, n, i, s) && InShare(h, n, j, s) ==> i == j
  {
    CutEnds(h, n);
    if 0 <= s < h {
      var j := FindShare(h, n, n, s);
    }
    if j :| 0 <= j < n && InShare(h, n, j, s) {
      CutBounds(h, n, j);
    }
    forall i, j | 0 <= i < n && 0 <= j < n && InShare(h, n, i, s) && InShare(h, n, j, s) ensures i == j {
      if i < j { CutMonotone(h, n, i + 1, j); }
      if j < i { CutMonotone(h, n, j + 1, i); }
    }
  }

  lemma {:induction false} FindShare(h: nat, n: nat, k: nat, s: int) returns (j: nat)
    requires n > 0 && k > 0 && Cut(h, n, 0) <= s < Cut(h, n, k)
    ensures j < k && InShare(h, n, j, s)
    decreases k
  {
    if k == 1 || s >= Cut(h, n, k - 1) {
      j := k - 1;
    } else {
      j := FindShare(h, n, k - 1, s);
    }
  }
}
