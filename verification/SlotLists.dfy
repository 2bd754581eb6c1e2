/** Slot lists and slot ranges: utils/redisutil/slot.go without its text form. */
module SlotLists {
  import opened Lists

  /** The source's Slot is a uint64; members that depend on the width say so. */
  type Slot = nat

  const UINT64_LIMIT: nat := 0x1_0000_0000_0000_0000

  ghost predicate Uint64(slots: seq<Slot>) {
    forall i :: 0 <= i < |slots| ==> slots[i] < UINT64_LIMIT
  }

  // ---------------------------------------------------------------- lists

  /** The elements of s that are not in gone, in their order. */
  ghost function Without(s: seq<Slot>, gone: set<Slot>): seq<Slot> {
    if s == [] then []
    else Without(s[..|s| - 1], gone) + (if s[|s| - 1] in gone then [] else [s[|s| - 1]])
  }

  lemma {:induction false} WithoutMembers(s: seq<Slot>, gone: set<Slot>)
    ensures Elems(Without(s, gone)) == Elems(s) - gone
    ensures NoDup(s) ==> NoDup(Without(s, gone))
  {
    if s != [] {
      var init, last := s[..|s| - 1], s[|s| - 1];
      WithoutMembers(init, gone);
      assert s == init + [last];
      assert Elems(s) == Elems(init) + {last};
      if last in gone {
        assert Without(s, gone) == Without(init, gone);
      } else {
        assert Elems(Without(s, gone)) == Elems(Without(init, gone)) + {last};
        if NoDup(s) {
          assert last !in Elems(init);
          assert last !in Elems(Without(init, gone));
          NoDupExtend(Without(init, gone), last);
        }
      }
    }
  }

  method Contains(s: seq<Slot>, e: Slot) returns (found: bool)
    ensures found <==> e in s
  {
    for i := 0 to |s|
      invariant e !in s[..i]
    {
      if s[i] == e {
        return true;
      }
    }
    return false;
  }

  /** Splicing hits out of the list while an index walks over it refines the order-keeping filter. */
  method RemoveSlots(slots: seq<Slot>, removedSlots: seq<Slot>) returns (r: seq<Slot>)
    ensures r == Without(slots, Elems(removedSlots))
    ensures Elems(r) == Elems(slots) - Elems(removedSlots)
    ensures NoDup(slots) ==> NoDup(r)
  {
    ghost var gone := Elems(removedSlots);
    r := slots;
    var i := 0;
    ghost var done := 0;  // elements of the original list examined so far
    while i < |r|
      invariant 0 <= i <= |r| && 0 <= done <= |slots|
      invariant r[..i] == Without(slots[..done], gone)
      invariant r[i..] == slots[done..]
      decreases |r| - i
    {
      assert r[i] == r[i..][0] == slots[done];
      assert slots[..done + 1][..done] == slots[..done];
      var hit := Contains(removedSlots, r[i]);
      if hit {
        r := r[..i] + r[i + 1..];
      } else {
        i := i + 1;
      }
      done := done + 1;
    }
    assert slots[..done] == slots && r[..i] == r;
    WithoutMembers(slots, gone);
  }

  /** Removes the first occurrence only; without one the list is unchanged. */
  method RemoveSlot(slots: seq<Slot>, removedSlot: Slot) returns (r: seq<Slot>)
    ensures removedSlot !in slots ==> r == slots
    ensures multiset(r) == multiset(slots) - multiset{removedSlot}
    ensures NoDup(slots) ==> r == Without(slots, {removedSlot}) && NoDup(r)
    ensures NoDup(slots) && removedSlot in slots ==> |r| == |slots| - 1
  {
    r := slots;
    for i := 0 to |slots|
      invariant removedSlot !in slots[..i]
      invariant r == slots
    {
      if slots[i] == removedSlot {
        r := slots[..i] + slots[i + 1..];
        assert slots == slots[..i] + [slots[i]] + slots[i + 1..];
        if NoDup(slots) {
          WithoutUnique(slots, i);
          WithoutMembers(slots, {removedSlot});
        }
        return;
      }
    }
    WithoutAbsent(slots, {removedSlot});
  }

  lemma {:induction false} WithoutAbsent(s: seq<Slot>, gone: set<Slot>)
    requires Elems(s) !! gone
    ensures Without(s, gone) == s
  {
    if s != [] {
      assert s[|s| - 1] in Elems(s);
      assert Elems(s[..|s| - 1]) <= Elems(s);
      WithoutAbsent(s[..|s| - 1], gone);
    }
  }

  lemma {:induction false} WithoutUnique(s: seq<Slot>, i: nat)
    requires i < |s| && NoDup(s)
    ensures Without(s, {s[i]}) == s[..i] + s[i + 1..]
  {
    var init := s[..|s| - 1];
    if i == |s| - 1 {
      WithoutAbsent(init, {s[i]});
    } else {
      WithoutUnique(init, i);
    }
  }

  /** Duplicate-free union that keeps the old list as a prefix. */
  method AddSlots(slots: seq<Slot>, addedSlots: seq<Slot>) returns (r: seq<Slot>)
    ensures slots <= r
    ensures Elems(r) == Elems(slots) + Elems(addedSlots)
    ensures NoDup(slots) ==> NoDup(r)
    ensures NoDup(addedSlots) && Elems(slots) !! Elems(addedSlots) ==> r == slots + addedSlots
  {
    r := slots;
    for i := 0 to |addedSlots|
      invariant slots <= r
      invariant Elems(r) == Elems(slots) + Elems(addedSlots[..i])
      invariant NoDup(slots) ==> NoDup(r)
      invariant NoDup(addedSlots) && Elems(slots) !! Elems(addedSlots) ==> r == slots + addedSlots[..i]
    {
      var s := addedSlots[i];
      assert Elems(addedSlots[..i + 1]) == Elems(addedSlots[..i]) + {s};
      var known := Contains(r, s);
      if !known {
        assert Elems(r + [s]) == Elems(r) + {s};
        r := r + [s];
      } else {
        assert s in Elems(r);
        assert NoDup(addedSlots) ==> s !in addedSlots[..i];
        assert s in Elems(addedSlots);
      }
    }
    assert addedSlots[..|addedSlots|] == addedSlots;
  }

  /** The slots from min up to and including max; none when max is below min. */
  ghost function RangeSlots(min: Slot, max: int): seq<Slot> {
    if max < min then [] else seq(max - min + 1, i requires 0 <= i => min + i)
  }

  lemma RangeSlotsMembers(min: Slot, max: int)
    ensures forall x :: x in RangeSlots(min, max) <==> min <= x <= max
    ensures NoDup(RangeSlots(min, max))
  {
    forall x | min <= x <= max
      ensures x in RangeSlots(min, max)
    {
      assert RangeSlots(min, max)[x - min] == x;
    }
  }

  /** For the largest uint64 as max the source's counter wraps round and the loop never ends. */
  method BuildSlotSlice(min: Slot, max: Slot) returns (slots: seq<Slot>)
    requires max < UINT64_LIMIT - 1
    ensures slots == RangeSlots(min, max)
  {
    slots := [];
    var s := min;
    while s <= max
      invariant min <= max + 1 ==> min <= s <= max + 1
      invariant min > max ==> s == min
      invariant slots == RangeSlots(min, s - 1)
      decreases max + 1 - s
    {
      slots := slots + [s];
      s := s + 1;
    }
  }

  // ---------------------------------------------------------------- sorting

  ghost predicate Ascending(s: seq<Slot>) {
    forall i, j :: 0 <= i < j < |s| ==> s[i] <= s[j]
  }

  ghost predicate StrictlyAscending(s: seq<Slot>) {
    forall i, j :: 0 <= i < j < |s| ==> s[i] < s[j]
  }

  lemma InsertAscending(r: seq<Slot>, k: nat, x: Slot)
    requires Ascending(r) && k <= |r|
    requires k > 0 ==> r[k - 1] <= x
    requires forall j :: k <= j < |r| ==> x <= r[j]
    ensures Ascending(r[..k] + [x] + r[k..])
  {
  }

  lemma InsertPermutation<T>(r: seq<T>, k: nat, x: T)
    requires k <= |r|
    ensures multiset(r[..k] + [x] + r[k..]) == multiset(r) + multiset{x}
  {
    assert r == r[..k] + r[k..];
  }

  /** sort.Sort over SlotSlice: some ascending rearrangement. */
  method Sort(slots: seq<Slot>) returns (r: seq<Slot>)
    ensures Ascending(r)
    ensures multiset(r) == multiset(slots)
  {
    r := [];
    for i := 0 to |slots|
      invariant Ascending(r)
      invariant multiset(r) == multiset(slots[..i])
    {
      var k := |r|;
      while k > 0 && r[k - 1] > slots[i]
        invariant 0 <= k <= |r|
        invariant forall j :: k <= j < |r| ==> slots[i] < r[j]
      {
        k := k - 1;
      }
      InsertAscending(r, k, slots[i]);
      InsertPermutation(r, k, slots[i]);
      assert slots[..i + 1] == slots[..i] + [slots[i]];
      r := r[..k] + [slots[i]] + r[k..];
    }
    assert slots[..|slots|] == slots;
  }

  /** A strictly ascending list is determined by its elements. */
  lemma {:induction false} AscendingUnique(s: seq<Slot>, t: seq<Slot>)
    requires StrictlyAscending(s) && StrictlyAscending(t) && Elems(s) == Elems(t)
    ensures s == t
  {
    if s == [] {
      assert forall i :: 0 <= i < |t| ==> t[i] in Elems(t);
    } else {
      assert s[0] in Elems(s);
      assert t != [];
      assert t[0] in Elems(t);
      var i :| 0 <= i < |t| && t[i] == s[0];
      var j :| 0 <= j < |s| && s[j] == t[0];
      assert s[0] == t[0];
      assert Elems(s[1..]) == Elems(s) - {s[0]};
      assert Elems(t[1..]) == Elems(t) - {t[0]};
      AscendingUnique(s[1..], t[1..]);
      assert s == [s[0]] + s[1..] && t == [t[0]] + t[1..];
    }
  }

  // ---------------------------------------------------------------- ranges

  datatype SlotRange = SlotRange(min: Slot, max: Slot)

  ghost predicate Covers(ranges: seq<SlotRange>, x: int) {
    exists i :: 0 <= i < |ranges| && ranges[i].min <= x <= ranges[i].max
  }

  /** Non-empty, ascending and with a gap between any two neighbours. */
  ghost predicate Canonical(ranges: seq<SlotRange>) {
    && (forall i :: 0 <= i < |ranges| ==> ranges[i].min <= ranges[i].max)
    && (forall i, j :: 0 <= i < j < |ranges| ==> ranges[i].max + 1 < ranges[j].min)
  }

  /** max+1 in uint64 arithmetic. */
  function Next64(x: Slot): Slot {
    (x + 1) % UINT64_LIMIT
  }

  /**
   * The ranges always cover exactly the input. They are canonical unless the largest
   * uint64 occurs twice: then max+1 wraps to zero and the last range is repeated.
   */
  method SlotRangesFromSlots(slots: seq<Slot>) returns (ranges: seq<SlotRange>, sorted: seq<Slot>)
    requires Uint64(slots)
    ensures Ascending(sorted) && multiset(sorted) == multiset(slots)
    ensures forall x :: x in slots <==> Covers(ranges, x)
    ensures Canonical(ranges) <==> multiset(slots)[UINT64_LIMIT - 1] <= 1
  {
    ranges := [];
    var min: Slot, max: Slot, first := 0, 0, true;
    sorted := Sort(slots);
    SortedKeepsWidth(sorted, slots);
    for k := 0 to |sorted|
      invariant first <==> k == 0
      invariant first ==> ranges == []
      invariant !first ==> max == sorted[k - 1] && min <= max
      invariant !first ==> Summarises(sorted[..k], ranges + [SlotRange(min, max)])
    {
      var slot := sorted[k];
      assert sorted[..k + 1] == sorted[..k] + [slot];
      AscendingPrefix(sorted, k);
      if first {
        StartRange(slot);
        min, max, first := slot, slot, false;
        continue;
      }
      if slot > Next64(max) {
        ExtendByNewRange(sorted[..k], ranges, min, max, slot);
        ranges := ranges + [SlotRange(min, max)];
        min := slot;
      } else {
        ExtendLastRange(sorted[..k], ranges, min, max, slot);
      }
      max := slot;
    }
    assert sorted[..|sorted|] == sorted;
    TopTwiceCounts(sorted);
    assert multiset(sorted)[UINT64_LIMIT - 1] == multiset(slots)[UINT64_LIMIT - 1];
    if !first {
      ranges := ranges + [SlotRange(min, max)];
    }
  }

  lemma AscendingPrefix(s: seq<Slot>, k: nat)
    requires Ascending(s) && k < |s|
    ensures Ascending(s[..k])
    ensures k > 0 ==> s[k - 1] <= s[k]
  {
  }

  lemma SortedKeepsWidth(sorted: seq<Slot>, slots: seq<Slot>)
    requires Uint64(slots) && multiset(sorted) == multiset(slots)
    ensures Uint64(sorted)
    ensures forall x :: x in slots <==> x in sorted
  {
    forall x ensures x in slots <==> x in sorted {
      assert x in slots <==> x in multiset(slots);
      assert x in sorted <==> x in multiset(sorted);
    }
    forall i | 0 <= i < |sorted| ensures sorted[i] < UINT64_LIMIT {
      assert sorted[i] in slots;
    }
  }

  ghost predicate Summarises(done: seq<Slot>, ranges: seq<SlotRange>) {
    && (forall x :: x in done <==> Covers(ranges, x))
    && (Canonical(ranges) <==> !TopTwice(done))
  }

  /** In an ascending list: the largest uint64 occurs at least twice. */
  ghost predicate TopTwice(sorted: seq<Slot>) {
    |sorted| >= 2 && sorted[|sorted| - 2] == sorted[|sorted| - 1] == UINT64_LIMIT - 1
  }

  lemma TopTwiceCounts(sorted: seq<Slot>)
    requires Ascending(sorted) && Uint64(sorted)
    ensures TopTwice(sorted) <==> multiset(sorted)[UINT64_LIMIT - 1] >= 2
  {
    if |sorted| >= 2 {
      LastTwo(sorted, UINT64_LIMIT - 1);
      TopAtEnd(sorted);
    } else if |sorted| == 1 {
      assert sorted == [sorted[0]];
    }
  }

  lemma LastTwo(s: seq<Slot>, x: Slot)
    requires |s| >= 2
    ensures multiset(s)[x] == multiset(s[..|s| - 2])[x] +
              (if s[|s| - 2] == x then 1 else 0) + (if s[|s| - 1] == x then 1 else 0)
    ensures x !in s[..|s| - 2] ==> multiset(s[..|s| - 2])[x] == 0
  {
    var n := |s|;
    assert s == s[..n - 2] + [s[n - 2], s[n - 1]];
    assert x in multiset(s[..n - 2]) <==> x in s[..n - 2];
  }

  lemma TopAtEnd(sorted: seq<Slot>)
    requires Ascending(sorted) && Uint64(sorted) && |sorted| >= 2
    ensures sorted[|sorted| - 2] != UINT64_LIMIT - 1 ==> UINT64_LIMIT - 1 !in sorted[..|sorted| - 2]
    ensures sorted[|sorted| - 2] == UINT64_LIMIT - 1 ==> sorted[|sorted| - 1] == UINT64_LIMIT - 1
  {
  }

  lemma StartRange(slot: Slot)
    ensures Summarises([slot], [] + [SlotRange(slot, slot)])
  {
    forall x ensures x in [slot] <==> Covers([] + [SlotRange(slot, slot)], x) {
      CoversSnoc([], SlotRange(slot, slot), x);
    }
  }

  lemma CoversSnoc(ranges: seq<SlotRange>, r: SlotRange, x: int)
    ensures Covers(ranges + [r], x) <==> Covers(ranges, x) || r.min <= x <= r.max
  {
    var all := ranges + [r];
    if Covers(ranges, x) {
      var i :| 0 <= i < |ranges| && ranges[i].min <= x <= ranges[i].max;
      assert all[i] == ranges[i];
    }
    if r.min <= x <= r.max {
      assert all[|ranges|] == r;
    }
  }

  lemma CanonicalSnoc(ranges: seq<SlotRange>, last: SlotRange, r: SlotRange)
    ensures Canonical(ranges + [last] + [r]) <==>
            Canonical(ranges + [last]) && r.min <= r.max && last.max + 1 < r.min
  {
    var a, b := ranges + [last], ranges + [last] + [r];
    assert forall i :: 0 <= i < |a| ==> b[i] == a[i];
    assert b[|a|] == r && b[|ranges|] == last;
    if Canonical(a) && r.min <= r.max && last.max + 1 < r.min {
      forall i, j | 0 <= i < j < |b|
        ensures b[i].max + 1 < b[j].min
      {
        if j == |a| && i < |ranges| {
          assert a[i].max + 1 < a[|ranges|].min;
        }
      }
    }
    if Canonical(b) {
      forall i, j | 0 <= i < j < |a|
        ensures a[i].max + 1 < a[j].min
      {
        assert b[i].max + 1 < b[j].min;
      }
    }
  }

  lemma CanonicalGrow(ranges: seq<SlotRange>, min: Slot, max: Slot, max': Slot)
    requires min <= max <= max'
    ensures Canonical(ranges + [SlotRange(min, max')]) <==> Canonical(ranges + [SlotRange(min, max)])
  {
    var a, b := ranges + [SlotRange(min, max)], ranges + [SlotRange(min, max')];
    assert forall i :: 0 <= i < |ranges| ==> a[i] == ranges[i] && b[i] == ranges[i];
    assert forall i :: 0 <= i < |a| ==> a[i].min == b[i].min;
  }

  lemma ExtendByNewRange(done: seq<Slot>, ranges: seq<SlotRange>, min: Slot, max: Slot, slot: Slot)
    requires min <= max <= slot < UINT64_LIMIT && slot > Next64(max)
    requires Ascending(done) && done != [] && done[|done| - 1] == max
    requires Summarises(done, ranges + [SlotRange(min, max)])
    ensures Summarises(done + [slot], ranges + [SlotRange(min, max)] + [SlotRange(slot, slot)])
  {
    forall x ensures x in done + [slot] <==> Covers(ranges + [SlotRange(min, max)] + [SlotRange(slot, slot)], x) {
      CoversSnoc(ranges + [SlotRange(min, max)], SlotRange(slot, slot), x);
    }
    CanonicalSnoc(ranges, SlotRange(min, max), SlotRange(slot, slot));
    assert max < UINT64_LIMIT - 1 ==> Next64(max) == max + 1;
  }

  lemma ExtendLastRange(done: seq<Slot>, ranges: seq<SlotRange>, min: Slot, max: Slot, slot: Slot)
    requires min <= max <= slot < UINT64_LIMIT && slot <= Next64(max)
    requires Ascending(done) && done != [] && done[|done| - 1] == max
    requires Summarises(done, ranges + [SlotRange(min, max)])
    ensures Summarises(done + [slot], ranges + [SlotRange(min, slot)])
  {
    forall x ensures x in done + [slot] <==> Covers(ranges + [SlotRange(min, slot)], x) {
      CoversSnoc(ranges, SlotRange(min, max), x);
      CoversSnoc(ranges, SlotRange(min, slot), x);
    }
    CanonicalGrow(ranges, min, max, slot);
    assert max < UINT64_LIMIT - 1;
  }

  /** A set of slots has only one canonical form. */
  lemma {:induction false} CanonicalUnique(a: seq<SlotRange>, b: seq<SlotRange>)
    requires Canonical(a) && Canonical(b)
    requires forall x :: Covers(a, x) <==> Covers(b, x)
    ensures a == b
    decreases |a|
  {
    if a == [] {
      assert forall i :: 0 <= i < |b| ==> Covers(b, b[i].min);
    } else {
      assert Covers(a, a[0].min);
      assert b != [];
      SameHead(a, b);
      SameHead(b, a);
      SameTail(a, b);
      CanonicalUnique(a[1..], b[1..]);
      assert a == [a[0]] + a[1..] && b == [b[0]] + b[1..];
    }
  }

  lemma SameTail(a: seq<SlotRange>, b: seq<SlotRange>)
    requires Canonical(a) && Canonical(b) && a != [] && b != [] && a[0] == b[0]
    requires forall x :: Covers(a, x) <==> Covers(b, x)
    ensures Canonical(a[1..]) && Canonical(b[1..])
    ensures forall x :: Covers(a[1..], x) <==> Covers(b[1..], x)
  {
    forall x ensures Covers(a[1..], x) <==> Covers(b[1..], x) {
      CoversTail(a, x);
      CoversTail(b, x);
    }
  }

  lemma CoversTail(a: seq<SlotRange>, x: int)
    requires Canonical(a) && a != []
    ensures Covers(a[1..], x) <==> Covers(a, x) && x > a[0].max
  {
  }

  lemma SameHead(a: seq<SlotRange>, b: seq<SlotRange>)
    requires Canonical(a) && Canonical(b) && a != [] && b != []
    requires forall x :: Covers(a, x) <==> Covers(b, x)
    ensures a[0].min >= b[0].min && a[0].max <= b[0].max
  {
    assert Covers(a, a[0].min);
    var m :| 0 <= m < |b| && b[m].min <= a[0].min <= b[m].max;
    assert forall i :: 0 < i < |b| ==> b[0].max + 1 < b[i].min;
    assert Covers(b, b[0].min);
    var k :| 0 <= k < |a| && a[k].min <= b[0].min <= a[k].max;
    assert forall i :: 0 < i < |a| ==> a[0].max + 1 < a[i].min;
    assert !Covers(b, b[0].max + 1);
    assert a[0].min <= b[0].max + 1 <= a[0].max ==> Covers(a, b[0].max + 1);
  }

  /** The slots of a list of ranges, one range after the other. */
  ghost function Expand(ranges: seq<SlotRange>): seq<Slot> {
    if ranges == [] then []
    else Expand(ranges[..|ranges| - 1]) + RangeSlots(ranges[|ranges| - 1].min, ranges[|ranges| - 1].max)
  }

  lemma AscendingConcat(s: seq<Slot>, t: seq<Slot>)
    requires StrictlyAscending(s) && StrictlyAscending(t)
    requires forall i, j :: 0 <= i < |s| && 0 <= j < |t| ==> s[i] < t[j]
    ensures StrictlyAscending(s + t)
  {
  }

  lemma {:induction false} ExpandCanonical(ranges: seq<SlotRange>)
    requires Canonical(ranges)
    ensures StrictlyAscending(Expand(ranges))
    ensures forall x :: x in Expand(ranges) <==> Covers(ranges, x)
  {
    if ranges != [] {
      var init, last := ranges[..|ranges| - 1], ranges[|ranges| - 1];
      ExpandCanonical(init);
      assert ranges == init + [last];
      RangeSlotsMembers(last.min, last.max);
      forall x ensures x in Expand(ranges) <==> Covers(ranges, x) {
        CoversSnoc(init, last, x);
      }
      ExpandBelow(init, last);
      AscendingConcat(Expand(init), RangeSlots(last.min, last.max));
    }
  }

  lemma ExpandBelow(init: seq<SlotRange>, last: SlotRange)
    requires Canonical(init + [last])
    requires forall x :: x in Expand(init) <==> Covers(init, x)
    ensures forall i :: 0 <= i < |Expand(init)| ==> Expand(init)[i] < last.min
  {
    forall i | 0 <= i < |Expand(init)| ensures Expand(init)[i] < last.min {
      var x := Expand(init)[i];
      assert x in Expand(init);
      var k :| 0 <= k < |init| && init[k].min <= x <= init[k].max;
      assert (init + [last])[k] == init[k] && (init + [last])[|init|] == last;
    }
  }
}
