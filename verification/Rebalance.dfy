/** Scale-up: RebalancedCluster in controllers/clustering/rebalance.go. */
module Rebalance {
  import opened Arithmetic
  import opened Lists
  import opened SlotLists
  import opened Nodes
  import opened RedisModel
  import opened CrashPoints
  import opened KeyMigration
  import opened Ownership
  import opened Reshard

  // ---------------------------------------------------------------- handing out the remainder

  /**
   * After c full rounds and a last one that reached position p: every under-full node (negative
   * base) has been charged once per round, no other node at all.
   */
  ghost predicate RoundRobin(base: seq<int>, shares: seq<int>, c: nat, p: nat) {
    && |shares| == |base|
    && forall j :: 0 <= j < |base| ==> shares[j] == if base[j] >= 0 then 0 else if j < p then c + 1 else c
  }

  ghost predicate Charged(nodes: seq<Node>, base: seq<int>, shares: seq<int>)
    requires |base| == |shares| == |nodes|
    reads nodes
  {
    forall j :: 0 <= j < |nodes| ==> nodes[j].balance == base[j] - shares[j]
  }

  /** Two under-full nodes are charged alike up to one unit, earlier nodes first. */
  lemma RoundRobinFair(base: seq<int>, shares: seq<int>, c: nat, p: nat, i: nat, j: nat)
    requires RoundRobin(base, shares, c, p) && i <= j < |base| && base[i] < 0 && base[j] < 0
    ensures shares[i] - 1 <= shares[j] <= shares[i]
  {
  }

  /** Without an under-full node no number of passes hands out anything, so a remainder would stay for ever. */
  lemma StuckWithoutUnderFull(base: seq<int>, shares: seq<int>, c: nat, p: nat)
    requires RoundRobin(base, shares, c, p) && forall j :: 0 <= j < |base| ==> base[j] >= 0
    ensures Sum(shares) == 0
  {
    NonNegativeSum(shares);
    NonPositiveSum(shares);
  }

  /** A pass that has examined i nodes and still has left of total units. */
  ghost predicate MidPass(base: seq<int>, charged: seq<int>, c: nat, p: nat, i: nat, left: nat, total: nat, sum: int) {
    && i <= |base| && p <= i && (left > 0 ==> p == i) && left <= total
    && RoundRobin(base, charged, c, p)
    && left + Sum(charged) == total + sum
    && (left == total <==> total == 0 || forall j :: 0 <= j < i ==> base[j] >= 0)
  }

  lemma PassCharges(base: seq<int>, charged: seq<int>, c: nat, p: nat, i: nat, left: nat, total: nat, sum: int)
    requires MidPass(base, charged, c, p, i, left, total, sum) && i < |base| && base[i] < 0 && left > 0
    ensures MidPass(base, charged[i := charged[i] + 1], c, i + 1, i + 1, left - 1, total, sum)
  {
    SumUpdate(charged, i, charged[i] + 1);
  }

  lemma PassSkips(base: seq<int>, charged: seq<int>, c: nat, p: nat, i: nat, left: nat, total: nat, sum: int)
    requires MidPass(base, charged, c, p, i, left, total, sum) && i < |base| && (base[i] >= 0 || left == 0)
    ensures MidPass(base, charged, c, if left > 0 then i + 1 else p, i + 1, left, total, sum)
  {
  }

  /** One pass over the nodes. Nothing changes exactly when no unit is left or no node is under-full. */
  method HandOutPass(nodes: seq<Node>, totalBalance: nat, ghost base: seq<int>, ghost shares: seq<int>, ghost c: nat)
    returns (left: nat, ghost charged: seq<int>, ghost p: nat)
    requires NoDup(nodes) && |base| == |nodes|
    requires RoundRobin(base, shares, c, 0) && Charged(nodes, base, shares)
    modifies nodes`balance
    ensures MidPass(base, charged, c, p, |base|, left, totalBalance, Sum(shares))
    ensures Charged(nodes, base, charged)
  {
    left, charged, p := totalBalance, shares, 0;
    for i := 0 to |nodes|
      invariant MidPass(base, charged, c, p, i, left, totalBalance, Sum(shares))
      invariant Charged(nodes, base, charged)
    {
      assert nodes[i].balance < 0 <==> base[i] < 0;
      if nodes[i].balance < 0 && left > 0 {
        PassCharges(base, charged, c, p, i, left, totalBalance, Sum(shares));
        var b := nodes[i].balance - 1;
        nodes[i].balance := b;
        left := left - 1;
        charged, p := charged[i := charged[i] + 1], i + 1;
      } else {
        PassSkips(base, charged, c, p, i, left, totalBalance, Sum(shares));
        p := if left > 0 then i + 1 else p;
      }
    }
  }

  ghost predicate HandedOut(nodes: seq<Node>, base: seq<int>, shares: seq<int>, total: int)
    reads nodes
  {
    && |base| == |nodes| && |shares| == |nodes|
    && Charged(nodes, base, shares) && Sum(shares) == total
    && exists c, p :: RoundRobin(base, shares, c, p)
  }

  lemma ZeroSum(n: nat)
    ensures Sum(seq(n, i => 0)) == 0
  {
    SumConstant(n, 0);
  }

  /** The loop around the passes ends because some node is under-full; it hands out every unit. */
  method HandOutRemainder(nodes: seq<Node>, totalBalance: nat, ghost base: seq<int>) returns (ghost shares: seq<int>)
    requires NoDup(nodes) && |base| == |nodes|
    requires forall j :: 0 <= j < |nodes| ==> nodes[j].balance == base[j]
    requires totalBalance == 0 || exists j :: 0 <= j < |base| && base[j] < 0
    modifies nodes`balance
    ensures HandedOut(nodes, base, shares, totalBalance)
  {
    shares := seq(|nodes|, i => 0);
    ZeroSum(|nodes|);
    var left: nat := totalBalance;
    ghost var c: nat, p: nat := 0, 0;
    while left > 0
      invariant |shares| == |nodes| && Charged(nodes, base, shares)
      invariant RoundRobin(base, shares, c, p)
      invariant left > 0 ==> p == 0
      invariant left + Sum(shares) == totalBalance
    {
      left, shares, p := HandOutPass(nodes, left, base, shares, c);
      if left > 0 {
        c, p := c + 1, 0;
      }
    }
  }

  // ---------------------------------------------------------------- the window

  function Sign(x: int): int {
    if x < 0 then -1 else if x == 0 then 0 else 1
  }

  ghost predicate AllZero(b: seq<int>) {
    forall i :: 0 <= i < |b| ==> b[i] == 0
  }

  /** Balances sum to zero, vanish outside the window and have ascending signs inside. */
  ghost predicate Window(b: seq<int>, d: int, s: int) {
    && 0 <= d <= s + 2 && s < |b|
    && Sum(b) == 0
    && (forall i :: 0 <= i < |b| && (i < d || i > s) ==> b[i] == 0)
    && (forall i, j :: d <= i < j <= s && 0 <= i && j < |b| ==> Sign(b[i]) <= Sign(b[j]))
  }

  lemma {:induction false} NonNegativeSum(b: seq<int>)
    requires forall i :: 0 <= i < |b| ==> b[i] >= 0
    ensures Sum(b) >= 0
    ensures Sum(b) == 0 ==> AllZero(b)
  {
    if b != [] {
      var init := b[..|b| - 1];
      NonNegativeSum(init);
      assert forall i :: 0 <= i < |b| - 1 ==> b[i] == init[i];
    }
  }

  lemma {:induction false} NonPositiveSum(b: seq<int>)
    requires forall i :: 0 <= i < |b| ==> b[i] <= 0
    ensures Sum(b) <= 0
    ensures Sum(b) == 0 ==> AllZero(b)
  {
    if b != [] {
      var init := b[..|b| - 1];
      NonPositiveSum(init);
      assert forall i :: 0 <= i < |b| - 1 ==> b[i] == init[i];
    }
  }

  /** The two ends have opposite signs unless everything is balanced. */
  lemma WindowEnds(b: seq<int>, d: int, s: int)
    requires Window(b, d, s) && d < s
    ensures b[d] < 0 < b[s] || AllZero(b)
  {
    if b[d] >= 0 {
      forall i | 0 <= i < |b| ensures b[i] >= 0 {
        assert d < i <= s ==> Sign(b[d]) <= Sign(b[i]);
      }
      NonNegativeSum(b);
    } else if b[s] <= 0 {
      forall i | 0 <= i < |b| ensures b[i] <= 0 {
        assert d <= i < s ==> Sign(b[i]) <= Sign(b[s]);
      }
      NonPositiveSum(b);
    }
  }

  lemma WindowClosed(b: seq<int>, d: int, s: int)
    requires Window(b, d, s) && d >= s
    ensures AllZero(b)
  {
    if 0 <= d == s {
      if b[d] >= 0 { NonNegativeSum(b); } else { NonPositiveSum(b); }
    }
  }

  function Smaller(x: int, y: int): nat {
    if Abs(x) < Abs(y) then Abs(x) else Abs(y)
  }

  function Abs(x: int): nat {
    if x < 0 then -x else x
  }

  /** The balances after m units have gone from s to d. */
  ghost function Shifted(b: seq<int>, d: nat, s: nat, m: nat): (r: seq<int>)
    requires d < |b| && s < |b| && d != s
    ensures |r| == |b| && r[d] == b[d] + m && r[s] == b[s] - m
    ensures forall i :: 0 <= i < |b| && i != d && i != s ==> r[i] == b[i]
  {
    b[d := b[d] + m][s := b[s] - m]
  }

  lemma ShiftedSum(b: seq<int>, d: nat, s: nat, m: nat)
    requires d < |b| && s < |b| && d != s
    ensures Sum(Shifted(b, d, s, m)) == Sum(b)
  {
    SumShift(b, d, s, m);
  }

  lemma WindowShrinks(b: seq<int>, d: nat, s: nat, m: nat, b': seq<int>)
    requires d < s && Window(b, d, s) && m == Smaller(b[d], b[s]) && b' == Shifted(b, d, s, m)
    ensures b[d] + m <= 0 <= b[s] - m
    ensures Window(b', if b'[d] == 0 then d + 1 else d, if b'[s] == 0 then s - 1 else s)
    ensures b'[d] == 0 || b'[s] == 0
  {
    ShiftedSum(b, d, s, m);
    WindowEnds(b, d, s);
  }

  // ---------------------------------------------------------------- when the loop evens everything out

  datatype Pointers = Pointers(b: seq<int>, d: int, s: int)

  ghost function Start(b: seq<int>): Pointers {
    Pointers(b, 0, |b| - 1)
  }

  ghost predicate Open(p: Pointers) {
    0 <= p.d < p.s < |p.b|
  }

  /** What one iteration of the loop does to balances and pointers, whatever the balances are. */
  ghost function Round(p: Pointers): Pointers
    requires Open(p)
  {
    var b := Shifted(p.b, p.d, p.s, Smaller(p.b[p.d], p.b[p.s]));
    Pointers(b, if b[p.d] == 0 then p.d + 1 else p.d, if b[p.s] == 0 then p.s - 1 else p.s)
  }

  ghost function Rounds(p: Pointers, k: nat): Pointers
    decreases k
  {
    if k == 0 || !Open(p) then p else Rounds(Round(p), k - 1)
  }

  ghost predicate EvenAfter(p: Pointers, k: nat) {
    AllZero(Rounds(p, k).b)
  }

  lemma {:induction false} RoundsKeepSum(p: Pointers, k: nat)
    ensures Sum(Rounds(p, k).b) == Sum(p.b)
    decreases k
  {
    if k > 0 && Open(p) {
      ShiftedSum(p.b, p.d, p.s, Smaller(p.b[p.d], p.b[p.s]));
      RoundsKeepSum(Round(p), k - 1);
    }
  }

  lemma {:induction false} RoundsReachZero(p: Pointers) returns (k: nat)
    requires Window(p.b, p.d, p.s)
    ensures EvenAfter(p, k)
    decreases p.s - p.d
  {
    if p.d >= p.s {
      WindowClosed(p.b, p.d, p.s);
      k := 0;
    } else {
      WindowShrinks(p.b, p.d, p.s, Smaller(p.b[p.d], p.b[p.s]), Round(p).b);
      k := RoundsReachZero(Round(p));
      k := k + 1;
    }
  }

  /** From sorted balances the loop ever reaches zero everywhere if and only if they add up to zero. */
  lemma EvensOutIff(b: seq<int>)
    requires forall i, j :: 0 <= i < j < |b| ==> b[i] <= b[j]
    ensures (exists k :: EvenAfter(Start(b), k)) <==> Sum(b) == 0
  {
    var p := Start(b);
    if k: nat :| EvenAfter(p, k) {
      RoundsKeepSum(p, k);
      NonNegativeSum(Rounds(p, k).b);
      NonPositiveSum(Rounds(p, k).b);
    }
    if Sum(b) == 0 {
      SortedWindow(b);
      var k := RoundsReachZero(p);
    }
  }

  /**
   * Two masters that hold none and one of four slots lack three to their averages of two. The loop
   * takes the one slot from the under-full master that has it, and then wants one from a master that has none.
   */
  lemma ShortListsTakeFromUnderFull()
    ensures var p := Pointers([0 - 2, 1 - 2], 0, 1);
            && Smaller(p.b[0], p.b[1]) == 1 && p.b[1] < 0
            && Round(p) == Pointers([1 - 2, 0 - 2], 0, 1) && Smaller(Round(p).b[0], Round(p).b[1]) == 1
  {
  }

  // ---------------------------------------------------------------- moving slots

  lemma DropFirst(s: seq<Slot>)
    requires s != [] && NoDup(s)
    ensures Without(s, {s[0]}) == s[1..] && NoDup(s[1..])
  {
    WithoutUnique(s, 0);
  }

  lemma SingleTable(src: Node, sources: seq<Node>, quotas: seq<int>, moved: seq<MovedNode>)
    requires multiset(sources) == multiset([src]) && Sized(sources, quotas)
    requires moved == Table(sources, quotas)
    ensures |moved| <= |src.slots|
    ensures forall i :: 0 <= i < |moved| ==> moved[i] == MovedNode(src, src.slots[i])
  {
  }

  /** The plan for one source: its first slots. */
  method PlanMoves(src: Node, numSlots: nat) returns (table: seq<MovedNode>)
    requires numSlots <= |src.slots|
    ensures |table| == numSlots
    ensures forall i :: 0 <= i < |table| ==> table[i] == MovedNode(src, src.slots[i])
  {
    assert Sum(Totals([src])) == |src.slots| by {
      assert Totals([src])[..0] == [];
    }
    ghost var sources, quotas;
    table, sources, quotas := ComputeReshardTable([src], numSlots);
    SingleTable(src, sources, quotas, table);
  }

  /**
   * How far a series of moves that began with claims c0 and store s0 has come. No key is ever lost;
   * if no command failed, the slots have changed hands and keys have followed their slots.
   */
  ghost predicate Moving(redis: Redis, c0: Claims, s0: Store, from: string, to: string, done: seq<Slot>)
    reads redis
  {
    && SameKeys(s0, redis.store)
    && (!redis.failed && done != [] ==> redis.claims == Reassign(c0, from, to, Elems(done)))
    && (!redis.failed && done == [] ==> redis.claims == c0)
    && (!redis.failed && KeysAtOwner(c0, s0) ==> KeysAtOwner(redis.claims, redis.store))
  }

  lemma ReassignNext(c0: Claims, c1: Claims, from: string, to: string, done: seq<Slot>, slot: Slot)
    requires from != to && c1 == if done == [] then c0 else Reassign(c0, from, to, Elems(done))
    ensures Reassign(c1, from, to, {slot}) == Reassign(c0, from, to, Elems(done + [slot]))
  {
    assert Elems(done + [slot]) == Elems(done) + {slot};
    if done == [] {
      assert Elems(done + [slot]) == {slot};
    } else {
      ReassignCompose(c0, from, to, Elems(done), {slot});
    }
  }

  /** One entry of the plan; the slot is the head of the source's list. */
  method MoveHead(redis: Redis, src: Node, slot: Slot, dst: Node, ghost c0: Claims, ghost s0: Store,
                  ghost done: seq<Slot>) returns (ok: bool)
    requires src.id != dst.id && NoDup(src.slots) && src.slots != [] && src.slots[0] == slot
    requires Moving(redis, c0, s0, src.id, dst.id, done)
    modifies redis, src`slots
    ensures ok ==> src.slots == old(src.slots)[1..] && NoDup(src.slots)
    ensures Careful(old(redis.Now()), redis.Now()) && (!ok ==> redis.failed)
    ensures Moving(redis, c0, s0, src.id, dst.id, done + [slot])
  {
    DropFirst(src.slots);
    ghost var c1, s1 := redis.claims, redis.store;
    ghost var sent;
    ok, sent := MoveSlot(redis, src, slot, dst);
    ConservedSameKeys(s1, redis.store, src.id, dst.id, {slot});
    SameKeysTransitive(s0, s1, redis.store);
    if !redis.failed {
      ReassignNext(c0, c1, src.id, dst.id, done, slot);
      if KeysAtOwner(c1, s1) {
        DrainKeysAtOwner(c1, s1, src.id, dst.id, {slot});
      }
    }
  }

  /** Moves the first numSlots slots of src to dst, one by one. */
  method MoveBetween(redis: Redis, src: Node, dst: Node, numSlots: nat) returns (ok: bool)
    requires src.id != dst.id && NoDup(src.slots) && numSlots <= |src.slots|
    modifies redis, src`slots
    ensures ok ==> src.slots == old(src.slots)[numSlots..]
    ensures Careful(old(redis.Now()), redis.Now()) && (!ok ==> redis.failed)
    ensures !redis.failed ==> Moving(redis, old(redis.claims), old(redis.store), src.id, dst.id, old(src.slots)[..numSlots])
    ensures SameKeys(old(redis.store), redis.store)
  {
    var table := PlanMoves(src, numSlots);
    ghost var list, c0, s0 := src.slots, redis.claims, redis.store;
    CarefulNothing(redis.Now(), redis.Now());
    for i := 0 to |table|
      invariant src.slots == list[i..] && NoDup(src.slots)
      invariant Careful(old(redis.Now()), redis.Now())
      invariant Moving(redis, c0, s0, src.id, dst.id, list[..i])
    {
      assert list[..i + 1] == list[..i] + [list[i]];
      ghost var past := redis.Now();
      ok := MoveHead(redis, table[i].source, table[i].slot, dst, c0, s0, list[..i]);
      CarefulTransitive(old(redis.Now()), past, redis.Now());
      if !ok {
        return;
      }
    }
    ok := true;
  }

  // ---------------------------------------------------------------- the two-pointer loop

  /** Value-level picture of the nodes: balances b, lists, what each must end with, and the ids. */
  ghost predicate Mirrors(nodes: seq<Node>, ids: seq<string>, b: seq<int>, lists: seq<seq<Slot>>)
    reads nodes
  {
    && |ids| == |b| == |lists| == |nodes|
    && forall i :: 0 <= i < |nodes| ==> nodes[i].id == ids[i] && nodes[i].balance == b[i] && nodes[i].slots == lists[i]
  }

  /** An over-full node's list is as long as what it must end with plus what it must give away. */
  ghost predicate Stocked(b: seq<int>, lists: seq<seq<Slot>>, goals: seq<int>) {
    && |b| == |lists| == |goals|
    && forall i :: 0 <= i < |b| ==>
         NoDup(lists[i]) && goals[i] >= 0 && (b[i] > 0 ==> |lists[i]| == b[i] + goals[i])
  }

  /** Every node owns its goal plus its balance, and an over-full node's list is what it owns. */
  ghost predicate Accounted(claims: Claims, ids: seq<string>, b: seq<int>, lists: seq<seq<Slot>>, goals: seq<int>) {
    && |ids| == |b| == |lists| == |goals|
    && forall i :: 0 <= i < |b| ==> Tallies(SlotsOf(claims, ids[i]), b[i], lists[i], goals[i])
  }

  ghost predicate Tallies(owned: set<Slot>, balance: int, list: seq<Slot>, goal: int) {
    |owned| == balance + goal && (balance > 0 ==> Elems(list) == owned)
  }

  /** One owner per slot, owners among the ids, keys with the owner. */
  ghost predicate Sound(claims: Claims, store: Store, hashSlots: nat, ids: seq<string>) {
    && OneOwner(claims, hashSlots) && KeysAtOwner(claims, store)
    && forall x, s :: s in SlotsOf(claims, x) ==> x in ids
  }

  lemma DisjointOwners(claims: Claims, x: string, y: string)
    requires Functional(claims) && x != y
    ensures SlotsOf(claims, x) !! SlotsOf(claims, y)
  {
  }

  lemma TransferSound(claims: Claims, store: Store, store': Store, hashSlots: nat, ids: seq<string>, from: string,
                      to: string, slots: set<Slot>)
    requires from != to && to in ids && Sound(claims, store, hashSlots, ids) && slots <= SlotsOf(claims, from)
    requires KeysAtOwner(Reassign(claims, from, to, slots), store')
    ensures Sound(Reassign(claims, from, to, slots), store', hashSlots, ids)
  {
    ReassignOneOwner(claims, hashSlots, from, to, slots);
    forall x, s | s in SlotsOf(Reassign(claims, from, to, slots), x) ensures x in ids {
      ReassignSlotsOf(claims, from, to, slots, x);
    }
  }

  lemma SplitPrefix(list: seq<Slot>, m: nat)
    requires NoDup(list) && m <= |list|
    ensures NoDup(list[m..]) && |Elems(list[..m])| == m
    ensures Elems(list[..m]) <= Elems(list) && Elems(list[m..]) == Elems(list) - Elems(list[..m])
  {
    NoDupCardinality(list[..m]);
    forall x ensures x in Elems(list[m..]) <==> x in Elems(list) - Elems(list[..m]) {
      if x in Elems(list) {
        var i :| 0 <= i < |list| && list[i] == x;
        if i < m { assert list[..m][i] == x; } else { assert list[m..][i - m] == x; }
      }
      if x in Elems(list[m..]) {
        var i :| 0 <= i < |list[m..]| && list[m..][i] == x;
        assert list[m + i] == x;
        assert forall j :: 0 <= j < m ==> list[..m][j] != list[m + i];
      }
    }
  }

  lemma GiverTallies(owned: set<Slot>, balance: int, list: seq<Slot>, goal: int, m: nat)
    requires Tallies(owned, balance, list, goal) && NoDup(list) && 0 < m <= balance && m <= |list|
    ensures Elems(list[..m]) <= owned
    ensures Tallies(owned - Elems(list[..m]), balance - m, list[m..], goal)
  {
    SplitPrefix(list, m);
    assert owned == (owned - Elems(list[..m])) + Elems(list[..m]);
  }

  lemma TakerTallies(owned: set<Slot>, balance: int, list: seq<Slot>, goal: int, taken: set<Slot>)
    requires Tallies(owned, balance, list, goal) && owned !! taken && balance + |taken| <= 0
    ensures Tallies(owned + taken, balance + |taken|, list, goal)
  {
  }

  lemma TransferStocked(b: seq<int>, lists: seq<seq<Slot>>, goals: seq<int>, d: nat, s: nat, m: nat)
    requires Stocked(b, lists, goals) && d < |b| && s < |b| && d != s && b[d] + m <= 0 && m <= b[s]
    ensures m <= |lists[s]| || m == 0
    ensures m <= |lists[s]| ==> Stocked(Shifted(b, d, s, m), lists[s := lists[s][m..]], goals)
  {
  }

  lemma TransferNode(claims: Claims, ids: seq<string>, b: seq<int>, lists: seq<seq<Slot>>, goals: seq<int>,
                     d: nat, s: nat, m: nat, i: nat)
    requires NoDup(ids) && Functional(claims) && Stocked(b, lists, goals) && Accounted(claims, ids, b, lists, goals)
    requires d < |b| && s < |b| && d != s && i < |b| && 0 < m <= b[s] && b[d] + m <= 0 && m <= |lists[s]|
    ensures var owned := SlotsOf(Reassign(claims, ids[s], ids[d], Elems(lists[s][..m])), ids[i]);
            if i == s then Tallies(owned, b[i] - m, lists[i][m..], goals[i])
            else if i == d then Tallies(owned, b[i] + m, lists[i], goals[i])
            else Tallies(owned, b[i], lists[i], goals[i])
  {
    var taken := Elems(lists[s][..m]);
    ReassignSlotsOf(claims, ids[s], ids[d], taken, ids[i]);
    GiverTallies(SlotsOf(claims, ids[s]), b[s], lists[s], goals[s], m);
    if i == d {
      DisjointOwners(claims, ids[s], ids[d]);
      SplitPrefix(lists[s], m);
      TakerTallies(SlotsOf(claims, ids[d]), b[d], lists[d], goals[d], taken);
    }
  }

  lemma TransferAccounted(claims: Claims, ids: seq<string>, b: seq<int>, lists: seq<seq<Slot>>, goals: seq<int>,
                          d: nat, s: nat, m: nat)
    requires NoDup(ids) && Functional(claims) && Stocked(b, lists, goals) && Accounted(claims, ids, b, lists, goals)
    requires d < |b| && s < |b| && d != s && 0 < m <= b[s] && b[d] + m <= 0 && m <= |lists[s]|
    ensures Elems(lists[s][..m]) <= SlotsOf(claims, ids[s])
    ensures Accounted(Reassign(claims, ids[s], ids[d], Elems(lists[s][..m])), ids,
                      Shifted(b, d, s, m), lists[s := lists[s][m..]], goals)
  {
    GiverTallies(SlotsOf(claims, ids[s]), b[s], lists[s], goals[s], m);
    var after := Reassign(claims, ids[s], ids[d], Elems(lists[s][..m]));
    var b', lists' := Shifted(b, d, s, m), lists[s := lists[s][m..]];
    forall i | 0 <= i < |b'| ensures Tallies(SlotsOf(after, ids[i]), b'[i], lists'[i], goals[i]) {
      TransferNode(claims, ids, b, lists, goals, d, s, m, i);
    }
  }

  /** The books are right unless they were wrong at the start or a command has failed. */
  ghost predicate Books(redis: Redis, good: bool, hashSlots: nat, ids: seq<string>, b: seq<int>,
                        lists: seq<seq<Slot>>, goals: seq<int>)
    reads redis
  {
    good && !redis.failed ==>
      Accounted(redis.claims, ids, b, lists, goals) && Sound(redis.claims, redis.store, hashSlots, ids)
  }

  /** Moves m slots from the over-full node s to the under-full node d; the books follow. */
  method MovePair(redis: Redis, src: Node, dst: Node, m: nat, ghost good: bool, ghost hashSlots: nat,
                  ghost ids: seq<string>, ghost b: seq<int>, ghost lists: seq<seq<Slot>>, ghost goals: seq<int>,
                  ghost d: nat, ghost s: nat) returns (ok: bool)
    requires Stocked(b, lists, goals) && d < |b| && s < |b| && d != s && b[d] + m <= 0 && 0 < m <= b[s]
    requires |ids| == |b| && NoDup(ids) && src.id == ids[s] && dst.id == ids[d] && src.slots == lists[s]
    requires Books(redis, good, hashSlots, ids, b, lists, goals)
    modifies redis, src`slots
    ensures m <= |lists[s]|
    ensures ok ==> src.slots == lists[s][m..]
    ensures Careful(old(redis.Now()), redis.Now()) && (!ok ==> redis.failed)
    ensures SameKeys(old(redis.store), redis.store)
    ensures Books(redis, good, hashSlots, ids, Shifted(b, d, s, m), lists[s := lists[s][m..]], goals)
  {
    ghost var c0, s0 := redis.claims, redis.store;
    TransferStocked(b, lists, goals, d, s, m);
    ok := MoveBetween(redis, src, dst, m);
    if good && !redis.failed {
      TransferAccounted(c0, ids, b, lists, goals, d, s, m);
      TransferSound(c0, s0, redis.store, hashSlots, ids, ids[s], ids[d], Elems(lists[s][..m]));
    }
  }

  /** The loop's invariant; s0 is the store the rebalancing began with. */
  ghost predicate Balancing(redis: Redis, sn: seq<Node>, good: bool, hashSlots: nat, s0: Store, ids: seq<string>,
                            b: seq<int>, lists: seq<seq<Slot>>, goals: seq<int>)
    reads redis, sn
  {
    && Mirrors(sn, ids, b, lists) && Stocked(b, lists, goals)
    && Books(redis, good, hashSlots, ids, b, lists, goals)
    && SameKeys(s0, redis.store)
  }

  method ShiftBalances(dst: Node, src: Node, m: nat, ghost sn: seq<Node>, ghost ids: seq<string>, ghost b: seq<int>,
                       ghost lists: seq<seq<Slot>>, ghost d: nat, ghost s: nat)
    requires d < |sn| && s < |sn| && d != s && sn[d] == dst && sn[s] == src && NoDup(sn) && Mirrors(sn, ids, b, lists)
    modifies dst`balance, src`balance
    ensures Mirrors(sn, ids, Shifted(b, d, s, m), lists)
  {
    dst.balance := dst.balance + m;
    src.balance := src.balance - m;
  }

  /** The move of one iteration; nothing happens when there is nothing to even out. */
  method EvenOut(redis: Redis, sn: seq<Node>, d: nat, s: nat, m: nat, ghost good: bool, ghost hashSlots: nat,
                 ghost s0: Store, ghost ids: seq<string>, ghost b: seq<int>, ghost lists: seq<seq<Slot>>,
                 ghost goals: seq<int>) returns (ok: bool, ghost lists': seq<seq<Slot>>)
    requires d < s < |sn| && NoDup(sn) && NoDup(ids)
    requires Balancing(redis, sn, good, hashSlots, s0, ids, b, lists, goals)
    requires b[d] + m <= 0 <= b[s] - m
    modifies redis, sn
    ensures Careful(old(redis.Now()), redis.Now()) && (!ok ==> redis.failed)
    ensures SameKeys(s0, redis.store)
    ensures ok ==> Balancing(redis, sn, good, hashSlots, s0, ids, Shifted(b, d, s, m), lists', goals)
  {
    ok, lists' := true, lists;
    TransferStocked(b, lists, goals, d, s, m);
    if m > 0 {
      ghost var s1 := redis.store;
      ok := MovePair(redis, sn[s], sn[d], m, good, hashSlots, ids, b, lists, goals, d, s);
      SameKeysTransitive(s0, s1, redis.store);
      if !ok {
        return;
      }
      lists' := lists[s := lists[s][m..]];
    } else {
      CarefulNothing(redis.Now(), redis.Now());
      assert Shifted(b, d, s, m) == b;
    }
    ShiftBalances(sn[d], sn[s], m, sn, ids, b, lists', d, s);
  }

  /** One iteration: move the smaller imbalance, correct both balances and close in on the rest. */
  method BalancePair(redis: Redis, sn: seq<Node>, d: nat, s: nat, ghost good: bool, ghost hashSlots: nat,
                     ghost s0: Store, ghost ids: seq<string>, ghost b: seq<int>, ghost lists: seq<seq<Slot>>,
                     ghost goals: seq<int>)
    returns (ok: bool, d': nat, s': int, ghost b': seq<int>, ghost lists': seq<seq<Slot>>)
    requires d < s < |sn| && NoDup(sn) && NoDup(ids) && Window(b, d, s)
    requires Balancing(redis, sn, good, hashSlots, s0, ids, b, lists, goals)
    modifies redis, sn
    ensures Careful(old(redis.Now()), redis.Now()) && (!ok ==> redis.failed)
    ensures SameKeys(s0, redis.store)
    ensures ok ==> s' - d' < s - d && Window(b', d', s')
    ensures ok ==> Balancing(redis, sn, good, hashSlots, s0, ids, b', lists', goals)
  {
    var dst, src := sn[d], sn[s];
    var numSlots := Smaller(dst.balance, src.balance);
    d', s', b' := d, s, Shifted(b, d, s, numSlots);
    WindowShrinks(b, d, s, numSlots, b');
    ok, lists' := EvenOut(redis, sn, d, s, numSlots, good, hashSlots, s0, ids, b, lists, goals);
    if !ok {
      return;
    }
    if dst.balance == 0 {
      d' := d' + 1;
    }
    if src.balance == 0 {
      s' := s' - 1;
    }
  }

  /**
   * The loop keeps a window of zero sum whose ends have opposite signs or which is all zero, so it
   * terminates, and without an error it ends with every balance at zero.
   */
  method TwoPointers(redis: Redis, sn: seq<Node>, ghost good: bool, ghost hashSlots: nat, ghost ids: seq<string>,
                     ghost b0: seq<int>, ghost lists0: seq<seq<Slot>>, ghost goals: seq<int>)
    returns (ok: bool, ghost lists: seq<seq<Slot>>)
    requires NoDup(sn) && NoDup(ids) && Window(b0, 0, |sn| - 1)
    requires Balancing(redis, sn, good, hashSlots, redis.store, ids, b0, lists0, goals)
    modifies redis, sn
    ensures Careful(old(redis.Now()), redis.Now()) && (!ok ==> redis.failed)
    ensures SameKeys(old(redis.store), redis.store)
    ensures ok ==> Balancing(redis, sn, good, hashSlots, old(redis.store), ids, seq(|sn|, i => 0), lists, goals)
  {
    var dstIdx, srcIdx := 0, |sn| - 1;
    ghost var b, s0 := b0, redis.store;
    lists := lists0;
    CarefulNothing(redis.Now(), redis.Now());
    while dstIdx < srcIdx
      invariant 0 <= dstIdx && srcIdx < |sn| && Window(b, dstIdx, srcIdx)
      invariant Balancing(redis, sn, good, hashSlots, s0, ids, b, lists, goals)
      invariant Careful(old(redis.Now()), redis.Now())
      decreases srcIdx - dstIdx
    {
      ghost var past := redis.Now();
      ok, dstIdx, srcIdx, b, lists :=
        BalancePair(redis, sn, dstIdx, srcIdx, good, hashSlots, s0, ids, b, lists, goals);
      CarefulTransitive(old(redis.Now()), past, redis.Now());
      if !ok {
        return;
      }
    }
    WindowClosed(b, dstIdx, srcIdx);
    assert b == seq(|sn|, i => 0);
    ok := true;
  }

  // ---------------------------------------------------------------- the rebalancer

  /** Slots above the rounded-down average. */
  ghost function Surplus(lists: seq<seq<Slot>>, expected: int): seq<int> {
    seq(|lists|, i requires 0 <= i < |lists| => |lists[i]| - expected)
  }

  /** By how much the lists together exceed the averages. */
  ghost function Excess(lists: seq<seq<Slot>>, expected: int): int {
    Sum(Surplus(lists, expected))
  }

  /** Lists of all slots exceed the averages by the remainder. */
  lemma SurplusSum(lists: seq<seq<Slot>>, hashSlots: nat)
    requires lists != [] && Sum(Lengths(lists)) == hashSlots
    ensures Excess(lists, hashSlots / |lists|) == hashSlots % |lists| >= 0
  {
    var n, e := |lists|, hashSlots / |lists|;
    SumPointwise(Surplus(lists, e), seq(n, i => e), Lengths(lists));
    SumConstant(n, e);
    DivDefinition(hashSlots, n);
  }

  method SetBalances(nodes: seq<Node>, expected: int, ghost base: seq<int>)
    requires NoDup(nodes) && |base| == |nodes|
    requires forall j :: 0 <= j < |nodes| ==> base[j] == |nodes[j].slots| - expected
    modifies nodes`balance
    ensures forall j :: 0 <= j < |nodes| ==> nodes[j].balance == base[j]
  {
    for i := 0 to |nodes|
      invariant forall j :: 0 <= j < i ==> nodes[j].balance == base[j]
    {
      nodes[i].balance := |nodes[i].slots| - expected;
    }
  }

  method TotalBalance(nodes: seq<Node>, ghost base: seq<int>) returns (totalBalance: int)
    requires |base| == |nodes| && forall j :: 0 <= j < |nodes| ==> nodes[j].balance == base[j]
    ensures totalBalance == Sum(base)
  {
    totalBalance := 0;
    for i := 0 to |nodes|
      invariant totalBalance == Sum(base[..i])
    {
      assert base[..i + 1][..i] == base[..i];
      totalBalance := totalBalance + nodes[i].balance;
    }
    assert base[..|nodes|] == base;
  }

  /** The first three loops: balances against the average, then the remainder charged to under-full nodes. */
  method ComputeBalances(nodes: seq<Node>, expected: int, ghost base: seq<int>) returns (ghost shares: seq<int>)
    requires NoDup(nodes) && |base| == |nodes| && Sum(base) >= 0
    requires forall j :: 0 <= j < |nodes| ==> base[j] == |nodes[j].slots| - expected
    requires Sum(base) == 0 || exists j :: 0 <= j < |base| && base[j] < 0
    modifies nodes`balance
    ensures HandedOut(nodes, base, shares, Sum(base))
  {
    SetBalances(nodes, expected, base);
    var totalBalance := TotalBalance(nodes, base);
    shares := HandOutRemainder(nodes, totalBalance, base);
  }

  // ---------------------------------------------------------------- sorting

  ghost function BalanceList(nodes: seq<Node>): (r: seq<int>)
    reads nodes
    ensures |r| == |nodes| && forall i :: 0 <= i < |nodes| ==> r[i] == nodes[i].balance
  {
    if nodes == [] then [] else BalanceList(nodes[..|nodes| - 1]) + [nodes[|nodes| - 1].balance]
  }

  lemma BalancesPermuted(nodes: seq<Node>, sn: seq<Node>)
    requires multiset(nodes) == multiset(sn)
    ensures Sum(BalanceList(nodes)) == Sum(BalanceList(sn))
  {
    PermutationElems(nodes, sn);
    var w := map n | n in nodes :: n.balance;
    assert forall n :: n in sn ==> n in Elems(nodes);
    SumByPermutation(nodes, sn, w);
    SumByIsSum(nodes, w, BalanceList(nodes));
    SumByIsSum(sn, w, BalanceList(sn));
  }

  lemma SortedWindow(b: seq<int>)
    requires Sum(b) == 0 && forall i, j :: 0 <= i < j < |b| ==> b[i] <= b[j]
    ensures Window(b, 0, |b| - 1)
  {
  }

  lemma SortedBalances(sn: seq<Node>)
    requires SortedBy(sn, ByBalance)
    ensures forall i, j :: 0 <= i < j < |sn| ==> BalanceList(sn)[i] <= BalanceList(sn)[j]
  {
  }

  /** After the remainder has been charged the balances cancel out. */
  lemma HandedOutSum(nodes: seq<Node>, base: seq<int>, shares: seq<int>)
    requires HandedOut(nodes, base, shares, Sum(base))
    ensures Sum(BalanceList(nodes)) == 0
  {
    SumPointwise(BalanceList(nodes), shares, base);
  }


  // ---------------------------------------------------------------- the whole run

  /** Each master's list is duplicate-free and is exactly what the master owns. */
  ghost predicate Agree(claims: Claims, ids: seq<string>, lists: seq<seq<Slot>>) {
    && |ids| == |lists|
    && forall i :: 0 <= i < |ids| ==> NoDup(lists[i]) && Elems(lists[i]) == SlotsOf(claims, ids[i])
  }

  /** Each master owns the rounded-down average plus its share of the remainder. */
  ghost predicate Spread(claims: Claims, nodes: seq<Node>, expected: int, shares: seq<int>) {
    && |shares| == |nodes|
    && forall j :: 0 <= j < |nodes| ==> |SlotsOf(claims, nodes[j].id)| == expected + shares[j]
  }

  /** What each sorted node must end with, read off its list and balance. */
  ghost function Goals(b: seq<int>, lists: seq<seq<Slot>>): (r: seq<int>)
    requires |b| == |lists|
    ensures |r| == |b|
  {
    seq(|b|, i requires 0 <= i < |b| => |lists[i]| - b[i])
  }

  ghost predicate SameGoals(nodes: seq<Node>, shares: seq<int>, expected: int, sn: seq<Node>, goals: seq<int>) {
    && |shares| == |nodes| && |goals| == |sn|
    && forall i, j :: 0 <= i < |sn| && 0 <= j < |nodes| && sn[i] == nodes[j] ==> goals[i] == expected + shares[j]
  }

  lemma GoalsAreShares(nodes: seq<Node>, base: seq<int>, shares: seq<int>, expected: nat, sn: seq<Node>)
    requires HandedOut(nodes, base, shares, Sum(base))
    requires forall j :: 0 <= j < |nodes| ==> base[j] == |nodes[j].slots| - expected
    requires multiset(nodes) == multiset(sn) && forall n :: n in nodes ==> NoDup(n.slots)
    ensures SameGoals(nodes, shares, expected, sn, Goals(BalanceList(sn), Snapshot(sn)))
    ensures Stocked(BalanceList(sn), Snapshot(sn), Goals(BalanceList(sn), Snapshot(sn)))
  {
    PermutationElems(nodes, sn);
    var b, lists := BalanceList(sn), Snapshot(sn);
    var goals := Goals(b, lists);
    forall i, j | 0 <= i < |sn| && 0 <= j < |nodes| && sn[i] == nodes[j] ensures goals[i] == expected + shares[j] {
      assert nodes[j].balance == base[j] - shares[j];
    }
    forall i | 0 <= i < |sn| ensures NoDup(lists[i]) && goals[i] >= 0 {
      assert sn[i] in Elems(nodes);
      var j :| 0 <= j < |nodes| && nodes[j] == sn[i];
      SharesNonNegative(base, shares, j);
    }
  }

  lemma SharesNonNegative(base: seq<int>, shares: seq<int>, j: nat)
    requires j < |base| && exists c, p :: RoundRobin(base, shares, c, p)
    ensures |shares| == |base| && shares[j] >= 0
  {
  }

  lemma OpenBooks(claims: Claims, ids: seq<string>, b: seq<int>, lists: seq<seq<Slot>>)
    requires |b| == |lists| && Agree(claims, ids, lists)
    ensures Accounted(claims, ids, b, lists, Goals(b, lists))
  {
    forall i | 0 <= i < |b| ensures Tallies(SlotsOf(claims, ids[i]), b[i], lists[i], Goals(b, lists)[i]) {
      NoDupCardinality(lists[i]);
    }
  }

  lemma AgreePermuted(claims: Claims, nodes: seq<Node>, sn: seq<Node>)
    requires multiset(nodes) == multiset(sn) && Agree(claims, IdList(nodes), Snapshot(nodes))
    ensures Agree(claims, IdList(sn), Snapshot(sn))
  {
    PermutationElems(nodes, sn);
    forall i | 0 <= i < |sn|
      ensures NoDup(Snapshot(sn)[i]) && Elems(Snapshot(sn)[i]) == SlotsOf(claims, IdList(sn)[i])
    {
      assert sn[i] in Elems(nodes);
      var j :| 0 <= j < |nodes| && nodes[j] == sn[i];
      assert Snapshot(nodes)[j] == sn[i].slots && IdList(nodes)[j] == sn[i].id;
    }
  }

  lemma IdsPermuted(nodes: seq<Node>, sn: seq<Node>)
    requires multiset(nodes) == multiset(sn)
    ensures forall x :: x in IdList(nodes) <==> x in IdList(sn)
  {
    IdsIncluded(nodes, sn);
    IdsIncluded(sn, nodes);
  }

  lemma IdsIncluded(nodes: seq<Node>, sn: seq<Node>)
    requires multiset(nodes) == multiset(sn)
    ensures forall x :: x in IdList(nodes) ==> x in IdList(sn)
  {
    PermutationElems(nodes, sn);
    forall x | x in IdList(nodes) ensures x in IdList(sn) {
      var i :| 0 <= i < |nodes| && IdList(nodes)[i] == x;
      assert nodes[i] in Elems(sn);
      var j :| 0 <= j < |sn| && sn[j] == nodes[i];
      assert IdList(sn)[j] == x;
    }
  }

  lemma CloseBooks(claims: Claims, nodes: seq<Node>, shares: seq<int>, expected: int, sn: seq<Node>,
                   lists: seq<seq<Slot>>, goals: seq<int>)
    requires multiset(nodes) == multiset(sn) && SameGoals(nodes, shares, expected, sn, goals)
    requires Accounted(claims, IdList(sn), seq(|sn|, i => 0), lists, goals)
    ensures Spread(claims, nodes, expected, shares)
  {
    PermutationElems(nodes, sn);
    forall j | 0 <= j < |nodes| ensures |SlotsOf(claims, nodes[j].id)| == expected + shares[j] {
      assert nodes[j] in Elems(sn);
      var i :| 0 <= i < |sn| && sn[i] == nodes[j];
      assert Tallies(SlotsOf(claims, IdList(sn)[i]), seq(|sn|, i => 0)[i], lists[i], goals[i]);
    }
  }

  lemma ReadyToBalance(redis: Redis, nodes: seq<Node>, sn: seq<Node>, base: seq<int>, shares: seq<int>,
                       expected: nat, hashSlots: nat, good: bool)
    requires NoDup(nodes) && UniqueIds(Elems(nodes)) && forall n :: n in nodes ==> NoDup(n.slots)
    requires HandedOut(nodes, base, shares, Sum(base))
    requires forall j :: 0 <= j < |nodes| ==> base[j] == |nodes[j].slots| - expected
    requires multiset(sn) == multiset(nodes) && SortedBy(sn, ByBalance)
    requires good ==> Agree(redis.claims, IdList(nodes), Snapshot(nodes)) &&
                      Sound(redis.claims, redis.store, hashSlots, IdList(nodes))
    ensures NoDup(sn) && NoDup(IdList(sn)) && Elems(sn) == Elems(nodes)
    ensures Window(BalanceList(sn), 0, |sn| - 1)
    ensures SameGoals(nodes, shares, expected, sn, Goals(BalanceList(sn), Snapshot(sn)))
    ensures Balancing(redis, sn, good, hashSlots, redis.store, IdList(sn), BalanceList(sn), Snapshot(sn),
                      Goals(BalanceList(sn), Snapshot(sn)))
  {
    PermutationNoDup(nodes, sn);
    PermutationElems(nodes, sn);
    IdListNoDup(sn);
    HandedOutSum(nodes, base, shares);
    BalancesPermuted(nodes, sn);
    SortedBalances(sn);
    SortedWindow(BalanceList(sn));
    GoalsAreShares(nodes, base, shares, expected, sn);
    if good {
      AgreePermuted(redis.claims, nodes, sn);
      OpenBooks(redis.claims, IdList(sn), BalanceList(sn), Snapshot(sn));
      IdsPermuted(nodes, sn);
    }
  }

  /** Sorts the masters and opens the books of the two-pointer loop. */
  method SortForBalancing(redis: Redis, nodes: seq<Node>, ghost shares: seq<int>, ghost expected: nat, ghost base: seq<int>,
                          ghost hashSlots: nat, ghost good: bool)
    returns (sn: seq<Node>, ghost b: seq<int>, ghost lists: seq<seq<Slot>>, ghost goals: seq<int>)
    requires NoDup(nodes) && UniqueIds(Elems(nodes)) && forall n :: n in nodes ==> NoDup(n.slots)
    requires HandedOut(nodes, base, shares, Sum(base))
    requires forall j :: 0 <= j < |nodes| ==> base[j] == |nodes[j].slots| - expected
    requires good ==> Agree(redis.claims, IdList(nodes), Snapshot(nodes)) &&
                      Sound(redis.claims, redis.store, hashSlots, IdList(nodes))
    ensures multiset(sn) == multiset(nodes) && NoDup(sn) && NoDup(IdList(sn)) && Elems(sn) == Elems(nodes)
    ensures Window(b, 0, |sn| - 1) && SameGoals(nodes, shares, expected, sn, goals)
    ensures Balancing(redis, sn, good, hashSlots, redis.store, IdList(sn), b, lists, goals)
  {
    sn := SortByFunc(nodes, ByBalance);
    ReadyToBalance(redis, nodes, sn, base, shares, expected, hashSlots, good);
    b, lists := BalanceList(sn), Snapshot(sn);
    goals := Goals(b, lists);
  }

  /** Everything before the two-pointer loop. */
  method Prepare(redis: Redis, newMasters: seq<Node>, expected: nat, ghost base: seq<int>, ghost hashSlots: nat,
                 ghost good: bool)
    returns (sn: seq<Node>, ghost shares: seq<int>, ghost b: seq<int>, ghost lists: seq<seq<Slot>>, ghost goals: seq<int>)
    requires NoDup(newMasters) && UniqueIds(Elems(newMasters)) && forall n :: n in newMasters ==> NoDup(n.slots)
    requires |base| == |newMasters| && Sum(base) >= 0
    requires forall j :: 0 <= j < |newMasters| ==> base[j] == |newMasters[j].slots| - expected
    requires Sum(base) == 0 || exists j :: 0 <= j < |base| && base[j] < 0
    requires good ==> Agree(redis.claims, IdList(newMasters), Snapshot(newMasters)) &&
                      Sound(redis.claims, redis.store, hashSlots, IdList(newMasters))
    modifies newMasters`balance
    ensures Sum(shares) == Sum(base) && exists c, p :: RoundRobin(base, shares, c, p)
    ensures multiset(sn) == multiset(newMasters) && NoDup(sn) && NoDup(IdList(sn)) && Elems(sn) == Elems(newMasters)
    ensures Window(b, 0, |sn| - 1) && SameGoals(newMasters, shares, expected, sn, goals)
    ensures Balancing(redis, sn, good, hashSlots, redis.store, IdList(sn), b, lists, goals)
  {
    ghost var before := Snapshot(newMasters);
    shares := ComputeBalances(newMasters, expected, base);
    assert Snapshot(newMasters) == before;
    sn, b, lists, goals := SortForBalancing(redis, newMasters, shares, expected, base, hashSlots, good);
  }

  lemma Finish(redis: Redis, nodes: seq<Node>, sn: seq<Node>, shares: seq<int>, expected: nat, hashSlots: nat,
               good: bool, s0: Store, lists: seq<seq<Slot>>, goals: seq<int>)
    requires multiset(sn) == multiset(nodes) && Elems(sn) == Elems(nodes)
    requires SameGoals(nodes, shares, expected, sn, goals)
    requires Balancing(redis, sn, good, hashSlots, s0, IdList(sn), seq(|sn|, i => 0), lists, goals)
    ensures forall n :: n in nodes ==> n.balance == 0
    ensures good && !redis.failed ==>
              Sound(redis.claims, redis.store, hashSlots, IdList(nodes)) && Spread(redis.claims, nodes, expected, shares)
  {
    forall n | n in nodes ensures n.balance == 0 {
      assert n in Elems(nodes);
    }
    if good && !redis.failed {
      CloseBooks(redis.claims, nodes, shares, expected, sn, lists, goals);
      IdsPermuted(nodes, sn);
    }
  }

  /** TwoPointers on a rearrangement of the masters. */
  method BalanceAmong(redis: Redis, ghost newMasters: seq<Node>, sn: seq<Node>, ghost good: bool, ghost hashSlots: nat,
                      ghost b0: seq<int>, ghost lists0: seq<seq<Slot>>, ghost goals: seq<int>)
    returns (ok: bool, ghost lists: seq<seq<Slot>>)
    requires Elems(sn) == Elems(newMasters)
    requires NoDup(sn) && NoDup(IdList(sn)) && Window(b0, 0, |sn| - 1)
    requires Balancing(redis, sn, good, hashSlots, redis.store, IdList(sn), b0, lists0, goals)
    modifies redis, newMasters
    ensures Careful(old(redis.Now()), redis.Now()) && (!ok ==> redis.failed)
    ensures SameKeys(old(redis.store), redis.store)
    ensures ok ==> Balancing(redis, sn, good, hashSlots, old(redis.store), IdList(sn), seq(|sn|, i => 0), lists, goals)
  {
    forall i | 0 <= i < |sn| ensures sn[i] in newMasters {
      assert sn[i] in Elems(sn);
    }
    ok, lists := TwoPointers(redis, sn, good, hashSlots, IdList(sn), b0, lists0, goals);
  }

  /** Everything after the average has been computed. */
  method RebalanceTo(redis: Redis, newMasters: seq<Node>, expected: nat, ghost base: seq<int>, ghost hashSlots: nat,
                     ghost good: bool) returns (ok: bool, ghost shares: seq<int>)
    requires NoDup(newMasters) && UniqueIds(Elems(newMasters)) && forall n :: n in newMasters ==> NoDup(n.slots)
    requires |base| == |newMasters| && Sum(base) >= 0
    requires forall j :: 0 <= j < |newMasters| ==> base[j] == |newMasters[j].slots| - expected
    requires Sum(base) == 0 || exists j :: 0 <= j < |base| && base[j] < 0
    requires good ==> Agree(redis.claims, IdList(newMasters), Snapshot(newMasters)) &&
                      Sound(redis.claims, redis.store, hashSlots, IdList(newMasters))
    modifies redis, newMasters
    ensures SameKeys(old(redis.store), redis.store)
    ensures Careful(old(redis.Now()), redis.Now()) && (!ok ==> redis.failed)
    ensures Sum(shares) == Sum(base) && exists c, p :: RoundRobin(base, shares, c, p)
    ensures ok ==> forall n :: n in newMasters ==> n.balance == 0
    ensures good && !redis.failed ==>
              && Sound(redis.claims, redis.store, hashSlots, IdList(newMasters))
              && Spread(redis.claims, newMasters, expected, shares)
  {
    ghost var s0 := redis.store;
    var sn;
    ghost var b, lists, goals;
    sn, shares, b, lists, goals := Prepare(redis, newMasters, expected, base, hashSlots, good);
    ok, lists := BalanceAmong(redis, newMasters, sn, good, hashSlots, b, lists, goals);
    if ok {
      Finish(redis, newMasters, sn, shares, expected, hashSlots, good, s0, lists, goals);
    }
  }

  /**
   * Scale-up. It is called with masters that own all slots between them, so that nothing is lacking
   * from the averages; it terminates if there is no remainder or some master is under-full (otherwise
   * the remainder loop would not).
   * No key is lost in any run. Without an error all balances end at zero. If no command failed,
   * every slot still has one owner, every key is with its owner, and each master owns the
   * rounded-down average, plus one unit of the remainder per round in which it was under-full.
   */
  method RebalancedCluster(redis: Redis, newMasters: seq<Node>, hashSlots: nat) returns (ok: bool, ghost shares: seq<int>)
    requires newMasters != [] && NoDup(newMasters) && UniqueIds(Elems(newMasters))
    requires forall n :: n in newMasters ==> NoDup(n.slots)
    requires Excess(Snapshot(newMasters), hashSlots / |newMasters|) >= 0
    requires Excess(Snapshot(newMasters), hashSlots / |newMasters|) == 0 ||
             exists n :: n in newMasters && |n.slots| < hashSlots / |newMasters|
    modifies redis, newMasters
    ensures SameKeys(old(redis.store), redis.store)
    ensures Careful(old(redis.Now()), redis.Now()) && (!ok ==> redis.failed)
    ensures Sum(shares) == old(Excess(Snapshot(newMasters), hashSlots / |newMasters|))
    ensures exists c, p :: RoundRobin(old(Surplus(Snapshot(newMasters), hashSlots / |newMasters|)), shares, c, p)
    ensures ok ==> forall n :: n in newMasters ==> n.balance == 0
    ensures old(Agree(redis.claims, IdList(newMasters), Snapshot(newMasters))) &&
            old(Sound(redis.claims, redis.store, hashSlots, IdList(newMasters))) && !redis.failed ==>
              && Sound(redis.claims, redis.store, hashSlots, IdList(newMasters))
              && Spread(redis.claims, newMasters, hashSlots / |newMasters|, shares)
  {
    ghost var good := Agree(redis.claims, IdList(newMasters), Snapshot(newMasters)) &&
                      Sound(redis.claims, redis.store, hashSlots, IdList(newMasters));
    ghost var lists0 := Snapshot(newMasters);
    var expected: int := hashSlots / |newMasters|;
    ghost var base := Surplus(lists0, expected);
    RebalanceStart(newMasters, lists0, hashSlots, expected);
    ok, shares := RebalanceTo(redis, newMasters, expected, base, hashSlots, good);
  }

  lemma RebalanceStart(nodes: seq<Node>, lists: seq<seq<Slot>>, hashSlots: nat, expected: int)
    requires nodes != [] && lists == Snapshot(nodes) && expected == hashSlots / |nodes|
    requires Excess(lists, expected) == 0 || exists n :: n in nodes && |n.slots| < expected
    ensures expected >= 0
    ensures forall j :: 0 <= j < |nodes| ==> Surplus(lists, expected)[j] == |nodes[j].slots| - expected
    ensures Excess(lists, expected) == 0 || exists j :: 0 <= j < |nodes| && Surplus(lists, expected)[j] < 0
  {
    QuotientPositive(hashSlots, |nodes|);
    UnderFull(nodes, lists, expected);
  }

  lemma UnderFull(nodes: seq<Node>, lists: seq<seq<Slot>>, expected: int)
    requires lists == Snapshot(nodes)
    ensures forall j :: 0 <= j < |nodes| ==> Surplus(lists, expected)[j] == |nodes[j].slots| - expected
    ensures (exists n :: n in nodes && |n.slots| < expected) ==>
              exists j :: 0 <= j < |nodes| && Surplus(lists, expected)[j] < 0
  {
  }
}
