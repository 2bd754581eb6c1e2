/** The resharding plan: computeReshardTable in controllers/clustering/rebalance.go. */
module Reshard {
  import opened Arithmetic
  import opened Lists
  import opened SlotLists
  import opened Nodes

  datatype MovedNode = MovedNode(source: Node, slot: Slot)

  function Totals(nodes: seq<Node>): seq<int>
    reads nodes
  {
    seq(|nodes|, i requires 0 <= i < |nodes| reads nodes => |nodes[i].slots|)
  }

  /** What a source of t slots gives up of total; the first source rounds up, the others down. */
  function Quota(numSlots: nat, total: nat, t: nat, idx: nat): nat
    requires t <= total
  {
    if total == 0 then 0
    else if idx == 0 then CeilDiv(numSlots * t, total)
    else numSlots * t / total
  }

  // ---------------------------------------------------------------- arithmetic

  lemma QuotaFits(numSlots: nat, total: nat, t: nat, idx: nat)
    requires t <= total && numSlots <= total
    ensures Quota(numSlots, total, t, idx) <= t
  {
    if total > 0 {
      ProductOrder(numSlots, total, t);
      DivDefinition(numSlots * t, total);
      CeilDivFacts(numSlots * t, total);
      QuotientAtMost(numSlots * t, total, t);
    }
  }

  lemma ProductOrder(a: int, b: int, c: int)
    requires a <= b && 0 <= c
    ensures a * c <= b * c
  {
  }

  lemma QuotientAtMost(m: int, n: int, t: int)
    requires n > 0 && m <= n * t
    ensures m / n <= t && (m % n != 0 ==> m / n < t)
  {
  }

  /** total times a quota is its exact share up to less than total, from above for the first source. */
  lemma QuotaError(numSlots: nat, total: nat, t: nat, idx: nat)
    requires t <= total && total > 0
    ensures idx == 0 ==> 0 <= total * Quota(numSlots, total, t, idx) - numSlots * t <= total - 1
    ensures idx > 0 ==> -(total - 1) <= total * Quota(numSlots, total, t, idx) - numSlots * t <= 0
  {
  }

  /** The quotas of the sources in order. */
  function Quotas(numSlots: nat, total: nat, totals: seq<int>): (r: seq<int>)
    requires forall i :: 0 <= i < |totals| ==> 0 <= totals[i] <= total
    ensures |r| == |totals|
  {
    if totals == [] then []
    else
      var n := |totals| - 1;
      Quotas(numSlots, total, totals[..n]) + [Quota(numSlots, total, totals[n], n)]
  }

  lemma {:induction false} QuotasAt(numSlots: nat, total: nat, totals: seq<int>, i: nat)
    requires i < |totals| && forall i :: 0 <= i < |totals| ==> 0 <= totals[i] <= total
    ensures Quotas(numSlots, total, totals)[i] == Quota(numSlots, total, totals[i], i)
  {
    if i < |totals| - 1 {
      QuotasAt(numSlots, total, totals[..|totals| - 1], i);
    }
  }

  lemma {:induction false} QuotasSum(numSlots: nat, total: nat, totals: seq<int>)
    requires total > 0 && forall i :: 0 <= i < |totals| ==> 0 <= totals[i] <= total
    ensures totals == [] ==> Sum(Quotas(numSlots, total, totals)) == 0
    ensures totals != [] ==>
              -(|totals| - 1) * (total - 1)
              <= total * Sum(Quotas(numSlots, total, totals)) - numSlots * Sum(totals)
              <= total - 1
  {
    if totals != [] {
      var n := |totals| - 1;
      var init := totals[..n];
      QuotasSum(numSlots, total, init);
      QuotaError(numSlots, total, totals[n], n);
      Distribute(total, Sum(Quotas(numSlots, total, init)), Quota(numSlots, total, totals[n], n));
      Distribute(numSlots, Sum(init), totals[n]);
      if n > 0 {
        Distribute(total - 1, -(n - 1), -1);
      }
    }
  }

  lemma Distribute(a: int, b: int, c: int)
    ensures a * (b + c) == a * b + a * c
    ensures (b + c) * a == b * a + c * a
  {
  }

  /** At most numSlots are planned; up to two sources give exactly that many, k sources at least k - 2 fewer. */
  lemma QuotasTotal(numSlots: nat, total: nat, totals: seq<int>)
    requires forall i :: 0 <= i < |totals| ==> 0 <= totals[i] <= total
    requires Sum(totals) == total && numSlots <= total
    ensures Sum(Quotas(numSlots, total, totals)) <= numSlots
    ensures |totals| <= 2 ==> Sum(Quotas(numSlots, total, totals)) == numSlots
    ensures |totals| > 2 ==> Sum(Quotas(numSlots, total, totals)) >= numSlots - (|totals| - 2)
  {
    var sum := Sum(Quotas(numSlots, total, totals));
    if total == 0 {
      AllZeroQuotas(numSlots, totals);
    } else {
      QuotasSum(numSlots, total, totals);
      assert totals != [];
      BetweenMultiples(total, sum, numSlots, |totals| - 1);
    }
  }

  lemma {:induction false} AllZeroQuotas(numSlots: nat, totals: seq<int>)
    requires forall i :: 0 <= i < |totals| ==> 0 <= totals[i] <= 0
    ensures Sum(Quotas(numSlots, 0, totals)) == 0
  {
    if totals != [] {
      AllZeroQuotas(numSlots, totals[..|totals| - 1]);
    }
  }

  lemma BetweenMultiples(t: int, sum: int, n: int, m: int)
    requires t > 0 && m >= 0 && -m * (t - 1) <= t * sum - n * t <= t - 1
    ensures sum <= n
    ensures m == 0 ==> sum >= n
    ensures m > 0 ==> sum > n - m
  {
    MultiplesDiffer(t, sum, n);
    assert n * t == t * n;
    SignedMultiple(t, sum - n);
    if m > 0 {
      NegativeMultiples(t, sum - n, m);
    }
  }

  lemma NegativeMultiples(t: int, d: int, m: int)
    requires t > 0 && m > 0 && -m * (t - 1) <= t * d
    ensures d > -m
  {
  }

  // ---------------------------------------------------------------- the table

  /** The first count slots of a source. */
  ghost function Prefix(source: Node, count: nat): seq<MovedNode>
    requires count <= |source.slots|
    reads source
  {
    seq(count, i requires 0 <= i < count && count <= |source.slots| reads source => MovedNode(source, source.slots[i]))
  }

  /** The quotas of the sources, one source after the other. */
  ghost function Table(sources: seq<Node>, counts: seq<int>): seq<MovedNode>
    requires |sources| == |counts|
    requires forall i :: 0 <= i < |counts| ==> 0 <= counts[i] <= |sources[i].slots|
    reads sources
  {
    if sources == [] then []
    else
      var n := |sources| - 1;
      Table(sources[..n], counts[..n]) + Prefix(sources[n], counts[n])
  }

  lemma {:induction false} TableLength(sources: seq<Node>, counts: seq<int>)
    requires |sources| == |counts|
    requires forall i :: 0 <= i < |counts| ==> 0 <= counts[i] <= |sources[i].slots|
    ensures |Table(sources, counts)| == Sum(counts)
  {
    if sources != [] {
      TableLength(sources[..|sources| - 1], counts[..|counts| - 1]);
    }
  }

  lemma {:induction false} SumPrefixAtMost(s: seq<int>, k: nat)
    requires k <= |s| && forall i :: 0 <= i < |s| ==> s[i] >= 0
    ensures Sum(s[..k]) <= Sum(s)
    decreases |s| - k
  {
    if k < |s| {
      assert s[..k + 1][..k] == s[..k];
      SumPrefixAtMost(s, k + 1);
    } else {
      assert s[..k] == s;
    }
  }

  lemma TotalsPermuted(s: seq<Node>, t: seq<Node>)
    requires multiset(s) == multiset(t)
    ensures Sum(Totals(s)) == Sum(Totals(t))
  {
    PermutationElems(s, t);
    var w := map n | n in s :: |n.slots|;
    assert forall n :: n in t ==> n in Elems(s);
    SumByPermutation(s, t, w);
    SumByIsSum(s, w, Totals(s));
    SumByIsSum(t, w, Totals(t));
  }

  lemma {:induction false} EachAtMostSum(s: seq<int>)
    requires forall i :: 0 <= i < |s| ==> s[i] >= 0
    ensures Sum(s) >= 0
    ensures forall i :: 0 <= i < |s| ==> s[i] <= Sum(s)
  {
    if s != [] {
      EachAtMostSum(s[..|s| - 1]);
      assert forall i :: 0 <= i < |s| - 1 ==> s[i] == s[..|s| - 1][i];
    }
  }

  /** The inner loop: up to n slots from the front of one source, while the plan is short. */
  method TakeFrom(node: Node, n: nat, moved: seq<MovedNode>, numSlots: nat) returns (r: seq<MovedNode>)
    requires n <= |node.slots| && |moved| + n <= numSlots
    ensures r == moved + Prefix(node, n)
  {
    r := moved;
    for i := 0 to n
      invariant r == moved + Prefix(node, i)
    {
      if |r| < numSlots {
        r := r + [MovedNode(node, node.slots[i])];
      }
      assert Prefix(node, i + 1) == Prefix(node, i) + [MovedNode(node, node.slots[i])];
    }
  }

  /** Sizes of the prefixes to take: proportional to the sources' sizes, rounded. */
  method PlanQuotas(sources: seq<Node>, numSlots: nat) returns (quotas: seq<int>)
    requires numSlots <= Sum(Totals(sources))
    ensures Sized(sources, quotas)
    ensures Proportional(sources, numSlots, quotas)
    ensures Sum(quotas) <= numSlots
    ensures |sources| <= 2 ==> Sum(quotas) == numSlots
    ensures |sources| > 2 ==> Sum(quotas) >= numSlots - (|sources| - 2)
  {
    var total := SumTotals(sources);
    var totals := Totals(sources);
    assert forall i :: 0 <= i < |totals| ==> totals[i] == |sources[i].slots|;
    quotas := Quotas(numSlots, total, totals);
    forall i | 0 <= i < |quotas| ensures 0 <= quotas[i] <= |sources[i].slots| {
      QuotasAt(numSlots, total, totals, i);
      QuotaFits(numSlots, total, totals[i], i);
    }
    QuotasTotal(numSlots, total, totals);
  }

  ghost predicate Proportional(sources: seq<Node>, numSlots: nat, quotas: seq<int>)
    reads sources
  {
    && (forall i :: 0 <= i < |sources| ==> Totals(sources)[i] <= Sum(Totals(sources)))
    && quotas == Quotas(numSlots, Sum(Totals(sources)), Totals(sources))
  }

  ghost predicate Sized(sources: seq<Node>, quotas: seq<int>)
    reads sources
  {
    |quotas| == |sources| && forall i :: 0 <= i < |quotas| ==> 0 <= quotas[i] <= |sources[i].slots|
  }

  method SumTotals(nodes: seq<Node>) returns (total: nat)
    ensures total == Sum(Totals(nodes))
    ensures forall i :: 0 <= i < |nodes| ==> Totals(nodes)[i] <= total
  {
    total := 0;
    for i := 0 to |nodes|
      invariant total == Sum(Totals(nodes)[..i])
    {
      assert Totals(nodes)[..i + 1][..i] == Totals(nodes)[..i];
      total := total + |nodes[i].slots|;
    }
    assert Totals(nodes)[..|nodes|] == Totals(nodes);
    EachAtMostSum(Totals(nodes));
  }

  lemma NextSource(sources: seq<Node>, quotas: seq<int>, idx: nat, numSlots: nat)
    requires Sized(sources, quotas) && idx < |sources| && Sum(quotas) <= numSlots
    ensures |Table(sources[..idx], quotas[..idx])| + quotas[idx] <= numSlots
    ensures Table(sources[..idx + 1], quotas[..idx + 1]) ==
            Table(sources[..idx], quotas[..idx]) + Prefix(sources[idx], quotas[idx])
  {
    TableLength(sources[..idx], quotas[..idx]);
    assert quotas[..idx + 1][..idx] == quotas[..idx] && sources[..idx + 1][..idx] == sources[..idx];
    SumPrefixAtMost(quotas, idx + 1);
  }

  /** The loop over the sorted sources. */
  method BuildTable(sources: seq<Node>, numSlots: nat, quotas: seq<int>) returns (moved: seq<MovedNode>)
    requires Sized(sources, quotas) && Sum(quotas) <= numSlots
    ensures moved == Table(sources, quotas)
  {
    moved := [];
    for idx := 0 to |sources|
      invariant moved == Table(sources[..idx], quotas[..idx])
    {
      NextSource(sources, quotas, idx, numSlots);
      moved := TakeFrom(sources[idx], quotas[idx], moved, numSlots);
    }
    assert sources[..|sources|] == sources && quotas[..|quotas|] == quotas;
  }

  method PlanFrom(sources: seq<Node>, numSlots: nat) returns (moved: seq<MovedNode>, ghost quotas: seq<int>)
    requires numSlots <= Sum(Totals(sources))
    ensures Sized(sources, quotas) && Proportional(sources, numSlots, quotas) && moved == Table(sources, quotas)
    ensures |moved| <= numSlots
    ensures |sources| <= 2 ==> |moved| == numSlots
    ensures |sources| > 2 ==> |moved| >= numSlots - (|sources| - 2)
  {
    var amounts := PlanQuotas(sources, numSlots);
    moved := BuildTable(sources, numSlots, amounts);
    TableLength(sources, amounts);
    quotas := amounts;
  }

  /**
   * The plan takes from each source a prefix of its list, so it never leaves the list and names a
   * slot of a duplicate-free list at most once. With more slots asked for than the sources have,
   * the source would index past a list.
   */
  method ComputeReshardTable(src: seq<Node>, numSlots: nat)
    returns (moved: seq<MovedNode>, ghost sources: seq<Node>, ghost quotas: seq<int>)
    requires numSlots <= Sum(Totals(src))
    ensures multiset(sources) == multiset(src)
    ensures forall i, j :: 0 <= i < j < |sources| ==> |sources[i].slots| <= |sources[j].slots|
    ensures Sized(sources, quotas) && Proportional(sources, numSlots, quotas)
    ensures moved == Table(sources, quotas)
    ensures |moved| <= numSlots
    ensures |src| <= 2 ==> |moved| == numSlots
    ensures |src| > 2 ==> |moved| >= numSlots - (|src| - 2)
  {
    var sorted := SortByFunc(src, ByTotalSlots);
    TotalsPermuted(src, sorted);
    assert |sorted| == |src| by { PermutationElems(src, sorted); }
    moved, quotas := PlanFrom(sorted, numSlots);
    sources := sorted;
  }
}
