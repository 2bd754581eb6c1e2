/** The zones in the order that placement and status check agree on. */
module Zones {
  import opened Arithmetic
  import opened Lists

  /** The order of sort.Strings. */
  predicate Less(a: string, b: string) {
    if b == [] then false
    else if a == [] then true
    else if a[0] != b[0] then a[0] < b[0]
    else Less(a[1..], b[1..])
  }

  /** The strings agree up to position k; there the first one is smaller, or it has ended. */
  ghost predicate LessAt(a: string, b: string, k: nat) {
    k <= |a| && k < |b| && (forall i :: 0 <= i < k ==> a[i] == b[i]) && (k < |a| ==> a[k] < b[k])
  }

  lemma {:induction false} LessMeans(a: string, b: string)
    ensures Less(a, b) <==> exists k: nat :: LessAt(a, b, k)
  {
    assert a == [] && b != [] ==> LessAt(a, b, 0);
    if a != [] && b != [] {
      assert a[0] < b[0] ==> LessAt(a, b, 0);
      LessMeans(a[1..], b[1..]);
      if a[0] == b[0] {
        if k: nat :| LessAt(a[1..], b[1..], k) {
          assert LessAt(a, b, k + 1);
        }
        if k: nat :| LessAt(a, b, k) {
          assert LessAt(a[1..], b[1..], k - 1);
        }
      }
    }
  }

  lemma {:induction false} LessTransitive(a: string, b: string, c: string)
    requires Less(a, b) && Less(b, c)
    ensures Less(a, c)
  {
    if a != [] && a[0] == b[0] == c[0] {
      LessTransitive(a[1..], b[1..], c[1..]);
    }
  }

  lemma {:induction false} LessTotal(a: string, b: string)
    ensures a == b || Less(a, b) || Less(b, a)
    ensures !(Less(a, b) && Less(b, a)) && (Less(a, b) ==> a != b)
  {
    if a != [] && b != [] && a[0] == b[0] {
      LessTotal(a[1..], b[1..]);
      assert a == [a[0]] + a[1..] && b == [b[0]] + b[1..];
    }
  }

  ghost predicate Ordered(r: seq<string>) {
    forall i, j :: 0 <= i < j < |r| ==> Less(r[i], r[j])
  }

  lemma OrderedNoDup(r: seq<string>)
    requires Ordered(r)
    ensures NoDup(r)
  {
    forall i, j | 0 <= i < j < |r| ensures r[i] != r[j] {
      LessTotal(r[i], r[j]);
    }
  }

  /** There is only one way to order a set of zones, so two independent sorts agree. */
  lemma {:induction false} OrderedUnique(a: seq<string>, b: seq<string>)
    requires Ordered(a) && Ordered(b) && Elems(a) == Elems(b)
    ensures a == b
    decreases |a|
  {
    EmptyElems(a);
    EmptyElems(b);
    if a != [] {
      SameLast(a, b);
      var m, n := |a| - 1, |b| - 1;
      OrderedNoDup(a);
      OrderedNoDup(b);
      WithoutLast(a);
      WithoutLast(b);
      OrderedUnique(a[..m], b[..n]);
      assert a == a[..m] + [a[m]] && b == b[..n] + [b[n]];
    }
  }

  lemma EmptyElems(a: seq<string>)
    ensures Elems(a) == {} <==> a == []
  {
    if a != [] {
      assert a[0] in Elems(a);
    }
  }

  lemma WithoutLast(a: seq<string>)
    requires a != [] && NoDup(a)
    ensures Elems(a[..|a| - 1]) == Elems(a) - {a[|a| - 1]}
  {
  }

  lemma SameLast(a: seq<string>, b: seq<string>)
    requires Ordered(a) && Ordered(b) && Elems(a) == Elems(b) && a != [] && b != []
    ensures a[|a| - 1] == b[|b| - 1]
  {
    var x, y := a[|a| - 1], b[|b| - 1];
    assert x in Elems(b) && y in Elems(a);
    var i :| 0 <= i < |b| && b[i] == x;
    var j :| 0 <= j < |a| && a[j] == y;
    LessTotal(x, y);
  }

  lemma InsertOrdered(r: seq<string>, k: nat, x: string)
    requires Ordered(r) && k <= |r|
    requires forall j :: 0 <= j < k ==> Less(r[j], x)
    requires forall j :: k <= j < |r| ==> Less(x, r[j])
    ensures Ordered(r[..k] + [x] + r[k..])
    ensures Elems(r[..k] + [x] + r[k..]) == Elems(r) + {x}
  {
  }

  /** sort.Strings over the keys of the zone map, which come in any order. */
  method SortZones(zones: set<string>) returns (r: seq<string>)
    ensures Ordered(r) && Elems(r) == zones && |r| == |zones|
  {
    r := [];
    var todo := zones;
    while todo != {}
      invariant todo <= zones && Ordered(r) && Elems(r) == zones - todo
      decreases todo
    {
      var x :| x in todo;
      r := Insert(r, x);
      todo := todo - {x};
    }
    OrderedNoDup(r);
    NoDupCardinality(r);
  }

  method Insert(r: seq<string>, x: string) returns (t: seq<string>)
    requires Ordered(r) && x !in Elems(r)
    ensures Ordered(t) && Elems(t) == Elems(r) + {x}
  {
    var k := |r|;
    while k > 0 && Less(x, r[k - 1])
      invariant 0 <= k <= |r|
      invariant forall j :: k <= j < |r| ==> Less(x, r[j])
    {
      k := k - 1;
    }
    forall j | 0 <= j < k ensures Less(r[j], x) {
      assert r[j] in Elems(r) && r[k - 1] in Elems(r);
      LessTotal(r[k - 1], x);
      if j < k - 1 {
        LessTransitive(r[j], r[k - 1], x);
      }
    }
    InsertOrdered(r, k, x);
    t := r[..k] + [x] + r[k..];
  }

  /** The zone meant for the master of statefulset number i. */
  function ZoneFor(zones: seq<string>, i: nat): string
    requires zones != []
  {
    zones[i % |zones|]
  }

  // ---------------------------------------------------------------- how many masters a zone gets

  ghost function Residues(n: nat, z: nat, k: nat): set<nat>
    requires z > 0
  {
    set i: nat | i < n && i % z == k
  }

  lemma DivStep(n: nat, z: nat)
    requires z > 0
    ensures (n + 1) % z == if n % z + 1 == z then 0 else n % z + 1
    ensures (n + 1) / z == if n % z + 1 == z then n / z + 1 else n / z
  {
    var q, r := n / z, n % z;
    DivDefinition(n, z);
    MultipleNext(z, q);
    if r + 1 == z {
      DivUnique(n + 1, z, q + 1, 0);
    } else {
      DivUnique(n + 1, z, q, r + 1);
    }
  }

  /** Residue k occurs floor(n / z) or ceil(n / z) times below n. */
  lemma {:induction false} ResidueCount(n: nat, z: nat, k: nat)
    requires k < z
    ensures |Residues(n, z, k)| == n / z + (if k < n % z then 1 else 0)
  {
    if n == 0 {
      assert Residues(n, z, k) == {};
    } else {
      ResidueCount(n - 1, z, k);
      DivStep(n - 1, z);
      assert Residues(n, z, k) == Residues(n - 1, z, k) + (if (n - 1) % z == k then {n - 1} else {});
    }
  }
}
