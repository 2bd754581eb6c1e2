/** Facts about finite sequences that every other module uses. */
module Lists {

  ghost predicate NoDup<T>(s: seq<T>) {
    forall i, j :: 0 <= i < j < |s| ==> s[i] != s[j]
  }

  ghost function Elems<T>(s: seq<T>): set<T> {
    set x | x in s
  }

  /** All values of a list of lists, in order. */
  ghost function Flatten<T>(ss: seq<seq<T>>): seq<T> {
    if ss == [] then [] else Flatten(ss[..|ss| - 1]) + ss[|ss| - 1]
  }

  function Sum(s: seq<int>): int {
    if s == [] then 0 else Sum(s[..|s| - 1]) + s[|s| - 1]
  }

  lemma {:induction false} NoDupCardinality<T>(s: seq<T>)
    ensures |Elems(s)| <= |s|
    ensures NoDup(s) ==> |Elems(s)| == |s|
  {
    if s == [] {
      assert Elems(s) == {};
    } else {
      var init, last := s[..|s| - 1], s[|s| - 1];
      NoDupCardinality(init);
      assert s == init + [last];
      assert Elems(s) == Elems(init) + {last};
    }
  }

  lemma NoDupExtend<T>(s: seq<T>, x: T)
    requires NoDup(s) && x !in s
    ensures NoDup(s + [x])
  {
  }

  lemma NoDupConcat<T>(s: seq<T>, t: seq<T>)
    requires NoDup(s) && NoDup(t) && Elems(s) !! Elems(t)
    ensures NoDup(s + t)
  {
    forall i, j | 0 <= i < j < |s + t|
      ensures (s + t)[i] != (s + t)[j]
    {
      if i < |s| <= j {
        assert s[i] in Elems(s) && t[j - |s|] in Elems(t);
      }
    }
  }

  /** A duplicate-free list with the elements of another one is no longer than it. */
  lemma NoDupSameElems<T>(s: seq<T>, t: seq<T>)
    requires NoDup(s) && NoDup(t) && Elems(s) == Elems(t)
    ensures |s| == |t|
  {
    NoDupCardinality(s);
    NoDupCardinality(t);
  }

  lemma TakeNext<T>(a: seq<T>, s: seq<T>, j: nat)
    requires j < |s|
    ensures a + s[..j] + [s[j]] == a + s[..j + 1]
  {
  }

  lemma PrefixNext<T>(s: seq<T>, j: nat)
    requires j < |s|
    ensures s[..j + 1] == s[..j] + [s[j]]
  {
  }

  lemma {:induction false} FlattenMember<T>(ss: seq<seq<T>>, x: T)
    ensures x in Flatten(ss) <==> exists i :: 0 <= i < |ss| && x in ss[i]
  {
    if ss != [] {
      var init := ss[..|ss| - 1];
      FlattenMember(init, x);
      if x in Flatten(init) {
        var i :| 0 <= i < |init| && x in init[i];
        assert x in ss[i];
      }
      if i :| 0 <= i < |ss| && x in ss[i] {
        if i < |init| { assert x in init[i]; }
      }
    }
  }

  /** The lists inside a duplicate-free concatenation are duplicate-free and disjoint. */
  lemma {:induction false} FlattenNoDup<T>(ss: seq<seq<T>>)
    requires NoDup(Flatten(ss))
    ensures forall i :: 0 <= i < |ss| ==> NoDup(ss[i])
    ensures forall i, j, x :: 0 <= i < j < |ss| && x in ss[i] ==> x !in ss[j]
  {
    if ss != [] {
      var init, last := ss[..|ss| - 1], ss[|ss| - 1];
      var f := Flatten(init);
      assert Flatten(ss) == f + last;
      assert NoDup(f) by {
        assert forall i :: 0 <= i < |f| ==> f[i] == Flatten(ss)[i];
      }
      assert NoDup(last) by {
        assert forall i :: 0 <= i < |last| ==> last[i] == Flatten(ss)[|f| + i];
      }
      FlattenNoDup(init);
      forall i, j, x | 0 <= i < j < |ss| && x in ss[i]
        ensures x !in ss[j]
      {
        if j < |init| {
          assert x in init[i] && init[j] == ss[j];
        } else {
          assert x in init[i];
          FlattenMember(init, x);
          var k :| 0 <= k < |f| && f[k] == x;
          forall l | 0 <= l < |last|
            ensures last[l] != x
          {
            assert Flatten(ss)[k] == x && Flatten(ss)[|f| + l] == last[l];
          }
        }
      }
    }
  }

  ghost predicate PairwiseDisjoint<T>(ss: seq<seq<T>>) {
    && (forall i :: 0 <= i < |ss| ==> NoDup(ss[i]))
    && (forall i, j, x :: 0 <= i < j < |ss| && x in ss[i] ==> x !in ss[j])
  }

  lemma {:induction false} FlattenDisjoint<T>(ss: seq<seq<T>>)
    requires PairwiseDisjoint(ss)
    ensures NoDup(Flatten(ss))
  {
    if ss != [] {
      var init, last := ss[..|ss| - 1], ss[|ss| - 1];
      FlattenDisjoint(init);
      forall x | x in Elems(Flatten(init)) ensures x !in Elems(last) {
        FlattenMember(init, x);
        var i :| 0 <= i < |init| && x in init[i];
        assert x in ss[i];
      }
      NoDupConcat(Flatten(init), last);
    }
  }

  /** A duplicate-free list of numbers below n has at most n elements. */
  lemma BoundedLength(s: seq<nat>, n: nat)
    requires NoDup(s) && forall x :: x in s ==> x < n
    ensures |s| <= n
  {
    NoDupCardinality(s);
    BelowCardinality(n);
    SubsetCardinality(Elems(s), Below(n));
  }

  lemma {:induction false} FlattenLength<T>(ss: seq<seq<T>>)
    ensures |Flatten(ss)| == Sum(Lengths(ss))
  {
    if ss != [] {
      FlattenLength(ss[..|ss| - 1]);
      assert Lengths(ss)[..|ss| - 1] == Lengths(ss[..|ss| - 1]);
    }
  }

  ghost function Lengths<T>(ss: seq<seq<T>>): seq<int> {
    seq(|ss|, i requires 0 <= i < |ss| => |ss[i]|)
  }

  /** Appending to the last non-empty list appends to the concatenation. */
  lemma {:induction false} FlattenAppend<T>(ss: seq<seq<T>>, i: nat, x: T)
    requires i < |ss|
    requires forall j :: i < j < |ss| ==> ss[j] == []
    ensures Flatten(ss[i := ss[i] + [x]]) == Flatten(ss) + [x]
  {
    var init, tt := ss[..|ss| - 1], ss[i := ss[i] + [x]];
    if i < |ss| - 1 {
      FlattenAppend(init, i, x);
      assert tt[..|ss| - 1] == init[i := init[i] + [x]];
    } else {
      assert tt[..|ss| - 1] == init;
      assert Flatten(init) + (ss[i] + [x]) == (Flatten(init) + ss[i]) + [x];
    }
  }

  lemma {:induction false} FlattenEmpty<T>(ss: seq<seq<T>>)
    requires forall i :: 0 <= i < |ss| ==> ss[i] == []
    ensures Flatten(ss) == []
  {
    if ss != [] {
      FlattenEmpty(ss[..|ss| - 1]);
    }
  }

  lemma {:induction false} SumPointwise(s: seq<int>, t: seq<int>, u: seq<int>)
    requires |s| == |t| == |u| && forall i :: 0 <= i < |s| ==> s[i] + t[i] == u[i]
    ensures Sum(s) + Sum(t) == Sum(u)
  {
    if s != [] {
      SumPointwise(s[..|s| - 1], t[..|t| - 1], u[..|u| - 1]);
    }
  }

  lemma {:induction false} SumConstant(n: nat, c: int)
    ensures Sum(seq(n, i => c)) == n * c
  {
    if n > 0 {
      SumConstant(n - 1, c);
      assert seq(n, i => c)[..n - 1] == seq(n - 1, i => c);
    }
  }

  lemma {:induction false} SumUpdate(s: seq<int>, i: nat, v: int)
    requires i < |s|
    ensures Sum(s[i := v]) == Sum(s) - s[i] + v
  {
    var init := s[..|s| - 1];
    if i < |init| {
      SumUpdate(init, i, v);
      assert s[i := v][..|s| - 1] == init[i := v];
    } else {
      assert s[i := v][..|s| - 1] == init;
    }
  }

  lemma SumShift(s: seq<int>, i: nat, j: nat, m: int)
    requires i < |s| && j < |s| && i != j
    ensures Sum(s[i := s[i] + m][j := s[j] - m]) == Sum(s)
  {
    var t := s[i := s[i] + m];
    assert Sum(t) == Sum(s) + m by { SumUpdate(s, i, s[i] + m); }
    assert t[j] == s[j];
    assert Sum(t[j := s[j] - m]) == Sum(t) - m by { SumUpdate(t, j, s[j] - m); }
  }

  /** The weights of the elements added up. */
  ghost function SumBy<T>(s: seq<T>, w: map<T, int>): int
    requires forall x :: x in s ==> x in w
  {
    if s == [] then 0 else SumBy(s[..|s| - 1], w) + w[s[|s| - 1]]
  }

  lemma {:induction false} SumByConcat<T>(s: seq<T>, t: seq<T>, w: map<T, int>)
    requires forall x :: x in s + t ==> x in w
    ensures SumBy(s + t, w) == SumBy(s, w) + SumBy(t, w)
  {
    if t == [] {
      assert s + t == s;
    } else {
      assert (s + t)[..|s + t| - 1] == s + t[..|t| - 1];
      SumByConcat(s, t[..|t| - 1], w);
    }
  }

  lemma {:induction false} SumByPermutation<T>(s: seq<T>, t: seq<T>, w: map<T, int>)
    requires multiset(s) == multiset(t)
    requires forall x :: x in s || x in t ==> x in w
    ensures SumBy(s, w) == SumBy(t, w)
  {
    if s == [] {
      assert |multiset(t)| == |t|;
    } else {
      var x := s[|s| - 1];
      assert x in multiset(t);
      var k :| 0 <= k < |t| && t[k] == x;
      RemoveBoth(s, t, k);
      var u := t[..k] + t[k + 1..];
      SumByPermutation(s[..|s| - 1], u, w);
      SumByConcat(t[..k], t[k + 1..], w);
      SumByConcat(t[..k], [x], w);
      SumByConcat(t[..k] + [x], t[k + 1..], w);
      assert t == t[..k] + [x] + t[k + 1..];
      assert SumBy([x], w) == w[x] by { assert [x][..0] == []; }
    }
  }

  lemma RemoveBoth<T>(s: seq<T>, t: seq<T>, k: nat)
    requires s != [] && k < |t| && t[k] == s[|s| - 1] && multiset(s) == multiset(t)
    ensures multiset(s[..|s| - 1]) == multiset(t[..k] + t[k + 1..])
  {
    var a, b := multiset(s[..|s| - 1]), multiset(t[..k] + t[k + 1..]);
    assert s == s[..|s| - 1] + [s[|s| - 1]];
    assert t == t[..k] + [t[k]] + t[k + 1..];
    assert multiset(s) == a + multiset{t[k]} && multiset(t) == b + multiset{t[k]};
    assert a == (a + multiset{t[k]}) - multiset{t[k]} && b == (b + multiset{t[k]}) - multiset{t[k]};
  }

  lemma {:induction false} SumByIsSum<T>(s: seq<T>, w: map<T, int>, values: seq<int>)
    requires |values| == |s| && forall i :: 0 <= i < |s| ==> s[i] in w && w[s[i]] == values[i]
    ensures SumBy(s, w) == Sum(values)
  {
    if s != [] {
      SumByIsSum(s[..|s| - 1], w, values[..|s| - 1]);
    }
  }

  /** The numbers below n form a set of n elements. */
  ghost function Below(n: nat): (r: set<nat>)
    ensures forall x :: x in r <==> 0 <= x < n
  {
    if n == 0 then {} else Below(n - 1) + {n - 1}
  }

  lemma {:induction false} BelowCardinality(n: nat)
    ensures |Below(n)| == n
  {
    if n > 0 {
      BelowCardinality(n - 1);
    }
  }

  lemma SubsetCardinality<T>(a: set<T>, b: set<T>)
    requires a <= b
    ensures |a| <= |b|
  {
    assert b == a + (b - a);
  }

  lemma SubsetSameSize<T>(a: set<T>, b: set<T>)
    requires a <= b
    ensures a == b <==> |a| == |b|
  {
    assert b == a + (b - a);
  }
}
