/** Names of the statefulsets of a cluster: resources/statefulsets/statefulset.go. */
module StatefulSets {
  import opened Lists
  import opened Decimal

  function StsName(clusterName: string, i: nat): string {
    "drc-" + clusterName + "-" + Print(i)
  }

  lemma StsNameInjective(clusterName: string, i: nat, j: nat)
    requires StsName(clusterName, i) == StsName(clusterName, j)
    ensures i == j
  {
    var prefix := "drc-" + clusterName + "-";
    assert Print(i) == StsName(clusterName, i)[|prefix|..] == Print(j);
    PrintValue(i);
    PrintValue(j);
  }

  /** The names of the first n statefulsets. */
  ghost function NameList(clusterName: string, n: nat): (r: seq<string>)
    ensures |r| == n
  {
    if n == 0 then [] else NameList(clusterName, n - 1) + [StsName(clusterName, n - 1)]
  }

  lemma {:induction false} NameListAt(clusterName: string, n: nat, i: nat)
    requires i < n
    ensures NameList(clusterName, n)[i] == StsName(clusterName, i)
  {
    if i < n - 1 {
      NameListAt(clusterName, n - 1, i);
    }
  }

  ghost predicate NameIs(names: seq<string>, clusterName: string, i: nat) {
    i < |names| && names[i] == StsName(clusterName, i)
  }

  /** The names are those of the first statefulsets. */
  ghost predicate NamesAre(names: seq<string>, clusterName: string) {
    forall i :: 0 <= i < |names| ==> NameIs(names, clusterName, i)
  }

  lemma NameListFacts(clusterName: string, n: nat)
    ensures NamesAre(NameList(clusterName, n), clusterName) && NoDup(NameList(clusterName, n))
  {
    forall i | 0 <= i < n ensures NameIs(NameList(clusterName, n), clusterName, i) {
      NameListAt(clusterName, n, i);
    }
    NamesDistinct(NameList(clusterName, n), clusterName);
  }

  lemma NamesDistinct(names: seq<string>, clusterName: string)
    requires NamesAre(names, clusterName)
    ensures NoDup(names)
  {
    forall i, j | 0 <= i < j < |names| ensures names[i] != names[j] {
      assert NameIs(names, clusterName, i) && NameIs(names, clusterName, j);
      if names[i] == names[j] {
        StsNameInjective(clusterName, i, j);
        assert false;
      }
    }
  }

  /** k is the number of the statefulset of that name; negative if it is none of the cluster's. */
  ghost predicate IsNumber(clusterName: string, name: string, k: int) {
    if k >= 0 then name == StsName(clusterName, k) else forall i: nat :: name != StsName(clusterName, i)
  }

  lemma NumberUnique(clusterName: string, name: string, k: int, i: nat)
    requires IsNumber(clusterName, name, k) && name == StsName(clusterName, i)
    ensures k == i
  {
    if k >= 0 {
      StsNameInjective(clusterName, k, i);
    }
  }
}
