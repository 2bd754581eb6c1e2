/** Judging master placement: buildHAStatus and getSTSindex in controllers/distributedrediscluster/status.go. */
module HaStatus {
  import opened Lists
  import opened Nodes
  import opened Grouping
  import opened Decimal
  import opened StatefulSets
  import opened Zones
  import opened PlacementV2

  // ---------------------------------------------------------------- statefulset numbers

  /** The text behind the last hyphen; an error without hyphen. */
  function AfterLastHyphen(s: string): Result<string> {
    if s == [] then Err
    else if s[|s| - 1] == '-' then Ok("")
    else
      match AfterLastHyphen(s[..|s| - 1])
      case Ok(t) => Ok(t + [s[|s| - 1]])
      case Err => Err
  }

  lemma {:induction false} AfterLastHyphenOf(prefix: string, digits: string)
    requires '-' !in digits
    ensures AfterLastHyphen(prefix + "-" + digits) == Ok(digits)
  {
    var s := prefix + "-" + digits;
    if digits != [] {
      var n := |digits| - 1;
      AfterLastHyphenOf(prefix, digits[..n]);
      assert s[..|s| - 1] == prefix + "-" + digits[..n];
      assert digits == digits[..n] + [digits[n]];
    }
  }

  function GetStsIndex(name: string): Result<int> {
    match AfterLastHyphen(name)
    case Ok(digits) => Atoi(digits)
    case Err => Err
  }

  lemma PrintHasNoHyphen(n: nat)
    ensures '-' !in Print(n)
  {
  }

  /** The number of a statefulset is read back from its name, for any cluster name. */
  lemma IndexOfName(clusterName: string, i: nat)
    ensures GetStsIndex(StsName(clusterName, i)) == if i < INT64_LIMIT then Ok(i as int) else Err
  {
    PrintHasNoHyphen(i);
    AfterLastHyphenOf("drc-" + clusterName, Print(i));
    AtoiPrinted(i);
  }

  lemma {:induction false} AfterLastHyphenClean(s: string)
    ensures AfterLastHyphen(s).Ok? ==> '-' !in AfterLastHyphen(s).value
  {
    if s != [] {
      AfterLastHyphenClean(s[..|s| - 1]);
    }
  }

  /** What stands behind the last hyphen has no sign, so a parsed number is not negative. */
  lemma IndexNotNegative(name: string)
    ensures GetStsIndex(name).Ok? ==> GetStsIndex(name).value >= 0
  {
    AfterLastHyphenClean(name);
  }

  // ---------------------------------------------------------------- the verdict

  datatype Status = Healthy | Redistribute | Failed

  /** The nodes that report the role master, in order. */
  ghost function RoleMasters(nodes: seq<Node>): seq<Node>
    reads nodes
  {
    if nodes == [] then []
    else RoleMasters(nodes[..|nodes| - 1]) +
         (if nodes[|nodes| - 1].role == "master" then [nodes[|nodes| - 1]] else [])
  }

  lemma {:induction false} RoleMastersMember(nodes: seq<Node>, n: Node)
    ensures n in RoleMasters(nodes) <==> n in nodes && n.role == "master"
  {
    if nodes != [] {
      var init := nodes[..|nodes| - 1];
      RoleMastersMember(init, n);
      assert nodes == init + [nodes[|nodes| - 1]];
    }
  }

  lemma RoleMastersAre(nodes: seq<Node>, masters: seq<Node>)
    requires forall n :: n in nodes && n.role == "master" <==> n in masters
    ensures Elems(RoleMasters(nodes)) == Elems(masters)
  {
    forall n | n in RoleMasters(nodes) ensures n in masters {
      RoleMastersMember(nodes, n);
    }
    forall n | n in masters ensures n in RoleMasters(nodes) {
      RoleMastersMember(nodes, n);
    }
  }

  /** They keep their order. */
  lemma {:induction false} RoleMastersOrder(a: seq<Node>, b: seq<Node>)
    ensures RoleMasters(a + b) == RoleMasters(a) + RoleMasters(b)
  {
    if b == [] {
      assert a + b == a;
    } else {
      var init := b[..|b| - 1];
      RoleMastersOrder(a, init);
      assert (a + b)[..|a + b| - 1] == a + init;
    }
  }

  lemma {:induction false} RoleMastersNoDup(nodes: seq<Node>)
    requires NoDup(nodes)
    ensures NoDup(RoleMasters(nodes))
  {
    if nodes != [] {
      var init, last := nodes[..|nodes| - 1], nodes[|nodes| - 1];
      RoleMastersNoDup(init);
      RoleMastersMember(init, last);
    }
  }

  ghost predicate Numbered(m: Node) {
    GetStsIndex(m.statefulSet).Ok? && GetStsIndex(m.statefulSet).value >= 0
  }

  ghost predicate WellPlaced(m: Node, zones: seq<string>)
    requires zones != []
  {
    Numbered(m) && m.zone == ZoneFor(zones, GetStsIndex(m.statefulSet).value)
  }

  ghost predicate AllNumbered(masters: seq<Node>) {
    forall i :: 0 <= i < |masters| ==> Numbered(masters[i])
  }

  ghost predicate AllWellPlaced(masters: seq<Node>, zones: seq<string>)
    requires zones != []
  {
    forall i :: 0 <= i < |masters| ==> WellPlaced(masters[i], zones)
  }

  /** The verdict said directly: a full set of numbered masters, each in its zone. */
  ghost function Verdict(masters: seq<Node>, masterSize: nat, zones: seq<string>): Status
    requires zones != []
  {
    if masters == [] || |masters| != masterSize || !AllNumbered(masters) then Status.Failed
    else if AllWellPlaced(masters, zones) then Healthy
    else Redistribute
  }

  method GetMasterNodes(nodes: seq<Node>) returns (masters: seq<Node>)
    ensures masters == RoleMasters(nodes)
  {
    masters := [];
    for i := 0 to |nodes|
      invariant masters == RoleMasters(nodes[..i])
    {
      assert nodes[..i + 1][..i] == nodes[..i];
      if nodes[i].role == "master" {
        masters := masters + [nodes[i]];
      }
    }
    assert nodes[..|nodes|] == nodes;
  }

  /** The misplaced ones among the masters, in order. */
  ghost function Misplaced(masters: seq<Node>, zones: seq<string>): seq<Node>
    requires zones != []
  {
    if masters == [] then []
    else Misplaced(masters[..|masters| - 1], zones) +
         (if WellPlaced(masters[|masters| - 1], zones) then [] else [masters[|masters| - 1]])
  }

  lemma {:induction false} MisplacedMember(masters: seq<Node>, zones: seq<string>, n: Node)
    requires zones != []
    ensures n in Misplaced(masters, zones) <==> n in masters && !WellPlaced(n, zones)
  {
    if masters != [] {
      var init := masters[..|masters| - 1];
      MisplacedMember(init, zones, n);
      assert masters == init + [masters[|masters| - 1]];
    }
  }

  lemma MisplacedSnoc(masters: seq<Node>, i: nat, zones: seq<string>)
    requires zones != [] && i < |masters|
    ensures Misplaced(masters[..i + 1], zones) ==
            if WellPlaced(masters[i], zones) then Misplaced(masters[..i], zones) else Misplaced(masters[..i], zones) + [masters[i]]
  {
    assert masters[..i + 1][..i] == masters[..i];
  }

  /** What the counter and the list say after the first i masters. */
  ghost predicate Judged(masters: seq<Node>, zones: seq<string>, i: nat, placed: nat, misplaced: seq<Node>)
    requires zones != [] && i <= |masters|
  {
    && AllNumbered(masters[..i]) && misplaced == Misplaced(masters[..i], zones)
    && placed + |misplaced| == i && (misplaced == [] <==> AllWellPlaced(masters[..i], zones))
  }

  lemma JudgeStep(masters: seq<Node>, zones: seq<string>, i: nat, placed: nat, misplaced: seq<Node>)
    requires zones != [] && i < |masters| && Judged(masters, zones, i, placed, misplaced) && Numbered(masters[i])
    ensures if WellPlaced(masters[i], zones) then Judged(masters, zones, i + 1, placed + 1, misplaced)
            else Judged(masters, zones, i + 1, placed, misplaced + [masters[i]])
  {
    PrefixNext(masters, i);
    MisplacedSnoc(masters, i, zones);
    if !WellPlaced(masters[i], zones) {
      NotAllWell(masters[..i], masters[i], zones);
    }
  }

  lemma NotAllWell(masters: seq<Node>, m: Node, zones: seq<string>)
    requires zones != [] && !WellPlaced(m, zones)
    ensures !AllWellPlaced(masters + [m], zones)
  {
    assert (masters + [m])[|masters|] == m;
  }

  /** Judges one master after the other; stops at one without number. */
  method JudgeMasters(masters: seq<Node>, zones: seq<string>) returns (ok: bool, placed: nat, misplaced: seq<Node>)
    requires zones != []
    ensures ok <==> AllNumbered(masters)
    ensures ok ==> misplaced == Misplaced(masters, zones) && placed + |misplaced| == |masters|
    ensures ok ==> (misplaced == [] <==> AllWellPlaced(masters, zones))
  {
    placed, misplaced := 0, [];
    for i := 0 to |masters|
      invariant Judged(masters, zones, i, placed, misplaced)
    {
      var index := GetStsIndex(masters[i].statefulSet);
      IndexNotNegative(masters[i].statefulSet);
      if index.Err? {
        assert !Numbered(masters[i]);
        return false, 0, [];
      }
      JudgeStep(masters, zones, i, placed, misplaced);
      if masters[i].zone == ZoneFor(zones, index.value) {
        placed := placed + 1;
      } else {
        misplaced := misplaced + [masters[i]];
      }
    }
    assert masters[..|masters|] == masters;
    ok := true;
  }

  /**
   * Counting the masters that sit in their zone and comparing with the master size decides exactly
   * whether the placement is right; the misplaced ones are handed back.
   */
  method BuildHaStatus(nodes: seq<Node>, masterSize: nat, zonesInfo: set<string>, ghost order: seq<string>)
    returns (status: Status, misplaced: seq<Node>)
    requires Ordered(order) && Elems(order) == zonesInfo && order != []
    ensures status == Verdict(RoleMasters(nodes), masterSize, order)
    ensures misplaced == if status == Redistribute then Misplaced(RoleMasters(nodes), order) else []
  {
    var zones := SortZones(zonesInfo);
    OrderedUnique(zones, order);
    var masters := GetMasterNodes(nodes);
    if |masters| == 0 || |masters| != masterSize {
      return Status.Failed, [];
    }
    var ok, placed;
    ok, placed, misplaced := JudgeMasters(masters, zones);
    if !ok {
      return Status.Failed, [];
    }
    if placed != masterSize {
      return Redistribute, misplaced;
    }
    return Healthy, [];
  }

  // ---------------------------------------------------------------- agreement with the placement

  /** The master of statefulset number i is well placed exactly in the zone meant for it, whatever the cluster is called. */
  lemma PlacedIsWell(clusterName: string, i: nat, m: Node, zones: seq<string>)
    requires zones != [] && i < INT64_LIMIT && m.statefulSet == StsName(clusterName, i)
    ensures Numbered(m) && (WellPlaced(m, zones) <==> m.zone == ZoneFor(zones, i))
  {
    IndexOfName(clusterName, i);
  }

  /** A cluster that lists the nodes themselves groups its masters by their own statefulset names. */
  lemma OwnStatefulSet(cluster: Cluster, m: Node, clusterName: string, i: nat)
    requires m.id in cluster && cluster[m.id] == m && GroupName(cluster, m) == StsName(clusterName, i)
    ensures m.statefulSet == StsName(clusterName, i)
  {
    assert StsName(clusterName, i)[0] == 'd' && UNKNOWN_NAME[0] == 'u';
  }

  /** Masters that were kept because they hold slots are where they should be. */
  ghost predicate KeptInZone(masters: seq<Node>, holders: seq<seq<Node>>, zones: seq<string>)
    requires |holders| == |masters| && zones != []
  {
    forall i :: 0 <= i < |masters| && holders[i] != [] ==> masters[i].zone == ZoneFor(zones, i)
  }

  /**
   * After a placement by zone the status check, in whatever order it meets the masters, finds them
   * healthy exactly if those that were kept are in their zones; in a new cluster, always.
   */
  lemma PlacementIsHealthy(clusterName: string, names: seq<string>, holders: seq<seq<Node>>, masters: seq<Node>,
                           zones: seq<string>, reported: seq<Node>)
    requires NamesAre(names, clusterName) && 0 < |masters| == |names| <= INT64_LIMIT
    requires InZone(masters, holders, zones)
    requires forall i :: 0 <= i < |masters| ==> masters[i].statefulSet == names[i]
    requires NoDup(masters) && NoDup(reported) && Elems(reported) == Elems(masters)
    ensures Verdict(reported, |masters|, zones) == if KeptInZone(masters, holders, zones) then Healthy else Redistribute
  {
    NoDupSameElems(reported, masters);
    forall j | 0 <= j < |reported| ensures Numbered(reported[j]) {
      var i := PlaceOf(masters, reported[j]);
      assert NameIs(names, clusterName, i);
      PlacedIsWell(clusterName, i, masters[i], zones);
    }
    if KeptInZone(masters, holders, zones) {
      forall j | 0 <= j < |reported| ensures WellPlaced(reported[j], zones) {
        var i := PlaceOf(masters, reported[j]);
        assert NameIs(names, clusterName, i);
        PlacedIsWell(clusterName, i, masters[i], zones);
      }
    } else {
      var i :| 0 <= i < |masters| && holders[i] != [] && masters[i].zone != ZoneFor(zones, i);
      assert NameIs(names, clusterName, i);
      PlacedIsWell(clusterName, i, masters[i], zones);
      assert masters[i] in Elems(reported);
      var j := PlaceOf(reported, masters[i]);
      assert !WellPlaced(reported[j], zones);
    }
  }

  /**
   * The two agree end to end: once the nodes that report the role master are those that
   * DispatchMasters placed by zone in a cluster without slot holders, BuildHaStatus finds the cluster
   * healthy, whatever its name and whatever order the nodes come in.
   */
  lemma DispatchedIsHealthy(groups: Groups, all: seq<Node>, cluster: Cluster, clusterName: string, names: seq<string>,
                            holders: seq<seq<Node>>, masters: seq<Node>, bySts: map<string, Node>, zones: seq<string>,
                            bestEffort: bool, current: seq<Node>, nodes: seq<Node>)
    requires Grouped(groups, all, SetNames(cluster)) && forall n :: n in all && n.id in cluster ==> cluster[n.id] == n
    requires NamesAre(names, clusterName) && 0 < |masters| == |names| <= INT64_LIMIT
    requires Placed(groups, names, holders, masters, bySts, true, zones, bestEffort, current)
    requires forall i :: 0 <= i < |holders| ==> holders[i] == []
    requires NoDup(nodes) && forall n :: n in nodes && n.role == "master" <==> n in masters
    ensures Verdict(RoleMasters(nodes), |masters|, zones) == Healthy
  {
    NamesDistinct(names, clusterName);
    PlacedMeans(groups, names, holders, masters, bySts, true, zones, bestEffort, current);
    MastersDistinct(groups, all, cluster, names, holders, masters);
    forall i | 0 <= i < |masters| ensures masters[i].statefulSet == names[i] {
      assert NameIs(names, clusterName, i);
      OwnStatefulSet(cluster, masters[i], clusterName, i);
    }
    RoleMastersNoDup(nodes);
    RoleMastersAre(nodes, masters);
    PlacementIsHealthy(clusterName, names, holders, masters, zones, RoleMasters(nodes));
  }

  lemma PlaceOf(nodes: seq<Node>, n: Node) returns (i: nat)
    requires n in Elems(nodes)
    ensures i < |nodes| && nodes[i] == n
  {
    i :| 0 <= i < |nodes| && nodes[i] == n;
  }

  ghost function InZoneNumber(masters: seq<Node>, zone: string): set<nat> {
    set i: nat | i < |masters| && masters[i].zone == zone
  }

  /** Zone number k gets floor(n / z) of the n masters, the first n mod z zones one more. */
  lemma ZoneShare(masters: seq<Node>, holders: seq<seq<Node>>, zones: seq<string>, k: nat)
    requires InZone(masters, holders, zones) && forall i :: 0 <= i < |holders| ==> holders[i] == []
    requires Ordered(zones) && k < |zones|
    ensures |InZoneNumber(masters, zones[k])| ==
            |masters| / |zones| + (if k < |masters| % |zones| then 1 else 0)
  {
    OrderedNoDup(zones);
    forall i: nat | i < |masters| ensures masters[i].zone == zones[k] <==> i % |zones| == k {
      assert masters[i].zone == ZoneFor(zones, i);
    }
    assert InZoneNumber(masters, zones[k]) == Residues(|masters|, |zones|, k);
    ResidueCount(|masters|, |zones|, k);
  }
}
