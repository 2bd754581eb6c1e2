/** The operator's record of a Redis node and lists of such records: utils/redisutil/node.go. */
module Nodes {
  import opened Lists
  import opened SlotLists

  datatype Role = Master | Slave | NoRole

  /** id and ip identify a node; the other constants say where its pod runs. */
  class Node {
    const id: string
    const ip: string
    const nodeName: string
    const zone: string
    const statefulSet: string
    var role: string
    var masterReferent: string
    var slots: seq<Slot>
    var balance: int

    constructor (id: string, ip: string, nodeName: string, zone: string, statefulSet: string,
                 role: string, masterReferent: string, slots: seq<Slot>)
      ensures this.id == id && this.ip == ip && this.nodeName == nodeName && this.zone == zone
      ensures this.statefulSet == statefulSet && this.role == role
      ensures this.masterReferent == masterReferent && this.slots == slots
    {
      this.id, this.ip, this.nodeName, this.zone := id, ip, nodeName, zone;
      this.statefulSet, this.role, this.masterReferent := statefulSet, role, masterReferent;
      this.slots, this.balance := slots, 0;
    }

    /** The flags decide; without them a referent means slave and slots mean master. */
    function GetRole(): Role
      reads this
    {
      if role == "master" then Master
      else if role == "slave" then Slave
      else if masterReferent != "" then Slave
      else if |slots| > 0 then Master
      else NoRole
    }

    predicate IsMasterWithSlot()
      reads this
    {
      GetRole() == Master && |slots| > 0
    }
  }

  /** No two of the nodes share an id, so an id stands for one node. */
  ghost predicate UniqueIds(nodes: set<Node>) {
    && (forall a, b :: a in nodes && b in nodes && a.id == b.id ==> a == b)
    && (forall a :: a in nodes ==> a.id != "")
  }

  method GetNodeByID(nodes: seq<Node>, id: string) returns (found: Node?)
    ensures found != null ==>
              found in nodes && found.id == id &&
              exists i :: 0 <= i < |nodes| && nodes[i] == found && forall j :: 0 <= j < i ==> nodes[j].id != id
    ensures found == null ==> forall n :: n in nodes ==> n.id != id
  {
    for i := 0 to |nodes|
      invariant forall j :: 0 <= j < i ==> nodes[j].id != id
    {
      if nodes[i].id == id {
        assert nodes[i] in nodes;
        return nodes[i];
      }
    }
    return null;
  }

  /** The slot holders among the nodes, in their order. */
  ghost function SlotHolders(nodes: seq<Node>): seq<Node>
    reads nodes
  {
    if nodes == [] then []
    else SlotHolders(nodes[..|nodes| - 1]) +
         (if nodes[|nodes| - 1].IsMasterWithSlot() then [nodes[|nodes| - 1]] else [])
  }

  lemma {:induction false} SlotHoldersMember(nodes: seq<Node>, n: Node)
    ensures n in SlotHolders(nodes) <==> n in nodes && n.IsMasterWithSlot()
  {
    if nodes != [] {
      var init := nodes[..|nodes| - 1];
      SlotHoldersMember(init, n);
      assert nodes == init + [nodes[|nodes| - 1]];
    }
  }

  lemma {:induction false} SlotHoldersNoDup(nodes: seq<Node>)
    requires NoDup(nodes)
    ensures NoDup(SlotHolders(nodes))
  {
    if nodes != [] {
      var init, last := nodes[..|nodes| - 1], nodes[|nodes| - 1];
      SlotHoldersNoDup(init);
      SlotHoldersMember(init, last);
      assert last !in init;
      if last.IsMasterWithSlot() {
        NoDupExtend(SlotHolders(init), last);
      }
    }
  }

  /** FilterByFunc with IsMasterWithSlot. */
  method FilterMastersWithSlot(nodes: seq<Node>) returns (r: seq<Node>)
    ensures r == SlotHolders(nodes)
  {
    r := [];
    for i := 0 to |nodes|
      invariant r == SlotHolders(nodes[..i])
    {
      assert nodes[..i + 1][..i] == nodes[..i];
      if nodes[i].IsMasterWithSlot() {
        r := r + [nodes[i]];
      }
    }
    assert nodes[..|nodes|] == nodes;
  }

  /** The slot lists of the nodes, in order. */
  ghost function Snapshot(nodes: seq<Node>): (r: seq<seq<Slot>>)
    reads nodes
    ensures |r| == |nodes| && forall i :: 0 <= i < |nodes| ==> r[i] == nodes[i].slots
  {
    if nodes == [] then [] else Snapshot(nodes[..|nodes| - 1]) + [nodes[|nodes| - 1].slots]
  }

  ghost function IdList(nodes: seq<Node>): (r: seq<string>)
    ensures |r| == |nodes| && forall i :: 0 <= i < |nodes| ==> r[i] == nodes[i].id
  {
    seq(|nodes|, i requires 0 <= i < |nodes| => nodes[i].id)
  }

  lemma IdListNoDup(nodes: seq<Node>)
    requires NoDup(nodes) && UniqueIds(Elems(nodes))
    ensures NoDup(IdList(nodes))
  {
  }

  datatype SortKey = ByBalance | ByTotalSlots

  function Key(n: Node, key: SortKey): int
    reads n
  {
    match key
    case ByBalance => n.balance
    case ByTotalSlots => |n.slots|
  }

  ghost predicate SortedBy(nodes: seq<Node>, key: SortKey)
    reads nodes
  {
    forall i, j :: 0 <= i < j < |nodes| ==> Key(nodes[i], key) <= Key(nodes[j], key)
  }

  lemma InsertSorted(r: seq<Node>, k: nat, x: Node, key: SortKey)
    requires SortedBy(r, key) && k <= |r|
    requires k > 0 ==> Key(r[k - 1], key) <= Key(x, key)
    requires forall j :: k <= j < |r| ==> Key(x, key) <= Key(r[j], key)
    ensures SortedBy(r[..k] + [x] + r[k..], key)
  {
  }

  method Insert(r: seq<Node>, x: Node, key: SortKey) returns (t: seq<Node>)
    requires SortedBy(r, key)
    ensures SortedBy(t, key)
    ensures multiset(t) == multiset(r) + multiset{x}
  {
    var k := |r|;
    while k > 0 && Key(r[k - 1], key) > Key(x, key)
      invariant 0 <= k <= |r|
      invariant forall j :: k <= j < |r| ==> Key(x, key) < Key(r[j], key)
    {
      k := k - 1;
    }
    InsertSorted(r, k, x, key);
    InsertPermutation(r, k, x);
    t := r[..k] + [x] + r[k..];
  }

  /** SortByFunc: some rearrangement that is ascending in the key. */
  method SortByFunc(nodes: seq<Node>, key: SortKey) returns (r: seq<Node>)
    ensures SortedBy(r, key)
    ensures multiset(r) == multiset(nodes)
  {
    r := [];
    for i := 0 to |nodes|
      invariant SortedBy(r, key)
      invariant multiset(r) == multiset(nodes[..i])
    {
      assert nodes[..i + 1] == nodes[..i] + [nodes[i]];
      r := Insert(r, nodes[i], key);
    }
    assert nodes[..|nodes|] == nodes;
  }

  lemma PermutationElems(s: seq<Node>, t: seq<Node>)
    requires multiset(s) == multiset(t)
    ensures Elems(s) == Elems(t) && |s| == |t|
  {
    forall x ensures x in s <==> x in t {
      assert x in s <==> x in multiset(s);
      assert x in t <==> x in multiset(t);
    }
    assert |multiset(s)| == |s| && |multiset(t)| == |t|;
  }

  lemma PermutationNoDup(s: seq<Node>, t: seq<Node>)
    requires multiset(s) == multiset(t) && NoDup(s)
    ensures NoDup(t)
  {
    forall i, j | 0 <= i < j < |t| ensures t[i] != t[j] {
      if t[i] == t[j] {
        TwiceIn(t, i, j);
        OnceIn(s, t[i]);
        assert false;
      }
    }
  }

  lemma TwiceIn<T>(t: seq<T>, i: nat, j: nat)
    requires i < j < |t| && t[i] == t[j]
    ensures multiset(t)[t[i]] >= 2
  {
    var a, b := t[..j], t[j..];
    assert t == a + b;
    assert t[i] == a[i] && t[i] == b[0];
    assert t[i] in multiset(a) && t[i] in multiset(b);
  }

  lemma {:induction false} OnceIn<T>(s: seq<T>, x: T)
    requires NoDup(s)
    ensures multiset(s)[x] <= 1
  {
    if s != [] {
      var init, last := s[..|s| - 1], s[|s| - 1];
      assert s == init + [last];
      OnceIn(init, x);
      if x == last {
        assert x !in init;
        assert x !in multiset(init);
      }
    }
  }
}
