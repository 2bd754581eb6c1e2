/** Sorting nodes into named groups, as sortRedisNodeByVM and sortRedisNodeByStatefulSet do. */
module Grouping {
  import opened Lists
  import opened Nodes

  /** The name used for nodes whose VM or statefulset is not stated. */
  const UNKNOWN_NAME := "unknown"

  type Groups = map<string, seq<Node>>

  /** The cluster's own table of nodes by id. */
  type Cluster = map<string, Node>

  /** The nodes of a group; a name without entry has none. */
  function Group(groups: Groups, name: string): seq<Node> {
    if name in groups then groups[name] else []
  }

  /** All nodes in groups. */
  ghost function All(groups: Groups): set<Node> {
    set name, n | name in groups && n in groups[name] :: n
  }

  /** The nodes that have that key, in order; nodes without key are left out. */
  ghost function MembersOf(nodes: seq<Node>, keys: map<string, string>, name: string): seq<Node> {
    if nodes == [] then []
    else
      var n := nodes[|nodes| - 1];
      MembersOf(nodes[..|nodes| - 1], keys, name) + (if n.id in keys && keys[n.id] == name then [n] else [])
  }

  lemma {:induction false} MembersOfMember(nodes: seq<Node>, keys: map<string, string>, name: string, n: Node)
    ensures n in MembersOf(nodes, keys, name) <==> n in nodes && n.id in keys && keys[n.id] == name
  {
    if nodes != [] {
      var init := nodes[..|nodes| - 1];
      MembersOfMember(init, keys, name, n);
      assert nodes == init + [nodes[|nodes| - 1]];
    }
  }

  lemma {:induction false} MembersOfNoDup(nodes: seq<Node>, keys: map<string, string>, name: string)
    requires NoDup(nodes)
    ensures NoDup(MembersOf(nodes, keys, name))
  {
    if nodes != [] {
      var init, last := nodes[..|nodes| - 1], nodes[|nodes| - 1];
      MembersOfNoDup(init, keys, name);
      MembersOfMember(init, keys, name, last);
      assert last !in init;
    }
  }

  /** Each group's entry holds its members; a group without members has no entry. */
  ghost predicate Grouped(groups: Groups, nodes: seq<Node>, keys: map<string, string>) {
    forall name :: GroupIs(groups, name, MembersOf(nodes, keys, name))
  }

  ghost predicate GroupIs(groups: Groups, name: string, members: seq<Node>) {
    Group(groups, name) == members && (name in groups <==> members != [])
  }

  lemma GroupedSkip(groups: Groups, nodes: seq<Node>, keys: map<string, string>, n: Node)
    requires Grouped(groups, nodes, keys) && n.id !in keys
    ensures Grouped(groups, nodes + [n], keys)
  {
  }

  lemma GroupedAdd(groups: Groups, nodes: seq<Node>, keys: map<string, string>, n: Node)
    requires Grouped(groups, nodes, keys) && n.id in keys
    ensures Grouped(groups[keys[n.id] := Group(groups, keys[n.id]) + [n]], nodes + [n], keys)
  {
  }

  /** The nodes of the list that the cluster knows. */
  ghost function Known(nodes: seq<Node>, cluster: Cluster): seq<Node> {
    if nodes == [] then []
    else Known(nodes[..|nodes| - 1], cluster) +
         (if nodes[|nodes| - 1].id in cluster then [nodes[|nodes| - 1]] else [])
  }

  lemma KnownSnoc(nodes: seq<Node>, n: Node, cluster: Cluster)
    ensures Known(nodes + [n], cluster) == if n.id in cluster then Known(nodes, cluster) + [n] else Known(nodes, cluster)
  {
  }

  lemma {:induction false} KnownMember(nodes: seq<Node>, cluster: Cluster, n: Node)
    ensures n in Known(nodes, cluster) <==> n in nodes && n.id in cluster
  {
    if nodes != [] {
      var init := nodes[..|nodes| - 1];
      KnownMember(init, cluster, n);
      assert nodes == init + [nodes[|nodes| - 1]];
    }
  }

  lemma {:induction false} KnownNoDup(nodes: seq<Node>, cluster: Cluster)
    requires NoDup(nodes)
    ensures NoDup(Known(nodes, cluster))
  {
    if nodes != [] {
      var init, last := nodes[..|nodes| - 1], nodes[|nodes| - 1];
      KnownNoDup(init, cluster);
      KnownMember(init, cluster, last);
      assert last !in init;
    }
  }
}
