/** Taking statefulsets away after a scale-down: scalingDown in sync_handler.go. */
module ScalingDown {
  import opened Nodes
  import opened Grouping
  import opened StatefulSets

  datatype Request =
    | Disconnect(ip: string)
    | LookUp(statefulSet: string, found: bool)
    | SeenEmpty(id: string)
    | Forget(id: string, ok: bool)
    | Delete(statefulSet: string)

  /** What happened, and how a run can end. */
  datatype Outcome =
    | Done
    | NoStatefulSet(name: string)
    | NotEmpty(node: Node)
    | ForgetFailed(node: Node)

  /** Kubernetes and the Redis admin as far as they matter here: what was asked of them, in order. */
  class Kube {
    var log: seq<Request>

    constructor ()
      ensures log == []
    {
      log := [];
    }

    method Record(e: Request)
      modifies this
      ensures log == old(log) + [e]
    {
      log := log + [e];
    }
  }

  // ---------------------------------------------------------------- what a log says

  /** The node was seen empty and then forgotten. */
  ghost predicate Cleared(log: seq<Request>, id: string) {
    if log == [] then false
    else
      var init := log[..|log| - 1];
      Cleared(init, id) || (log[|log| - 1] == Forget(id, true) && SeenEmpty(id) in init)
  }

  /** The first k of the nodes have been cleared. */
  ghost predicate AllCleared(log: seq<Request>, nodes: seq<Node>, k: nat)
    requires k <= |nodes|
  {
    forall j :: 0 <= j < k ==> Cleared(log, nodes[j].id)
  }

  ghost predicate GroupCleared(log: seq<Request>, nodes: seq<Node>) {
    AllCleared(log, nodes, |nodes|)
  }

  /** All nodes of some statefulset of this name were seen empty and forgotten. */
  ghost predicate NameCleared(log: seq<Request>, names: seq<string>, members: seq<seq<Node>>, name: string)
    requires |names| == |members|
  {
    exists i :: 0 <= i < |names| && names[i] == name && GroupCleared(log, members[i])
  }

  /** Every deletion comes after all nodes of the statefulset were seen empty and forgotten. */
  ghost predicate DeletedWhenCleared(log: seq<Request>, names: seq<string>, members: seq<seq<Node>>)
    requires |names| == |members|
  {
    if log == [] then true
    else
      var init, last := log[..|log| - 1], log[|log| - 1];
      DeletedWhenCleared(init, names, members) && (last.Delete? ==> NameCleared(init, names, members, last.statefulSet))
  }

  /** The same, position by position. */
  lemma {:induction false} ClearedBefore(log: seq<Request>, names: seq<string>, members: seq<seq<Node>>, p: nat)
    requires |names| == |members| && DeletedWhenCleared(log, names, members) && p < |log| && log[p].Delete?
    ensures NameCleared(log[..p], names, members, log[p].statefulSet)
  {
    var init := log[..|log| - 1];
    if p < |init| {
      ClearedBefore(init, names, members, p);
      assert init[..p] == log[..p];
    } else {
      assert init == log[..p];
    }
  }

  /** The statefulsets whose deletion was asked for, in order. */
  ghost function Deletions(log: seq<Request>): seq<string> {
    if log == [] then []
    else Deletions(log[..|log| - 1]) + (if log[|log| - 1].Delete? then [log[|log| - 1].statefulSet] else [])
  }

  /** The names from the last one down to number k. */
  ghost function Downward(names: seq<string>, k: nat): seq<string>
    requires k <= |names|
    decreases |names| - k
  {
    if k == |names| then [] else Downward(names, k + 1) + [names[k]]
  }

  // ---------------------------------------------------------------- what a run asks for

  ghost function Disconnects(nodes: seq<Node>): seq<Request> {
    if nodes == [] then [] else Disconnects(nodes[..|nodes| - 1]) + [Request.Disconnect(nodes[|nodes| - 1].ip)]
  }

  /** Each node seen empty and then forgotten, in order. */
  ghost function Clearing(nodes: seq<Node>): seq<Request> {
    if nodes == [] then []
    else Clearing(nodes[..|nodes| - 1]) + [SeenEmpty(nodes[|nodes| - 1].id), Forget(nodes[|nodes| - 1].id, true)]
  }

  ghost function Removal(name: string, nodes: seq<Node>): seq<Request> {
    [LookUp(name, true)] + Clearing(nodes) + [Delete(name)]
  }

  /** What is asked for about a statefulset whose removal stops after its first j nodes. */
  ghost function Attempt(name: string, nodes: seq<Node>, j: nat, outcome: Outcome): seq<Request>
    requires j <= |nodes|
  {
    match outcome
    case Done => []
    case NoStatefulSet(_) => [LookUp(name, false)]
    case NotEmpty(_) => [LookUp(name, true)] + Clearing(nodes[..j])
    case ForgetFailed(n) => [LookUp(name, true)] + Clearing(nodes[..j]) + [SeenEmpty(n.id), Forget(n.id, false)]
  }

  /** The connections of the last statefulsets down to number k. */
  ghost function Closing(members: seq<seq<Node>>, k: nat): seq<Request>
    requires k <= |members|
    decreases |members| - k
  {
    if k == |members| then [] else Closing(members, k + 1) + Disconnects(members[k])
  }

  /** The removal of the last statefulsets down to number k. */
  ghost function Removals(names: seq<string>, members: seq<seq<Node>>, k: nat): seq<Request>
    requires k <= |names| == |members|
    decreases |names| - k
  {
    if k == |names| then [] else Removals(names, members, k + 1) + Removal(names[k], members[k])
  }

  /** The removal is done, or stopped at statefulset number k - 1 after its first j nodes. */
  ghost predicate StopsAt(members: seq<seq<Node>>, expected: nat, k: nat, j: nat, outcome: Outcome) {
    && expected <= k <= |members| && (outcome.Done? <==> k == expected)
    && (k > expected ==>
          && j <= |members[k - 1]|
          && (outcome.NotEmpty? || outcome.ForgetFailed? ==> j < |members[k - 1]| && outcome.node == members[k - 1][j]))
  }

  /** All requests of a run, from the first to the last. */
  ghost function RunLog(names: seq<string>, members: seq<seq<Node>>, expected: nat, k: nat, j: nat, outcome: Outcome): seq<Request>
    requires expected <= k <= |names| == |members| && (k > expected ==> j <= |members[k - 1]|)
  {
    Closing(members, expected) + Removals(names, members, k) +
    (if k == expected then [] else Attempt(names[k - 1], members[k - 1], j, outcome))
  }

  // ---------------------------------------------------------------- what follows from the requests

  ghost predicate Quiet(log: seq<Request>) {
    forall i :: 0 <= i < |log| ==> !log[i].Delete?
  }

  lemma {:induction false} QuietExtends(log: seq<Request>, more: seq<Request>, names: seq<string>, members: seq<seq<Node>>)
    requires |names| == |members| && DeletedWhenCleared(log, names, members) && Quiet(more)
    ensures DeletedWhenCleared(log + more, names, members) && Deletions(log + more) == Deletions(log)
  {
    if more == [] {
      assert log + more == log;
    } else {
      var init := more[..|more| - 1];
      QuietExtends(log, init, names, members);
      assert (log + more)[..|log + more| - 1] == log + init;
    }
  }

  lemma {:induction false} DisconnectsQuiet(nodes: seq<Node>)
    ensures Quiet(Disconnects(nodes))
  {
    if nodes != [] {
      DisconnectsQuiet(nodes[..|nodes| - 1]);
    }
  }

  lemma {:induction false} ClosingQuiet(members: seq<seq<Node>>, k: nat)
    requires k <= |members|
    ensures Quiet(Closing(members, k))
    decreases |members| - k
  {
    if k < |members| {
      ClosingQuiet(members, k + 1);
      DisconnectsQuiet(members[k]);
    }
  }

  lemma {:induction false} ClearingQuiet(nodes: seq<Node>)
    ensures Quiet(Clearing(nodes))
  {
    if nodes != [] {
      ClearingQuiet(nodes[..|nodes| - 1]);
    }
  }

  lemma AttemptQuiet(name: string, nodes: seq<Node>, j: nat, outcome: Outcome)
    requires j <= |nodes|
    ensures Quiet(Attempt(name, nodes, j, outcome))
  {
    ClearingQuiet(nodes[..j]);
  }

  lemma {:induction false} StillCleared(log: seq<Request>, more: seq<Request>, id: string)
    requires Cleared(log, id)
    ensures Cleared(log + more, id)
  {
    if more == [] {
      assert log + more == log;
    } else {
      var init := more[..|more| - 1];
      StillCleared(log, init, id);
      assert (log + more)[..|log + more| - 1] == log + init;
    }
  }

  lemma {:induction false} ClearingClears(log: seq<Request>, nodes: seq<Node>)
    ensures GroupCleared(log + Clearing(nodes), nodes)
  {
    if nodes != [] {
      var n, init := |nodes| - 1, nodes[..|nodes| - 1];
      ClearingClears(log, init);
      var e := [SeenEmpty(nodes[n].id), Forget(nodes[n].id, true)];
      assert log + Clearing(nodes) == log + Clearing(init) + e;
      forall j | 0 <= j < |nodes| ensures Cleared(log + Clearing(nodes), nodes[j].id) {
        if j < n {
          assert Cleared(log + Clearing(init), init[j].id);
          StillCleared(log + Clearing(init), e, nodes[j].id);
        } else {
          JustCleared(log + Clearing(init), nodes[n].id);
        }
      }
    }
  }

  lemma JustCleared(log: seq<Request>, id: string)
    ensures Cleared(log + [SeenEmpty(id), Forget(id, true)], id)
  {
    var all := log + [SeenEmpty(id), Forget(id, true)];
    assert all[..|all| - 1] == log + [SeenEmpty(id)];
    assert all[..|all| - 1][|log|] == SeenEmpty(id);
  }

  lemma RemovalOrder(log: seq<Request>, names: seq<string>, members: seq<seq<Node>>, i: nat)
    requires i < |names| == |members| && DeletedWhenCleared(log, names, members)
    ensures DeletedWhenCleared(log + Removal(names[i], members[i]), names, members)
    ensures Deletions(log + Removal(names[i], members[i])) == Deletions(log) + [names[i]]
  {
    var name, nodes := names[i], members[i];
    var before := log + [LookUp(name, true)] + Clearing(nodes);
    QuietExtends(log, [LookUp(name, true)], names, members);
    ClearingQuiet(nodes);
    QuietExtends(log + [LookUp(name, true)], Clearing(nodes), names, members);
    ClearingClears(log + [LookUp(name, true)], nodes);
    assert log + Removal(name, nodes) == before + [Delete(name)];
    assert (before + [Delete(name)])[..|before|] == before;
  }

  lemma {:induction false} RemovalsOrder(log: seq<Request>, names: seq<string>, members: seq<seq<Node>>, k: nat)
    requires k <= |names| == |members| && DeletedWhenCleared(log, names, members)
    ensures DeletedWhenCleared(log + Removals(names, members, k), names, members)
    ensures Deletions(log + Removals(names, members, k)) == Deletions(log) + Downward(names, k)
    decreases |names| - k
  {
    if k == |names| {
      assert log + [] == log;
    } else {
      RemovalsOrder(log, names, members, k + 1);
      OneMore(log, Removals(names, members, k + 1), names, members, k, Downward(names, k + 1));
    }
  }

  lemma OneMore(log: seq<Request>, done: seq<Request>, names: seq<string>, members: seq<seq<Node>>, i: nat, deleted: seq<string>)
    requires i < |names| == |members| && DeletedWhenCleared(log + done, names, members)
    requires Deletions(log + done) == Deletions(log) + deleted
    ensures DeletedWhenCleared(log + (done + Removal(names[i], members[i])), names, members)
    ensures Deletions(log + (done + Removal(names[i], members[i]))) == Deletions(log) + (deleted + [names[i]])
  {
    RemovalOrder(log + done, names, members, i);
    Associate(log, done, Removal(names[i], members[i]));
    AssociateNames(Deletions(log), deleted, [names[i]]);
  }

  lemma AssociateNames(a: seq<string>, b: seq<string>, c: seq<string>)
    ensures a + (b + c) == a + b + c
  {
  }

  lemma Associate(a: seq<Request>, b: seq<Request>, c: seq<Request>)
    ensures a + (b + c) == a + b + c
  {
  }

  ghost function MembersList(groups: Groups, names: seq<string>): (r: seq<seq<Node>>)
    ensures |r| == |names| && forall i :: 0 <= i < |names| ==> r[i] == Group(groups, names[i])
  {
    seq(|names|, i requires 0 <= i < |names| => Group(groups, names[i]))
  }

  /**
   * However a run ends, the deletions it asked for are those of the highest statefulsets, from the
   * top without a gap, each after all its nodes were seen empty and forgotten.
   */
  lemma RunLogOrder(log: seq<Request>, names: seq<string>, members: seq<seq<Node>>, expected: nat, k: nat, j: nat,
                    outcome: Outcome)
    requires |names| == |members| && DeletedWhenCleared(log, names, members)
    requires expected <= k <= |names| && (k > expected ==> j <= |members[k - 1]|)
    ensures var all := log + RunLog(names, members, expected, k, j, outcome);
            DeletedWhenCleared(all, names, members) && Deletions(all) == Deletions(log) + Downward(names, k)
  {
    var closing, removals := Closing(members, expected), Removals(names, members, k);
    ClosingQuiet(members, expected);
    QuietExtends(log, closing, names, members);
    RemovalsOrder(log + closing, names, members, k);
    var rest := if k == expected then [] else Attempt(names[k - 1], members[k - 1], j, outcome);
    if k > expected {
      AttemptQuiet(names[k - 1], members[k - 1], j, outcome);
    }
    QuietExtends(log + closing + removals, rest, names, members);
    WholeLog(log, closing, removals, rest);
  }

  // ---------------------------------------------------------------- whom the requests concern

  /** The request concerns a node of these, or one of these statefulsets. */
  ghost predicate Concerns(e: Request, nodes: seq<Node>, name: string) {
    match e
    case Disconnect(ip) => exists n :: n in nodes && n.ip == ip
    case SeenEmpty(id) => exists n :: n in nodes && n.id == id
    case Forget(id, _) => exists n :: n in nodes && n.id == id
    case LookUp(s, _) => s == name
    case Delete(s) => s == name
  }

  /** Every request concerns one of the statefulsets from number k on. */
  ghost predicate ConcernsFrom(log: seq<Request>, names: seq<string>, members: seq<seq<Node>>, k: int)
    requires |names| == |members|
  {
    forall p :: 0 <= p < |log| ==> ConcernsOne(log[p], names, members, k)
  }

  ghost predicate ConcernsOne(e: Request, names: seq<string>, members: seq<seq<Node>>, k: int)
    requires |names| == |members|
  {
    exists i :: 0 <= i < |names| && k <= i && Concerns(e, members[i], names[i])
  }

  lemma {:induction false} DisconnectsConcern(nodes: seq<Node>, name: string)
    ensures forall p :: 0 <= p < |Disconnects(nodes)| ==> Concerns(Disconnects(nodes)[p], nodes, name)
  {
    if nodes != [] {
      var init := nodes[..|nodes| - 1];
      DisconnectsConcern(init, name);
      forall p | 0 <= p < |Disconnects(nodes)| ensures Concerns(Disconnects(nodes)[p], nodes, name) {
        if p < |Disconnects(init)| {
          ConcernsMore(Disconnects(init)[p], init, nodes, name);
        } else {
          assert nodes[|nodes| - 1] in nodes;
        }
      }
    }
  }

  lemma ConcernsMore(e: Request, some: seq<Node>, nodes: seq<Node>, name: string)
    requires Concerns(e, some, name) && some <= nodes
    ensures Concerns(e, nodes, name)
  {
    assert forall n :: n in some ==> n in nodes;
  }

  lemma {:induction false} ClearingConcerns(nodes: seq<Node>, name: string)
    ensures forall p :: 0 <= p < |Clearing(nodes)| ==> Concerns(Clearing(nodes)[p], nodes, name)
  {
    if nodes != [] {
      var init := nodes[..|nodes| - 1];
      ClearingConcerns(init, name);
      forall p | 0 <= p < |Clearing(nodes)| ensures Concerns(Clearing(nodes)[p], nodes, name) {
        if p < |Clearing(init)| {
          ConcernsMore(Clearing(init)[p], init, nodes, name);
        } else {
          assert nodes[|nodes| - 1] in nodes;
        }
      }
    }
  }

  lemma ConcernsLift(log: seq<Request>, names: seq<string>, members: seq<seq<Node>>, k: nat, i: nat)
    requires |names| == |members| && k <= i < |names|
    requires forall p :: 0 <= p < |log| ==> Concerns(log[p], members[i], names[i])
    ensures ConcernsFrom(log, names, members, k)
  {
  }

  lemma ConcernsJoin(a: seq<Request>, b: seq<Request>, names: seq<string>, members: seq<seq<Node>>, k: int, l: int)
    requires |names| == |members| && k <= l && ConcernsFrom(a, names, members, l) && ConcernsFrom(b, names, members, k)
    ensures ConcernsFrom(a + b, names, members, k)
  {
    forall p | 0 <= p < |a + b| ensures ConcernsOne((a + b)[p], names, members, k) {
      if p < |a| {
        assert ConcernsOne(a[p], names, members, l);
      } else {
        assert ConcernsOne(b[p - |a|], names, members, k);
      }
    }
  }

  lemma {:induction false} ClosingConcerns(names: seq<string>, members: seq<seq<Node>>, k: nat)
    requires k <= |names| == |members|
    ensures ConcernsFrom(Closing(members, k), names, members, k)
    decreases |names| - k
  {
    if k < |names| {
      ClosingConcerns(names, members, k + 1);
      DisconnectsConcern(members[k], names[k]);
      ConcernsLift(Disconnects(members[k]), names, members, k, k);
      ConcernsJoin(Closing(members, k + 1), Disconnects(members[k]), names, members, k, k + 1);
    }
  }

  lemma {:induction false} RemovalsConcern(names: seq<string>, members: seq<seq<Node>>, k: nat)
    requires k <= |names| == |members|
    ensures ConcernsFrom(Removals(names, members, k), names, members, k)
    decreases |names| - k
  {
    if k < |names| {
      RemovalsConcern(names, members, k + 1);
      ClearingConcerns(members[k], names[k]);
      ConcernsLift(Removal(names[k], members[k]), names, members, k, k);
      ConcernsJoin(Removals(names, members, k + 1), Removal(names[k], members[k]), names, members, k, k + 1);
    }
  }

  lemma AttemptConcerns(names: seq<string>, members: seq<seq<Node>>, k: nat, j: nat, outcome: Outcome)
    requires k < |names| == |members| && j <= |members[k]|
    requires outcome.ForgetFailed? ==> outcome.node in members[k]
    ensures ConcernsFrom(Attempt(names[k], members[k], j, outcome), names, members, k)
  {
    var nodes, name := members[k], names[k];
    ClearingConcerns(nodes[..j], name);
    forall p | 0 <= p < |Clearing(nodes[..j])| ensures Concerns(Clearing(nodes[..j])[p], nodes, name) {
      ConcernsMore(Clearing(nodes[..j])[p], nodes[..j], nodes, name);
    }
    ConcernsLift(Attempt(name, nodes, j, outcome), names, members, k, k);
  }

  /**
   * No request of a run concerns a statefulset that stays, or one of its nodes; and apart from the
   * connections, none concerns a statefulset below the one at which the run stops.
   */
  lemma RunLogConcerns(names: seq<string>, members: seq<seq<Node>>, expected: nat, k: nat, j: nat, outcome: Outcome)
    requires |names| == |members| && StopsAt(members, expected, k, j, outcome)
    ensures ConcernsFrom(RunLog(names, members, expected, k, j, outcome), names, members, expected)
    ensures var closed := |Closing(members, expected)|;
            ConcernsFrom(RunLog(names, members, expected, k, j, outcome)[closed..], names, members, k - 1)
  {
    var closing, removals := Closing(members, expected), Removals(names, members, k);
    var rest := if k == expected then [] else Attempt(names[k - 1], members[k - 1], j, outcome);
    ClosingConcerns(names, members, expected);
    RemovalsConcern(names, members, k);
    if k > expected {
      AttemptConcerns(names, members, k - 1, j, outcome);
    }
    ConcernsParts(closing, removals, rest, names, members, expected, k);
  }

  lemma ConcernsParts(closing: seq<Request>, removals: seq<Request>, rest: seq<Request>, names: seq<string>,
                      members: seq<seq<Node>>, expected: nat, k: nat)
    requires |names| == |members| && expected <= k && ConcernsFrom(closing, names, members, expected)
    requires ConcernsFrom(removals, names, members, k)
    requires if k == expected then rest == [] else ConcernsFrom(rest, names, members, k - 1)
    ensures ConcernsFrom(closing + removals + rest, names, members, expected)
    ensures ConcernsFrom((closing + removals + rest)[|closing|..], names, members, k - 1)
  {
    ConcernsJoin(removals, rest, names, members, k - 1, k);
    Associate(closing, removals, rest);
    assert (closing + (removals + rest))[|closing|..] == removals + rest;
    if k == expected {
      assert removals + rest == removals;
    } else {
      ConcernsWeaken(removals + rest, names, members, k - 1, expected);
    }
    ConcernsJoin(closing, removals + rest, names, members, expected, expected);
  }

  lemma ConcernsWeaken(log: seq<Request>, names: seq<string>, members: seq<seq<Node>>, l: int, k: int)
    requires |names| == |members| && k <= l && ConcernsFrom(log, names, members, l)
    ensures ConcernsFrom(log, names, members, k)
  {
    forall p | 0 <= p < |log| ensures ConcernsOne(log[p], names, members, k) {
      assert ConcernsOne(log[p], names, members, l);
    }
  }

  // ---------------------------------------------------------------- the run

  /** A node with slots is refused, any other one forgotten. */
  method ForgetNode(kube: Kube, node: Node) returns (outcome: Outcome)
    modifies kube
    ensures outcome == Done || outcome == NotEmpty(node) || outcome == ForgetFailed(node)
    ensures outcome.NotEmpty? <==> node.slots != []
    ensures kube.log == old(kube.log) + if outcome.NotEmpty? then [] else [SeenEmpty(node.id), Forget(node.id, outcome.Done?)]
  {
    if |node.slots| > 0 {
      return NotEmpty(node);
    }
    var forgotten := *;
    kube.Record(SeenEmpty(node.id));
    kube.Record(Forget(node.id, forgotten));
    return if forgotten then Done else ForgetFailed(node);
  }

  /** Forgets the nodes of one statefulset; stops at a node with slots and at an error. */
  method ForgetNodes(kube: Kube, nodes: seq<Node>) returns (outcome: Outcome, ghost j: nat)
    modifies kube
    ensures !outcome.NoStatefulSet? && j <= |nodes| && (outcome.Done? <==> j == |nodes|)
    ensures forall i :: 0 <= i < j ==> nodes[i].slots == []
    ensures outcome.NotEmpty? ==> outcome.node == nodes[j] && nodes[j].slots != []
    ensures outcome.ForgetFailed? ==> outcome.node == nodes[j] && nodes[j].slots == []
    ensures kube.log == old(kube.log) + Clearing(nodes[..j]) +
                        if outcome.ForgetFailed? then [SeenEmpty(outcome.node.id), Forget(outcome.node.id, false)] else []
  {
    j := 0;
    for i := 0 to |nodes|
      invariant j == i && kube.log == old(kube.log) + Clearing(nodes[..i])
      invariant forall p :: 0 <= p < i ==> nodes[p].slots == []
    {
      ghost var before := kube.log;
      outcome := ForgetNode(kube, nodes[i]);
      if !outcome.Done? {
        return;
      }
      ClearingNext(old(kube.log), nodes, i);
      j := i + 1;
    }
    outcome := Done;
  }

  lemma ClearingNext(log: seq<Request>, nodes: seq<Node>, i: nat)
    requires i < |nodes|
    ensures log + Clearing(nodes[..i + 1]) ==
            log + Clearing(nodes[..i]) + [SeenEmpty(nodes[i].id), Forget(nodes[i].id, true)]
  {
    assert nodes[..i + 1][..i] == nodes[..i];
  }

  method Disconnect(kube: Kube, nodes: seq<Node>)
    modifies kube
    ensures kube.log == old(kube.log) + Disconnects(nodes)
  {
    for i := 0 to |nodes|
      invariant kube.log == old(kube.log) + Disconnects(nodes[..i])
    {
      assert nodes[..i + 1][..i] == nodes[..i];
      kube.Record(Request.Disconnect(nodes[i].ip));
    }
    assert nodes[..|nodes|] == nodes;
  }

  /** Closes the connections to all nodes that will go. */
  method DisconnectAll(kube: Kube, clusterName: string, current: nat, expected: nat, groups: Groups, ghost names: seq<string>)
    requires expected <= current == |names| && NamesAre(names, clusterName)
    modifies kube
    ensures kube.log == old(kube.log) + Closing(MembersList(groups, names), expected)
  {
    ghost var members := MembersList(groups, names);
    var i := current;
    while i > expected
      invariant expected <= i <= current && kube.log == old(kube.log) + Closing(members, i)
    {
      i := i - 1;
      assert NameIs(names, clusterName, i);
      Disconnect(kube, Group(groups, StsName(clusterName, i)));
      Associate(old(kube.log), Closing(members, i + 1), Disconnects(members[i]));
    }
  }

  /** No node of the statefulset has slots. */
  ghost predicate EmptyGroup(groups: Groups, name: string)
    reads All(groups)
  {
    forall n :: n in Group(groups, name) ==> n.slots == []
  }

  /** No node of the statefulsets from number k on has slots. */
  ghost predicate EmptyFrom(names: seq<string>, k: nat, groups: Groups)
    reads All(groups)
  {
    forall i :: k <= i < |names| ==> EmptyGroup(groups, names[i])
  }

  /** How many nodes at the front have no slots. */
  ghost function FirstFull(nodes: seq<Node>): (r: nat)
    reads nodes
    ensures r <= |nodes|
  {
    if nodes == [] then 0
    else
      var init := nodes[..|nodes| - 1];
      var r := FirstFull(init);
      if r == |init| && nodes[|init|].slots == [] then |nodes| else r
  }

  lemma {:induction false} FirstFullFacts(nodes: seq<Node>)
    ensures forall i :: 0 <= i < FirstFull(nodes) ==> nodes[i].slots == []
    ensures FirstFull(nodes) < |nodes| ==> nodes[FirstFull(nodes)].slots != []
  {
    if nodes != [] {
      FirstFullFacts(nodes[..|nodes| - 1]);
    }
  }

  lemma FirstFullIs(nodes: seq<Node>, j: nat)
    requires j <= |nodes| && forall i :: 0 <= i < j ==> nodes[i].slots == []
    ensures j <= FirstFull(nodes)
    ensures j < |nodes| && nodes[j].slots != [] ==> j == FirstFull(nodes)
    ensures j < |nodes| && nodes[j].slots == [] ==> j < FirstFull(nodes)
  {
    FirstFullFacts(nodes);
  }

  /** Where the removal of a statefulset stops, given how many of its nodes at the front have no slots. */
  ghost predicate Stop(nodes: seq<Node>, full: nat, j: nat, outcome: Outcome) {
    && j <= full <= |nodes|
    && match outcome
       case Done => full == |nodes|
       case NoStatefulSet(_) => true
       case NotEmpty(n) => j == full < |nodes| && n == nodes[j]
       case ForgetFailed(n) => j < full && n == nodes[j]
  }

  /** One statefulset: look it up, forget its nodes, delete it. */
  method RemoveStatefulSet(kube: Kube, name: string, nodes: seq<Node>) returns (outcome: Outcome, ghost j: nat)
    modifies kube
    ensures Stop(nodes, old(FirstFull(nodes)), j, outcome)
    ensures kube.log == old(kube.log) +
                        if outcome.Done? then Removal(name, nodes) else Attempt(name, nodes, j, outcome)
  {
    ghost var full := FirstFull(nodes);
    var found := *;
    kube.Record(LookUp(name, found));
    if !found {
      return NoStatefulSet(name), 0;
    }
    outcome, j := ForgetNodes(kube, nodes);
    assert FirstFull(nodes) == full;
    FirstFullIs(nodes, j);
    AttemptLog(old(kube.log), name, nodes, j, outcome);
    if outcome.Done? {
      kube.Record(Delete(name));
    }
  }

  lemma AttemptLog(log: seq<Request>, name: string, nodes: seq<Node>, j: nat, outcome: Outcome)
    requires j <= |nodes| && !outcome.NoStatefulSet? && (outcome.Done? <==> j == |nodes|)
    ensures var all := log + [LookUp(name, true)] + Clearing(nodes[..j]) +
                       if outcome.ForgetFailed? then [SeenEmpty(outcome.node.id), Forget(outcome.node.id, false)] else [];
            if outcome.Done? then all + [Delete(name)] == log + Removal(name, nodes)
            else all == log + Attempt(name, nodes, j, outcome)
  {
    assert nodes[..|nodes|] == nodes;
    var more := if outcome.ForgetFailed? then [SeenEmpty(outcome.node.id), Forget(outcome.node.id, false)]
                else if outcome.Done? then [Delete(name)] else [];
    WholeLog(log, [LookUp(name, true)], Clearing(nodes[..j]), more);
    Plain(log + [LookUp(name, true)] + Clearing(nodes[..j]));
    Plain([LookUp(name, true)] + Clearing(nodes[..j]));
  }

  lemma Plain(log: seq<Request>)
    ensures log + [] == log
  {
  }

  ghost function Listed(members: seq<seq<Node>>): (r: set<Node>)
    ensures forall i, n :: 0 <= i < |members| && n in members[i] ==> n in r
  {
    set i, n | 0 <= i < |members| && n in members[i] :: n
  }

  /** For each statefulset, full says how many of its nodes at the front have no slots. */
  ghost predicate FullsAre(members: seq<seq<Node>>, full: seq<nat>)
    reads Listed(members)
  {
    |full| == |members| && forall i :: 0 <= i < |members| ==> full[i] == FirstFull(members[i])
  }

  /** No node of the statefulsets from number k on has slots. */
  ghost predicate AllEmpty(members: seq<seq<Node>>, full: seq<nat>, k: nat) {
    |full| == |members| && forall i :: k <= i < |members| ==> full[i] == |members[i]|
  }

  /** The removals did what the slots of the nodes call for. */
  ghost predicate Fits(members: seq<seq<Node>>, full: seq<nat>, expected: nat, k: nat, j: nat, outcome: Outcome) {
    && expected <= k <= |members| && (outcome.Done? <==> k == expected)
    && AllEmpty(members, full, k)
    && (k > expected ==> Stop(members[k - 1], full[k - 1], j, outcome))
  }

  /** Statefulset number i. */
  method RemoveNumber(kube: Kube, clusterName: string, i: nat, groups: Groups, ghost names: seq<string>,
                      ghost members: seq<seq<Node>>, ghost full: nat)
    returns (outcome: Outcome, ghost j: nat)
    requires i < |names| && NamesAre(names, clusterName) && members == MembersList(groups, names)
    requires full == FirstFull(members[i])
    modifies kube
    ensures Stop(members[i], full, j, outcome)
    ensures kube.log == old(kube.log) +
                        if outcome.Done? then Removal(names[i], members[i]) else Attempt(names[i], members[i], j, outcome)
  {
    var name := StsName(clusterName, i);
    assert NameIs(names, clusterName, i);
    outcome, j := RemoveStatefulSet(kube, name, Group(groups, name));
  }

  lemma OneFits(members: seq<seq<Node>>, full: seq<nat>, expected: nat, i: nat, j: nat, outcome: Outcome)
    requires expected <= i < |members| && AllEmpty(members, full, i + 1) && Stop(members[i], full[i], j, outcome)
    ensures if outcome.Done? then AllEmpty(members, full, i) else Fits(members, full, expected, i + 1, j, outcome)
  {
  }

  method RemoveAll(kube: Kube, clusterName: string, expected: nat, current: nat, groups: Groups, ghost names: seq<string>,
                   ghost members: seq<seq<Node>>, ghost full: seq<nat>)
    returns (outcome: Outcome, ghost k: nat, ghost j: nat)
    requires expected <= current == |names| && NamesAre(names, clusterName)
    requires members == MembersList(groups, names) && FullsAre(members, full)
    modifies kube
    ensures Fits(members, full, expected, k, j, outcome)
    ensures kube.log == old(kube.log) + Removals(names, members, k) +
                        if k == expected then [] else Attempt(names[k - 1], members[k - 1], j, outcome)
  {
    k, j := current, 0;
    var i := current;
    while i > expected
      invariant expected <= i == k <= current
      invariant AllEmpty(members, full, i)
      invariant kube.log == old(kube.log) + Removals(names, members, i)
    {
      i := i - 1;
      assert full[i] == old(FirstFull(members[i]));
      outcome, j := RemoveNumber(kube, clusterName, i, groups, names, members, full[i]);
      OneFits(members, full, expected, i, j, outcome);
      if !outcome.Done? {
        return;
      }
      Associate(old(kube.log), Removals(names, members, i + 1), Removal(names[i], members[i]));
      k := i;
    }
    outcome := Done;
  }

  /**
   * What the nodes show of the removals: the statefulsets that are gone had no slots, nor had the nodes
   * that were cleared before the removals stopped, or the one at which a FORGET failed; and a node
   * with slots stopped them only if there was one.
   */
  ghost predicate Shows(names: seq<string>, groups: Groups, expected: nat, k: nat, j: nat, outcome: Outcome)
    reads All(groups)
  {
    && EmptyFrom(names, k, groups)
    && (outcome.NotEmpty? ==> !EmptyFrom(names, expected, groups))
    && (expected < k <= |names| ==> EmptyFront(groups, names[k - 1], if outcome.ForgetFailed? then j + 1 else j))
  }

  ghost predicate EmptyFront(groups: Groups, name: string, j: nat)
    reads All(groups)
  {
    forall i :: 0 <= i < j && i < |Group(groups, name)| ==>
                  Group(groups, name)[i] in Group(groups, name) && Group(groups, name)[i].slots == []
  }

  lemma FitsShows(names: seq<string>, groups: Groups, members: seq<seq<Node>>, full: seq<nat>, expected: nat, k: nat, j: nat,
                  outcome: Outcome)
    requires members == MembersList(groups, names) && FullsAre(members, full) && Fits(members, full, expected, k, j, outcome)
    ensures Shows(names, groups, expected, k, j, outcome)
  {
    forall i | k <= i < |names| ensures EmptyGroup(groups, names[i]) {
      FirstFullFacts(members[i]);
    }
    if k > expected {
      FirstFullFacts(members[k - 1]);
      if outcome.NotEmpty? {
        assert outcome.node in Group(groups, names[k - 1]) && outcome.node.slots != [];
        assert !EmptyGroup(groups, names[k - 1]);
      }
    }
  }

  lemma FitsStops(members: seq<seq<Node>>, full: seq<nat>, expected: nat, k: nat, j: nat, outcome: Outcome)
    requires Fits(members, full, expected, k, j, outcome)
    ensures StopsAt(members, expected, k, j, outcome)
  {
  }

  lemma ReadFulls(members: seq<seq<Node>>) returns (full: seq<nat>)
    ensures FullsAre(members, full)
  {
    full := [];
    for i := 0 to |members|
      invariant |full| == i && forall l :: 0 <= l < i ==> full[l] == FirstFull(members[l])
    {
      full := full + [FirstFull(members[i])];
    }
  }

  /** Connections first, then the statefulsets. */
  method CloseAndRemove(kube: Kube, clusterName: string, expected: nat, current: nat, groups: Groups, ghost names: seq<string>,
                        ghost members: seq<seq<Node>>, ghost full: seq<nat>)
    returns (outcome: Outcome, ghost k: nat, ghost j: nat)
    requires expected <= current == |names| && NamesAre(names, clusterName)
    requires members == MembersList(groups, names) && FullsAre(members, full)
    modifies kube
    ensures Fits(members, full, expected, k, j, outcome)
    ensures kube.log == old(kube.log) + RunLog(names, members, expected, k, j, outcome)
  {
    DisconnectAll(kube, clusterName, current, expected, groups, names);
    forall i | 0 <= i < |members| ensures full[i] == FirstFull(members[i]) {
      assert full[i] == old(FirstFull(members[i]));
    }
    outcome, k, j := RemoveAll(kube, clusterName, expected, current, groups, names, members, full);
    WholeLog(old(kube.log), Closing(members, expected), Removals(names, members, k),
             if k == expected then [] else Attempt(names[k - 1], members[k - 1], j, outcome));
  }

  lemma WholeLog(log: seq<Request>, a: seq<Request>, b: seq<Request>, c: seq<Request>)
    ensures log + a + b + c == log + (a + b + c)
  {
  }

  /** The requests between the two logs are exactly those of a run that stops there. */
  ghost predicate RunIs(log0: seq<Request>, log: seq<Request>, names: seq<string>, members: seq<seq<Node>>, expected: nat, k: nat,
                        j: nat, outcome: Outcome)
  {
    && |names| == |members| && StopsAt(members, expected, k, j, outcome)
    && log == log0 + RunLog(names, members, expected, k, j, outcome)
  }

  /**
   * Between the two logs the statefulsets from the top down to number k were deleted, each after its
   * nodes were seen empty and forgotten, and nothing was asked about a statefulset below expected.
   */
  ghost predicate Removed(log0: seq<Request>, log: seq<Request>, names: seq<string>, members: seq<seq<Node>>, expected: nat, k: nat) {
    && expected <= k <= |names| == |members| && log0 <= log
    && DeletedWhenCleared(log, names, members) && Deletions(log) == Deletions(log0) + Downward(names, k)
    && ConcernsFrom(log[|log0|..], names, members, expected)
  }

  lemma RunRemoves(log0: seq<Request>, log: seq<Request>, names: seq<string>, members: seq<seq<Node>>, expected: nat, k: nat, j: nat,
                   outcome: Outcome)
    requires RunIs(log0, log, names, members, expected, k, j, outcome) && DeletedWhenCleared(log0, names, members)
    ensures Removed(log0, log, names, members, expected, k)
  {
    RunLogOrder(log0, names, members, expected, k, j, outcome);
    RunLogConcerns(names, members, expected, k, j, outcome);
    assert log[|log0|..] == RunLog(names, members, expected, k, j, outcome);
  }

  /**
   * The whole run, request by request: connections of all nodes that will go, then the statefulsets
   * from the top, each looked up, its nodes seen empty and forgotten, and deleted, until all of
   * [expected, current) are gone or one step fails; at a node that still has slots, exactly if none
   * failed before. So however the run ends, the deletions are those of the highest statefulsets
   * without a gap, each after its nodes were seen empty and forgotten, all of them exactly on
   * success; and no request concerns what stays.
   */
  method ScaleDown(kube: Kube, clusterName: string, current: nat, expected: nat, groups: Groups, ghost names: seq<string>,
                   ghost members: seq<seq<Node>>, ghost full: seq<nat>)
    returns (outcome: Outcome, ghost k: nat, ghost j: nat)
    requires expected <= current == |names| && NamesAre(names, clusterName)
    requires members == MembersList(groups, names) && FullsAre(members, full)
    requires DeletedWhenCleared(kube.log, names, members)
    modifies kube
    ensures RunIs(old(kube.log), kube.log, names, members, expected, k, j, outcome)
    ensures Fits(members, full, expected, k, j, outcome)
    ensures Removed(old(kube.log), kube.log, names, members, expected, k)
  {
    ghost var log0 := kube.log;
    outcome, k, j := CloseAndRemove(kube, clusterName, expected, current, groups, names, members, full);
    FitsStops(members, full, expected, k, j, outcome);
    RunRemoves(log0, kube.log, names, members, expected, k, j, outcome);
  }

  /** If no node that will go has slots, the removal never stops at one. */
  lemma NoneFull(names: seq<string>, groups: Groups, members: seq<seq<Node>>, full: seq<nat>, expected: nat)
    requires members == MembersList(groups, names) && FullsAre(members, full) && EmptyFrom(names, expected, groups)
    ensures forall k: nat, j: nat, outcome :: Fits(members, full, expected, k, j, outcome) ==> !outcome.NotEmpty?
  {
    forall i | expected <= i < |names| ensures full[i] == |members[i]| {
      assert EmptyGroup(groups, names[i]);
      FirstFullFacts(members[i]);
    }
  }
}
