/** Running the batches: DispatchSlotToNewMasters in controllers/clustering/migration.go. */
module MigrationExec {
  import opened Arithmetic
  import opened Lists
  import opened SlotLists
  import opened Nodes
  import opened RedisModel
  import opened KeyMigration
  import opened Ownership
  import opened CrashPoints
  import opened MigrationPlan
  import opened MigrationBatches

  // ---------------------------------------------------------------- the commands of one batch

  ghost predicate LossOk(before: Claims, after: Claims, source: string, target: string, slots: set<Slot>,
                         x: string, s: Slot)
  {
    && (s in SlotsOf(after, x) ==> s in SlotsOf(before, x))
    && (s in SlotsOf(before, x) && s !in SlotsOf(after, x) ==> x != source && x != target && s in slots)
  }

  /** Nothing is claimed that was not; only bystanders lose, and only the given slots. */
  ghost predicate BystandersLose(before: Claims, after: Claims, source: string, target: string, slots: set<Slot>) {
    forall x, s :: LossOk(before, after, source, target, slots, x, s)
  }

  lemma BystandersStep(a: Claims, b: Claims, events: seq<Event>, on: string, source: string, target: string,
                       slots: seq<Slot>, store: Store)
    requires on != source && on != target
    requires SetSlotEvents(events, on, Owner, slots, target, store) && b == Replay(a, events)
    ensures BystandersLose(a, b, source, target, Elems(slots))
  {
    forall x, s ensures LossOk(a, b, source, target, Elems(slots), x, s) {
      if x == on {
        SourceClaims(a, events, on, target, s);
        if i :| 0 <= i < |events| && events[i].took && Announces(events[i], on, s) {
          assert slots[i] == s;
        }
      } else {
        Untouched(a, events, x, s);
      }
    }
  }

  /** Commands on other nodes do not matter to a node. */
  lemma {:induction false} Untouched(claims: Claims, events: seq<Event>, x: string, s: Slot)
    requires forall i :: 0 <= i < |events| ==> events[i].cmd.SetSlot? && events[i].cmd.on != x
    ensures s in SlotsOf(Replay(claims, events), x) <==> s in SlotsOf(claims, x)
  {
    if events != [] {
      Untouched(claims, events[..|events| - 1], x, s);
    }
  }

  lemma BystandersTransitive(a: Claims, b: Claims, c: Claims, source: string, target: string, slots: set<Slot>)
    requires BystandersLose(a, b, source, target, slots) && BystandersLose(b, c, source, target, slots)
    ensures BystandersLose(a, c, source, target, slots)
  {
    forall x, s ensures LossOk(a, c, source, target, slots, x, s) {
      assert LossOk(a, b, source, target, slots, x, s) && LossOk(b, c, source, target, slots, x, s);
    }
  }

  /** IMPORTING on the target and MIGRATING on the source, naming each other. */
  ghost function Opening(source: string, target: string, slots: seq<Slot>): seq<Command> {
    SetSlotCommands(target, Importing, slots, source) + SetSlotCommands(source, Migrating, slots, target)
  }

  /** SETSLOT NODE on the target, then on the source. */
  ghost function HandOver(source: string, target: string, slots: seq<Slot>): seq<Command> {
    SetSlotCommands(target, Owner, slots, target) + SetSlotCommands(source, Owner, slots, target)
  }

  /** What a master is told: nothing if it is source or target or has no slots. */
  ghost function TellingOne(m: Node, source: Node, target: Node, slots: seq<Slot>): seq<Command>
    reads m
  {
    if m.ip == target.ip || m.ip == source.ip || m.slots == [] then []
    else SetSlotCommands(m.id, Owner, slots, target.id)
  }

  ghost function Tellings(masters: seq<Node>, source: Node, target: Node, slots: seq<Slot>): (r: seq<seq<Command>>)
    reads masters
    ensures |r| == |masters| && forall i :: 0 <= i < |masters| ==> r[i] == TellingOne(masters[i], source, target, slots)
  {
    if masters == [] then []
    else Tellings(masters[..|masters| - 1], source, target, slots) + [TellingOne(masters[|masters| - 1], source, target, slots)]
  }

  lemma FlattenNext(plan: seq<seq<Command>>, i: nat)
    requires i < |plan|
    ensures Flatten(plan[..i + 1]) == Flatten(plan[..i]) + plan[i]
  {
    assert plan[..i + 1][..i] == plan[..i];
  }

  /** All commands of a batch with a source. */
  ghost function BatchCommands(source: Node, target: Node, slots: seq<Slot>, masters: seq<Node>): seq<Command>
    reads masters
  {
    Opening(source.id, target.id, slots) + HandOver(source.id, target.id, slots) +
    Flatten(Tellings(masters, source, target, slots))
  }

  lemma BatchSends(first: seq<Event>, rest: seq<Event>, source: Node, target: Node, slots: seq<Slot>, masters: seq<Node>)
    requires Commands(first) == Opening(source.id, target.id, slots)
    requires Commands(rest) == HandOver(source.id, target.id, slots) + Flatten(Tellings(masters, source, target, slots))
    ensures Commands(first + rest) == BatchCommands(source, target, slots, masters)
  {
    CommandsConcat(first, rest);
  }

  // ---------------------------------------------------------------- keys before ownership

  lemma Joined(t: seq<Event>, a: seq<Event>, b: seq<Event>)
    ensures t + (a + b) == t + a + b
  {
  }

  lemma TakeEmptyJoin(a: seq<Event>, b: seq<Event>)
    requires AllTakeEmpty(a) && AllTakeEmpty(b)
    ensures AllTakeEmpty(a + b)
  {
  }

  /** The node has no keys of the slots. */
  ghost predicate EmptyOf(store: Store, x: string, slots: seq<Slot>) {
    forall s :: s in slots ==> KeysAt(store, x, s) == {}
  }

  lemma TellEmpty(events: seq<Event>, on: string, action: Action, slots: seq<Slot>, arg: string, store: Store)
    requires SetSlotEvents(events, on, action, slots, arg, store)
    requires action != Owner || arg == on || EmptyOf(store, on, slots)
    ensures AllTakeEmpty(events)
  {
  }

  lemma DrainedEmpty(store: Store, source: string, target: string, slots: seq<Slot>)
    requires source != target
    ensures EmptyOf(Drained(store, source, target, Elems(slots)), source, slots)
  {
    var after := Drained(store, source, target, Elems(slots));
    forall s | s in slots ensures KeysAt(after, source, s) == {} {
      forall k ensures k !in KeysAt(after, source, s) {
        KeysAtMember(after, source, s, k);
        DrainedMember(store, source, target, Elems(slots), source, s, k);
      }
    }
  }

  /** Only source and target have keys of the slots. */
  ghost predicate OthersEmpty(store: Store, source: string, target: string, slots: seq<Slot>) {
    forall x :: x != source && x != target ==> EmptyOf(store, x, slots)
  }

  /** Addresses identify nodes as ids do. */
  ghost predicate UniqueAddresses(nodes: set<Node>) {
    forall a, b :: a in nodes && b in nodes ==> (a.ip == b.ip <==> a.id == b.id)
  }

  /** What can be said of events that tell others, sent after earlier ones. */
  ghost predicate Tells(before: seq<Event>, sent: seq<Event>, claims0: Claims, claims: Claims, store: Store, source: string,
                        target: string, slots: seq<Slot>)
  {
    && InOrder(before + sent, target) && AllTold(before + sent, target, slots) && claims == Replay(claims0, sent)
    && BystandersLose(claims0, claims, source, target, Elems(slots))
    && (OthersEmpty(store, source, target, slots) ==> AllTakeEmpty(sent))
  }

  lemma TellsMore(before: seq<Event>, sent: seq<Event>, told: seq<Event>, c0: Claims, c1: Claims, c2: Claims, store: Store,
                  source: string, target: string, slots: seq<Slot>)
    requires Tells(before, sent, c0, c1, store, source, target, slots)
    requires Tells(before + sent, told, c1, c2, store, source, target, slots)
    ensures Tells(before, sent + told, c0, c2, store, source, target, slots)
  {
    assert before + sent + told == before + (sent + told);
    ReplayConcat(c0, sent, told);
    BystandersTransitive(c0, c1, c2, source, target, Elems(slots));
  }

  lemma TellsNothing(before: seq<Event>, claims: Claims, store: Store, source: string, target: string, slots: seq<Slot>)
    requires InOrder(before, target) && AllTold(before, target, slots)
    ensures Tells(before, [], claims, claims, store, source, target, slots)
  {
    assert before + [] == before;
  }

  lemma TellsBy(before: seq<Event>, told: seq<Event>, claims0: Claims, claims: Claims, store: Store, on: string, source: string,
                target: string, slots: seq<Slot>)
    requires on != source && on != target && InOrder(before, target) && AllTold(before, target, slots)
    requires SetSlotEvents(told, on, Owner, slots, target, store) && claims == Replay(claims0, told)
    ensures Tells(before, told, claims0, claims, store, source, target, slots)
  {
    BystandersStep(claims0, claims, told, on, source, target, slots, store);
    AllToldLater(before, told, target, slots);
    InOrderTell(before, told, on, target, slots, store);
    if OthersEmpty(store, source, target, slots) {
      TellEmpty(told, on, Owner, slots, target, store);
    }
  }

  /** Tells one master; source, target and masters without slots are left out. */
  method TellOne(redis: Redis, master: Node, source: Node, target: Node, slots: seq<Slot>, ghost before: seq<Event>)
    returns (ghost told: seq<Event>)
    requires UniqueAddresses({master, source, target})
    requires InOrder(before, target.id) && AllTold(before, target.id, slots)
    modifies redis`claims, redis`trace, redis`failed
    ensures redis.trace == old(redis.trace) + told
    ensures (old(redis.failed) ==> redis.failed) && (redis.failed ==> old(redis.failed) || redis.faulty)
    ensures Tells(before, told, old(redis.claims), redis.claims, redis.store, source.id, target.id, slots)
    ensures Commands(told) == TellingOne(master, source, target, slots)
  {
    told := [];
    TellsNothing(before, redis.claims, redis.store, source.id, target.id, slots);
    if master.ip == target.ip || master.ip == source.ip {
      return;
    }
    if |master.slots| == 0 {
      return;
    }
    var ok;
    ok, told := redis.SetSlots(master.id, Owner, slots, target.id);
    TellsBy(before, told, old(redis.claims), redis.claims, redis.store, master.id, source.id, target.id, slots);
    SetSlotSends(told, master.id, Owner, slots, target.id, redis.store);
  }

  /** The same with the events that were sent to others before. */
  method TellNext(redis: Redis, master: Node, source: Node, target: Node, slots: seq<Slot>, ghost before: seq<Event>,
                  ghost sent: seq<Event>, ghost trace0: seq<Event>, ghost claims0: Claims) returns (ghost sent': seq<Event>)
    requires UniqueAddresses({master, source, target}) && redis.trace == trace0 + sent
    requires Tells(before, sent, claims0, redis.claims, redis.store, source.id, target.id, slots)
    modifies redis`claims, redis`trace, redis`failed
    ensures redis.trace == trace0 + sent'
    ensures (old(redis.failed) ==> redis.failed) && (redis.failed ==> old(redis.failed) || redis.faulty)
    ensures Tells(before, sent', claims0, redis.claims, redis.store, source.id, target.id, slots)
    ensures Commands(sent') == Commands(sent) + TellingOne(master, source, target, slots)
  {
    ghost var was := redis.claims;
    ghost var told := TellOne(redis, master, source, target, slots, before + sent);
    TellsMore(before, sent, told, claims0, was, redis.claims, redis.store, source.id, target.id, slots);
    CommandsConcat(sent, told);
    sent' := sent + told;
  }

  lemma SomeAddresses(nodes: set<Node>, some: set<Node>)
    requires UniqueAddresses(nodes) && some <= nodes
    ensures UniqueAddresses(some)
  {
  }

  /** Tells every other master with slots who the new owner is; failures are only logged. */
  method TellOthers(redis: Redis, allMasters: seq<Node>, source: Node, target: Node, slots: seq<Slot>, ghost before: seq<Event>)
    returns (ghost sent: seq<Event>)
    requires source.id != target.id && UniqueAddresses(Elems(allMasters) + {source, target})
    requires InOrder(before, target.id) && AllTold(before, target.id, slots)
    modifies redis`claims, redis`trace, redis`failed
    ensures redis.trace == old(redis.trace) + sent
    ensures (old(redis.failed) ==> redis.failed) && (redis.failed ==> old(redis.failed) || redis.faulty)
    ensures Tells(before, sent, old(redis.claims), redis.claims, redis.store, source.id, target.id, slots)
    ensures Commands(sent) == Flatten(Tellings(allMasters, source, target, slots))
  {
    sent := [];
    ghost var plan := Tellings(allMasters, source, target, slots);
    TellsNothing(before, redis.claims, redis.store, source.id, target.id, slots);
    for i := 0 to |allMasters|
      invariant redis.trace == old(redis.trace) + sent
      invariant (old(redis.failed) ==> redis.failed) && (redis.failed ==> old(redis.failed) || redis.faulty)
      invariant Tells(before, sent, old(redis.claims), redis.claims, redis.store, source.id, target.id, slots)
      invariant Commands(sent) == Flatten(plan[..i])
    {
      assert plan[i] == old(TellingOne(allMasters[i], source, target, slots));
      FlattenNext(plan, i);
      SomeAddresses(Elems(allMasters) + {source, target}, {allMasters[i], source, target});
      sent := TellNext(redis, allMasters[i], source, target, slots, before, sent, old(redis.trace), old(redis.claims));
    }
    assert plan[..|plan|] == plan;
  }

  /** IMPORTING on the target, then MIGRATING on the source; an error of either ends the run. */
  method OpenSlots(redis: Redis, source: string, target: string, slots: seq<Slot>) returns (ok: bool, ghost sent: seq<Event>)
    requires source != target
    modifies redis`claims, redis`trace, redis`failed
    ensures redis.trace == old(redis.trace) + sent && InOrder(sent, target)
    ensures redis.claims == old(redis.claims) == Replay(old(redis.claims), sent)
    ensures Commands(sent) <= Opening(source, target, slots)
    ensures ok ==> Commands(sent) == Opening(source, target, slots)
    ensures redis.failed == (old(redis.failed) || !ok)
    ensures ok || redis.faulty
    ensures AllTakeEmpty(sent)
  {
    ghost var a, b;
    ok, a := redis.SetSlots(target, Importing, slots, source);
    ReplaySetSlots(old(redis.claims), a, target, Importing, slots, source, redis.store);
    QuietOrder(a, target);
    TellEmpty(a, target, Importing, slots, source, redis.store);
    SetSlotSends(a, target, Importing, slots, source, redis.store);
    sent := a;
    if !ok {
      return;
    }
    ok, b := redis.SetSlots(source, Migrating, slots, target);
    ReplaySetSlots(old(redis.claims), b, source, Migrating, slots, target, redis.store);
    TellEmpty(b, source, Migrating, slots, target, redis.store);
    sent := a + b;
    ReplayConcat(old(redis.claims), a, b);
    SetSlotSends(b, source, Migrating, slots, target, redis.store);
    CommandsConcat(a, b);
    QuietOrder(sent, target);
  }

  /** SETSLOT NODE on the target, then on the source; errors are only logged. */
  method HandOverSlots(redis: Redis, source: string, target: string, slots: seq<Slot>, ghost before: seq<Event>)
    returns (ghost sent: seq<Event>)
    requires source != target && slots != [] && InOrder(before, target)
    modifies redis`claims, redis`trace, redis`failed
    ensures redis.trace == old(redis.trace) + sent && InOrder(before + sent, target) && AllTold(before + sent, target, slots)
    ensures (old(redis.failed) ==> redis.failed) && (redis.failed ==> old(redis.failed) || redis.faulty)
    ensures redis.claims == Replay(old(redis.claims), sent)
    ensures !redis.failed ==> redis.claims == Reassign(old(redis.claims), source, target, Elems(slots))
    ensures Commands(sent) == HandOver(source, target, slots)
    ensures EmptyOf(redis.store, source, slots) ==> AllTakeEmpty(sent)
  {
    ghost var c, d;
    var ok;
    ok, c := redis.SetSlots(target, Owner, slots, target);
    ReplaySetSlots(old(redis.claims), c, target, Owner, slots, target, redis.store);
    ghost var claims := redis.claims;
    ok, d := redis.SetSlots(source, Owner, slots, target);
    ReplaySetSlots(claims, d, source, Owner, slots, target, redis.store);
    sent := c + d;
    ReplayConcat(old(redis.claims), c, d);
    SetSlotSends(c, target, Owner, slots, target, redis.store);
    SetSlotSends(d, source, Owner, slots, target, redis.store);
    CommandsConcat(c, d);
    HandOverOrder(before, c, d, slots, source, target, redis.store);
    TellEmpty(c, target, Owner, slots, target, redis.store);
    if EmptyOf(redis.store, source, slots) {
      TellEmpty(d, source, Owner, slots, target, redis.store);
    }
  }

  lemma HandOverOrder(before: seq<Event>, c: seq<Event>, d: seq<Event>, slots: seq<Slot>, source: string, target: string,
                      store: Store)
    requires source != target && InOrder(before, target)
    requires SetSlotEvents(c, target, Owner, slots, target, store)
    requires SetSlotEvents(d, source, Owner, slots, target, store)
    ensures InOrder(before + (c + d), target) && AllTold(before + (c + d), target, slots)
  {
    InOrderTell(before, c, target, target, slots, store);
    InOrderTell(before + c, d, source, target, slots, store);
    AllToldLater(before + c, d, target, slots);
    assert before + c + d == before + (c + d);
  }

  // ---------------------------------------------------------------- ownership

  ghost predicate ClaimOk(claims: Claims, own: OwnerMap, x: string, s: Slot) {
    s in SlotsOf(claims, x) <==> s in own && own[s].id == x
  }

  /** What the Redis nodes claim is what the owner map says. */
  ghost predicate ClaimsMatch(claims: Claims, own: OwnerMap) {
    forall x, s :: ClaimOk(claims, own, x, s)
  }

  lemma BatchClaims(c0: Claims, c1: Claims, c2: Claims, own: OwnerMap, source: Node, target: Node, slots: seq<Slot>)
    requires source.id != target.id && ClaimsMatch(c0, own)
    requires forall s :: s in slots ==> s in own && own[s] == source
    requires c1 == Reassign(c0, source.id, target.id, Elems(slots))
    requires BystandersLose(c1, c2, source.id, target.id, Elems(slots))
    ensures ClaimsMatch(c2, Assign(own, slots, target))
  {
    forall x, s ensures ClaimOk(c2, Assign(own, slots, target), x, s) {
      AssignMember(own, slots, target, s);
      assert ClaimOk(c0, own, x, s) && LossOk(c1, c2, source.id, target.id, Elems(slots), x, s);
      ReassignSlotsOf(c0, source.id, target.id, Elems(slots), x);
    }
  }

  lemma MatchFunctional(claims: Claims, own: OwnerMap)
    requires ClaimsMatch(claims, own)
    ensures Functional(claims)
  {
    forall x, y, s | s in SlotsOf(claims, x) && s in SlotsOf(claims, y) ensures x == y {
      assert ClaimOk(claims, own, x, s) && ClaimOk(claims, own, y, s);
    }
  }

  /** Keys that moved with the slots are at the owner; bystanders had none. */
  lemma BatchKeys(c0: Claims, c1: Claims, c2: Claims, store: Store, own: OwnerMap, source: Node, target: Node,
                  slots: seq<Slot>)
    requires source.id != target.id && ClaimsMatch(c0, own) && KeysAtOwner(c0, store)
    requires forall s :: s in slots ==> s in own && own[s] == source
    requires c1 == Reassign(c0, source.id, target.id, Elems(slots))
    requires BystandersLose(c1, c2, source.id, target.id, Elems(slots))
    ensures KeysAtOwner(c2, Drained(store, source.id, target.id, Elems(slots)))
  {
    DrainKeysAtOwner(c0, store, source.id, target.id, Elems(slots));
    forall x, s, k | (x, s, k) in Drained(store, source.id, target.id, Elems(slots))
      ensures s in SlotsOf(c2, x)
    {
      assert s in SlotsOf(c1, x);
      assert LossOk(c1, c2, source.id, target.id, Elems(slots), x, s);
      if s in Elems(slots) {
        ReassignSlotsOf(c0, source.id, target.id, Elems(slots), x);
        assert ClaimOk(c0, own, x, s);
      }
    }
  }

  lemma BatchBooks(c0: Claims, c1: Claims, c2: Claims, store: Store, own: OwnerMap, source: Node, target: Node,
                   slots: seq<Slot>)
    requires source.id != target.id && ClaimsMatch(c0, own) && KeysAtOwner(c0, store)
    requires forall s :: s in slots ==> s in own && own[s] == source
    requires c1 == Reassign(c0, source.id, target.id, Elems(slots))
    requires BystandersLose(c1, c2, source.id, target.id, Elems(slots))
    ensures ClaimsMatch(c2, Assign(own, slots, target))
    ensures KeysAtOwner(c2, Drained(store, source.id, target.id, Elems(slots)))
  {
    BatchClaims(c0, c1, c2, own, source, target, slots);
    BatchKeys(c0, c1, c2, store, own, source, target, slots);
  }

  /** While the keys move, nobody but source and target has keys of the slots. */
  lemma OnlySource(claims: Claims, store: Store, own: OwnerMap, source: Node, target: Node, slots: seq<Slot>)
    requires source.id != target.id && ClaimsMatch(claims, own) && KeysAtOwner(claims, store)
    requires forall s :: s in slots ==> s in own && own[s] == source
    ensures OthersEmpty(Drained(store, source.id, target.id, Elems(slots)), source.id, target.id, slots)
  {
    var after := Drained(store, source.id, target.id, Elems(slots));
    forall x, s | x != source.id && x != target.id && s in slots ensures KeysAt(after, x, s) == {} {
      forall k ensures k !in KeysAt(after, x, s) {
        KeysAtMember(after, x, s, k);
        DrainedMember(store, source.id, target.id, Elems(slots), x, s, k);
        assert ClaimOk(claims, own, x, s);
      }
    }
  }

  /** Claims and keys are right unless they were wrong at the start or a command has failed. */
  ghost predicate Books(redis: Redis, good: bool, own: OwnerMap)
    reads redis
  {
    good && !redis.failed ==> ClaimsMatch(redis.claims, own) && KeysAtOwner(redis.claims, redis.store)
  }

  /** Keys first, then ownership; errors of either are only logged. */
  method Transfer(redis: Redis, source: string, target: string, slots: seq<Slot>, ghost before: seq<Event>)
    returns (ghost sent: seq<Event>)
    requires source != target && slots != [] && InOrder(before, target)
    modifies redis
    ensures redis.trace == old(redis.trace) + sent && InOrder(before + sent, target) && AllTold(before + sent, target, slots)
    ensures redis.claims == Replay(old(redis.claims), sent)
    ensures SameKeys(old(redis.store), redis.store)
    ensures (old(redis.failed) ==> redis.failed) && (redis.failed ==> old(redis.failed) || redis.faulty)
    ensures !redis.failed ==> redis.claims == Reassign(old(redis.claims), source, target, Elems(slots))
    ensures !redis.failed ==> redis.store == Drained(old(redis.store), source, target, Elems(slots))
    ensures Commands(sent) == HandOver(source, target, slots)
    ensures !redis.failed ==> AllTakeEmpty(sent)
  {
    DrainedEmpty(redis.store, source, target, slots);
    var nbMigrated, migrated := MigrateKeys(redis, source, target, slots, 10);
    ConservedSameKeys(old(redis.store), redis.store, source, target, Elems(slots));
    sent := HandOverSlots(redis, source, target, slots, before);
  }

  /** What a batch does to claims and keys, and what its commands are like, once its slots are open. */
  ghost predicate Handed(before: seq<Event>, sent: seq<Event>, c0: Claims, claims: Claims, s0: Store, store: Store, failed: bool,
                         sound: bool, own: OwnerMap, source: Node, target: Node, slots: seq<Slot>)
  {
    && InOrder(before + sent, target.id) && claims == Replay(c0, sent) && SameKeys(s0, store)
    && (sound && !failed ==>
          && ClaimsMatch(claims, Assign(own, slots, target)) && KeysAtOwner(claims, store)
          && AllTakeEmpty(sent))
  }

  lemma HandedBy(before: seq<Event>, handed: seq<Event>, told: seq<Event>, c0: Claims, c1: Claims, c2: Claims, s0: Store,
                 store: Store, failed: bool, sound: bool, own: OwnerMap, source: Node, target: Node, slots: seq<Slot>)
    requires source.id != target.id && (forall s :: s in slots ==> s in own && own[s] == source)
    requires Tells(before + handed, told, c1, c2, store, source.id, target.id, slots)
    requires c1 == Replay(c0, handed) && SameKeys(s0, store)
    requires !failed ==> store == Drained(s0, source.id, target.id, Elems(slots)) && AllTakeEmpty(handed)
    requires !failed ==> c1 == Reassign(c0, source.id, target.id, Elems(slots))
    requires sound ==> ClaimsMatch(c0, own) && KeysAtOwner(c0, s0)
    ensures Handed(before, handed + told, c0, c2, s0, store, failed, sound, own, source, target, slots)
  {
    assert before + handed + told == before + (handed + told);
    ReplayConcat(c0, handed, told);
    if sound && !failed {
      BatchBooks(c0, c1, c2, s0, own, source, target, slots);
      OnlySource(c0, s0, own, source, target, slots);
      TakeEmptyJoin(handed, told);
    }
  }

  /** Keys and ownership, then the source's list shrinks and the others are told. */
  method Deliver(redis: Redis, source: Node, target: Node, slots: seq<Slot>, allMasters: seq<Node>, ghost before: seq<Event>,
                 ghost sound: bool, ghost own: OwnerMap) returns (ghost sent: seq<Event>)
    requires source.id != target.id && slots != [] && UniqueAddresses(Elems(allMasters) + {source, target})
    requires forall s :: s in slots ==> s in own && own[s] == source
    requires InOrder(before, target.id)
    requires sound ==> ClaimsMatch(redis.claims, own) && KeysAtOwner(redis.claims, redis.store)
    modifies redis, source`slots
    ensures redis.trace == old(redis.trace) + sent
    ensures (old(redis.failed) ==> redis.failed) && (redis.failed ==> old(redis.failed) || redis.faulty)
    ensures Handed(before, sent, old(redis.claims), redis.claims, old(redis.store), redis.store, redis.failed, sound, own, source,
                   target, slots)
    ensures Commands(sent) == HandOver(source.id, target.id, slots) + Flatten(Tellings(allMasters, source, target, slots))
    ensures source.slots == Without(old(source.slots), Elems(slots))
  {
    ghost var handed := Transfer(redis, source.id, target.id, slots, before);
    ghost var c1 := redis.claims;
    source.slots := RemoveSlots(source.slots, slots);
    ghost var told := TellOthers(redis, allMasters, source, target, slots, before + handed);
    HandedBy(before, handed, told, old(redis.claims), c1, redis.claims, old(redis.store), redis.store, redis.failed, sound, own,
             source, target, slots);
    CommandsConcat(handed, told);
    Joined(old(redis.trace), handed, told);
    sent := handed + told;
  }

  /** One batch with a source: all commands, in the order that is safe against crashes, and no others. */
  method MoveBatch(redis: Redis, source: Node, target: Node, slots: seq<Slot>, allMasters: seq<Node>,
                   ghost good: bool, ghost own: OwnerMap) returns (ok: bool, ghost sent: seq<Event>)
    requires source.id != target.id && slots != [] && UniqueAddresses(Elems(allMasters) + {source, target})
    requires forall s :: s in slots ==> s in own && own[s] == source
    requires Books(redis, good, own)
    modifies redis, source`slots
    ensures redis.trace == old(redis.trace) + sent && InOrder(sent, target.id)
    ensures redis.claims == Replay(old(redis.claims), sent) && Since(old(redis.Now()), redis.Now())
    ensures if ok then Commands(sent) == BatchCommands(source, target, slots, allMasters)
            else Commands(sent) <= Opening(source.id, target.id, slots)
    ensures SameKeys(old(redis.store), redis.store)
    ensures old(redis.failed) || !ok ==> redis.failed
    ensures ok ==> source.slots == Without(old(source.slots), Elems(slots))
    ensures !ok ==> source.slots == old(source.slots)
    ensures Books(redis, good, Assign(own, slots, target))
    ensures good && !redis.failed ==> AllTakeEmpty(sent)
  {
    ok, sent := OpenSlots(redis, source.id, target.id, slots);
    if ok {
      ghost var sound := good && !redis.failed;
      ghost var handed := Deliver(redis, source, target, slots, allMasters, sent, sound, own);
      ReplayConcat(old(redis.claims), sent, handed);
      Joined(old(redis.trace), sent, handed);
      BatchSends(sent, handed, source, target, slots, allMasters);
      if sound && !redis.failed {
        TakeEmptyJoin(sent, handed);
      }
      sent := sent + handed;
    }
    InOrderGranted(sent, target.id);
    SinceBy(old(redis.Now()), redis.Now(), sent);
  }

  // ---------------------------------------------------------------- the nodes' lists

  ghost predicate HeldBy(n: Node, list: seq<Slot>, own: OwnerMap, s: Slot) {
    s in list <==> s in own && own[s] == n
  }

  /** The node's list has each slot the map gives to it, once, and no other. */
  ghost predicate Held(n: Node, list: seq<Slot>, own: OwnerMap) {
    NoDup(list) && forall s: Slot :: HeldBy(n, list, own, s)
  }

  /** The lists of the nodes are the shares of one owner map, hence disjoint. */
  ghost predicate AllHeld(nodes: set<Node>, own: OwnerMap)
    reads nodes
  {
    forall n :: n in nodes ==> Held(n, n.slots, own)
  }

  lemma HeldGain(n: Node, list: seq<Slot>, list': seq<Slot>, own: OwnerMap, slots: seq<Slot>)
    requires Held(n, list, own) && NoDup(list') && Elems(list') == Elems(list) + Elems(slots)
    ensures Held(n, list', Assign(own, slots, n))
  {
    forall s: Slot ensures HeldBy(n, list', Assign(own, slots, n), s) {
      AssignMember(own, slots, n, s);
      assert HeldBy(n, list, own, s);
      assert s in list' <==> s in Elems(list');
    }
  }

  lemma HeldLose(n: Node, list: seq<Slot>, own: OwnerMap, slots: seq<Slot>, target: Node)
    requires Held(n, list, own) && n != target
    ensures Held(n, Without(list, Elems(slots)), Assign(own, slots, target))
  {
    var list' := Without(list, Elems(slots));
    WithoutMembers(list, Elems(slots));
    forall s: Slot ensures HeldBy(n, list', Assign(own, slots, target), s) {
      AssignMember(own, slots, target, s);
      assert HeldBy(n, list, own, s);
      assert s in list' <==> s in Elems(list');
    }
  }

  lemma HeldStays(n: Node, list: seq<Slot>, own: OwnerMap, slots: seq<Slot>, target: Node)
    requires Held(n, list, own) && n != target
    requires forall s :: s in slots ==> From(own, s) != n
    ensures Held(n, list, Assign(own, slots, target))
  {
    forall s: Slot ensures HeldBy(n, list, Assign(own, slots, target), s) {
      AssignMember(own, slots, target, s);
      assert HeldBy(n, list, own, s);
      assert s in slots && s in own ==> own[s] != n;
    }
  }

  /** What a finished batch does to the list of a node. */
  lemma BatchList(n: Node, k: MigrationInfo, slots: seq<Slot>, own: OwnerMap, list: seq<Slot>, list': seq<Slot>)
    requires k.from != k.to && Held(n, list, own)
    requires forall s :: s in slots ==> From(own, s) == k.from
    requires n == k.to ==> NoDup(list') && Elems(list') == Elems(list) + Elems(slots)
    requires n == k.from ==> list' == Without(list, Elems(slots))
    requires n != k.to && n != k.from ==> list' == list
    ensures Held(n, list', Assign(own, slots, k.to))
  {
    if n == k.to {
      HeldGain(n, list, list', own, slots);
    } else if n == k.from {
      HeldLose(n, list, own, slots, k.to);
    } else {
      HeldStays(n, list, own, slots, k.to);
    }
  }

  /** The commands of a batch that do not depend on the other masters; lost slots are claimed by one command. */
  ghost function Start(k: MigrationInfo, slots: seq<Slot>): seq<Command>
    requires slots != []
  {
    if k.from == null then [AddRange(k.to.id, slots[0], slots[|slots| - 1])]
    else Opening(k.from.id, k.to.id, slots) + HandOver(k.from.id, k.to.id, slots)
  }

  /** They were sent, one after the other, between the two traces. */
  ghost predicate Ran(t0: seq<Event>, t1: seq<Event>, k: MigrationInfo, slots: seq<Slot>) {
    slots != [] && exists p :: |t0| <= p <= |t1| && t0 <= t1 && Start(k, slots) <= Commands(t1[p..])
  }

  lemma RanBy(t0: seq<Event>, sent: seq<Event>, k: MigrationInfo, slots: seq<Slot>)
    requires slots != [] && Start(k, slots) <= Commands(sent)
    ensures Ran(t0, t0 + sent, k, slots)
  {
    assert (t0 + sent)[|t0|..] == sent;
  }

  lemma RanBetween(t0: seq<Event>, a: seq<Event>, b: seq<Event>, t1: seq<Event>, k: MigrationInfo, slots: seq<Slot>)
    requires t0 <= a <= b <= t1 && Ran(a, b, k, slots)
    ensures Ran(t0, t1, k, slots)
  {
    var p :| |a| <= p <= |b| && Start(k, slots) <= Commands(b[p..]);
    assert t1[p..] == b[p..] + t1[|b|..];
    CommandsConcat(b[p..], t1[|b|..]);
  }

  /** One batch. On an error nothing has changed hands. */
  method RunBatch(redis: Redis, k: MigrationInfo, slots: seq<Slot>, allMasters: seq<Node>, ghost nodes: set<Node>,
                  ghost good: bool, ghost own: OwnerMap) returns (ok: bool)
    requires k.to in nodes && (k.from != null ==> k.from in nodes && k.from.id != k.to.id)
    requires Elems(allMasters) <= nodes && UniqueAddresses(nodes) && slots != []
    requires forall s :: s in slots ==> From(own, s) == k.from
    requires AllHeld(nodes, own) && Books(redis, good, own) && (good ==> k.from != null)
    modifies redis, nodes`slots
    ensures AllHeld(nodes, if ok then Assign(own, slots, k.to) else own)
    ensures SameKeys(old(redis.store), redis.store)
    ensures Since(old(redis.Now()), redis.Now()) && (!ok ==> redis.failed)
    ensures Books(redis, good, if ok then Assign(own, slots, k.to) else own)
    ensures good && !redis.failed ==> KeysFirst(old(redis.trace), redis.trace)
    ensures Ran(old(redis.trace), redis.trace, k, slots) || !ok
  {
    if k.from == null {
      ok := redis.AddSlots(k.to.id, slots);
      AddedSince(old(redis.Now()), redis.Now());
      assert redis.trace == old(redis.trace) + [redis.trace[|old(redis.trace)|]];
      RanBy(old(redis.trace), [redis.trace[|old(redis.trace)|]], k, slots);
      if !ok {
        return;
      }
    } else {
      ghost var sent;
      ok, sent := MoveBatch(redis, k.from, k.to, slots, allMasters, good, own);
      if good && !redis.failed {
        KeysFirstBy(old(redis.trace), sent);
      }
      if !ok {
        return;
      }
      assert Start(k, slots) <= BatchCommands(k.from, k.to, slots, allMasters);
      RanBy(old(redis.trace), sent, k, slots);
    }
    assert Held(k.to, old(k.to.slots), own);
    k.to.slots := AddSlots(k.to.slots, slots);
    forall n | n in nodes ensures Held(n, n.slots, Assign(own, slots, k.to)) {
      assert Held(n, old(n.slots), own);
      BatchList(n, k, slots, own, old(n.slots), n.slots);
    }
  }

  // ---------------------------------------------------------------- all batches

  /** The owner of s has changed exactly if its batch has been run. */
  ghost predicate Progress(own: OwnerMap, own0: OwnerMap, dest: OwnerMap, todo: set<MigrationInfo>, s: Slot) {
    From(own, s) ==
    if s in dest && From(own0, s) != dest[s] && KeyOf(own0, dest, s) !in todo then dest[s] else From(own0, s)
  }

  ghost predicate Underway(own: OwnerMap, own0: OwnerMap, dest: OwnerMap, todo: set<MigrationInfo>) {
    forall s: Slot :: Progress(own, own0, dest, todo, s)
  }

  lemma BatchFrom(own: OwnerMap, own0: OwnerMap, dest: OwnerMap, batches: Batches, todo: set<MigrationInfo>, k: MigrationInfo)
    requires Underway(own, own0, dest, todo) && BatchesMatch(batches, own0, dest) && k in todo && k in batches
    ensures forall s :: s in batches[k] ==> From(own, s) == k.from
    ensures batches[k] != [] && k.from != k.to
    ensures exists s :: s in batches[k] && s in dest && From(own0, s) == k.from && dest[s] == k.to
  {
    forall s | s in batches[k] ensures From(own, s) == k.from {
      assert Fits(own0, dest, k, s) && Progress(own, own0, dest, todo, s);
    }
    var s := batches[k][0];
    assert s in batches[k] && Fits(own0, dest, k, s);
  }

  lemma BatchDone(own: OwnerMap, own0: OwnerMap, dest: OwnerMap, batches: Batches, todo: set<MigrationInfo>, k: MigrationInfo)
    requires Underway(own, own0, dest, todo) && BatchesMatch(batches, own0, dest) && k in todo && k in batches
    ensures Underway(Assign(own, batches[k], k.to), own0, dest, todo - {k})
  {
    forall s: Slot ensures Progress(Assign(own, batches[k], k.to), own0, dest, todo - {k}, s) {
      AssignMember(own, batches[k], k.to, s);
      assert Progress(own, own0, dest, todo, s);
      if s in batches[k] {
        assert Fits(own0, dest, k, s);
      } else if s in dest {
        assert Recorded(batches, own0, dest, s);
      }
    }
  }

  /** Every slot has the owner it had or the one that was planned for it. */
  ghost predicate OldOrNew(own: OwnerMap, own0: OwnerMap, dest: OwnerMap) {
    forall s :: s in own ==> (s in own0 && own[s] == own0[s]) || (s in dest && own[s] == dest[s])
  }

  /** No slot that had an owner is without one; its owner is the old one or the planned one. */
  lemma StillOwned(own: OwnerMap, own0: OwnerMap, dest: OwnerMap, todo: set<MigrationInfo>)
    requires Underway(own, own0, dest, todo)
    ensures own0.Keys <= own.Keys && OldOrNew(own, own0, dest)
  {
    forall s | s in own0.Keys ensures s in own.Keys {
      assert Progress(own, own0, dest, todo, s);
    }
    forall s | s in own ensures (s in own0 && own[s] == own0[s]) || (s in dest && own[s] == dest[s]) {
      assert Progress(own, own0, dest, todo, s);
    }
  }

  lemma AllRun(own: OwnerMap, own0: OwnerMap, dest: OwnerMap)
    requires Underway(own, own0, dest, {}) && own0.Keys <= dest.Keys
    ensures own == dest
  {
    forall s: Slot ensures From(own, s) == From(dest, s) {
      assert Progress(own, own0, dest, {}, s);
    }
    forall s: Slot ensures s in own <==> s in dest {
      assert From(own, s) == From(dest, s);
    }
    forall s | s in own ensures own[s] == dest[s] {
      assert From(own, s) == From(dest, s);
    }
  }

  lemma NotStarted(own0: OwnerMap, dest: OwnerMap, batches: Batches)
    requires BatchesMatch(batches, own0, dest)
    ensures Underway(own0, own0, dest, batches.Keys)
  {
  }

  /** Every owner is one of the nodes, and the target ownership covers what is owned. */
  ghost predicate Within(own: OwnerMap, dest: OwnerMap, nodes: set<Node>) {
    && (forall s :: s in own ==> own[s] in nodes && s in dest)
    && (forall s :: s in dest ==> dest[s] in nodes)
  }

  lemma NextBatch(own: OwnerMap, own0: OwnerMap, dest: OwnerMap, batches: Batches, todo: set<MigrationInfo>, k: MigrationInfo,
                  nodes: set<Node>)
    requires Underway(own, own0, dest, todo) && BatchesMatch(batches, own0, dest) && k in todo && k in batches
    requires Within(own0, dest, nodes) && UniqueIds(nodes)
    ensures k.to in nodes && (k.from != null ==> k.from in nodes && k.from.id != k.to.id)
    ensures dest.Keys <= own0.Keys ==> k.from != null
    ensures batches[k] != [] && forall s :: s in batches[k] ==> From(own, s) == k.from
  {
    BatchFrom(own, own0, dest, batches, todo, k);
    var s :| s in batches[k] && s in dest && From(own0, s) == k.from && dest[s] == k.to;
    assert dest[s] in nodes;
  }

  /** Keys went first, if all is sound; and the commands of all batches that are done have been sent. */
  ghost predicate Journal(t0: seq<Event>, t1: seq<Event>, sound: bool, batches: Batches, todo: set<MigrationInfo>) {
    && t0 <= t1 && (sound ==> KeysFirst(t0, t1))
    && forall k :: k in batches && k !in todo ==> Ran(t0, t1, k, batches[k])
  }

  /** The commands of all batches were sent. */
  ghost predicate AllRan(t0: seq<Event>, t1: seq<Event>, batches: Batches) {
    forall k :: k in batches ==> Ran(t0, t1, k, batches[k])
  }

  lemma JournalNext(t0: seq<Event>, a: seq<Event>, b: seq<Event>, sound: bool, sound': bool, batches: Batches,
                    todo: set<MigrationInfo>, k: MigrationInfo, ok: bool)
    requires Journal(t0, a, sound, batches, todo) && a <= b && k in batches && (sound' ==> sound && KeysFirst(a, b))
    requires ok ==> Ran(a, b, k, batches[k])
    ensures Journal(t0, b, sound', batches, if ok then todo - {k} else batches.Keys)
  {
    if sound' {
      KeysFirstTransitive(t0, a, b);
    }
    forall l | ok && l in batches && l !in todo - {k} ensures Ran(t0, b, l, batches[l]) {
      if l == k {
        RanBetween(t0, a, b, b, l, batches[l]);
      } else {
        RanBetween(t0, t0, a, b, l, batches[l]);
      }
    }
  }

  /** The loop over the batches, in any order. */
  method RunBatches(redis: Redis, batches: Batches, allMasters: seq<Node>, ghost nodes: set<Node>,
                    ghost good: bool, ghost own0: OwnerMap, ghost dest: OwnerMap) returns (ok: bool, ghost own: OwnerMap)
    requires BatchesMatch(batches, own0, dest) && Within(own0, dest, nodes) && UniqueIds(nodes)
    requires Elems(allMasters) <= nodes && UniqueAddresses(nodes)
    requires AllHeld(nodes, own0) && Books(redis, good, own0) && (good ==> dest.Keys <= own0.Keys)
    modifies redis, nodes`slots
    ensures AllHeld(nodes, own) && own0.Keys <= own.Keys && (ok ==> own == dest)
    ensures OldOrNew(own, own0, dest)
    ensures SameKeys(old(redis.store), redis.store)
    ensures Since(old(redis.Now()), redis.Now()) && (!ok ==> redis.failed)
    ensures Books(redis, good, own)
    ensures Journal(old(redis.trace), redis.trace, good && !redis.failed, batches, if ok then {} else batches.Keys)
  {
    own := own0;
    SinceNothing(redis.Now(), redis.Now());
    var todo := batches.Keys;
    NotStarted(own0, dest, batches);
    while todo != {}
      invariant todo <= batches.Keys && Underway(own, own0, dest, todo)
      invariant AllHeld(nodes, own) && Books(redis, good, own)
      invariant SameKeys(old(redis.store), redis.store)
      invariant Since(old(redis.Now()), redis.Now())
      invariant Journal(old(redis.trace), redis.trace, good && !redis.failed, batches, todo)
      decreases todo
    {
      var k :| k in todo;
      NextBatch(own, own0, dest, batches, todo, k, nodes);
      ghost var was, last := redis.store, redis.Now();
      ok := RunBatch(redis, k, batches[k], allMasters, nodes, good, own);
      SameKeysTransitive(old(redis.store), was, redis.store);
      SinceTransitive(old(redis.Now()), last, redis.Now());
      JournalNext(old(redis.trace), last.trace, redis.trace, good && !last.failed, good && !redis.failed, batches, todo, k,
                  ok);
      if !ok {
        StillOwned(own, own0, dest, todo);
        return;
      }
      BatchDone(own, own0, dest, batches, todo, k);
      own := Assign(own, batches[k], k.to);
      todo := todo - {k};
    }
    StillOwned(own, own0, dest, todo);
    AllRun(own, own0, dest);
    ok := true;
  }

  // ---------------------------------------------------------------- the whole dispatch

  /** The lists at the start are the shares of the old ownership. */
  lemma StartHeld(newMasters: seq<Node>, oldMasters: seq<Node>, newLists: seq<seq<Slot>>, oldLists: seq<seq<Slot>>,
                  nbSlots: nat, n: Node, list: seq<Slot>)
    requires Standing(IdList(newMasters), newLists, IdList(oldMasters), oldLists, nbSlots)
    requires SameRecords(newMasters, oldMasters)
    requires forall i :: 0 <= i < |newMasters| && newMasters[i] == n ==> newLists[i] == list
    requires forall j :: 0 <= j < |oldMasters| && oldMasters[j] == n ==> oldLists[j] == list
    requires n in newMasters || n in oldMasters
    ensures Held(n, list, Owners(oldMasters, oldLists))
  {
    var own := Owners(oldMasters, oldLists);
    if n in oldMasters {
      var j :| 0 <= j < |oldMasters| && oldMasters[j] == n;
      forall s: Slot ensures HeldBy(n, list, own, s) {
        OwnersMember(oldMasters, oldLists, s);
        if s in list {
          OwnersAt(oldMasters, oldLists, j, s);
        }
      }
    } else {
      var i :| 0 <= i < |newMasters| && newMasters[i] == n;
      NewcomerEmpty(newMasters, oldMasters, newLists, oldLists, nbSlots, i);
      forall s: Slot ensures HeldBy(n, list, own, s) {
        OwnersMember(oldMasters, oldLists, s);
      }
    }
  }

  lemma NewcomerEmpty(newMasters: seq<Node>, oldMasters: seq<Node>, newLists: seq<seq<Slot>>, oldLists: seq<seq<Slot>>,
                      nbSlots: nat, i: nat)
    requires Standing(IdList(newMasters), newLists, IdList(oldMasters), oldLists, nbSlots)
    requires SameRecords(newMasters, oldMasters) && i < |newMasters| && newMasters[i] !in oldMasters
    ensures newLists[i] == []
  {
  }

  /** Lists that are the shares of a planned ownership have the planned contents. */
  lemma EndLists(newMasters: seq<Node>, lists: seq<seq<Slot>>, final: seq<seq<Slot>>, nbSlots: nat, quota: nat)
    requires NoDup(newMasters) && |newMasters| == |lists| == |final|
    requires Partition(final, nbSlots) && Balanced(final, quota)
    requires forall i :: 0 <= i < |lists| ==> Held(newMasters[i], lists[i], Owners(newMasters, final))
    ensures forall i :: 0 <= i < |lists| ==> Elems(lists[i]) == Elems(final[i])
    ensures Partition(lists, nbSlots) && Balanced(lists, quota)
  {
    var dest := Owners(newMasters, final);
    forall i | 0 <= i < |lists|
      ensures Elems(lists[i]) == Elems(final[i]) && |lists[i]| == |final[i]| && NoDup(lists[i])
    {
      assert Held(newMasters[i], lists[i], dest);
      ListIs(newMasters, lists[i], final, i);
      NoDupSameElems(lists[i], final[i]);
    }
    SamePartition(lists, final, nbSlots);
  }

  lemma ListIs(newMasters: seq<Node>, list: seq<Slot>, final: seq<seq<Slot>>, i: nat)
    requires NoDup(newMasters) && |newMasters| == |final| && i < |final| && PairwiseDisjoint(final)
    requires Held(newMasters[i], list, Owners(newMasters, final))
    ensures Elems(list) == Elems(final[i])
  {
    forall s: Slot ensures s in list <==> s in final[i] {
      assert HeldBy(newMasters[i], list, Owners(newMasters, final), s);
      OwnersMember(newMasters, final, s);
      if s in final[i] {
        OwnersAt(newMasters, final, i, s);
      }
    }
  }

  lemma SamePartition(lists: seq<seq<Slot>>, final: seq<seq<Slot>>, nbSlots: nat)
    requires |lists| == |final| && Partition(final, nbSlots)
    requires forall i :: 0 <= i < |lists| ==> NoDup(lists[i]) && Elems(lists[i]) == Elems(final[i])
    ensures Partition(lists, nbSlots)
  {
    forall i: nat, s: Slot | i < |lists| ensures s in lists[i] <==> s in final[i] {
      assert s in Elems(lists[i]) <==> s in Elems(final[i]);
    }
    forall s: Slot ensures OwnedBySome(lists, s) <==> OwnedBySome(final, s) {
    }
  }

  lemma RemovedEmpty(newMasters: seq<Node>, final: seq<seq<Slot>>, n: Node, list: seq<Slot>)
    requires |newMasters| == |final| && n !in newMasters && Held(n, list, Owners(newMasters, final))
    ensures list == []
  {
    if list != [] {
      var s := list[0];
      assert HeldBy(n, list, Owners(newMasters, final), s);
      OwnersMember(newMasters, final, s);
      assert false;
    }
  }

  lemma OwnersWithin(newMasters: seq<Node>, oldMasters: seq<Node>, newLists: seq<seq<Slot>>, oldLists: seq<seq<Slot>>,
                     final: seq<seq<Slot>>, nbSlots: nat, quota: nat)
    requires Standing(IdList(newMasters), newLists, IdList(oldMasters), oldLists, nbSlots)
    requires GoodPlan(final, newLists, nbSlots, quota)
    ensures Within(Owners(oldMasters, oldLists), Owners(newMasters, final), Elems(newMasters + oldMasters))
    ensures forall s: Slot :: s in Owners(newMasters, final) <==> s < nbSlots
  {
    var own, dest := Owners(oldMasters, oldLists), Owners(newMasters, final);
    forall s: Slot ensures s in dest <==> s < nbSlots {
      OwnersMember(newMasters, final, s);
      assert OwnedBySome(final, s) <==> s < nbSlots;
    }
    forall s | s in own ensures own[s] in Elems(newMasters + oldMasters) && s in dest {
      OwnersMember(oldMasters, oldLists, s);
    }
    forall s | s in dest ensures dest[s] in Elems(newMasters + oldMasters) {
      OwnersMember(newMasters, final, s);
    }
  }

  /** What a successful dispatch leaves behind. */
  ghost predicate Dispatched(newMasters: seq<Node>, lists: seq<seq<Slot>>, kept: seq<seq<Slot>>, nbSlots: nat, quota: nat) {
    && |newMasters| == |lists| == |kept|
    && Partition(lists, nbSlots) && Balanced(lists, quota)
    && forall i :: 0 <= i < |lists| ==> Elems(Kept(kept[i], quota)) <= Elems(lists[i])
  }

  lemma EndDispatched(newMasters: seq<Node>, lists: seq<seq<Slot>>, final: seq<seq<Slot>>, newLists: seq<seq<Slot>>,
                      nbSlots: nat, quota: nat)
    requires NoDup(newMasters) && |newMasters| == |lists| == |newLists| && GoodPlan(final, newLists, nbSlots, quota)
    requires forall i :: 0 <= i < |lists| ==> Held(newMasters[i], lists[i], Owners(newMasters, final))
    ensures Dispatched(newMasters, lists, newLists, nbSlots, quota)
  {
    EndLists(newMasters, lists, final, nbSlots, quota);
  }

  /** All slots have an owner, Redis agrees with it, and the keys are there. */
  ghost predicate Consistent(claims: Claims, store: Store, own: OwnerMap, nbSlots: nat) {
    && (forall s: Slot :: s < nbSlots ==> s in own)
    && ClaimsMatch(claims, own) && KeysAtOwner(claims, store)
  }

  lemma StartAllHeld(newMasters: seq<Node>, oldMasters: seq<Node>, newLists: seq<seq<Slot>>, oldLists: seq<seq<Slot>>,
                     nbSlots: nat, own: OwnerMap)
    requires newLists == Snapshot(newMasters) && oldLists == Snapshot(oldMasters)
    requires Standing(IdList(newMasters), newLists, IdList(oldMasters), oldLists, nbSlots)
    requires SameRecords(newMasters, oldMasters) && own == Owners(oldMasters, oldLists)
    ensures AllHeld(Elems(newMasters + oldMasters), own)
  {
    forall n | n in Elems(newMasters + oldMasters) ensures Held(n, n.slots, own) {
      assert n in newMasters || n in oldMasters;
      StartHeld(newMasters, oldMasters, newLists, oldLists, nbSlots, n, n.slots);
    }
  }

  lemma EndAll(newMasters: seq<Node>, oldMasters: seq<Node>, newLists: seq<seq<Slot>>, final: seq<seq<Slot>>,
               nbSlots: nat, quota: nat)
    requires NoDup(IdList(newMasters)) && |newLists| == |newMasters|
    requires GoodPlan(final, newLists, nbSlots, quota)
    requires AllHeld(Elems(newMasters + oldMasters), Owners(newMasters, final))
    ensures Dispatched(newMasters, Snapshot(newMasters), newLists, nbSlots, quota)
    ensures forall n :: n in oldMasters && n !in newMasters ==> n.slots == []
  {
    assert NoDup(newMasters) by {
      assert forall i, j :: 0 <= i < j < |newMasters| ==> IdList(newMasters)[i] != IdList(newMasters)[j];
    }
    assert forall i :: 0 <= i < |newMasters| ==> newMasters[i] in Elems(newMasters + oldMasters);
    EndDispatched(newMasters, Snapshot(newMasters), final, newLists, nbSlots, quota);
    forall n | n in oldMasters && n !in newMasters ensures n.slots == [] {
      assert n in Elems(newMasters + oldMasters);
      RemovedEmpty(newMasters, final, n, n.slots);
    }
  }

  /** The plan, and what the lists say before any batch is run. */
  method Prepare(newMasters: seq<Node>, oldMasters: seq<Node>, nbSlots: nat)
    returns (batches: Batches, ghost own: OwnerMap, ghost final: seq<seq<Slot>>)
    requires 0 < nbSlots < UINT64_LIMIT && SameRecords(newMasters, oldMasters)
    requires Standing(IdList(newMasters), Snapshot(newMasters), IdList(oldMasters), Snapshot(oldMasters), nbSlots)
    ensures own == Owners(oldMasters, Snapshot(oldMasters)) && AllHeld(Elems(newMasters + oldMasters), own)
    ensures LostInOrder(batches)
    ensures newMasters == [] ==> batches == map[]
    ensures newMasters != [] ==>
              && GoodPlan(final, Snapshot(newMasters), nbSlots, CeilDiv(nbSlots, |newMasters|))
              && BatchesMatch(batches, own, Owners(newMasters, final))
              && Within(own, Owners(newMasters, final), Elems(newMasters + oldMasters))
              && forall s: Slot :: s in Owners(newMasters, final) <==> s < nbSlots
  {
    own := Owners(oldMasters, Snapshot(oldMasters));
    StartAllHeld(newMasters, oldMasters, Snapshot(newMasters), Snapshot(oldMasters), nbSlots, own);
    var nb;
    batches, nb, final := FeedMigInfo(newMasters, oldMasters, nbSlots);
    if |newMasters| > 0 {
      OwnersWithin(newMasters, oldMasters, Snapshot(newMasters), Snapshot(oldMasters), final, nbSlots,
                   CeilDiv(nbSlots, |newMasters|));
    }
  }

  /** Runs batches that realise a good plan. */
  method RunPlan(redis: Redis, batches: Batches, newMasters: seq<Node>, oldMasters: seq<Node>, ghost nbSlots: nat,
                 ghost quota: nat, ghost own0: OwnerMap, ghost final: seq<seq<Slot>>)
    returns (ok: bool, ghost own: OwnerMap)
    requires NoDup(IdList(newMasters)) && GoodPlan(final, Snapshot(newMasters), nbSlots, quota)
    requires BatchesMatch(batches, own0, Owners(newMasters, final))
    requires Within(own0, Owners(newMasters, final), Elems(newMasters + oldMasters))
    requires forall s: Slot :: s in Owners(newMasters, final) <==> s < nbSlots
    requires UniqueIds(Elems(newMasters + oldMasters)) && UniqueAddresses(Elems(newMasters + oldMasters))
    requires AllHeld(Elems(newMasters + oldMasters), own0)
    modifies redis, Elems(newMasters + oldMasters)`slots
    ensures Accounted(own, own0, newMasters, oldMasters)
    ensures SameKeys(old(redis.store), redis.store)
    ensures Since(old(redis.Now()), redis.Now()) && (!ok ==> redis.failed)
    ensures ok ==> Dispatched(newMasters, Snapshot(newMasters), old(Snapshot(newMasters)), nbSlots, quota)
    ensures ok ==> forall n :: n in oldMasters && n !in newMasters ==> n.slots == []
    ensures ok ==> OwnedByNew(own, newMasters, nbSlots) && own == Owners(newMasters, final)
    ensures old(Consistent(redis.claims, redis.store, own0, nbSlots)) && !redis.failed ==>
              Consistent(redis.claims, redis.store, own, nbSlots) && KeysFirst(old(redis.trace), redis.trace)
    ensures ok ==> AllRan(old(redis.trace), redis.trace, batches)
  {
    ghost var newLists, dest := Snapshot(newMasters), Owners(newMasters, final);
    ghost var good := Consistent(redis.claims, redis.store, own0, nbSlots);
    ok, own := RunBatches(redis, batches, newMasters + oldMasters, Elems(newMasters + oldMasters), good, own0, dest);
    NothingLost(own, own0, newMasters, oldMasters, final);
    if ok {
      EndAll(newMasters, oldMasters, newLists, final, nbSlots, quota);
      OwnersAreNew(newMasters, final, nbSlots);
    }
  }

  /** Some node of these has the slot in its list. */
  ghost predicate Listed(nodes: set<Node>, s: Slot)
    reads nodes
  {
    exists n :: n in nodes && s in n.slots
  }

  /**
   * The lists are the shares of the owner map own. Every slot that had an owner is in the list of its
   * old owner or of a new master, and every owner is one of the nodes.
   */
  ghost predicate Accounted(own: OwnerMap, own0: OwnerMap, newMasters: seq<Node>, oldMasters: seq<Node>)
    reads Elems(newMasters + oldMasters)
  {
    && AllHeld(Elems(newMasters + oldMasters), own)
    && (forall s :: s in own ==> own[s] in Elems(newMasters + oldMasters))
    && (forall s :: s in own0 ==> s in own && (own[s] == own0[s] || own[s] in newMasters))
    && (forall s :: s in own0 ==> Listed(Elems(newMasters + oldMasters), s))
  }

  lemma NothingLost(own: OwnerMap, own0: OwnerMap, newMasters: seq<Node>, oldMasters: seq<Node>, final: seq<seq<Slot>>)
    requires |final| == |newMasters| && own0.Keys <= own.Keys && OldOrNew(own, own0, Owners(newMasters, final))
    requires Within(own0, Owners(newMasters, final), Elems(newMasters + oldMasters))
    requires AllHeld(Elems(newMasters + oldMasters), own)
    ensures Accounted(own, own0, newMasters, oldMasters)
  {
    forall s | s in own0 ensures own[s] == own0[s] || own[s] in newMasters {
      if s in Owners(newMasters, final) {
        OwnersMember(newMasters, final, s);
      }
    }
    forall s | s in own0 ensures Listed(Elems(newMasters + oldMasters), s) {
      assert Held(own[s], own[s].slots, own);
      assert HeldBy(own[s], own[s].slots, own, s);
    }
  }

  lemma ListedAreOwned(nodes: seq<Node>, lists: seq<seq<Slot>>)
    requires |nodes| == |lists|
    ensures forall s :: OwnedBySome(lists, s) ==> s in Owners(nodes, lists)
  {
    forall s | OwnedBySome(lists, s) ensures s in Owners(nodes, lists) {
      OwnersMember(nodes, lists, s);
    }
  }

  lemma NothingMoved(own: OwnerMap, newMasters: seq<Node>, oldMasters: seq<Node>, lists: seq<seq<Slot>>)
    requires |lists| == |oldMasters| && own == Owners(oldMasters, lists)
    requires AllHeld(Elems(newMasters + oldMasters), own)
    ensures Accounted(own, own, newMasters, oldMasters)
  {
    forall s | s in own ensures own[s] in Elems(newMasters + oldMasters) && Listed(Elems(newMasters + oldMasters), s) {
      OwnersMember(oldMasters, lists, s);
      assert Held(own[s], own[s].slots, own);
      assert HeldBy(own[s], own[s].slots, own, s);
    }
  }

  /** Exactly the slots have owners, and these are new masters. */
  ghost predicate OwnedByNew(own: OwnerMap, newMasters: seq<Node>, nbSlots: nat) {
    forall s: Slot :: (s in own <==> s < nbSlots) && (s in own ==> own[s] in newMasters)
  }

  lemma OwnersAreNew(newMasters: seq<Node>, final: seq<seq<Slot>>, nbSlots: nat)
    requires |final| == |newMasters| && forall s: Slot :: s in Owners(newMasters, final) <==> s < nbSlots
    ensures OwnedByNew(Owners(newMasters, final), newMasters, nbSlots)
  {
    forall s | s in Owners(newMasters, final) ensures Owners(newMasters, final)[s] in newMasters {
      OwnersMember(newMasters, final, s);
    }
  }

  /**
   * In every batch order and at every return, including the early ones: the lists are the shares of
   * one owner map, so they are disjoint; every slot that was in a list is in the list of its old owner
   * or of a new master; no key has vanished; all commands were in an order that is safe against crashes.
   * After success the commands of all batches of a plan were sent, which is the exact difference
   * between the two ownerships; the new masters' lists partition the slots and every removed master's list is
   * empty. If all slots were owned and no command failed, Redis agrees with the lists, every key
   * is at its owner, and no node was told of another owner of a slot while it had keys of it. Without
   * new masters nothing happens.
   */
  method DispatchSlotToNewMasters(redis: Redis, newMasters: seq<Node>, oldMasters: seq<Node>, nbSlots: nat)
    returns (ok: bool, ghost own: OwnerMap, ghost plan: Batches)
    requires 0 < nbSlots < UINT64_LIMIT && SameRecords(newMasters, oldMasters)
    requires UniqueIds(Elems(newMasters + oldMasters)) && UniqueAddresses(Elems(newMasters + oldMasters))
    requires Standing(IdList(newMasters), Snapshot(newMasters), IdList(oldMasters), Snapshot(oldMasters), nbSlots)
    modifies redis, Elems(newMasters + oldMasters)`slots
    ensures forall s :: OwnedBySome(old(Snapshot(oldMasters)), s) ==> Listed(Elems(newMasters + oldMasters), s)
    ensures Accounted(own, old(Owners(oldMasters, Snapshot(oldMasters))), newMasters, oldMasters)
    ensures SameKeys(old(redis.store), redis.store)
    ensures Since(old(redis.Now()), redis.Now()) && (!ok ==> redis.failed)
    ensures newMasters == [] ==> ok && own == old(Owners(oldMasters, Snapshot(oldMasters)))
    ensures ok && newMasters != [] ==>
              Dispatched(newMasters, Snapshot(newMasters), old(Snapshot(newMasters)), nbSlots,
                         CeilDiv(nbSlots, |newMasters|))
    ensures ok && newMasters != [] ==> forall n :: n in oldMasters && n !in newMasters ==> n.slots == []
    ensures ok && newMasters != [] ==> OwnedByNew(own, newMasters, nbSlots)
    ensures old(Consistent(redis.claims, redis.store, Owners(oldMasters, Snapshot(oldMasters)), nbSlots)) &&
            !redis.failed ==>
              Consistent(redis.claims, redis.store, own, nbSlots) && KeysFirst(old(redis.trace), redis.trace)
    ensures LostInOrder(plan)
    ensures ok ==> BatchesMatch(plan, old(Owners(oldMasters, Snapshot(oldMasters))), own)
    ensures ok ==> AllRan(old(redis.trace), redis.trace, plan)
  {
    var batches;
    ghost var final;
    ListedAreOwned(oldMasters, Snapshot(oldMasters));
    batches, own, final := Prepare(newMasters, oldMasters, nbSlots);
    plan := batches;
    if |newMasters| == 0 {
      SinceNothing(redis.Now(), redis.Now());
      NothingMoved(own, newMasters, oldMasters, Snapshot(oldMasters));
      return true, own, plan;
    }
    ok, own := RunPlan(redis, batches, newMasters, oldMasters, nbSlots, CeilDiv(nbSlots, |newMasters|), own, final);
  }
}
