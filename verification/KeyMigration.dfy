/** Moving the keys of slots between nodes: MigrateKeysInSlot and MigrateKeys (admin.go), moveSlot (rebalance.go). */
module KeyMigration {
  import opened Lists
  import opened SlotLists
  import opened Nodes
  import opened RedisModel
  import opened CrashPoints

  /**
   * Between two stores only keys of the given slots have gone, and only from one node to the other:
   * whatever the pair stored before it stores now, and nothing else.
   */
  ghost predicate Conserved(before: Store, after: Store, from: string, to: string, slots: set<Slot>) {
    && (forall x, s, k :: (x != from && x != to) || s !in slots ==> ((x, s, k) in before <==> (x, s, k) in after))
    && (forall s, k :: (from, s, k) in after ==> (from, s, k) in before)
    && (forall s, k :: (to, s, k) in before ==> (to, s, k) in after)
    && (forall s, k :: (to, s, k) in after && (to, s, k) !in before ==> (from, s, k) in before)
    && (forall s, k :: (from, s, k) in before && (from, s, k) !in after ==> (to, s, k) in after)
  }

  /** Every key of the slots that one node stored is stored by the other instead. */
  ghost function Drained(store: Store, from: string, to: string, slots: set<Slot>): Store {
    set e | e in store :: if e.0 == from && e.1 in slots then (to, e.1, e.2) else e
  }

  lemma ConservedTransitive(a: Store, b: Store, c: Store, from: string, to: string, s: set<Slot>, t: set<Slot>)
    requires Conserved(a, b, from, to, s) && Conserved(b, c, from, to, t)
    ensures Conserved(a, c, from, to, s + t)
  {
  }

  lemma ConservedRefl(a: Store, from: string, to: string, s: set<Slot>)
    ensures Conserved(a, a, from, to, s)
  {
  }

  lemma ConservedWiden(a: Store, b: Store, from: string, to: string, s: set<Slot>, t: set<Slot>)
    requires Conserved(a, b, from, to, s) && s <= t
    ensures Conserved(a, b, from, to, t)
  {
  }

  lemma MovedConserves(store: Store, from: string, to: string, slot: Slot, copied: set<string>, gone: set<string>)
    requires from != to && gone <= copied <= KeysAt(store, from, slot)
    ensures Conserved(store, Moved(store, from, to, slot, copied, gone), from, to, {slot})
  {
  }

  lemma MovedShrinks(store: Store, from: string, to: string, slot: Slot, copied: set<string>, gone: set<string>)
    requires from != to
    ensures KeysAt(Moved(store, from, to, slot, copied, gone), from, slot) == KeysAt(store, from, slot) - gone
  {
  }

  /** Conservation plus an empty source is a complete move. */
  lemma DrainedByConservation(before: Store, after: Store, from: string, to: string, slots: set<Slot>)
    requires from != to && Conserved(before, after, from, to, slots)
    requires forall s, k :: s in slots ==> (from, s, k) !in after
    ensures after == Drained(before, from, to, slots)
  {
    forall e: (string, Slot, string) ensures e in after <==> e in Drained(before, from, to, slots) {
      DrainedMember(before, from, to, slots, e.0, e.1, e.2);
    }
  }

  lemma DrainedMember(store: Store, from: string, to: string, slots: set<Slot>, x: string, s: Slot, k: string)
    ensures (x, s, k) in Drained(store, from, to, slots) <==>
            || ((x, s, k) in store && !(x == from && s in slots))
            || (x == to && s in slots && (from, s, k) in store)
  {
  }

  /**
   * The batch loop. Whatever fails, no key of the pair is lost. When it reports success (with a
   * positive batch size) the source is empty and the count is the number of keys it had.
   */
  method MigrateKeysInSlot(redis: Redis, from: string, to: string, slot: Slot, batch: nat)
    returns (keyCount: nat, ok: bool)
    requires from != to
    modifies redis`store, redis`failed
    ensures Conserved(old(redis.store), redis.store, from, to, {slot})
    ensures redis.failed == (old(redis.failed) || !ok)
    ensures ok || redis.faulty
    ensures ok && batch > 0 ==> KeysAt(redis.store, from, slot) == {}
    ensures ok && batch > 0 ==> keyCount == |old(KeysAt(redis.store, from, slot))|
    ensures ok && batch == 0 ==> keyCount == 0 && redis.store == old(redis.store)
  {
    keyCount := 0;
    ConservedRefl(redis.store, from, to, {slot});
    while true
      invariant Conserved(old(redis.store), redis.store, from, to, {slot})
      invariant redis.failed == old(redis.failed)
      invariant keyCount + |KeysAt(redis.store, from, slot)| == |old(KeysAt(redis.store, from, slot))|
      invariant batch == 0 ==> keyCount == 0 && redis.store == old(redis.store)
      decreases |KeysAt(redis.store, from, slot)|
    {
      var got, keys := redis.GetKeysInSlot(from, slot, batch);
      if !got {
        return 0, false;
      }
      keyCount := keyCount + |keys|;
      if |keys| == 0 {
        break;
      }
      ghost var was := redis.store;
      var moved, copied, gone := redis.Migrate(from, to, slot, keys);
      MovedConserves(was, from, to, slot, copied, gone);
      ConservedTransitive(old(redis.store), was, redis.store, from, to, {slot}, {slot});
      assert {slot} + {slot} == {slot};
      if !moved {
        return keyCount, false;
      }
      MovedShrinks(was, from, to, slot, copied, gone);
      RemoveCounts(KeysAt(was, from, slot), keys);
    }
    return keyCount, true;
  }

  lemma RemoveCounts(all: set<string>, keys: seq<string>)
    requires NoDup(keys) && Elems(keys) <= all
    ensures |all - Elems(keys)| == |all| - |keys|
  {
    NoDupCardinality(keys);
    assert all == (all - Elems(keys)) + Elems(keys);
  }

  /** The keys of these slots that the node stores. */
  ghost function SlotKeys(store: Store, node: string, slots: set<Slot>): set<(Slot, string)> {
    set e | e in store && e.0 == node && e.1 in slots :: (e.1, e.2)
  }

  lemma SlotKeysMember(store: Store, node: string, slots: set<Slot>, s: Slot, k: string)
    ensures (s, k) in SlotKeys(store, node, slots) <==> (node, s, k) in store && s in slots
  {
    if (node, s, k) in store && s in slots {
      var e := (node, s, k);
      assert e in store && e.0 == node && e.1 in slots;
    }
  }

  lemma {:induction false} PairedSize(keys: set<string>, s: Slot)
    ensures |set k | k in keys :: (s, k)| == |keys|
    decreases |keys|
  {
    if keys == {} {
      assert (set k | k in keys :: (s, k)) == {};
    } else {
      var x :| x in keys;
      PairedSize(keys - {x}, s);
      assert (set k | k in keys :: (s, k)) == (set k | k in keys - {x} :: (s, k)) + {(s, x)};
    }
  }

  /** Counting one more slot: what is found there now is what was there at the start, and nothing if it was done before. */
  lemma CountNext(before: Store, now: Store, from: string, to: string, done: set<Slot>, s: Slot)
    requires Conserved(before, now, from, to, done) && forall t, k :: t in done ==> (from, t, k) !in now
    ensures |SlotKeys(before, from, done + {s})| == |SlotKeys(before, from, done)| + |KeysAt(now, from, s)|
  {
    var more := set k | k in KeysAt(now, from, s) :: (s, k);
    PairedSize(KeysAt(now, from, s), s);
    forall t: Slot, k: string
      ensures (t, k) in SlotKeys(before, from, done + {s}) <==> (t, k) in SlotKeys(before, from, done) || (t, k) in more
      ensures (t, k) in more ==> (t, k) !in SlotKeys(before, from, done)
    {
      SlotKeysMember(before, from, done + {s}, t, k);
      SlotKeysMember(before, from, done, t, k);
      KeysAtMember(now, from, s, k);
    }
    SplitSize(SlotKeys(before, from, done + {s}), SlotKeys(before, from, done), more);
  }

  lemma SplitSize(all: set<(Slot, string)>, a: set<(Slot, string)>, b: set<(Slot, string)>)
    requires forall s, k :: (s, k) in all <==> (s, k) in a || (s, k) in b
    requires forall s, k :: (s, k) in b ==> (s, k) !in a
    ensures |all| == |a| + |b|
  {
    forall e: (Slot, string) ensures (e in all <==> e in a + b) && !(e in a && e in b) {
      assert e == (e.0, e.1);
    }
    assert all == a + b && a !! b;
  }

  /**
   * The scale-down variant over several slots. A failed MIGRATE ends it with a nil error, so only a
   * run in which no command failed is known to have emptied the source and to have counted its keys.
   */
  method MigrateKeys(redis: Redis, from: string, to: string, slots: seq<Slot>, batch: nat)
    returns (keyCount: nat, ok: bool)
    requires from != to
    modifies redis`store, redis`failed
    ensures Conserved(old(redis.store), redis.store, from, to, Elems(slots))
    ensures (old(redis.failed) ==> redis.failed) && (redis.failed ==> old(redis.failed) || redis.faulty)
    ensures !ok ==> redis.failed
    ensures !redis.failed && batch > 0 ==> redis.store == Drained(old(redis.store), from, to, Elems(slots))
    ensures !redis.failed && batch > 0 ==> keyCount == |SlotKeys(old(redis.store), from, Elems(slots))|
  {
    keyCount := 0;
    ConservedRefl(redis.store, from, to, {});
    for i := 0 to |slots|
      invariant Conserved(old(redis.store), redis.store, from, to, Elems(slots[..i]))
      invariant redis.failed == old(redis.failed)
      invariant batch > 0 ==> Emptied(redis.store, from, Elems(slots[..i]))
      invariant batch > 0 ==> keyCount == |SlotKeys(old(redis.store), from, Elems(slots[..i]))|
    {
      ghost var was, done := redis.store, Elems(slots[..i]);
      var n, moved := MigrateKeysInSlot(redis, from, to, slots[i], batch);
      assert Elems(slots[..i + 1]) == done + {slots[i]};
      ConservedTransitive(old(redis.store), was, redis.store, from, to, done, {slots[i]});
      keyCount := keyCount + n;
      if !moved {
        assert Elems(slots[..i + 1]) <= Elems(slots);
        ConservedWiden(old(redis.store), redis.store, from, to, Elems(slots[..i + 1]), Elems(slots));
        ok := *;
        return;
      }
      EmptiedNext(was, redis.store, from, to, done, slots[i], batch);
      if batch > 0 {
        CountNext(old(redis.store), was, from, to, done, slots[i]);
      }
    }
    ok := true;
    assert slots[..|slots|] == slots;
    if batch > 0 {
      DrainedByConservation(old(redis.store), redis.store, from, to, Elems(slots));
    }
  }

  /** The node stores no key of these slots. */
  ghost predicate Emptied(store: Store, node: string, slots: set<Slot>) {
    forall s, k :: s in slots ==> (node, s, k) !in store
  }

  lemma EmptiedNext(was: Store, now: Store, from: string, to: string, done: set<Slot>, s: Slot, batch: nat)
    requires Conserved(was, now, from, to, {s})
    requires batch > 0 ==> Emptied(was, from, done) && KeysAt(now, from, s) == {}
    ensures batch > 0 ==> Emptied(now, from, done + {s})
  {
    EmptiedBy(now, from, s);
  }

  lemma EmptiedBy(store: Store, node: string, slot: Slot)
    ensures KeysAt(store, node, slot) == {} <==> forall k :: (node, slot, k) !in store
  {
    forall k ensures k in KeysAt(store, node, slot) <==> (node, slot, k) in store {
      KeysAtMember(store, node, slot, k);
    }
    if k :| (node, slot, k) in store {
      assert k in KeysAt(store, node, slot);
    }
  }

  // ---------------------------------------------------------------- one slot

  /** The SETSLOT commands of one slot move, in order; moveSlot gives each node its own id for the first two. */
  ghost function MoveCommands(source: string, target: string, slot: Slot): seq<Command> {
    [SetSlot(target, Importing, slot, target), SetSlot(source, Migrating, slot, source),
     SetSlot(target, Owner, slot, target), SetSlot(source, Owner, slot, target)]
  }

  /** Ownership is handed over only while the source stores no key of the slot. */
  ghost predicate HandedOverEmpty(events: seq<Event>, source: string, slot: Slot) {
    forall i :: 0 <= i < |events| && events[i].cmd.SetSlot? && events[i].cmd.action == Owner ==>
      KeysAt(events[i].store, source, slot) == {}
  }

  /** However far moveSlot gets, its commands come in a safe order. */
  lemma MoveOrder(events: seq<Event>, source: string, target: string, slot: Slot)
    requires source != target && Commands(events) <= MoveCommands(source, target, slot)
    ensures InOrder(events, target)
  {
    var plan := MoveCommands(source, target, slot);
    assert forall i :: 0 <= i < |events| ==> events[i].cmd == Commands(events)[i] == plan[i];
    forall i: nat | i < |events| ensures OrderedAt(events, i, target) {
      if i == 3 {
        assert Announces(events[2], target, slot);
      }
    }
  }

  lemma MoveTakesEmpty(events: seq<Event>, source: string, target: string, slot: Slot)
    requires Commands(events) <= MoveCommands(source, target, slot) && HandedOverEmpty(events, source, slot)
    ensures AllTakeEmpty(events)
  {
    var plan := MoveCommands(source, target, slot);
    assert forall i :: 0 <= i < |events| ==> events[i].cmd == Commands(events)[i] == plan[i];
  }

  /** Marks the slot importing on the target, then migrating on the source. */
  method OpenSlot(redis: Redis, source: string, target: string, slot: Slot) returns (ok: bool, ghost sent: seq<Event>)
    modifies redis`claims, redis`trace, redis`failed
    ensures redis.trace == old(redis.trace) + sent && redis.claims == old(redis.claims)
    ensures redis.claims == Replay(old(redis.claims), sent)
    ensures redis.failed == (old(redis.failed) || !ok)
    ensures ok || redis.faulty
    ensures HandedOverEmpty(sent, source, slot)
    ensures Commands(sent) <= MoveCommands(source, target, slot)
    ensures ok ==> Commands(sent) == MoveCommands(source, target, slot)[..2]
  {
    ghost var a, b;
    ok, a := redis.SetSlots(target, Importing, [slot], target);
    ReplaySetSlots(old(redis.claims), a, target, Importing, [slot], target, redis.store);
    sent := a;
    if !ok {
      return;
    }
    ok, b := redis.SetSlots(source, Migrating, [slot], source);
    ReplaySetSlots(redis.claims, b, source, Migrating, [slot], source, redis.store);
    ReplaySetSlots(old(redis.claims), b, source, Migrating, [slot], source, redis.store);
    sent := a + b;
    ReplayConcat(old(redis.claims), a, b);
  }

  /** Tells the target, then the source, that the target owns the slot; failures are only logged. */
  method HandOver(redis: Redis, source: string, target: string, slot: Slot) returns (ghost sent: seq<Event>)
    requires source != target
    modifies redis`claims, redis`trace, redis`failed
    ensures redis.trace == old(redis.trace) + sent && redis.claims == Replay(old(redis.claims), sent)
    ensures (old(redis.failed) ==> redis.failed) && (redis.failed ==> old(redis.failed) || redis.faulty)
    ensures !redis.failed ==> redis.claims == Lose(Gain(old(redis.claims), target, {slot}), source, {slot})
    ensures Commands(sent) == MoveCommands(source, target, slot)[2..]
    ensures forall i :: 0 <= i < |sent| ==> sent[i].store == redis.store
  {
    ghost var c, d;
    var ok;
    ok, c := redis.SetSlots(target, Owner, [slot], target);
    ReplaySetSlots(old(redis.claims), c, target, Owner, [slot], target, redis.store);
    ghost var claims := redis.claims;
    ok, d := redis.SetSlots(source, Owner, [slot], target);
    ReplaySetSlots(claims, d, source, Owner, [slot], target, redis.store);
    assert Elems([slot]) == {slot};
    sent := c + d;
    ReplayConcat(old(redis.claims), c, d);
  }

  lemma JoinSends(a: seq<Event>, b: seq<Event>, source: string, target: string, slot: Slot)
    requires Commands(a) == MoveCommands(source, target, slot)[..2]
    requires Commands(b) == MoveCommands(source, target, slot)[2..]
    requires HandedOverEmpty(a, source, slot)
    requires forall i :: 0 <= i < |b| ==> KeysAt(b[i].store, source, slot) == {}
    ensures Commands(a + b) == MoveCommands(source, target, slot)
    ensures HandedOverEmpty(a + b, source, slot)
  {
  }

  lemma MoveCareful(past: History, now: History, sent: seq<Event>, source: string, target: string, slot: Slot)
    requires source != target && Commands(sent) <= MoveCommands(source, target, slot)
    requires past.faulty == now.faulty
    requires (past.failed ==> now.failed) && (now.failed ==> past.failed || now.faulty)
    requires now.trace == past.trace + sent && now.claims == Replay(past.claims, sent)
    requires HandedOverEmpty(sent, source, slot)
    ensures Careful(past, now)
  {
    MoveOrder(sent, source, target, slot);
    MoveTakesEmpty(sent, source, target, slot);
    KeysFirstBy(past.trace, sent);
    InOrderGranted(sent, target);
    SinceBy(past, now, sent);
  }

  /**
   * Errors before the hand-over end the move; errors of the hand-over itself are only logged.
   * The source's list loses the slot, the target's list is not touched.
   */
  method MoveSlot(redis: Redis, source: Node, slot: Slot, target: Node)
    returns (ok: bool, ghost sent: seq<Event>)
    requires source.id != target.id
    modifies redis, source`slots
    ensures Conserved(old(redis.store), redis.store, source.id, target.id, {slot})
    ensures redis.trace == old(redis.trace) + sent && HandedOverEmpty(sent, source.id, slot)
    ensures Commands(sent) <= MoveCommands(source.id, target.id, slot)
    ensures ok ==> Commands(sent) == MoveCommands(source.id, target.id, slot)
    ensures ok ==> KeysAt(redis.store, source.id, slot) == {}
    ensures ok && NoDup(old(source.slots)) ==> source.slots == Without(old(source.slots), {slot}) && NoDup(source.slots)
    ensures ok && NoDup(old(source.slots)) && slot in old(source.slots) ==> |source.slots| == |old(source.slots)| - 1
    ensures !ok ==> source.slots == old(source.slots) && redis.claims == old(redis.claims) && redis.failed
    ensures Careful(old(redis.Now()), redis.Now()) && redis.claims == Replay(old(redis.claims), sent)
    ensures !redis.failed ==> redis.claims == Lose(Gain(old(redis.claims), target.id, {slot}), source.id, {slot})
    ensures !redis.failed ==> redis.store == Drained(old(redis.store), source.id, target.id, {slot})
  {
    ConservedRefl(redis.store, source.id, target.id, {slot});
    ghost var a, b;
    ok, a := OpenSlot(redis, source.id, target.id, slot);
    sent := a;
    MoveCareful(old(redis.Now()), redis.Now(), sent, source.id, target.id, slot);
    if !ok {
      return;
    }
    var count;
    count, ok := MigrateKeysInSlot(redis, source.id, target.id, slot, 10);
    MoveCareful(old(redis.Now()), redis.Now(), sent, source.id, target.id, slot);
    if !ok {
      return;
    }
    b := HandOver(redis, source.id, target.id, slot);
    JoinSends(a, b, source.id, target.id, slot);
    ReplayConcat(old(redis.claims), a, b);
    sent := a + b;
    MoveCareful(old(redis.Now()), redis.Now(), sent, source.id, target.id, slot);
    EmptiedBy(redis.store, source.id, slot);
    DrainedByConservation(old(redis.store), redis.store, source.id, target.id, {slot});
    source.slots := RemoveSlot(source.slots, slot);
  }
}
