/** Who owns a slot and where its keys are, and what handing slots over does to both. */
module Ownership {
  import opened SlotLists
  import opened RedisModel
  import opened KeyMigration

  ghost predicate Functional(claims: Claims) {
    forall x, y, s :: s in SlotsOf(claims, x) && s in SlotsOf(claims, y) ==> x == y
  }

  /** Every slot below the limit has exactly one owner, and no other slot has any. */
  ghost predicate OneOwner(claims: Claims, hashSlots: nat) {
    && Functional(claims)
    && forall s: Slot :: Owned(claims, s) <==> s < hashSlots
  }

  /** Every stored key is stored by the owner of its slot. */
  ghost predicate KeysAtOwner(claims: Claims, store: Store) {
    forall x, s, k :: (x, s, k) in store ==> s in SlotsOf(claims, x)
  }

  ghost predicate Somewhere(store: Store, s: Slot, k: string) {
    exists x :: (x, s, k) in store
  }

  ghost predicate SameKeys(before: Store, after: Store) {
    forall s, k :: Somewhere(before, s, k) <==> Somewhere(after, s, k)
  }

  /** The slots change hands from one node to another. */
  ghost function Reassign(claims: Claims, from: string, to: string, slots: set<Slot>): Claims {
    Lose(Gain(claims, to, slots), from, slots)
  }

  lemma ReassignSlotsOf(claims: Claims, from: string, to: string, slots: set<Slot>, x: string)
    requires from != to
    ensures SlotsOf(Reassign(claims, from, to, slots), x) ==
            if x == to then SlotsOf(claims, x) + slots
            else if x == from then SlotsOf(claims, x) - slots
            else SlotsOf(claims, x)
  {
  }

  lemma ReassignFunctional(claims: Claims, from: string, to: string, slots: set<Slot>)
    requires from != to && Functional(claims) && slots <= SlotsOf(claims, from)
    ensures Functional(Reassign(claims, from, to, slots))
  {
    var after := Reassign(claims, from, to, slots);
    forall x, y, s | s in SlotsOf(after, x) && s in SlotsOf(after, y) ensures x == y {
      ReassignSlotsOf(claims, from, to, slots, x);
      ReassignSlotsOf(claims, from, to, slots, y);
      if s in slots {
        assert s in SlotsOf(claims, from);
      }
    }
  }

  lemma ReassignOneOwner(claims: Claims, hashSlots: nat, from: string, to: string, slots: set<Slot>)
    requires from != to && OneOwner(claims, hashSlots) && slots <= SlotsOf(claims, from)
    ensures OneOwner(Reassign(claims, from, to, slots), hashSlots)
  {
    ReassignFunctional(claims, from, to, slots);
    var after := Reassign(claims, from, to, slots);
    forall s: Slot ensures Owned(after, s) <==> Owned(claims, s) {
      if s in slots {
        assert s in SlotsOf(claims, from);
        ReassignSlotsOf(claims, from, to, slots, to);
        assert s in SlotsOf(after, to);
      }
      if x :| s in SlotsOf(claims, x) {
        ReassignSlotsOf(claims, from, to, slots, x);
        assert s in SlotsOf(after, x) || s in slots;
      }
      if x :| s in SlotsOf(after, x) {
        ReassignSlotsOf(claims, from, to, slots, x);
        assert s in SlotsOf(claims, x) || s in slots;
      }
    }
  }

  lemma ReassignCompose(claims: Claims, from: string, to: string, a: set<Slot>, b: set<Slot>)
    requires from != to
    ensures Reassign(Reassign(claims, from, to, a), from, to, b) == Reassign(claims, from, to, a + b)
  {
    assert SlotsOf(claims, to) + a + b == SlotsOf(claims, to) + (a + b);
    assert SlotsOf(claims, from) - a - b == SlotsOf(claims, from) - (a + b);
  }

  /** Keys that travel with their slots stay with the owner. */
  lemma DrainKeysAtOwner(claims: Claims, store: Store, from: string, to: string, slots: set<Slot>)
    requires from != to && KeysAtOwner(claims, store)
    ensures KeysAtOwner(Reassign(claims, from, to, slots), Drained(store, from, to, slots))
  {
  }

  /** Conservation between two nodes keeps every key somewhere, and creates none. */
  lemma ConservedSameKeys(before: Store, after: Store, from: string, to: string, slots: set<Slot>)
    requires Conserved(before, after, from, to, slots)
    ensures SameKeys(before, after)
  {
  }

  lemma SameKeysTransitive(a: Store, b: Store, c: Store)
    requires SameKeys(a, b) && SameKeys(b, c)
    ensures SameKeys(a, c)
  {
  }
}
