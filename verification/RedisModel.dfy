/**
 * What the operator's commands do to the Redis nodes: which node regards itself as
 * owner of which slot, and which keys each node stores. Every command may fail, and
 * a failed command may nevertheless have taken effect.
 */
module RedisModel {
  import opened Lists
  import opened SlotLists

  /** For each node the slots it regards itself as owner of. */
  type Claims = map<string, set<Slot>>

  /** (node, slot, key): the node stores the key. */
  type Store = set<(string, Slot, string)>

  datatype Action = Importing | Migrating | Owner

  datatype Command =
    | SetSlot(on: string, action: Action, slot: Slot, arg: string)
    | AddRange(on: string, first: Slot, last: Slot)

  /** A command that was sent, whether it took effect, and what was stored when it was sent. */
  datatype Event = Event(cmd: Command, took: bool, store: Store)

  function SlotsOf(claims: Claims, node: string): set<Slot> {
    if node in claims then claims[node] else {}
  }

  function Gain(claims: Claims, node: string, slots: set<Slot>): Claims {
    claims[node := SlotsOf(claims, node) + slots]
  }

  function Lose(claims: Claims, node: string, slots: set<Slot>): Claims {
    claims[node := SlotsOf(claims, node) - slots]
  }

  /** Some node regards itself as owner of the slot. */
  ghost predicate Owned(claims: Claims, s: Slot) {
    exists x :: s in SlotsOf(claims, x)
  }

  ghost function KeysAt(store: Store, node: string, slot: Slot): set<string> {
    set e | e in store && e.0 == node && e.1 == slot :: e.2
  }

  lemma KeysAtMember(store: Store, node: string, slot: Slot, k: string)
    ensures k in KeysAt(store, node, slot) <==> (node, slot, k) in store
  {
    if (node, slot, k) in store {
      var e := (node, slot, k);
      assert e in store && e.0 == node && e.1 == slot && e.2 == k;
    }
  }

  /** The claims after one command. */
  ghost function After(claims: Claims, e: Event): Claims {
    if !e.took then claims
    else
      match e.cmd
      case AddRange(on, first, last) => Gain(claims, on, Elems(RangeSlots(first, last)))
      case SetSlot(on, action, slot, arg) =>
        if action != Owner then claims
        else if arg == on then Gain(claims, on, {slot})
        else Lose(claims, on, {slot})
  }

  ghost function Replay(claims: Claims, events: seq<Event>): Claims {
    if events == [] then claims else After(Replay(claims, events[..|events| - 1]), events[|events| - 1])
  }

  lemma {:induction false} ReplayConcat(claims: Claims, a: seq<Event>, b: seq<Event>)
    ensures Replay(claims, a + b) == Replay(Replay(claims, a), b)
  {
    if b == [] {
      assert a + b == a;
    } else {
      ReplayConcat(claims, a, b[..|b| - 1]);
      assert (a + b)[..|a + b| - 1] == a + b[..|b| - 1];
    }
  }

  lemma ReplaySnoc(claims: Claims, events: seq<Event>, e: Event)
    ensures Replay(claims, events + [e]) == After(Replay(claims, events), e)
  {
    assert (events + [e])[..|events|] == events;
  }

  /** The events of one pipelined SETSLOT call. */
  ghost predicate SetSlotEvents(events: seq<Event>, on: string, action: Action, slots: seq<Slot>, arg: string,
                                store: Store)
  {
    && |events| == |slots|
    && forall i :: 0 <= i < |slots| ==>
         events[i].cmd == SetSlot(on, action, slots[i], arg) && events[i].store == store
  }

  ghost function Commands(events: seq<Event>): seq<Command> {
    seq(|events|, i requires 0 <= i < |events| => events[i].cmd)
  }

  lemma CommandsConcat(a: seq<Event>, b: seq<Event>)
    ensures Commands(a + b) == Commands(a) + Commands(b)
  {
  }

  /** SETSLOT for each slot, in order. */
  ghost function SetSlotCommands(on: string, action: Action, slots: seq<Slot>, arg: string): seq<Command> {
    seq(|slots|, i requires 0 <= i < |slots| => SetSlot(on, action, slots[i], arg))
  }

  lemma SetSlotSends(events: seq<Event>, on: string, action: Action, slots: seq<Slot>, arg: string, store: Store)
    requires SetSlotEvents(events, on, action, slots, arg, store)
    ensures Commands(events) == SetSlotCommands(on, action, slots, arg)
  {
  }

  ghost predicate AllTook(events: seq<Event>) {
    forall i :: 0 <= i < |events| ==> events[i].took
  }

  lemma {:induction false} ReplaySetSlots(claims: Claims, events: seq<Event>, on: string, action: Action,
                                          slots: seq<Slot>, arg: string, store: Store)
    requires SetSlotEvents(events, on, action, slots, arg, store)
    ensures action != Owner ==> Replay(claims, events) == claims
    ensures action == Owner && AllTook(events) && arg == on && slots != [] ==>
              Replay(claims, events) == Gain(claims, on, Elems(slots))
    ensures action == Owner && AllTook(events) && arg != on && slots != [] ==>
              Replay(claims, events) == Lose(claims, on, Elems(slots))
  {
    if |events| > 0 {
      var n := |slots| - 1;
      ReplaySetSlots(claims, events[..n], on, action, slots[..n], arg, store);
      assert slots == slots[..n] + [slots[n]];
      assert Elems(slots) == Elems(slots[..n]) + {slots[n]};
      if n == 0 {
        assert Elems(slots) == {slots[0]};
        assert Replay(claims, events[..0]) == claims;
      } else if action == Owner {
        GainTwice(claims, on, Elems(slots[..n]), {slots[n]});
        LoseTwice(claims, on, Elems(slots[..n]), {slots[n]});
      }
    }
  }

  lemma GainTwice(claims: Claims, node: string, a: set<Slot>, b: set<Slot>)
    ensures Gain(Gain(claims, node, a), node, b) == Gain(claims, node, a + b)
  {
    assert SlotsOf(claims, node) + a + b == SlotsOf(claims, node) + (a + b);
  }

  lemma LoseTwice(claims: Claims, node: string, a: set<Slot>, b: set<Slot>)
    ensures Lose(Lose(claims, node, a), node, b) == Lose(claims, node, a + b)
  {
    assert SlotsOf(claims, node) - a - b == SlotsOf(claims, node) - (a + b);
  }

  /** Keys ks move: they are copied to one node, and gone of them leave the other. */
  ghost function Moved(store: Store, from: string, to: string, slot: Slot, copied: set<string>, gone: set<string>): Store {
    store - (set k | k in gone :: (from, slot, k)) + (set k | k in copied :: (to, slot, k))
  }

  method RangeSet(first: Slot, last: Slot) returns (added: set<Slot>)
    ensures added == Elems(RangeSlots(first, last))
  {
    added := {};
    var s: int := first;
    while s <= last
      invariant first <= s && (first <= last + 1 ==> s <= last + 1) && (first > last ==> s == first)
      invariant added == Elems(RangeSlots(first, s - 1))
      decreases last + 1 - s
    {
      assert RangeSlots(first, s) == RangeSlots(first, s - 1) + [s];
      added := added + {s};
      s := s + 1;
    }
  }

  /** Up to count members of the set, each once. */
  method TakeSome(all: set<string>, count: nat) returns (keys: seq<string>)
    ensures NoDup(keys) && Elems(keys) <= all
    ensures |keys| == if count <= |all| then count else |all|
  {
    keys := [];
    var left := all;
    while |keys| < count && left != {}
      invariant left <= all && Elems(keys) == all - left
      invariant NoDup(keys)
      invariant |keys| + |left| == |all| && |keys| <= count
      decreases left
    {
      var k :| k in left;
      assert k !in Elems(keys);
      NoDupExtend(keys, k);
      assert Elems(keys + [k]) == Elems(keys) + {k};
      left := left - {k};
      keys := keys + [k];
    }
  }

  /** What can be told of the Redis nodes at a moment, apart from the keys. */
  datatype History = History(claims: Claims, trace: seq<Event>, failed: bool, faulty: bool)

  class Redis {
    const faulty: bool     // whether commands may fail at all
    var claims: Claims
    var store: Store
    var trace: seq<Event>  // commands sent so far
    var failed: bool       // whether some command has failed

    constructor (faulty: bool)
      ensures this.faulty == faulty
      ensures claims == map[] && store == {} && trace == [] && !failed
    {
      this.faulty := faulty;
      claims, store, trace, failed := map[], {}, [], false;
    }

    ghost function Now(): History
      reads this
    {
      History(claims, trace, failed, faulty)
    }

    /** Whether the next command succeeds. */
    method Succeeds() returns (ok: bool)
      modifies this`failed
      ensures ok || faulty
      ensures failed == (old(failed) || !ok)
    {
      ok := true;
      if faulty {
        ok := *;
      }
      failed := failed || !ok;
    }

    method Send(on: string, action: Action, slot: Slot, arg: string, took: bool) returns (e: Event)
      modifies this`claims, this`trace
      ensures e == Event(SetSlot(on, action, slot, arg), took, store)
      ensures trace == old(trace) + [e]
      ensures claims == After(old(claims), e)
    {
      e := Event(SetSlot(on, action, slot, arg), took, store);
      if took && action == Owner {
        claims := if arg == on then Gain(claims, on, {slot}) else Lose(claims, on, {slot});
      }
      trace := trace + [e];
    }

    /** CLUSTER SETSLOT for each slot in one pipeline; nothing for an empty list. */
    method SetSlots(on: string, action: Action, slots: seq<Slot>, arg: string)
      returns (ok: bool, ghost sent: seq<Event>)
      modifies this`claims, this`trace, this`failed
      ensures trace == old(trace) + sent && SetSlotEvents(sent, on, action, slots, arg, store)
      ensures claims == Replay(old(claims), sent)
      ensures ok ==> AllTook(sent)
      ensures slots == [] ==> ok
      ensures failed == (old(failed) || !ok)
      ensures ok || faulty
    {
      sent := [];
      if |slots| == 0 {
        return true, sent;
      }
      ok := Succeeds();
      for i := 0 to |slots|
        invariant trace == old(trace) + sent
        invariant SetSlotEvents(sent, on, action, slots[..i], arg, store)
        invariant claims == Replay(old(claims), sent)
        invariant ok ==> AllTook(sent)
        invariant failed == (old(failed) || !ok)
      {
        var took := true;
        if !ok {
          took := *;
        }
        var e := Send(on, action, slots[i], arg, took);
        ReplaySnoc(old(claims), sent, e);
        sent := sent + [e];
      }
      assert slots[..|slots|] == slots;
    }

    /** CLUSTER ADDSLOTSRANGE from the first to the last slot of the list; nothing for an empty list. */
    method AddSlots(on: string, slots: seq<Slot>) returns (ok: bool)
      modifies this`claims, this`trace, this`failed
      ensures ok && slots != [] ==>
                claims == Gain(old(claims), on, Elems(RangeSlots(slots[0], slots[|slots| - 1])))
      ensures slots != [] ==>
                && |trace| == |old(trace)| + 1 && old(trace) <= trace
                && trace[|old(trace)|].cmd == AddRange(on, slots[0], slots[|slots| - 1])
                && claims == After(old(claims), trace[|old(trace)|])
      ensures slots == [] ==> ok && claims == old(claims) && trace == old(trace)
      ensures failed == (old(failed) || !ok)
      ensures ok || faulty
    {
      if slots == [] {
        return true;
      }
      ok := Succeeds();
      var took := true;
      if !ok {
        took := *;
      }
      var first, last := slots[0], slots[|slots| - 1];
      trace := trace + [Event(AddRange(on, first, last), took, store)];
      if took {
        var added := RangeSet(first, last);
        claims := Gain(claims, on, added);
      }
    }

    /** CLUSTER GETKEYSINSLOT: some keys of the slot, as many as asked for if there are. */
    method GetKeysInSlot(on: string, slot: Slot, batch: nat) returns (ok: bool, keys: seq<string>)
      modifies this`failed
      ensures failed == (old(failed) || !ok)
      ensures ok || faulty
      ensures ok ==> NoDup(keys) && Elems(keys) <= KeysAt(store, on, slot)
      ensures ok ==> |keys| == if batch <= |KeysAt(store, on, slot)| then batch else |KeysAt(store, on, slot)|
    {
      ok := Succeeds();
      var left := set e | e in store && e.0 == on && e.1 == slot :: e.2;
      assert left == KeysAt(store, on, slot);
      keys := TakeSome(left, batch);
    }

    /** MIGRATE: on success all keys have moved; on failure any of them may have been copied or moved. */
    method Migrate(from: string, to: string, slot: Slot, keys: seq<string>)
      returns (ok: bool, ghost copied: set<string>, ghost gone: set<string>)
      modifies this`store, this`failed
      ensures failed == (old(failed) || !ok)
      ensures ok || faulty
      ensures gone <= copied <= Elems(keys)
      ensures ok ==> gone == copied == Elems(keys)
      ensures store == Moved(old(store), from, to, slot, copied, gone)
    {
      ok := Succeeds();
      var done, left: set<string>, all := {}, {}, set k | k in keys;
      if ok {
        done, left := all, all;
      } else {
        var a: set<string> := *;
        var b: set<string> := *;
        done := a * all;
        left := b * done;
      }
      copied, gone := done, left;
      store := store - (set k | k in left :: (from, slot, k)) + (set k | k in done :: (to, slot, k));
    }
  }
}
