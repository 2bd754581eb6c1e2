/**
 * Who owns a slot when the operator stops half-way through a hand-over. The order of the commands is
 * that of DispatchSlotToNewMasters (migration.go) and moveSlot (rebalance.go): the target is told first.
 */
module CrashPoints {
  import opened SlotLists
  import opened RedisModel

  /** An ownership command for slot s on node x. */
  ghost predicate Announces(e: Event, x: string, s: Slot) {
    e.cmd.SetSlot? && e.cmd.on == x && e.cmd.action == Owner && e.cmd.slot == s
  }

  /** Such a command has been sent and took effect. */
  ghost predicate TookOn(events: seq<Event>, x: string, s: Slot) {
    exists i :: 0 <= i < |events| && events[i].took && Announces(events[i], x, s)
  }

  /** Every ownership command on x names owner. */
  ghost predicate Names(events: seq<Event>, x: string, owner: string) {
    forall i :: 0 <= i < |events| ==>
      events[i].cmd.SetSlot? && (events[i].cmd.on == x && events[i].cmd.action == Owner ==> events[i].cmd.arg == owner)
  }

  /** The source is told about a slot only after the target has been. */
  ghost predicate TargetFirst(events: seq<Event>, source: string, target: string) {
    forall i, s :: 0 <= i < |events| && Announces(events[i], source, s) ==> ToldBefore(events, i, target, s)
  }

  ghost predicate ToldBefore(events: seq<Event>, i: nat, target: string, s: Slot) {
    exists j :: 0 <= j < i && j < |events| && Announces(events[j], target, s)
  }

  lemma TookSnoc(events: seq<Event>, e: Event, x: string, s: Slot)
    ensures TookOn(events + [e], x, s) <==> TookOn(events, x, s) || (e.took && Announces(e, x, s))
  {
    var all := events + [e];
    if i :| 0 <= i < |events| && events[i].took && Announces(events[i], x, s) {
      assert all[i] == events[i];
    }
    if e.took && Announces(e, x, s) {
      assert all[|events|] == e;
    }
  }

  /** A node that is only ever told that it owns slots gains exactly those. */
  lemma {:induction false} TargetClaims(claims: Claims, events: seq<Event>, x: string, s: Slot)
    requires Names(events, x, x)
    ensures s in SlotsOf(Replay(claims, events), x) <==> s in SlotsOf(claims, x) || TookOn(events, x, s)
  {
    if events != [] {
      var init, e := events[..|events| - 1], events[|events| - 1];
      TargetClaims(claims, init, x, s);
      assert events == init + [e];
      TookSnoc(init, e, x, s);
    }
  }

  /** A node that is only ever told that another one owns slots loses exactly those. */
  lemma {:induction false} SourceClaims(claims: Claims, events: seq<Event>, x: string, owner: string, s: Slot)
    requires x != owner && Names(events, x, owner)
    ensures s in SlotsOf(Replay(claims, events), x) <==> s in SlotsOf(claims, x) && !TookOn(events, x, s)
  {
    if events != [] {
      var init, e := events[..|events| - 1], events[|events| - 1];
      SourceClaims(claims, init, x, owner, s);
      assert events == init + [e];
      TookSnoc(init, e, x, s);
    }
  }

  ghost predicate Orphan(claims: Claims, source: string, target: string, s: Slot) {
    s !in SlotsOf(claims, source) && s !in SlotsOf(claims, target)
  }

  /**
   * At a crash point a slot that the source owned is without owner exactly when the source has
   * accepted the new owner while the target (which did not own it before) has not.
   */
  lemma OrphanExactly(claims: Claims, events: seq<Event>, k: nat, source: string, target: string, s: Slot)
    requires source != target && k <= |events|
    requires Names(events, target, target) && Names(events, source, target)
    requires s in SlotsOf(claims, source)
    ensures Orphan(Replay(claims, events[..k]), source, target, s) <==>
            && TookOn(events[..k], source, s) && !TookOn(events[..k], target, s)
            && s !in SlotsOf(claims, target)
  {
    TargetClaims(claims, events[..k], target, s);
    SourceClaims(claims, events[..k], source, target, s);
  }

  /**
   * With the target told first, no crash point leaves a slot without owner, provided the command
   * takes effect on the target.
   */
  lemma CrashSafe(claims: Claims, events: seq<Event>, k: nat, source: string, target: string, s: Slot)
    requires source != target && k <= |events|
    requires Names(events, target, target) && Names(events, source, target) && TargetFirst(events, source, target)
    requires s in SlotsOf(claims, source)
    requires forall i :: 0 <= i < |events| && Announces(events[i], target, s) ==> events[i].took
    ensures !Orphan(Replay(claims, events[..k]), source, target, s)
  {
    OrphanExactly(claims, events, k, source, target, s);
    if TookOn(events[..k], source, s) {
      var i :| 0 <= i < k && events[..k][i].took && Announces(events[..k][i], source, s);
      assert Announces(events[i], source, s);
      assert ToldBefore(events, i, target, s);
      var j :| 0 <= j < i && Announces(events[j], target, s);
      assert events[..k][j].took && Announces(events[..k][j], target, s);
    }
  }

  /** Told in the other order, a slot can be without owner although every command takes effect. */
  lemma SourceFirstIsUnsafe(claims: Claims, source: string, target: string, s: Slot, store: Store)
    requires source != target && s in SlotsOf(claims, source) && s !in SlotsOf(claims, target)
    ensures var events := [Event(SetSlot(source, Owner, s, target), true, store),
                           Event(SetSlot(target, Owner, s, target), true, store)];
            && Names(events, target, target) && Names(events, source, target) && AllTook(events)
            && Orphan(Replay(claims, events[..1]), source, target, s)
  {
    var e := Event(SetSlot(source, Owner, s, target), true, store);
    var events := [e, Event(SetSlot(target, Owner, s, target), true, store)];
    assert events[..1] == [e];
    OrphanExactly(claims, events, 1, source, target, s);
    assert events[..1][0].took && Announces(events[..1][0], source, s);
    assert !TookOn(events[..1], target, s);
  }

  // ---------------------------------------------------------------- the order of one hand-over

  ghost predicate OrderedAt(events: seq<Event>, i: nat, target: string)
    requires i < |events|
  {
    var cmd := events[i].cmd;
    && cmd.SetSlot?
    && (cmd.action == Owner ==>
          cmd.arg == target && (cmd.on == target || ToldBefore(events, i, target, cmd.slot)))
  }

  /** All ownership commands name the target, and nobody hears of a slot before the target does. */
  ghost predicate InOrder(events: seq<Event>, target: string) {
    forall i :: 0 <= i < |events| ==> OrderedAt(events, i, target)
  }

  /** Such an order is what CrashSafe asks for, whatever the source. */
  lemma InOrderIsSafe(events: seq<Event>, source: string, target: string)
    requires source != target && InOrder(events, target)
    ensures Names(events, target, target) && Names(events, source, target) && TargetFirst(events, source, target)
  {
    forall i: nat | i < |events|
      ensures events[i].cmd.SetSlot? && (events[i].cmd.action == Owner ==> events[i].cmd.arg == target)
    {
      assert OrderedAt(events, i, target);
    }
    forall i, s | 0 <= i < |events| && Announces(events[i], source, s) ensures ToldBefore(events, i, target, s) {
      assert OrderedAt(events, i, target);
    }
  }

  /** The target has been told about all these slots. */
  ghost predicate AllTold(events: seq<Event>, target: string, slots: seq<Slot>) {
    forall s :: s in slots ==> ToldBefore(events, |events|, target, s)
  }

  lemma ToldLater(a: seq<Event>, b: seq<Event>, i: nat, target: string, s: Slot)
    requires i <= |a| && ToldBefore(a, i, target, s)
    ensures ToldBefore(a + b, i, target, s)
  {
    var j :| 0 <= j < i && j < |a| && Announces(a[j], target, s);
    assert Announces((a + b)[j], target, s);
  }

  lemma AllToldLater(a: seq<Event>, b: seq<Event>, target: string, slots: seq<Slot>)
    requires AllTold(a, target, slots)
    ensures AllTold(a + b, target, slots)
  {
    forall s | s in slots ensures ToldBefore(a + b, |a + b|, target, s) {
      ToldLater(a, b, |a|, target, s);
    }
  }

  /** Any node may be told about slots that the target has been told about; the target itself may always be told. */
  lemma InOrderTell(a: seq<Event>, b: seq<Event>, on: string, target: string, slots: seq<Slot>, store: Store)
    requires InOrder(a, target) && (on == target || AllTold(a, target, slots))
    requires SetSlotEvents(b, on, Owner, slots, target, store)
    ensures InOrder(a + b, target)
    ensures on == target ==> AllTold(a + b, target, slots)
  {
    forall i: nat | i < |a + b| ensures OrderedAt(a + b, i, target) {
      if i < |a| {
        assert OrderedAt(a, i, target);
        if a[i].cmd.action == Owner && a[i].cmd.on != target {
          ToldLater(a, b, i, target, a[i].cmd.slot);
        }
      } else if on != target {
        var s := slots[i - |a|];
        assert s in slots && (a + b)[i] == b[i - |a|];
        ToldLater(a, b, |a|, target, s);
      }
    }
    if on == target {
      forall s | s in slots ensures ToldBefore(a + b, |a + b|, target, s) {
        var p :| 0 <= p < |slots| && slots[p] == s;
        assert (a + b)[|a| + p] == b[p];
        assert Announces((a + b)[|a| + p], target, s);
      }
    }
  }

  /** Commands that announce no owner are always in order. */
  lemma QuietOrder(events: seq<Event>, target: string)
    requires forall i :: 0 <= i < |events| ==> events[i].cmd.SetSlot? && events[i].cmd.action != Owner
    ensures InOrder(events, target)
  {
  }

  // ---------------------------------------------------------------- whole sequences of hand-overs

  /** As far as the event gives slot s to anybody, it gives it to t. */
  ghost predicate Agrees(e: Event, t: string, s: Slot) {
    e.cmd.SetSlot? && e.cmd.action == Owner && e.cmd.slot == s ==> e.cmd.arg == t
  }

  /** Event j tells t that it owns s, and up to i nothing else is said about s. */
  ghost predicate GrantAt(events: seq<Event>, j: nat, i: nat, t: string, s: Slot) {
    && j < i <= |events| && Announces(events[j], t, s)
    && forall k :: j <= k < i ==> Agrees(events[k], t, s)
  }

  /** Event i takes no slot from a node, or its new owner was told before and has not been told otherwise since. */
  ghost predicate Granted(events: seq<Event>, i: nat)
    requires i < |events|
  {
    var cmd := events[i].cmd;
    cmd.SetSlot? && cmd.action == Owner && cmd.arg != cmd.on ==> exists j :: GrantAt(events, j, i, cmd.arg, cmd.slot)
  }

  /** The order that is safe against crashes, for any number of hand-overs one after the other. */
  ghost predicate GrantedFirst(events: seq<Event>) {
    forall i :: 0 <= i < |events| ==> Granted(events, i)
  }

  lemma InOrderGranted(events: seq<Event>, target: string)
    requires InOrder(events, target)
    ensures GrantedFirst(events)
  {
    forall i: nat | i < |events| ensures Granted(events, i) {
      assert OrderedAt(events, i, target);
      var cmd := events[i].cmd;
      if cmd.action == Owner && cmd.on != target {
        var j :| 0 <= j < i && j < |events| && Announces(events[j], target, cmd.slot);
        forall k: nat | j <= k < i ensures Agrees(events[k], target, cmd.slot) {
          assert OrderedAt(events, k, target);
        }
        assert GrantAt(events, j, i, target, cmd.slot);
      }
    }
  }

  lemma GrantedConcat(a: seq<Event>, b: seq<Event>)
    requires GrantedFirst(a) && GrantedFirst(b)
    ensures GrantedFirst(a + b)
  {
    var all := a + b;
    forall i: nat | i < |all| ensures Granted(all, i) {
      var cmd := all[i].cmd;
      if cmd.SetSlot? && cmd.action == Owner && cmd.arg != cmd.on {
        if i < |a| {
          assert Granted(a, i);
          var j :| GrantAt(a, j, i, cmd.arg, cmd.slot);
          assert GrantAt(all, j, i, cmd.arg, cmd.slot);
        } else {
          GrantShifted(a, b, i - |a|);
        }
      }
    }
  }

  lemma GrantShifted(a: seq<Event>, b: seq<Event>, i: nat)
    requires i < |b| && Granted(b, i)
    ensures Granted(a + b, |a| + i)
  {
    var cmd := b[i].cmd;
    if cmd.SetSlot? && cmd.action == Owner && cmd.arg != cmd.on {
      var j: nat :| GrantAt(b, j, i, cmd.arg, cmd.slot);
      forall k: nat | |a| + j <= k < |a| + i ensures Agrees((a + b)[k], cmd.arg, cmd.slot) {
        assert (a + b)[k] == b[k - |a|];
        assert Agrees(b[k - |a|], cmd.arg, cmd.slot);
      }
      assert (a + b)[|a| + j] == b[j];
      assert GrantAt(a + b, |a| + j, |a| + i, cmd.arg, cmd.slot);
    }
  }

  /** The node is told that it owns the slot itself. */
  ghost predicate Grants(e: Event, s: Slot) {
    e.cmd.SetSlot? && e.cmd.action == Owner && e.cmd.slot == s && e.cmd.arg == e.cmd.on
  }

  /** Whenever a node is told so, the command takes effect. */
  ghost predicate GrantsTake(events: seq<Event>, s: Slot) {
    forall i :: 0 <= i < |events| && Grants(events[i], s) ==> events[i].took
  }

  /** A node that was told so, and of whom nothing else was said, owns the slot. */
  lemma {:induction false} StillGranted(claims: Claims, events: seq<Event>, j: nat, k: nat, t: string, s: Slot)
    requires GrantAt(events, j, k, t, s) && GrantsTake(events, s)
    ensures s in SlotsOf(Replay(claims, events[..k]), t)
    decreases k
  {
    assert events[..k][..k - 1] == events[..k - 1] && events[..k][k - 1] == events[k - 1];
    assert Agrees(events[k - 1], t, s) && Agrees(events[j], t, s);
    if j < k - 1 {
      assert GrantAt(events, j, k - 1, t, s);
      StillGranted(claims, events, j, k - 1, t, s);
    }
  }

  /**
   * At no crash point of any number of hand-overs does a slot that has an owner lose its last one,
   * provided that commands by which a node is told that it owns the slot itself take effect.
   */
  lemma {:induction false} NeverOrphaned(claims: Claims, events: seq<Event>, k: nat, s: Slot)
    requires GrantedFirst(events) && GrantsTake(events, s) && Owned(claims, s) && k <= |events|
    ensures Owned(Replay(claims, events[..k]), s)
    decreases k
  {
    if k == 0 {
      assert events[..0] == [];
    } else {
      NeverOrphaned(claims, events, k - 1, s);
      assert events[..k][..k - 1] == events[..k - 1] && events[..k][k - 1] == events[k - 1];
      assert Granted(events, k - 1);
      var before, cmd := Replay(claims, events[..k - 1]), events[k - 1].cmd;
      if cmd.SetSlot? && cmd.action == Owner && cmd.arg != cmd.on && cmd.slot == s {
        var j :| GrantAt(events, j, k - 1, cmd.arg, s);
        StillGranted(claims, events, j, k - 1, cmd.arg, s);
        assert s in SlotsOf(Replay(claims, events[..k]), cmd.arg);
      } else {
        var x :| s in SlotsOf(before, x);
        StillClaims(before, events[k - 1], x, s);
      }
    }
  }

  /** Only a command that gives the slot to somebody else takes it away. */
  lemma StillClaims(claims: Claims, e: Event, x: string, s: Slot)
    requires s in SlotsOf(claims, x)
    requires !(e.cmd.SetSlot? && e.cmd.action == Owner && e.cmd.arg != e.cmd.on && e.cmd.slot == s)
    ensures s in SlotsOf(After(claims, e), x)
  {
  }

  // ---------------------------------------------------------------- from one moment to a later one

  /**
   * Since the earlier moment only commands in a safe order have been sent, the claims are what these
   * commands have made of them, and nothing has failed unless commands may fail.
   */
  ghost predicate Since(past: History, now: History) {
    && past.faulty == now.faulty
    && (past.failed ==> now.failed) && (now.failed ==> past.failed || now.faulty)
    && past.trace <= now.trace && Lawful(past.claims, now.trace[|past.trace|..], now.claims)
  }

  ghost predicate Lawful(before: Claims, events: seq<Event>, after: Claims) {
    GrantedFirst(events) && after == Replay(before, events)
  }

  lemma SinceBy(past: History, now: History, sent: seq<Event>)
    requires past.faulty == now.faulty
    requires (past.failed ==> now.failed) && (now.failed ==> past.failed || now.faulty)
    requires now.trace == past.trace + sent && now.claims == Replay(past.claims, sent) && GrantedFirst(sent)
    ensures Since(past, now)
  {
    assert now.trace[|past.trace|..] == sent;
  }

  lemma SinceNothing(past: History, now: History)
    requires past.faulty == now.faulty && past.trace == now.trace && past.claims == now.claims
    requires (past.failed ==> now.failed) && (now.failed ==> past.failed || now.faulty)
    ensures Since(past, now)
  {
    SinceBy(past, now, []);
  }

  /** A single command other than SETSLOT is in a safe order. */
  lemma AddedSince(past: History, now: History)
    requires past.faulty == now.faulty
    requires (past.failed ==> now.failed) && (now.failed ==> past.failed || now.faulty)
    requires |now.trace| == |past.trace| + 1 && past.trace <= now.trace && now.trace[|past.trace|].cmd.AddRange?
    requires now.claims == After(past.claims, now.trace[|past.trace|])
    ensures Since(past, now)
  {
    var e := now.trace[|past.trace|];
    ReplaySnoc(past.claims, [], e);
    assert [] + [e] == [e];
    SinceBy(past, now, [e]);
  }

  lemma SinceTransitive(a: History, b: History, c: History)
    requires Since(a, b) && Since(b, c)
    ensures Since(a, c)
  {
    var s, t := b.trace[|a.trace|..], c.trace[|b.trace|..];
    GrantedConcat(s, t);
    ReplayConcat(a.claims, s, t);
    assert b.trace == a.trace + s && c.trace == b.trace + t;
    assert c.trace == a.trace + (s + t);
    SinceBy(a, c, s + t);
  }

  /** What was said of commands in a safe order, for the commands since an earlier moment. */
  lemma NoCrashOrphans(past: History, now: History, k: nat, s: Slot)
    requires Since(past, now) && Owned(past.claims, s) && |past.trace| <= k <= |now.trace|
    requires GrantsTake(now.trace[|past.trace|..], s)
    ensures Owned(Replay(past.claims, now.trace[|past.trace|..k]), s)
  {
    var sent := now.trace[|past.trace|..];
    assert sent[..k - |past.trace|] == now.trace[|past.trace|..k];
    NeverOrphaned(past.claims, sent, k - |past.trace|, s);
  }

  // ---------------------------------------------------------------- keys before ownership

  /** A node that is told of another owner of a slot has no keys of it. */
  ghost predicate TakesEmpty(e: Event) {
    e.cmd.SetSlot? && e.cmd.action == Owner && e.cmd.arg != e.cmd.on ==> KeysAt(e.store, e.cmd.on, e.cmd.slot) == {}
  }

  ghost predicate AllTakeEmpty(events: seq<Event>) {
    forall i :: 0 <= i < |events| ==> TakesEmpty(events[i])
  }

  /** So it was with all commands between the two traces. */
  ghost predicate KeysFirst(t0: seq<Event>, t1: seq<Event>) {
    t0 <= t1 && AllTakeEmpty(t1[|t0|..])
  }

  lemma KeysFirstTransitive(a: seq<Event>, b: seq<Event>, c: seq<Event>)
    requires KeysFirst(a, b) && KeysFirst(b, c)
    ensures KeysFirst(a, c)
  {
    assert c[|a|..] == b[|a|..] + c[|b|..];
  }

  lemma KeysFirstBy(t0: seq<Event>, events: seq<Event>)
    requires AllTakeEmpty(events)
    ensures KeysFirst(t0, t0 + events)
  {
    assert (t0 + events)[|t0|..] == events;
  }

  /** Since the earlier moment all was lawful, and keys went before ownership if no command has failed. */
  ghost predicate Careful(past: History, now: History) {
    Since(past, now) && (!now.failed ==> KeysFirst(past.trace, now.trace))
  }

  lemma CarefulTransitive(a: History, b: History, c: History)
    requires Careful(a, b) && Careful(b, c)
    ensures Careful(a, c)
  {
    SinceTransitive(a, b, c);
    if !c.failed {
      KeysFirstTransitive(a.trace, b.trace, c.trace);
    }
  }

  lemma CarefulNothing(past: History, now: History)
    requires past.faulty == now.faulty && past.trace == now.trace && past.claims == now.claims
    requires (past.failed ==> now.failed) && (now.failed ==> past.failed || now.faulty)
    ensures Careful(past, now)
  {
    SinceNothing(past, now);
  }

  lemma AddedCareful(past: History, now: History)
    requires past.faulty == now.faulty
    requires (past.failed ==> now.failed) && (now.failed ==> past.failed || now.faulty)
    requires |now.trace| == |past.trace| + 1 && past.trace <= now.trace && now.trace[|past.trace|].cmd.AddRange?
    requires now.claims == After(past.claims, now.trace[|past.trace|])
    ensures Careful(past, now)
  {
    AddedSince(past, now);
  }

  /** So it is with a whole trace. */
  ghost predicate Orderly(trace: seq<Event>, failed: bool) {
    GrantedFirst(trace) && (!failed ==> AllTakeEmpty(trace))
  }

  lemma StillOrderly(past: History, now: History)
    requires Orderly(past.trace, past.failed) && Careful(past, now)
    ensures Orderly(now.trace, now.failed)
  {
    var sent := now.trace[|past.trace|..];
    assert now.trace == past.trace + sent;
    GrantedConcat(past.trace, sent);
  }
}
