/** The text form of slots: String methods, DecodeSlot and DecodeSlotRange of utils/redisutil/slot.go. */
module SlotCodec {
  import opened Lists
  import opened SlotLists
  import opened Decimal

  // ---------------------------------------------------------------- strings

  /** strings.Split with a one-character separator. */
  function Split(s: string, sep: char): (parts: seq<string>)
    ensures |parts| >= 1
  {
    if s == [] then [""]
    else
      var rest := Split(s[1..], sep);
      if s[0] == sep then [""] + rest else [[s[0]] + rest[0]] + rest[1..]
  }

  function Count(s: string, c: char): nat {
    if s == [] then 0 else (if s[0] == c then 1 else 0) + Count(s[1..], c)
  }

  lemma {:induction false} CountZero(s: string, c: char)
    ensures Count(s, c) == 0 <==> c !in s
  {
    if s != [] {
      CountZero(s[1..], c);
      assert s == [s[0]] + s[1..];
    }
  }

  lemma {:induction false} SplitCount(s: string, sep: char)
    ensures |Split(s, sep)| == Count(s, sep) + 1
  {
    if s != [] {
      SplitCount(s[1..], sep);
    }
  }

  lemma {:induction false} SplitAtSeparator(a: string, b: string, sep: char)
    requires sep !in a
    ensures Split(a + [sep] + b, sep) == [a] + Split(b, sep)
  {
    var s := a + [sep] + b;
    if a == [] {
      assert s[1..] == b;
    } else {
      assert s[1..] == a[1..] + [sep] + b;
      SplitAtSeparator(a[1..], b, sep);
      assert a == [a[0]] + a[1..];
    }
  }

  lemma {:induction false} SplitNoSeparator(a: string, sep: char)
    requires sep !in a
    ensures Split(a, sep) == [a]
  {
    if a != [] {
      SplitNoSeparator(a[1..], sep);
      assert a == [a[0]] + a[1..];
    }
  }

  function TrimPrefix(s: string, c: char): string {
    if s != [] && s[0] == c then s[1..] else s
  }

  function TrimSuffix(s: string, c: char): string {
    if s != [] && s[|s| - 1] == c then s[..|s| - 1] else s
  }

  // ---------------------------------------------------------------- printing

  function SlotString(s: Slot): string {
    Print(s)
  }

  function RangeString(r: SlotRange): string {
    SlotString(r.min) + "-" + SlotString(r.max)
  }

  function ImportingString(slot: Slot, fromNodeId: string): string {
    SlotString(slot) + "-<-" + fromNodeId
  }

  function MigratingString(slot: Slot, toNodeId: string): string {
    SlotString(slot) + "->-" + toNodeId
  }

  function Bracketed(s: string): string {
    "[" + s + "]"
  }

  // ---------------------------------------------------------------- decoding

  function DecodeSlot(s: string): Result<Slot> {
    ParseUint(s, UINT64_LIMIT)
  }

  datatype Decoded =
    | Slots(min: Slot, max: Slot)
    | Importing(slot: Slot, fromNodeId: string)
    | Migrating(slot: Slot, toNodeId: string)
    | Undecodable
  {
    /** The slot list that is returned; empty for all but the first kind. */
    ghost function List(): seq<Slot> {
      if Slots? then RangeSlots(min, max) else []
    }
  }

  function DecodeSlotRange(str: string): Decoded {
    DecodeParts(Split(str, '-'))
  }

  function DecodeParts(val: seq<string>): Decoded
    requires |val| >= 1
  {
    if |val| == 3 then
      var separator := "-" + val[1] + "-";
      var slot := DecodeSlot(TrimPrefix(val[0], '['));
      if slot.Err? then Undecodable
      else if separator == "-<-" then Importing(slot.value, TrimSuffix(val[2], ']'))
      else if separator == "->-" then Migrating(slot.value, TrimSuffix(val[2], ']'))
      else Undecodable
    else
      var min := DecodeSlot(val[0]);
      if min.Err? then Undecodable
      else if |val| == 1 then Slots(min.value, min.value)
      else
        var max := DecodeSlot(val[1]);
        if max.Err? then Undecodable else Slots(min.value, max.value)
  }

  // ---------------------------------------------------------------- round trips

  lemma PrintedHasNoDash(n: nat)
    ensures '-' !in Print(n) && '[' !in Print(n)
  {
  }

  lemma SlotRoundTrip(s: Slot)
    requires s < UINT64_LIMIT
    ensures DecodeSlotRange(SlotString(s)) == Slots(s, s)
  {
    PrintedHasNoDash(s);
    SplitNoSeparator(Print(s), '-');
    ParsePrinted(s, UINT64_LIMIT);
  }

  lemma RangeRoundTrip(r: SlotRange)
    requires r.min < UINT64_LIMIT && r.max < UINT64_LIMIT
    ensures DecodeSlotRange(RangeString(r)) == Slots(r.min, r.max)
  {
    var a, b := Print(r.min), Print(r.max);
    PrintedHasNoDash(r.min);
    PrintedHasNoDash(r.max);
    assert RangeString(r) == a + ['-'] + b;
    SplitAtSeparator(a, b, '-');
    SplitNoSeparator(b, '-');
    ParsePrinted(r.min, UINT64_LIMIT);
    ParsePrinted(r.max, UINT64_LIMIT);
  }

  lemma SplitMarked(a: string, mark: char, id: string)
    requires '-' !in a && mark != '-'
    ensures Split(a + ['-', mark, '-'] + id, '-') == [a, [mark]] + Split(id, '-')
  {
    var tail := [mark] + ['-'] + id;
    assert a + ['-', mark, '-'] + id == a + ['-'] + tail;
    SplitAtSeparator(a, tail, '-');
    SplitAtSeparator([mark], id, '-');
  }

  /** What the decoder makes of printed-number, dash, marker, dash, text. */
  lemma DecodeMarked(open: string, slot: Slot, mark: char, id: string)
    requires slot < UINT64_LIMIT && (open == "" || open == "[") && (mark == '<' || mark == '>')
    ensures DecodeSlotRange(open + SlotString(slot) + ['-', mark, '-'] + id) ==
            if '-' in id then Undecodable
            else if mark == '<' then Importing(slot, TrimSuffix(id, ']'))
            else Migrating(slot, TrimSuffix(id, ']'))
  {
    var a := open + Print(slot);
    PrintedHasNoDash(slot);
    SplitMarked(a, mark, id);
    SplitCount(id, '-');
    CountZero(id, '-');
    if '-' in id {
      assert !IsDigit([mark][0]);
    } else {
      DecodeThreeParts(open, slot, mark, id);
    }
  }

  lemma DecodeThreeParts(open: string, slot: Slot, mark: char, id: string)
    requires slot < UINT64_LIMIT && (open == "" || open == "[") && (mark == '<' || mark == '>') && '-' !in id
    requires Split(open + SlotString(slot) + ['-', mark, '-'] + id, '-') ==
             [open + SlotString(slot), [mark]] + Split(id, '-')
    ensures DecodeSlotRange(open + SlotString(slot) + ['-', mark, '-'] + id) ==
            if mark == '<' then Importing(slot, TrimSuffix(id, ']')) else Migrating(slot, TrimSuffix(id, ']'))
  {
    SplitNoSeparator(id, '-');
    ThreeParts(open, slot, mark, id);
    assert [open + SlotString(slot), [mark]] + [id] == [open + SlotString(slot), [mark], id];
  }

  lemma ThreeParts(open: string, slot: Slot, mark: char, id: string)
    requires slot < UINT64_LIMIT && (open == "" || open == "[") && (mark == '<' || mark == '>')
    ensures DecodeParts([open + SlotString(slot), [mark], id]) ==
            if mark == '<' then Importing(slot, TrimSuffix(id, ']')) else Migrating(slot, TrimSuffix(id, ']'))
  {
    PrintedHasNoDash(slot);
    TrimOpen(open, Print(slot));
    ParsePrinted(slot, UINT64_LIMIT);
    var separator := "-" + [mark] + "-";
    assert separator[1] == mark && "-<-"[1] == '<';
    assert mark == '<' ==> separator == "-<-";
    assert mark == '>' ==> separator == "->-";
  }

  lemma TrimOpen(open: string, s: string)
    requires (open == "" || open == "[") && '[' !in s
    ensures TrimPrefix(open + s, '[') == s
  {
  }

  lemma TrimSuffixAppended(id: string)
    ensures TrimSuffix(id + "]", ']') == id
  {
  }

  lemma TrimSuffixIdentity(id: string)
    ensures TrimSuffix(id, ']') == id <==> id == [] || id[|id| - 1] != ']'
  {
  }

  /** A bare entry round-trips exactly when the id has no dash and does not end in a bracket. */
  lemma BareRoundTrip(slot: Slot, id: string)
    requires slot < UINT64_LIMIT
    ensures DecodeSlotRange(ImportingString(slot, id)) == Importing(slot, id) <==>
            '-' !in id && (id == [] || id[|id| - 1] != ']')
    ensures DecodeSlotRange(MigratingString(slot, id)) == Migrating(slot, id) <==>
            '-' !in id && (id == [] || id[|id| - 1] != ']')
  {
    DecodeMarked("", slot, '<', id);
    DecodeMarked("", slot, '>', id);
    assert "" + SlotString(slot) + ['-', '<', '-'] + id == ImportingString(slot, id);
    assert "" + SlotString(slot) + ['-', '>', '-'] + id == MigratingString(slot, id);
    TrimSuffixIdentity(id);
  }

  /** A bracketed entry, as CLUSTER NODES prints it, round-trips exactly when the id has no dash. */
  lemma BracketedRoundTrip(slot: Slot, id: string)
    requires slot < UINT64_LIMIT
    ensures DecodeSlotRange(Bracketed(ImportingString(slot, id))) == Importing(slot, id) <==> '-' !in id
    ensures DecodeSlotRange(Bracketed(MigratingString(slot, id))) == Migrating(slot, id) <==> '-' !in id
  {
    BracketedMarked(slot, '<', id);
    BracketedMarked(slot, '>', id);
    assert SlotString(slot) + ['-', '<', '-'] + id == ImportingString(slot, id);
    assert SlotString(slot) + ['-', '>', '-'] + id == MigratingString(slot, id);
  }

  lemma BracketedMarked(slot: Slot, mark: char, id: string)
    requires slot < UINT64_LIMIT && (mark == '<' || mark == '>')
    ensures DecodeSlotRange(Bracketed(SlotString(slot) + ['-', mark, '-'] + id)) ==
            if '-' in id then Undecodable else if mark == '<' then Importing(slot, id) else Migrating(slot, id)
  {
    DecodeMarked("[", slot, mark, id + "]");
    assert "[" + SlotString(slot) + ['-', mark, '-'] + (id + "]") == Bracketed(SlotString(slot) + ['-', mark, '-'] + id);
    TrimSuffixAppended(id);
    assert '-' in id + "]" <==> '-' in id;
  }

  /** Decoding the printed ranges one by one and joining the lists. */
  ghost function DecodeAll(printed: seq<string>): seq<Slot> {
    if printed == [] then []
    else DecodeAll(printed[..|printed| - 1]) + DecodeSlotRange(printed[|printed| - 1]).List()
  }

  ghost function PrintAll(ranges: seq<SlotRange>): seq<string> {
    seq(|ranges|, i requires 0 <= i < |ranges| => RangeString(ranges[i]))
  }

  lemma {:induction false} DecodePrinted(ranges: seq<SlotRange>)
    requires forall i :: 0 <= i < |ranges| ==> ranges[i].min < UINT64_LIMIT && ranges[i].max < UINT64_LIMIT
    ensures DecodeAll(PrintAll(ranges)) == Expand(ranges)
  {
    if ranges != [] {
      var init, last := ranges[..|ranges| - 1], ranges[|ranges| - 1];
      DecodePrinted(init);
      assert PrintAll(ranges)[..|ranges| - 1] == PrintAll(init);
      RangeRoundTrip(last);
    }
  }

  /** The canonical ranges of a list, printed and decoded, are its sorted duplicate-free form. */
  lemma RangesRoundTrip(slots: seq<Slot>, ranges: seq<SlotRange>, sortedOnce: seq<Slot>)
    requires Uint64(slots)
    requires Canonical(ranges) && forall x :: x in slots <==> Covers(ranges, x)
    requires StrictlyAscending(sortedOnce) && Elems(sortedOnce) == Elems(slots)
    ensures DecodeAll(PrintAll(ranges)) == sortedOnce
  {
    forall i | 0 <= i < |ranges| ensures ranges[i].min < UINT64_LIMIT && ranges[i].max < UINT64_LIMIT {
      assert Covers(ranges, ranges[i].min) && Covers(ranges, ranges[i].max);
      assert ranges[i].max in slots && ranges[i].min in slots;
    }
    DecodePrinted(ranges);
    ExpandCanonical(ranges);
    assert forall x :: x in Elems(slots) <==> x in slots;
    assert Elems(Expand(ranges)) == Elems(slots);
    AscendingUnique(Expand(ranges), sortedOnce);
  }
}
