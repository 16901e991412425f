/** The fixed-capacity revision ring and its gap flag.

The event bus, the alert projection and the chat overlay each carry a copy of the same circular
buffer, retyped for their own entry; it is modelled once, generic in the payload. */
module Rings {
  import opened Common

  /** One retained entry: its position in the published log, and what was published. */
  datatype Entry<+T> = Entry(sequence: nat, payload: T)

  /** A published log numbers its entries 1, 2, 3, ... */
  ghost predicate Numbered<T>(log: seq<Entry<T>>) {
    forall i | 0 <= i < |log| :: log[i].sequence == i + 1
  }

  function Newer<T>(entries: seq<Entry<T>>, after: nat): seq<Entry<T>> {
    Filter(entries, (e: Entry<T>) => e.sequence > after)
  }

  /** The gap test of the three hubs, on how much was published and what is retained. */
  function HasGap<T>(published: nat, retained: seq<Entry<T>>, after: nat): bool {
    if after == 0 then false
    else if retained == [] then published > 0 && after < published
    else
      var oldest := retained[0].sequence;
      if oldest <= 1 then false else after < oldest - 1
  }

  /** What a replay from `after` should contain but does not: published, newer, and not replayed. */
  ghost predicate Missed<T>(log: seq<Entry<T>>, retained: seq<Entry<T>>, after: nat, e: Entry<T>) {
    e in log && e.sequence > after && e !in Newer(retained, after)
  }

  /** Replaying from `after` yields exactly the retained part of the log above `after`. */
  lemma {:induction false} NewerIsSuffix<T>(log: seq<Entry<T>>, from: nat, after: nat)
    requires Numbered(log) && from <= |log|
    ensures Newer(log[from..], after) ==
            if after >= |log| then [] else log[(if from <= after then after else from)..]
  {
    var newer := (e: Entry<T>) => e.sequence > after;
    if after >= |log| {
      FilterNone(log[from..], newer);
    } else if from <= after {
      assert log[from..] == log[from..after] + log[after..];
      FilterAppend(log[from..after], log[after..], newer);
      FilterNone(log[from..after], newer);
      FilterAll(log[after..], newer);
    } else {
      FilterAll(log[from..], newer);
    }
  }

  /** The gap flag is exact for every resume point but 0: it is raised iff something is missed. */
  lemma {:induction false} GapIsExact<T>(log: seq<Entry<T>>, capacity: nat, after: nat)
    requires Numbered(log) && capacity > 0
    ensures var retained := LastN(log, capacity);
            HasGap(|log|, retained, after) <==> after > 0 && exists e :: Missed(log, retained, after, e)
  {
    var retained := LastN(log, capacity);
    var from := if |log| <= capacity then 0 else |log| - capacity;
    assert retained == log[from..];
    NewerIsSuffix(log, from, after);
    if from > after {
      assert log[after] !in log[from..] by {
        forall i | from <= i < |log| ensures log[i] != log[after] {
          assert log[i].sequence == i + 1;
        }
      }
      assert Missed(log, retained, after, log[after]);
      assert log[from].sequence == from + 1;
    } else {
      forall e | e in log && e.sequence > after ensures e in Newer(retained, after) {
        var i :| 0 <= i < |log| && log[i] == e;
        assert e == log[after..][i - after];
      }
      if from > 0 { assert log[from].sequence == from + 1; }
    }
  }

  /** Resuming from 0 never reports a gap, and is incomplete exactly when the log has outgrown the ring. */
  lemma {:induction false} GapFromZero<T>(log: seq<Entry<T>>, capacity: nat)
    requires Numbered(log) && capacity > 0
    ensures !HasGap(|log|, LastN(log, capacity), 0)
    ensures (exists e :: Missed(log, LastN(log, capacity), 0, e)) <==> |log| > capacity
  {
    var retained := LastN(log, capacity);
    NewerIsSuffix(log, |log| - |retained|, 0);
    if |log| > capacity {
      forall i | |log| - capacity <= i < |log| ensures log[i] != log[0] {
        assert log[i].sequence == i + 1;
      }
      assert Missed(log, retained, 0, log[0]);
    }
  }

  /** A resume without a gap replays every published entry above the resume point, in order. */
  lemma {:induction false} GaplessReplay<T>(log: seq<Entry<T>>, capacity: nat, after: nat)
    requires Numbered(log) && capacity > 0 && 0 < after <= |log|
    requires !HasGap(|log|, LastN(log, capacity), after)
    ensures Newer(LastN(log, capacity), after) == log[after..]
  {
    var from := if |log| <= capacity then 0 else |log| - capacity;
    assert LastN(log, capacity) == log[from..];
    NewerIsSuffix(log, from, after);
    if from > 0 {
      assert log[from].sequence == from + 1;
    }
  }

  /** The circular buffer: `items[start..start + count]`, wrapping round, holds the retained entries. */
  class Ring<T(0)> {
    const capacity: nat
    const items: array<Entry<T>>
    var start: nat
    var count: nat
    /** Everything ever pushed. */
    ghost var log: seq<Entry<T>>

    ghost predicate Valid()
      reads this, items
    {
      && 0 < capacity == items.Length && start < capacity
      && count == Min(|log|, capacity) && (count < capacity ==> start == 0)
      && Holds(items[..], start, capacity, Retained())
    }

    ghost function Retained(): seq<Entry<T>>
      reads this
    {
      LastN(log, capacity)
    }

    constructor (capacity: nat)
      requires capacity > 0
      ensures Valid() && fresh(items) && log == [] && this.capacity == capacity
    {
      this.capacity := capacity;
      items := new Entry<T>[capacity];
      start, count, log := 0, 0, [];
    }

    method SlotOf(i: nat) returns (slot: nat)
      requires start < capacity && i <= capacity
      ensures slot == Slot(start, i, capacity) < capacity
    {
      return (start + i) % capacity;
    }

    method Push(e: Entry<T>)
      requires Valid()
      modifies this, items
      ensures Valid() && log == old(log) + [e]
    {
      var idx := SlotOf(count);
      PushKeepsHeld(items[..], start, capacity, log, e);
      items[idx] := e;
      assert items[..] == old(items[..])[idx := e];
      log := log + [e];
      if count == capacity {
        start := SlotOf(1);
      } else {
        count := count + 1;
      }
    }

    method OldestSequence() returns (s: nat)
      requires Valid()
      ensures s == if log == [] then 0 else Retained()[0].sequence
    {
      if count == 0 { return 0; }
      assert items[..][Slot(start, 0, capacity)] == Retained()[0];
      return items[start].sequence;
    }

    method NewestSequence() returns (s: nat)
      requires Valid()
      ensures s == if log == [] then 0 else log[|log| - 1].sequence
    {
      if count == 0 { return 0; }
      var newest := SlotOf(count - 1);
      assert items[..][newest] == Retained()[count - 1];
      return items[newest].sequence;
    }

    method After(after: nat) returns (out: seq<Entry<T>>)
      requires Valid()
      ensures out == Newer(Retained(), after)
    {
      out := [];
      ghost var retained := Retained();
      for i := 0 to count
        invariant out == Newer(retained[..i], after)
      {
        var idx := SlotOf(i);
        assert items[..][idx] == retained[i];
        assert retained[..i + 1] == retained[..i] + [retained[i]];
        FilterAppend(retained[..i], [retained[i]], (e: Entry<T>) => e.sequence > after);
        if items[idx].sequence > after {
          out := out + [items[idx]];
        }
      }
      assert retained[..count] == retained;
    }

    /** The replay for a subscriber that has seen everything up to `after`, and whether it has a gap. */
    method Resume(published: nat, after: nat) returns (replay: seq<Entry<T>>, gap: bool)
      requires Valid() && Numbered(log) && published == |log|
      ensures replay == Newer(Retained(), after)
      ensures gap <==> after > 0 && exists e :: Missed(log, Retained(), after, e)
    {
      replay := After(after);
      GapIsExact(log, capacity, after);
      if after == 0 { return replay, false; }
      if count == 0 { return replay, published > 0 && after < published; }
      var oldest := OldestSequence();
      gap := oldest > 1 && after < oldest - 1;
    }
  }

  /** Where the i-th retained entry lives. */
  function Slot(start: nat, i: nat, capacity: nat): nat {
    if start + i < capacity then start + i else if start + i < 2 * capacity then start + i - capacity else 0
  }

  /** The slots from `start` on, wrapping round, hold the retained entries in order. */
  ghost predicate Holds<T>(slots: seq<Entry<T>>, start: nat, capacity: nat, retained: seq<Entry<T>>) {
    && |retained| <= capacity == |slots| && start < capacity
    && forall i {:trigger retained[i]} | 0 <= i < |retained| :: slots[Slot(start, i, capacity)] == retained[i]
  }

  /** Writing behind the last entry, and stepping over the oldest one when full, retains the newest entries. */
  lemma {:induction false} PushKeepsHeld<T>(
      slots: seq<Entry<T>>, start: nat, capacity: nat, log: seq<Entry<T>>, e: Entry<T>)
    requires 0 < capacity && Holds(slots, start, capacity, LastN(log, capacity))
    ensures var count := Min(|log|, capacity);
            var first := if count == capacity then Slot(start, 1, capacity) else start;
            Holds(slots[Slot(start, count, capacity) := e], first, capacity, LastN(log + [e], capacity))
  {
    var retained, more := LastN(log, capacity), LastN(log + [e], capacity);
    var count := Min(|log|, capacity);
    var first, after := if count == capacity then Slot(start, 1, capacity) else start, slots[Slot(start, count, capacity) := e];
    var skipped := if count == capacity then 1 else 0;
    forall i | 0 <= i < |more| ensures after[Slot(first, i, capacity)] == more[i] {
      if i + skipped < |retained| {
        assert more[i] == retained[i + skipped];
        assert Slot(first, i, capacity) == Slot(start, i + skipped, capacity);
      }
    }
  }
}
