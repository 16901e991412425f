/** One profile's bounded alert queue: scans, removals and appends on a slice of items. */
module AlertQueue {
  import opened Common
  import opened Sorting
  import opened AlertModel
  import opened AlertQueueSpec

  class Queue {
    var maxItems: int
    var maxAge: int
    var items: seq<Item>
    var nextTicket: nat

    ghost predicate Valid()
      reads this
    {
      Ticketed(items, nextTicket)
    }

    constructor (maxItems: int, maxAge: int)
      ensures Valid() && items == [] && nextTicket == 0 && this.maxItems == maxItems && this.maxAge == maxAge
    {
      this.maxItems, this.maxAge, items, nextTicket := maxItems, maxAge, [], 0;
    }

    /** The index of the item to play next, or -1 when the queue is empty. */
    method BestIndex() returns (best: int)
      ensures best == if items == [] then -1 else Pick(items, PlaysBefore)
    {
      if |items| == 0 { return -1; }
      best := 0;
      assert items[..1] == [items[0]];
      for i := 1 to |items|
        invariant best == Pick(items[..i], PlaysBefore)
      {
        assert items[..i + 1][..i] == items[..i];
        if items[i].inst.priority > items[best].inst.priority
           || (items[i].inst.priority == items[best].inst.priority && items[i].ticket < items[best].ticket) {
          best := i;
        }
      }
      assert items[..|items|] == items;
    }

    /** The index of the item to evict first, or -1 when the queue is empty. */
    method WorstIndex() returns (worst: int)
      ensures worst == if items == [] then -1 else Pick(items, EvictedBefore)
    {
      if |items| == 0 { return -1; }
      worst := 0;
      assert items[..1] == [items[0]];
      for i := 1 to |items|
        invariant worst == Pick(items[..i], EvictedBefore)
      {
        assert items[..i + 1][..i] == items[..i];
        if items[i].inst.priority < items[worst].inst.priority
           || (items[i].inst.priority == items[worst].inst.priority && items[i].ticket < items[worst].ticket) {
          worst := i;
        }
      }
      assert items[..|items|] == items;
    }

    method TakeAt(i: nat) returns (it: Item)
      requires i < |items|
      modifies `items
      ensures it == old(items)[i] && items == RemoveAt(old(items), i)
    {
      it := items[i];
      items := items[..i] + items[i + 1..];
    }

    /** Admit below capacity; at capacity admit only over a strictly lower priority, evicting the worst. */
    method Enqueue(inst: Instance) returns (accepted: bool, evicted: Option<Item>)
      requires Valid()
      modifies `items, `nextTicket
      ensures Valid()
      ensures Offered(accepted, evicted, items, nextTicket) == Offer(old(items), old(nextTicket), maxItems, inst)
    {
      TicketedOffer(items, nextTicket, maxItems, inst);
      if |items| < maxItems {
        items := items + [Item(inst, nextTicket)];
        nextTicket := nextTicket + 1;
        return true, None;
      }
      var worst := WorstIndex();
      if worst < 0 || inst.priority <= items[worst].inst.priority {
        return false, None;
      }
      var removed := TakeAt(worst);
      items := items + [Item(inst, nextTicket)];
      nextTicket := nextTicket + 1;
      return true, Some(removed);
    }

    /** Remove best items until one is not over age; count the over-age ones. */
    method PopNextEligible(now: int) returns (item: Option<Item>, expiredCount: nat, ghost expired: seq<Item>)
      requires Valid()
      modifies `items
      ensures Valid() && Popped(item, expired, items) == PopNext(old(items), maxAge, now) && expiredCount == |expired|
    {
      item, expiredCount, expired := None, 0, [];
      while true
        invariant Valid() && |expired| == expiredCount
        invariant PopNext(old(items), maxAge, now) == var later := PopNext(items, maxAge, now);
          Popped(later.item, expired + later.expired, later.rest)
        decreases |items|
      {
        var i := BestIndex();
        if i < 0 {
          assert expired + [] == expired;
          return None, expiredCount, expired;
        }
        TicketedRemove(items, nextTicket, i);
        var candidate := TakeAt(i);
        if maxAge > 0 && now - candidate.inst.queuedAt > maxAge {
          expiredCount := expiredCount + 1;
          Assoc(expired, [candidate], PopNext(items, maxAge, now).expired);
          expired := expired + [candidate];
          continue;
        }
        assert expired + [] == expired;
        return Some(candidate), expiredCount, expired;
      }
    }

    method Clear() returns (cleared: seq<Item>)
      modifies `items
      ensures cleared == old(items) && items == []
    {
      cleared := items;
      items := [];
    }

    /** Up to `limit` items in play order (all of them for limit 0), without touching the queue. */
    method List(limit: int) returns (listed: seq<Item>)
      requires Valid()
      ensures |PlayOrder(items)| == |items|
      ensures listed == if 0 < limit < |items| then PlayOrder(items)[..limit] else PlayOrder(items)
    {
      var queued := items;
      var ordered := new Item[|queued|](i requires 0 <= i < |queued| => queued[i]);
      assert ordered[..] == items;
      InsertionSort(ordered, PlaysBefore);
      SortIsPlayOrder(items, nextTicket);
      SortLength(items, PlaysBefore);
      if 0 < limit < ordered.Length {
        return ordered[..limit];
      }
      return ordered[..];
    }

    /** The first queued item that a candidate with this key may join, or -1. */
    method FindGroupable(key: GroupKey, now: int) returns (idx: int)
      ensures idx == var r := FirstJoinable(items, key, now); if r.Some? then r.value else -1
    {
      for i := 0 to |items|
        invariant forall k | 0 <= k < i :: !Joinable(items[k], key, now)
      {
        if KeyOf(items[i].inst) != key { continue; }
        if items[i].inst.groupCount >= MAX_GROUP_MEMBERS { continue; }
        if !WindowOpen(items[i].inst.queuedAt, items[i].inst.groupWindowMs, now) { continue; }
        return i;
      }
      return -1;
    }

    /** Folds a candidate into the queued item at i, in place. */
    method MergeAt(i: nat, candidate: Instance)
      requires Valid() && i < |items|
      modifies `items
      ensures Valid() && items == old(items)[i := Item(Merge(old(items)[i].inst, candidate), old(items)[i].ticket)]
    {
      TicketedUpdate(items, nextTicket, i, Merge(items[i].inst, candidate));
      items := items[i := Item(Merge(items[i].inst, candidate), items[i].ticket)];
    }
  }
}
