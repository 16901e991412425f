/** The bounded, TTL'd set of recently seen deduplication keys. */
module Dedupe {

  datatype Stamp = Stamp(key: string, at: int)

  ghost predicate Sorted(stamps: seq<Stamp>) {
    |stamps| < 2 || (stamps[|stamps| - 2].at <= stamps[|stamps| - 1].at && Sorted(stamps[..|stamps| - 1]))
  }

  /** The index over `order`: each key at the time of its last occurrence. */
  ghost function IndexOf(order: seq<Stamp>): map<string, int> {
    if order == [] then map[]
    else var last := order[|order| - 1]; IndexOf(order[..|order| - 1])[last.key := last.at]
  }

  ghost predicate DistinctKeys(order: seq<Stamp>) {
    order == [] || (order[|order| - 1].key !in IndexOf(order[..|order| - 1]) && DistinctKeys(order[..|order| - 1]))
  }

  lemma {:induction false} SortedPair(stamps: seq<Stamp>, i: nat, j: nat)
    requires Sorted(stamps) && i <= j < |stamps|
    ensures stamps[i].at <= stamps[j].at
  {
    var n := |stamps| - 1;
    if i < j {
      if j == n {
        SortedPair(stamps[..n], i, n - 1);
      } else {
        SortedPair(stamps[..n], i, j);
      }
    }
  }

  /** Keys in `order` are pairwise different. */
  lemma {:induction false} DistinctPair(order: seq<Stamp>, i: nat, j: nat)
    requires DistinctKeys(order) && i < j < |order|
    ensures order[i].key != order[j].key
  {
    var n := |order| - 1;
    if j == n {
      IndexHolds(order[..n], order[n].key);
      assert order[..n][i] == order[i];
    } else {
      DistinctPair(order[..n], i, j);
    }
  }

  /** Some acceptance of `key` is younger than ttl and among the last `capacity` acceptances. */
  ghost predicate Remembered(accepted: seq<Stamp>, capacity: nat, ttl: int, key: string, now: int) {
    exists i :: 0 <= i < |accepted| && |accepted| - i <= capacity && accepted[i].key == key && now - accepted[i].at < ttl
  }

  /** A key is accepted again only once its last acceptance has expired or been crowded out. */
  ghost predicate NoEarlyRepeat(accepted: seq<Stamp>, capacity: nat, ttl: int) {
    forall i, j | 0 <= i < j < |accepted| && accepted[i].key == accepted[j].key ::
      accepted[j].at - accepted[i].at >= ttl || j - i > capacity
  }

  /** `order` is the acceptances less the first `lost`, and those are expired or beyond capacity. */
  ghost predicate Window(accepted: seq<Stamp>, lost: nat, order: seq<Stamp>, capacity: nat, ttl: int, now: int) {
    && |accepted| == lost + |order|
    && (forall i {:trigger order[i]} | 0 <= i < |order| :: order[i] == accepted[lost + i])
    && forall i | 0 <= i < lost && |accepted| - i <= capacity :: now - accepted[i].at >= ttl
  }

  /** The acceptances after consulting the set about one key at one time. */
  ghost function Consult(accepted: seq<Stamp>, capacity: nat, ttl: int, s: Stamp): seq<Stamp> {
    if Remembered(accepted, capacity, ttl, s.key, s.at) then accepted else accepted + [s]
  }

  /** The acceptances after consulting a new set about each of `calls` in turn. */
  ghost function ConsultAll(capacity: nat, ttl: int, calls: seq<Stamp>): seq<Stamp> {
    if calls == [] then []
    else Consult(ConsultAll(capacity, ttl, calls[..|calls| - 1]), capacity, ttl, calls[|calls| - 1])
  }

  /** Whatever is offered, no key is accepted twice within ttl unless more than `capacity` acceptances lie between. */
  lemma {:induction false} NeverAcceptedEarly(capacity: nat, ttl: int, calls: seq<Stamp>)
    ensures NoEarlyRepeat(ConsultAll(capacity, ttl, calls), capacity, ttl)
  {
    if calls != [] {
      NeverAcceptedEarly(capacity, ttl, calls[..|calls| - 1]);
      var before := ConsultAll(capacity, ttl, calls[..|calls| - 1]);
      var after := ConsultAll(capacity, ttl, calls);
      forall i, j | 0 <= i < j < |after| && after[i].key == after[j].key
        ensures after[j].at - after[i].at >= ttl || j - i > capacity
      {
        assert after[i] == before[i];
      }
    }
  }

  /** No call is lost: a key offered is either recorded at that moment or already remembered then. */
  lemma {:induction false} EveryCallAnswered(capacity: nat, ttl: int, calls: seq<Stamp>, k: nat)
    requires k < |calls|
    ensures var before, after := ConsultAll(capacity, ttl, calls[..k]), ConsultAll(capacity, ttl, calls);
            (calls[k] in after && before + [calls[k]] <= after)
            || (Remembered(before, capacity, ttl, calls[k].key, calls[k].at) && before <= after)
  {
    var n := |calls| - 1;
    if k == n {
      assert calls[..k] == calls[..n];
    } else {
      EveryCallAnswered(capacity, ttl, calls[..n], k);
      assert calls[..n][..k] == calls[..k];
    }
  }

  /** Once the expired prefix is gone, the set holds a key iff the key is remembered. */
  lemma {:induction false} HeldIffRemembered(
      accepted: seq<Stamp>, lost: nat, order: seq<Stamp>, index: map<string, int>, capacity: nat, ttl: int, key: string, now: int)
    requires Sorted(accepted) && Window(accepted, lost, order, capacity, ttl, now)
    requires index == IndexOf(order) && DistinctKeys(order) && |order| <= capacity && (order != [] ==> now - order[0].at < ttl)
    ensures key in index <==> Remembered(accepted, capacity, ttl, key, now)
    ensures key in index ==> now - index[key] < ttl
  {
    IndexHolds(order, key);
    if key in index {
      var i :| 0 <= i < |order| && order[i].key == key;
      SortedPair(accepted, lost, lost + i);
    }
    if i :| 0 <= i < |accepted| && |accepted| - i <= capacity && accepted[i].key == key && now - accepted[i].at < ttl {
      assert order[i - lost] == accepted[i];
    }
  }

  lemma {:induction false} WindowShrinks(
      accepted: seq<Stamp>, lost: nat, order: seq<Stamp>, expired: nat, capacity: nat, ttl: int, before: int, now: int)
    requires Window(accepted, lost, order, capacity, ttl, before) && (accepted != [] ==> before <= now) && expired <= |order|
    requires forall k | 0 <= k < expired :: now - order[k].at >= ttl
    ensures Window(accepted, lost + expired, order[expired..], capacity, ttl, now)
  {
    forall j | 0 <= j < lost + expired && |accepted| - j <= capacity ensures now - accepted[j].at >= ttl {
      if j >= lost {
        assert accepted[j] == order[j - lost];
      }
    }
  }

  lemma {:induction false} IndexHolds(order: seq<Stamp>, key: string)
    requires DistinctKeys(order)
    ensures key in IndexOf(order) <==> exists i :: 0 <= i < |order| && order[i].key == key
    ensures forall i | 0 <= i < |order| && order[i].key == key :: key in IndexOf(order) && IndexOf(order)[key] == order[i].at
  {
    if order != [] {
      var n := |order| - 1;
      IndexHolds(order[..n], key);
      if i :| 0 <= i < n && order[..n][i].key == key {
        assert order[i].key == key;
      }
    }
  }

  lemma {:induction false} IndexDropsFirst(order: seq<Stamp>)
    requires order != [] && DistinctKeys(order)
    ensures IndexOf(order[1..]) == IndexOf(order) - {order[0].key} && DistinctKeys(order[1..])
  {
    var n := |order| - 1;
    if n == 0 {
      assert IndexOf(order[..0]) == map[];
    } else {
      IndexDropsFirst(order[..n]);
      assert order[..n][1..] == order[1..][..n - 1];
      DistinctPair(order, 0, n);
    }
  }

  /** What the set keeps true: time order, the window, the capacity bound and the agreement with the index. */
  ghost predicate Consistent(
      accepted: seq<Stamp>, lost: nat, order: seq<Stamp>, index: map<string, int>, capacity: nat, ttl: int, clock: int)
  {
    && Sorted(accepted) && (accepted != [] ==> accepted[|accepted| - 1].at <= clock)
    && Window(accepted, lost, order, capacity, ttl, clock)
    && |order| <= capacity && DistinctKeys(order) && index == IndexOf(order)
  }

  lemma {:induction false} EvictKeeps(
      accepted: seq<Stamp>, lost: nat, order: seq<Stamp>, expired: nat, capacity: nat, ttl: int, before: int, now: int)
    requires Consistent(accepted, lost, order, IndexOf(order), capacity, ttl, before)
    requires (accepted != [] ==> before <= now) && expired <= |order| && DistinctKeys(order[expired..])
    requires forall k | 0 <= k < expired :: now - order[k].at >= ttl
    ensures Consistent(accepted, lost + expired, order[expired..], IndexOf(order[expired..]), capacity, ttl, now)
  {
    WindowShrinks(accepted, lost, order, expired, capacity, ttl, before, now);
  }

  lemma {:induction false} WindowGrows(
      accepted: seq<Stamp>, lost: nat, order: seq<Stamp>, capacity: nat, ttl: int, s: Stamp)
    requires Window(accepted, lost, order, capacity, ttl, s.at) && |order| <= capacity
    ensures Window(accepted + [s], lost, order + [s], capacity, ttl, s.at)
    ensures |order| == capacity > 0 ==> Window(accepted + [s], lost + 1, order[1..] + [s], capacity, ttl, s.at)
  {
  }

  lemma {:induction false} SortedGrows(stamps: seq<Stamp>, s: Stamp)
    requires Sorted(stamps) && (stamps != [] ==> stamps[|stamps| - 1].at <= s.at)
    ensures Sorted(stamps + [s])
  {
    assert (stamps + [s])[..|stamps|] == stamps;
  }

  lemma {:induction false} IndexGrows(order: seq<Stamp>, s: Stamp)
    requires DistinctKeys(order) && s.key !in IndexOf(order)
    ensures DistinctKeys(order + [s]) && IndexOf(order + [s]) == IndexOf(order)[s.key := s.at]
  {
    assert (order + [s])[..|order|] == order;
  }

  /** Recording a fresh key while there is room keeps everything. */
  lemma {:induction false} RecordWithRoom(
      accepted: seq<Stamp>, lost: nat, order: seq<Stamp>, capacity: nat, ttl: int, s: Stamp)
    requires Consistent(accepted, lost, order, IndexOf(order), capacity, ttl, s.at)
    requires |order| < capacity && s.key !in IndexOf(order)
    ensures Consistent(accepted + [s], lost, order + [s], IndexOf(order)[s.key := s.at], capacity, ttl, s.at)
  {
    SortedGrows(accepted, s);
    WindowGrows(accepted, lost, order, capacity, ttl, s);
    IndexGrows(order, s);
  }

  /** Recording a fresh key over the oldest one, when full, keeps everything. */
  lemma {:induction false} RecordOverOldest(
      accepted: seq<Stamp>, lost: nat, order: seq<Stamp>, capacity: nat, ttl: int, s: Stamp)
    requires Consistent(accepted, lost, order, IndexOf(order), capacity, ttl, s.at)
    requires |order| == capacity > 0 && s.key !in IndexOf(order)
    ensures Consistent(accepted + [s], lost + 1, order[1..] + [s],
                       (IndexOf(order) - {order[0].key})[s.key := s.at], capacity, ttl, s.at)
  {
    SortedGrows(accepted, s);
    WindowGrows(accepted, lost, order, capacity, ttl, s);
    IndexDropsFirst(order);
    IndexGrows(order[1..], s);
  }

  class DedupeSet {
    const ttl: int
    const capacity: nat
    var order: seq<Stamp>
    var index: map<string, int>
    /** Every acceptance so far, how many of them the set has dropped, and when it was last consulted. */
    ghost var accepted: seq<Stamp>
    ghost var lost: nat
    ghost var clock: int

    ghost predicate Valid()
      reads this
    {
      0 < ttl && 0 < capacity && Consistent(accepted, lost, order, index, capacity, ttl, clock)
    }

    /** The clock never runs backwards between calls. */
    ghost predicate NotBefore(now: int)
      reads this
    {
      accepted != [] ==> clock <= now
    }

    constructor (capacity: nat, ttl: int)
      requires 0 < capacity && 0 < ttl
      ensures Valid() && accepted == [] && this.capacity == capacity && this.ttl == ttl
    {
      this.capacity, this.ttl := capacity, ttl;
      order, index, accepted, lost, clock := [], map[], [], 0, 0;
    }

    /** Reports a duplicate iff the key is remembered; otherwise records it as seen now. */
    method Seen(key: string, now: int) returns (duplicate: bool)
      requires Valid() && NotBefore(now)
      modifies this
      ensures Valid() && clock == now
      ensures duplicate <==> Remembered(old(accepted), capacity, ttl, key, now)
      ensures accepted == Consult(old(accepted), capacity, ttl, Stamp(key, now))
    {
      EvictExpired(now);
      HeldIffRemembered(accepted, lost, order, index, capacity, ttl, key, now);
      if key in index && now - index[key] < ttl {
        return true;
      }
      Record(key, now);
      return false;
    }

    method EvictExpired(now: int)
      requires Valid() && NotBefore(now)
      modifies this
      ensures Valid() && accepted == old(accepted) && clock == now
      ensures order != [] ==> now - order[0].at < ttl
    {
      var i := 0;
      while i < |order| && now - order[i].at >= ttl
        modifies `index
        invariant i <= |order|
        invariant forall k | 0 <= k < i :: now - order[k].at >= ttl
        invariant DistinctKeys(order[i..]) && index == IndexOf(order[i..])
        decreases |order| - i
      {
        IndexDropsFirst(order[i..]);
        assert order[i..][1..] == order[i + 1..];
        index := index - {order[i].key};
        i := i + 1;
      }
      EvictKeeps(accepted, lost, order, i, capacity, ttl, clock, now);
      clock := now;
      if i > 0 {
        order := order[i..];
        lost := lost + i;
      }
    }

    method Record(key: string, now: int)
      requires Valid() && clock == now && key !in index
      modifies this
      ensures Valid() && clock == now && accepted == old(accepted) + [Stamp(key, now)]
    {
      ghost var s := Stamp(key, now);
      if |order| < capacity {
        RecordWithRoom(accepted, lost, order, capacity, ttl, s);
      } else {
        RecordOverOldest(accepted, lost, order, capacity, ttl, s);
      }
      if |order| >= capacity {
        index := index - {order[0].key};
        order := order[1..];
        lost := lost + 1;
      }
      order := order + [Stamp(key, now)];
      index := index[key := now];
      accepted := accepted + [Stamp(key, now)];
    }
  }
}
