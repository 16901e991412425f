/** What the visible set of an overlay keeps, and how each change to it looks to a client. */
module OverlayShelf {
  import opened Common
  import opened OverlaySpec

  ghost predicate NoRepeats(order: seq<string>) {
    order == [] || (order[0] !in order[1..] && NoRepeats(order[1..]))
  }

  /** The ids in order are distinct, and each has an item that bears it. */
  ghost predicate Backed(order: seq<string>, latest: map<string, Item>) {
    NoRepeats(order) && forall id | id in order :: id in latest && latest[id].id == id
  }

  /** The FIFO order and the map by id hold the same ids, each once. */
  ghost predicate Shelved(s: Shelf) {
    Backed(s.order, s.latest) && forall id | id in s.latest :: id in s.order
  }

  /** With a lifetime every visible id, and no other, expires that long after it occurred; without one nothing expires. */
  ghost predicate Timely(s: Shelf, lifetimeSeconds: int) {
    && (forall id :: id in s.expiry <==> lifetimeSeconds > 0 && id in s.latest)
    && (forall id | id in s.expiry :: s.expiry[id] == s.latest[id].occurredAt + lifetimeSeconds * SECOND)
  }

  // ----- ids -----

  lemma {:induction false} NoRepeatsAppend(order: seq<string>, id: string)
    requires NoRepeats(order) && id !in order
    ensures NoRepeats(order + [id])
  {
    if order != [] {
      NoRepeatsAppend(order[1..], id);
      ConsAppend(order, [id]);
    }
  }

  lemma {:induction false} WithoutFirstRemoves(order: seq<string>, id: string)
    requires NoRepeats(order)
    ensures var w := WithoutFirst(order, id);
            && NoRepeats(w) && |w| == |order| - (if id in order then 1 else 0)
            && forall x :: x in w <==> x in order && x != id
  {
    if order != [] && order[0] != id {
      WithoutFirstRemoves(order[1..], id);
      assert order == [order[0]] + order[1..];
      assert ([order[0]] + WithoutFirst(order[1..], id))[1..] == WithoutFirst(order[1..], id);
    }
  }

  // ----- what a client sees of each change -----

  lemma {:induction false} ItemsSame(order: seq<string>, a: map<string, Item>, b: map<string, Item>)
    requires forall id | id in order :: id in a && id in b && a[id] == b[id]
    ensures Items(order, a) == Items(order, b)
  {
    if order != [] {
      ItemsSame(order[1..], a, b);
    }
  }

  lemma {:induction false} PutShows(order: seq<string>, latest: map<string, Item>, x: Item)
    requires Backed(order, latest)
    ensures Items(if x.id in order then order else order + [x.id], latest[x.id := x]) == Upserted(Items(order, latest), x)
  {
    if order == [] {
      assert Items([x.id][1..], latest[x.id := x]) == [];
    } else if order[0] == x.id {
      ItemsSame(order[1..], latest[x.id := x], latest);
    } else {
      PutShows(order[1..], latest, x);
      if x.id !in order { ConsAppend(order, [x.id]); }
    }
  }

  lemma {:induction false} DropShows(order: seq<string>, latest: map<string, Item>, id: string)
    requires Backed(order, latest)
    ensures Items(WithoutFirst(order, id), latest - {id}) == Removed(Items(order, latest), id)
  {
    if order != [] {
      if order[0] == id {
        ItemsSame(order[1..], latest - {id}, latest);
      } else {
        DropShows(order[1..], latest, id);
        assert ([order[0]] + WithoutFirst(order[1..], id))[1..] == WithoutFirst(order[1..], id);
      }
    }
  }

  lemma {:induction false} PutKeepsShelved(s: Shelf, x: Item, lifetimeSeconds: int)
    requires Shelved(s) && Timely(s, lifetimeSeconds)
    ensures Shelved(Put(s, x, lifetimeSeconds)) && Timely(Put(s, x, lifetimeSeconds), lifetimeSeconds)
  {
    if x.id !in s.latest { NoRepeatsAppend(s.order, x.id); }
  }

  lemma {:induction false} DropKeepsShelved(s: Shelf, id: string, lifetimeSeconds: int)
    requires Shelved(s) && Timely(s, lifetimeSeconds)
    ensures Shelved(Drop(s, id)) && Timely(Drop(s, id), lifetimeSeconds)
    ensures |Drop(s, id).order| <= |s.order|
  {
    WithoutFirstRemoves(s.order, id);
  }

  /** Dropping the oldest is dropping by id. */
  lemma {:induction false} EvictOne(s: Shelf)
    requires Shelved(s) && s.order != []
    ensures Drop(s, s.order[0]) == Shelf(s.order[1..], s.latest - {s.order[0]}, s.expiry - {s.order[0]})
    ensures Items(s.order[1..], s.latest - {s.order[0]}) == Removed(Items(s.order, s.latest), s.order[0])
  {
    DropShows(s.order, s.latest, s.order[0]);
  }

  lemma {:induction false} EvictKeepsShelved(s: Shelf, limit: nat, lifetimeSeconds: int)
    requires Shelved(s) && Timely(s, lifetimeSeconds)
    ensures var e := EvictOver(s, limit);
            && Shelved(e) && Timely(e, lifetimeSeconds) && |e.order| <= limit
            && forall id | id in e.latest :: id in s.latest && e.latest[id] == s.latest[id]
    decreases |s.order|
  {
    if |s.order| > limit {
      EvictOne(s);
      DropKeepsShelved(s, s.order[0], lifetimeSeconds);
      EvictKeepsShelved(Drop(s, s.order[0]), limit, lifetimeSeconds);
    }
  }

  lemma {:induction false} EvictRemoves(s: Shelf, limit: nat, lifetimeSeconds: int)
    requires Shelved(s) && Timely(s, lifetimeSeconds)
    ensures Items(EvictOver(s, limit).order, EvictOver(s, limit).latest) == RemovedAll(Items(s.order, s.latest), Evictees(s, limit))
    decreases |s.order|
  {
    if |s.order| > limit {
      EvictOne(s);
      var one := Drop(s, s.order[0]);
      DropKeepsShelved(s, s.order[0], lifetimeSeconds);
      EvictRemoves(one, limit, lifetimeSeconds);
      assert Evictees(s, limit)[1..] == Evictees(one, limit);
    }
  }

  /** Eviction respects the limit, keeps the set well formed, and is seen as removing the evicted ids. */
  lemma {:induction false} EvictShows(s: Shelf, limit: nat, lifetimeSeconds: int)
    requires Shelved(s) && Timely(s, lifetimeSeconds)
    ensures var e := EvictOver(s, limit);
            && Shelved(e) && Timely(e, lifetimeSeconds) && |e.order| <= limit
            && Items(e.order, e.latest) == RemovedAll(Items(s.order, s.latest), Evictees(s, limit))
            && forall id | id in e.latest :: id in s.latest && e.latest[id] == s.latest[id]
  {
    EvictKeepsShelved(s, limit, lifetimeSeconds);
    EvictRemoves(s, limit, lifetimeSeconds);
  }

  /** Storing the newest item again after eviction never brings an evicted id back:
      it is as if it had been stored so before. */
  lemma {:induction false} WritingBackCommutes(s: Shelf, limit: nat, id: string, x: Item)
    requires NoRepeats(s.order) && limit >= 1 && id in s.latest
    requires |s.order| <= limit || s.order[|s.order| - 1] == id
    ensures id in EvictOver(s, limit).latest
    ensures EvictOver(s.(latest := s.latest[id := x]), limit)
         == EvictOver(s, limit).(latest := EvictOver(s, limit).latest[id := x])
    decreases |s.order|
  {
    if |s.order| > limit {
      var first := s.order[0];
      assert s.order[1..][|s.order| - 2] == id;
      var one := Shelf(s.order[1..], s.latest - {first}, s.expiry - {first});
      WritingBackCommutes(one, limit, id, x);
      assert one.latest[id := x] == s.latest[id := x] - {first};
    }
  }
}
