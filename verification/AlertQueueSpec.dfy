/** What the bounded alert queue does to its contents, as functions on the queued items.

Items are kept in arrival order; each carries the ticket it was admitted under. */
module AlertQueueSpec {
  import opened Common
  import opened Sorting
  import opened AlertModel

  datatype Item = Item(inst: Instance, ticket: nat)

  /** Play order: higher priority first, older first among equals. */
  predicate PlaysBefore(a: Item, b: Item) {
    a.inst.priority > b.inst.priority || (a.inst.priority == b.inst.priority && a.ticket < b.ticket)
  }

  /** Eviction order: lower priority first, older first among equals. */
  predicate EvictedBefore(a: Item, b: Item) {
    a.inst.priority < b.inst.priority || (a.inst.priority == b.inst.priority && a.ticket < b.ticket)
  }

  /** The index a left-to-right scan ends with when it moves to every element that comes before its pick so far. */
  function Pick(items: seq<Item>, before: (Item, Item) -> bool): (p: nat)
    requires items != []
    ensures p < |items|
  {
    var n := |items| - 1;
    if n == 0 then 0
    else
      var p := Pick(items[..n], before);
      if before(items[n], items[p]) then n else p
  }

  function RemoveAt<T>(s: seq<T>, i: nat): seq<T>
    requires i < |s|
  {
    s[..i] + s[i + 1..]
  }

  /** Tickets rise along the queue and stay below the next one to be given out. */
  ghost predicate Ticketed(items: seq<Item>, next: nat) {
    items == [] || (items[|items| - 1].ticket < next && Ticketed(items[..|items| - 1], items[|items| - 1].ticket))
  }

  predicate Stale(it: Item, maxAge: int, now: int) {
    maxAge > 0 && now - it.inst.queuedAt > maxAge
  }

  /** What popping yields: the item to play, the over-age items discarded on the way, and what remains. */
  datatype Popped = Popped(item: Option<Item>, expired: seq<Item>, rest: seq<Item>)

  function PopNext(items: seq<Item>, maxAge: int, now: int): Popped
    decreases |items|
  {
    if items == [] then Popped(None, [], [])
    else
      var p := Pick(items, PlaysBefore);
      var rest := RemoveAt(items, p);
      if Stale(items[p], maxAge, now) then
        var later := PopNext(rest, maxAge, now);
        Popped(later.item, [items[p]] + later.expired, later.rest)
      else Popped(Some(items[p]), [], rest)
  }

  /** What offering yields: whether admitted, who was evicted for it, the items and the next ticket. */
  datatype Offered = Offered(accepted: bool, evicted: Option<Item>, items: seq<Item>, next: nat)

  function Offer(items: seq<Item>, next: nat, maxItems: int, inst: Instance): Offered {
    if |items| < maxItems then Offered(true, None, items + [Item(inst, next)], next + 1)
    else if items == [] then Offered(false, None, items, next)
    else
      var w := Pick(items, EvictedBefore);
      if inst.priority <= items[w].inst.priority then Offered(false, None, items, next)
      else Offered(true, Some(items[w]), RemoveAt(items, w) + [Item(inst, next)], next + 1)
  }

  predicate Joinable(it: Item, key: GroupKey, now: int) {
    && KeyOf(it.inst) == key && it.inst.groupCount < MAX_GROUP_MEMBERS
    && WindowOpen(it.inst.queuedAt, it.inst.groupWindowMs, now)
  }

  /** The oldest queued item a candidate with this key may join. */
  function FirstJoinable(items: seq<Item>, key: GroupKey, now: int): (r: Option<nat>)
    ensures r.Some? ==> r.value < |items| && Joinable(items[r.value], key, now)
    ensures forall i | 0 <= i < (if r.Some? then r.value else |items|) :: !Joinable(items[i], key, now)
  {
    if items == [] then None
    else if Joinable(items[0], key, now) then Some(0)
    else
      var r := FirstJoinable(items[1..], key, now);
      assert forall i | 1 <= i < |items| :: items[i] == items[1..][i - 1];
      if r.Some? then Some(r.value + 1) else None
  }

  // ----- tickets make both orders strict -----

  lemma {:induction false} TicketBelow(items: seq<Item>, next: nat, x: Item)
    requires Ticketed(items, next) && x in items
    ensures x.ticket < next
  {
    var n := |items| - 1;
    if x != items[n] {
      TicketBelow(items[..n], items[n].ticket, x);
    }
  }

  /** Items of one queue with the same ticket are the same item. */
  lemma {:induction false} TicketIdentifies(items: seq<Item>, next: nat, x: Item, y: Item)
    requires Ticketed(items, next) && x in items && y in items && x.ticket == y.ticket
    ensures x == y
  {
    var n := |items| - 1;
    if x != items[n] { TicketBelow(items[..n], items[n].ticket, x); }
    if y != items[n] { TicketBelow(items[..n], items[n].ticket, y); }
    if x != items[n] && y != items[n] {
      TicketIdentifies(items[..n], items[n].ticket, x, y);
    }
  }

  lemma {:induction false} OrdersAreStrict(items: seq<Item>, next: nat)
    requires Ticketed(items, next)
    ensures StrictOrder(multiset(items), PlaysBefore) && StrictOrder(multiset(items), EvictedBefore)
  {
    forall x, y | x in multiset(items) && y in multiset(items) && x != y ensures x.ticket != y.ticket {
      if x.ticket == y.ticket { TicketIdentifies(items, next, x, y); }
    }
  }

  lemma {:induction false} TicketedRemove(items: seq<Item>, next: nat, i: nat)
    requires Ticketed(items, next) && i < |items|
    ensures Ticketed(RemoveAt(items, i), next)
  {
    var n := |items| - 1;
    if i == n {
      assert RemoveAt(items, i) == items[..n];
    } else {
      TicketedRemove(items[..n], items[n].ticket, i);
      assert RemoveAt(items, i)[..n - 1] == RemoveAt(items[..n], i);
      assert RemoveAt(items, i)[n - 1] == items[n];
    }
  }

  lemma {:induction false} TicketedUpdate(items: seq<Item>, next: nat, i: nat, inst: Instance)
    requires Ticketed(items, next) && i < |items|
    ensures Ticketed(items[i := Item(inst, items[i].ticket)], next)
  {
    var n, now := |items| - 1, items[i := Item(inst, items[i].ticket)];
    if i < n {
      TicketedUpdate(items[..n], items[n].ticket, i, inst);
      assert now[..n] == items[..n][i := Item(inst, items[i].ticket)];
    } else {
      assert now[..n] == items[..n];
    }
  }

  lemma {:induction false} TicketedPop(items: seq<Item>, next: nat, maxAge: int, now: int)
    requires Ticketed(items, next)
    ensures Ticketed(PopNext(items, maxAge, now).rest, next)
    decreases |items|
  {
    if items != [] {
      var p := Pick(items, PlaysBefore);
      TicketedRemove(items, next, p);
      TicketedPop(RemoveAt(items, p), next, maxAge, now);
    }
  }

  lemma {:induction false} TicketedOffer(items: seq<Item>, next: nat, maxItems: int, inst: Instance)
    requires Ticketed(items, next)
    ensures var r := Offer(items, next, maxItems, inst); Ticketed(r.items, r.next)
  {
    if items != [] {
      var w := Pick(items, EvictedBefore);
      TicketedRemove(items, next, w);
    }
  }

  lemma RemoveAtElements<T>(s: seq<T>, i: nat)
    requires i < |s|
    ensures multiset(RemoveAt(s, i)) == multiset(s) - multiset{s[i]} && |RemoveAt(s, i)| == |s| - 1
  {
    assert s == s[..i] + [s[i]] + s[i + 1..];
  }

  /** The scan ends at an element that no other element comes before. */
  lemma {:induction false} NothingBeatsThePick(items: seq<Item>, before: (Item, Item) -> bool, x: Item, all: multiset<Item>)
    requires items != [] && x in items && StrictOrder(all, before) && Within(items, all)
    ensures !before(x, items[Pick(items, before)])
  {
    var n := |items| - 1;
    assert items[n] in all && !before(items[n], items[n]);
    if n > 0 {
      var p := Pick(items[..n], before);
      assert items[p] in all && x in all;
      if x != items[n] {
        NothingBeatsThePick(items[..n], before, x, all);
      }
    }
  }

  // ----- play order -----

  /** The order in which items would leave the queue if none were over age. */
  function PlayOrder(items: seq<Item>): seq<Item>
    decreases |items|
  {
    if items == [] then []
    else var p := Pick(items, PlaysBefore); [items[p]] + PlayOrder(RemoveAt(items, p))
  }

  lemma {:induction false} PlayOrderElements(items: seq<Item>)
    ensures multiset(PlayOrder(items)) == multiset(items)
    decreases |items|
  {
    if items != [] {
      var p := Pick(items, PlaysBefore);
      PlayOrderElements(RemoveAt(items, p));
      RemoveAtElements(items, p);
      assert items[p] in multiset(items);
    }
  }

  lemma {:induction false} AscendingCons<T>(x: T, s: seq<T>, before: (T, T) -> bool)
    requires Ascending(s, before) && (s != [] ==> !before(s[0], x))
    ensures Ascending([x] + s, before)
  {
    var n := |s| - 1;
    if s != [] {
      AscendingCons(x, s[..n], before);
      assert ([x] + s)[..n + 1] == [x] + s[..n];
    }
  }

  lemma {:induction false} PlayOrderAscends(items: seq<Item>, all: multiset<Item>)
    requires StrictOrder(all, PlaysBefore) && Within(items, all)
    ensures Ascending(PlayOrder(items), PlaysBefore)
    decreases |items|
  {
    if items != [] {
      var p := Pick(items, PlaysBefore);
      var rest := RemoveAt(items, p);
      forall x | x in rest ensures x in items { }
      PlayOrderAscends(rest, all);
      if rest != [] {
        var q := rest[Pick(rest, PlaysBefore)];
        assert PlayOrder(rest)[0] == q && q in items;
        NothingBeatsThePick(items, PlaysBefore, q, all);
      }
      AscendingCons(items[p], PlayOrder(rest), PlaysBefore);
    }
  }

  /** Sorting by play order gives the order in which items are actually popped. */
  lemma {:induction false} SortIsPlayOrder(items: seq<Item>, next: nat)
    requires Ticketed(items, next)
    ensures Sort(items, PlaysBefore) == PlayOrder(items)
  {
    var all := multiset(items);
    OrdersAreStrict(items, next);
    assert Within(items, all);
    SortAscends(items, PlaysBefore, all);
    PlayOrderAscends(items, all);
    SortIsPermutation(items, PlaysBefore);
    PlayOrderElements(items);
    forall x | x in Sort(items, PlaysBefore) ensures x in all { SameElements(items, PlaysBefore, x); }
    forall x | x in PlayOrder(items) ensures x in all { assert x in multiset(PlayOrder(items)); }
    AscendingIsUnique(Sort(items, PlaysBefore), PlayOrder(items), PlaysBefore, all);
  }

  /** Popping until the queue is empty, at one moment: what plays and what expires, each in order. */
  datatype Drained = Drained(played: seq<Item>, expired: seq<Item>)

  function Drain(items: seq<Item>, maxAge: int, now: int): Drained
    decreases |items|
  {
    var r := PopNext(items, maxAge, now);
    PopShrinks(items, maxAge, now);
    if r.item.None? then Drained([], r.expired)
    else
      var later := Drain(r.rest, maxAge, now);
      Drained([r.item.value] + later.played, r.expired + later.expired)
  }

  lemma {:induction false} PopShrinks(items: seq<Item>, maxAge: int, now: int)
    ensures var r := PopNext(items, maxAge, now);
            (r.item.Some? ==> |r.rest| < |items|) && (r.item.None? ==> r.rest == [])
    decreases |items|
  {
    if items != [] {
      var p := Pick(items, PlaysBefore);
      PopShrinks(RemoveAt(items, p), maxAge, now);
    }
  }

  /** A pop takes a prefix of the play order away and hands out the first item behind it. */
  lemma {:induction false} PopFollowsPlayOrder(items: seq<Item>, maxAge: int, now: int)
    ensures var r := PopNext(items, maxAge, now);
            PlayOrder(items) == r.expired + (if r.item.Some? then [r.item.value] else []) + PlayOrder(r.rest)
    decreases |items|
  {
    if items != [] {
      var p := Pick(items, PlaysBefore);
      var later := PopNext(RemoveAt(items, p), maxAge, now);
      PopFollowsPlayOrder(RemoveAt(items, p), maxAge, now);
      if Stale(items[p], maxAge, now) {
        var tail := if later.item.Some? then [later.item.value] else [];
        Assoc([items[p]], later.expired + tail, PlayOrder(later.rest));
        Assoc([items[p]], later.expired, tail);
      }
    }
  }

  /** What a pop discards is over age, and what it hands out is not. */
  lemma {:induction false} PopDiscardsOnlyStale(items: seq<Item>, maxAge: int, now: int)
    ensures var r := PopNext(items, maxAge, now);
            (forall x | x in r.expired :: Stale(x, maxAge, now)) && (r.item.Some? ==> !Stale(r.item.value, maxAge, now))
    decreases |items|
  {
    if items != [] { PopDiscardsOnlyStale(RemoveAt(items, Pick(items, PlaysBefore)), maxAge, now); }
  }

  /** Draining plays exactly the play order with the over-age items left out, and expires exactly those. */
  lemma {:induction false} DrainFollowsPlayOrder(items: seq<Item>, maxAge: int, now: int)
    ensures var d := Drain(items, maxAge, now);
            d.played == Filter(PlayOrder(items), (x: Item) => !Stale(x, maxAge, now))
    ensures var d := Drain(items, maxAge, now);
            d.expired == Filter(PlayOrder(items), (x: Item) => Stale(x, maxAge, now))
    decreases |items|
  {
    var r := PopNext(items, maxAge, now);
    var one := if r.item.Some? then [r.item.value] else [];
    PopShrinks(items, maxAge, now);
    PopFollowsPlayOrder(items, maxAge, now);
    PopDiscardsOnlyStale(items, maxAge, now);
    SplitByAge(r.expired, one, PlayOrder(r.rest), maxAge, now);
    if r.item.Some? {
      DrainFollowsPlayOrder(r.rest, maxAge, now);
    }
  }

  lemma {:induction false} SplitByAge(expired: seq<Item>, one: seq<Item>, later: seq<Item>, maxAge: int, now: int)
    requires (forall x | x in expired :: Stale(x, maxAge, now)) && (forall x | x in one :: !Stale(x, maxAge, now))
    ensures Filter(expired + one + later, (x: Item) => !Stale(x, maxAge, now))
            == one + Filter(later, (x: Item) => !Stale(x, maxAge, now))
    ensures Filter(expired + one + later, (x: Item) => Stale(x, maxAge, now))
            == expired + Filter(later, (x: Item) => Stale(x, maxAge, now))
  {
    var young, stale := (x: Item) => !Stale(x, maxAge, now), (x: Item) => Stale(x, maxAge, now);
    FilterAppend(expired + one, later, young);
    FilterAppend(expired, one, young);
    FilterNone(expired, young);
    FilterAll(one, young);
    FilterAppend(expired + one, later, stale);
    FilterAppend(expired, one, stale);
    FilterAll(expired, stale);
    FilterNone(one, stale);
    assert [] + one == one && expired + [] == expired;
  }
}
