/** The capacity policy of the alert queue as an online algorithm: it keeps the highest priorities offered. */
module AlertTopK {
  import opened Common
  import opened Sorting
  import opened AlertModel
  import opened AlertQueueSpec

  function Priorities(items: seq<Item>): seq<int> {
    seq(|items|, i requires 0 <= i < |items| => items[i].inst.priority)
  }

  function OfferedPriorities(offers: seq<Instance>): seq<int> {
    seq(|offers|, i requires 0 <= i < |offers| => offers[i].priority)
  }

  /** The queue after offering each instance in turn to an empty queue of capacity k. */
  function OfferAll(k: nat, offers: seq<Instance>): Offered {
    if offers == [] then Offered(true, None, [], 0)
    else
      var before := OfferAll(k, offers[..|offers| - 1]);
      Offer(before.items, before.next, k, offers[|offers| - 1])
  }

  /** The priority an offer costs: its own when rejected, that of the evicted item otherwise, if any. */
  function Cost(r: Offered, inst: Instance): multiset<int> {
    if !r.accepted then multiset{inst.priority}
    else if r.evicted.Some? then multiset{r.evicted.value.inst.priority}
    else multiset{}
  }

  /** The priorities turned away or evicted along the way. */
  function Dropped(k: nat, offers: seq<Instance>): multiset<int> {
    if offers == [] then multiset{}
    else Dropped(k, offers[..|offers| - 1]) + Cost(OfferAll(k, offers), offers[|offers| - 1])
  }

  predicate Higher(a: int, b: int) {
    a > b
  }

  /** The k largest of the given priorities, highest first. */
  function Largest(k: nat, priorities: seq<int>): seq<int> {
    LastCut(Sort(priorities, Higher), k)
  }

  function LastCut(s: seq<int>, k: nat): seq<int> {
    if k <= |s| then s[..k] else s
  }

  ghost predicate AllAtLeast(high: multiset<int>, low: multiset<int>) {
    forall h, l | h in high && l in low :: h >= l
  }

  /** `kept` is a best selection of k: it is full or nothing was dropped, and nothing dropped beats anything kept. */
  ghost predicate BestSelection(k: nat, kept: multiset<int>, dropped: multiset<int>, all: multiset<int>) {
    && kept + dropped == all && |kept| <= k && (dropped != multiset{} ==> |kept| == k) && AllAtLeast(kept, dropped)
  }

  lemma SameSizeSubset(a: multiset<int>, b: multiset<int>)
    requires a <= b && |a| == |b|
    ensures a == b
  {
    assert b == a + (b - a);
  }

  /** Of two equally large collections, one that has more of x than the other has less of something else. */
  lemma {:induction false} Shortfall(a: multiset<int>, b: multiset<int>, x: int) returns (y: int)
    requires |a| == |b| && a[x] > b[x]
    ensures b[y] > a[y]
  {
    assert exists y :: b[y] > a[y] by {
      if forall y :: b[y] <= a[y] {
        SameSizeSubset(b, a);
        assert false;
      }
    }
    y :| b[y] > a[y];
  }

  lemma {:induction false} NoMoreOf(
      k: nat, a: multiset<int>, a': multiset<int>, b: multiset<int>, b': multiset<int>, all: multiset<int>, x: int)
    requires BestSelection(k, a, a', all) && BestSelection(k, b, b', all)
    ensures a[x] <= b[x]
  {
    assert |a| + |a'| == |all| == |b| + |b'|;
    if a[x] > b[x] {
      var y := Shortfall(a, b, x);
      KeptAndDropped(a, a', b, b', x);
      KeptAndDropped(b, b', a, a', y);
      assert false;
    }
  }

  lemma KeptAndDropped(a: multiset<int>, a': multiset<int>, b: multiset<int>, b': multiset<int>, x: int)
    requires a + a' == b + b' && a[x] > b[x]
    ensures x in a && x in b'
  {
    assert (a + a')[x] == (b + b')[x];
  }

  /** There is only one best selection. */
  lemma {:induction false} BestSelectionIsUnique(
      k: nat, a: multiset<int>, a': multiset<int>, b: multiset<int>, b': multiset<int>, all: multiset<int>)
    requires BestSelection(k, a, a', all) && BestSelection(k, b, b', all)
    ensures a == b
  {
    forall x ensures a[x] == b[x] {
      NoMoreOf(k, a, a', b, b', all, x);
      NoMoreOf(k, b, b', a, a', all, x);
    }
  }

  lemma AdmitKeepsBest(k: nat, kept: multiset<int>, dropped: multiset<int>, all: multiset<int>, p: int)
    requires BestSelection(k, kept, dropped, all) && |kept| < k
    ensures BestSelection(k, kept + multiset{p}, dropped, all + multiset{p})
  {
    assert dropped == multiset{};
  }

  lemma RejectKeepsBest(k: nat, kept: multiset<int>, dropped: multiset<int>, all: multiset<int>, p: int)
    requires BestSelection(k, kept, dropped, all) && |kept| == k && forall h | h in kept :: h >= p
    ensures BestSelection(k, kept, dropped + multiset{p}, all + multiset{p})
  {
  }

  lemma ReplaceKeepsBest(k: nat, kept: multiset<int>, dropped: multiset<int>, all: multiset<int>, low: int, p: int)
    requires BestSelection(k, kept, dropped, all) && |kept| == k && low in kept && p > low
    requires forall h | h in kept :: h >= low
    ensures BestSelection(k, kept - multiset{low} + multiset{p}, dropped + multiset{low}, all + multiset{p})
  {
    var now := kept - multiset{low} + multiset{p};
    assert kept == (kept - multiset{low}) + multiset{low};
    forall h, l | h in now && l in dropped + multiset{low} ensures h >= l {
      assert h == p || h in kept;
      assert l == low || l in dropped;
      assert low in kept;
    }
  }

  lemma PrioritiesAppend(items: seq<Item>, it: Item)
    ensures multiset(Priorities(items + [it])) == multiset(Priorities(items)) + multiset{it.inst.priority}
  {
    assert Priorities(items + [it]) == Priorities(items) + [it.inst.priority];
  }

  lemma PrioritiesRemove(items: seq<Item>, i: nat)
    requires i < |items|
    ensures multiset(Priorities(RemoveAt(items, i))) == multiset(Priorities(items)) - multiset{items[i].inst.priority}
  {
    assert Priorities(RemoveAt(items, i)) == RemoveAt(Priorities(items), i);
    RemoveAtElements(Priorities(items), i);
  }

  /** The evicted item has the lowest priority in the queue. */
  lemma {:induction false} WorstIsLowest(items: seq<Item>, next: nat, p: int)
    requires Ticketed(items, next) && items != [] && p in multiset(Priorities(items))
    ensures p >= items[Pick(items, EvictedBefore)].inst.priority
  {
    var i :| 0 <= i < |items| && Priorities(items)[i] == p;
    OrdersAreStrict(items, next);
    NothingBeatsThePick(items, EvictedBefore, items[i], multiset(items));
  }

  lemma {:induction false} OffersStayTicketed(k: nat, offers: seq<Instance>)
    ensures Ticketed(OfferAll(k, offers).items, OfferAll(k, offers).next)
  {
    if offers != [] {
      OffersStayTicketed(k, offers[..|offers| - 1]);
      var before := OfferAll(k, offers[..|offers| - 1]);
      TicketedOffer(before.items, before.next, k, offers[|offers| - 1]);
    }
  }

  /** One offer turns a best selection into a best selection of one priority more. */
  lemma {:induction false} OfferKeepsBest(
      items: seq<Item>, next: nat, k: nat, inst: Instance, dropped: multiset<int>, all: multiset<int>)
    requires Ticketed(items, next) && BestSelection(k, multiset(Priorities(items)), dropped, all)
    ensures var r := Offer(items, next, k, inst);
            BestSelection(k, multiset(Priorities(r.items)), dropped + Cost(r, inst), all + multiset{inst.priority})
  {
    var kept := multiset(Priorities(items));
    assert |kept| == |items|;
    var r := Offer(items, next, k, inst);
    if |items| < k {
      PrioritiesAppend(items, Item(inst, next));
      AdmitKeepsBest(k, kept, dropped, all, inst.priority);
      assert dropped + Cost(r, inst) == dropped;
    } else if items == [] {
      RejectKeepsBest(k, kept, dropped, all, inst.priority);
    } else {
      var w := Pick(items, EvictedBefore);
      var low := items[w].inst.priority;
      LowestPriority(items, next);
      if inst.priority <= low {
        RejectKeepsBest(k, kept, dropped, all, inst.priority);
      } else {
        ReplacedPriorities(items, w, Item(inst, next));
        assert Cost(r, inst) == multiset{low};
        ReplaceKeepsBest(k, kept, dropped, all, low, inst.priority);
      }
    }
  }

  lemma {:induction false} ReplacedPriorities(items: seq<Item>, w: nat, it: Item)
    requires w < |items|
    ensures multiset(Priorities(RemoveAt(items, w) + [it]))
         == multiset(Priorities(items)) - multiset{items[w].inst.priority} + multiset{it.inst.priority}
  {
    PrioritiesRemove(items, w);
    PrioritiesAppend(RemoveAt(items, w), it);
  }

  lemma {:induction false} LowestPriority(items: seq<Item>, next: nat)
    requires Ticketed(items, next) && items != []
    ensures var low := items[Pick(items, EvictedBefore)].inst.priority;
            low in multiset(Priorities(items)) && forall p | p in multiset(Priorities(items)) :: p >= low
  {
    var w := Pick(items, EvictedBefore);
    forall p | p in multiset(Priorities(items)) ensures p >= items[w].inst.priority { WorstIsLowest(items, next, p); }
    assert Priorities(items)[w] == items[w].inst.priority;
  }

  lemma {:induction false} OffersKeepBest(k: nat, offers: seq<Instance>)
    ensures BestSelection(k, multiset(Priorities(OfferAll(k, offers).items)), Dropped(k, offers),
                          multiset(OfferedPriorities(offers)))
  {
    if offers == [] {
      assert Priorities([]) == [] && OfferedPriorities([]) == [];
    } else {
      var n := |offers| - 1;
      var before := OfferAll(k, offers[..n]);
      OffersKeepBest(k, offers[..n]);
      OffersStayTicketed(k, offers[..n]);
      OfferKeepsBest(before.items, before.next, k, offers[n], Dropped(k, offers[..n]), multiset(OfferedPriorities(offers[..n])));
      OneMoreOffered(offers);
    }
  }

  lemma OneMoreOffered(offers: seq<Instance>)
    requires offers != []
    ensures var n := |offers| - 1;
            multiset(OfferedPriorities(offers)) == multiset(OfferedPriorities(offers[..n])) + multiset{offers[n].priority}
  {
    var n := |offers| - 1;
    assert OfferedPriorities(offers) == OfferedPriorities(offers[..n]) + [offers[n].priority];
  }

  lemma {:induction false} AscendingPair(s: seq<int>, i: nat, j: nat)
    requires Ascending(s, Higher) && i <= j < |s|
    ensures s[i] >= s[j]
  {
    if i < j {
      if j == |s| - 1 {
        AscendingPair(s[..j], i, j - 1);
      } else {
        AscendingPair(s[..|s| - 1], i, j);
      }
    }
  }

  lemma {:induction false} LargestIsBest(k: nat, priorities: seq<int>)
    ensures var s := Sort(priorities, Higher);
            BestSelection(k, multiset(Largest(k, priorities)), multiset(s) - multiset(Largest(k, priorities)), multiset(priorities))
  {
    var s := Sort(priorities, Higher);
    var all := multiset(priorities);
    SortAscends(priorities, Higher, all);
    SortIsPermutation(priorities, Higher);
    CutIsBest(k, s);
  }

  lemma {:induction false} CutIsBest(k: nat, s: seq<int>)
    requires Ascending(s, Higher)
    ensures BestSelection(k, multiset(LastCut(s, k)), multiset(s) - multiset(LastCut(s, k)), multiset(s))
  {
    if k <= |s| {
      assert s == s[..k] + s[k..];
      assert multiset(s) - multiset(s[..k]) == multiset(s[k..]);
      forall h, l | h in multiset(s[..k]) && l in multiset(s[k..]) ensures h >= l {
        var i :| 0 <= i < k && s[..k][i] == h;
        var j :| 0 <= j < |s| - k && s[k..][j] == l;
        AscendingPair(s, i, k + j);
      }
    } else {
      assert multiset(s) - multiset(s) == multiset{};
    }
  }

  /** Online top-K: whatever is offered, in whatever order, the queue retains exactly the k largest priorities. */
  lemma {:induction false} QueueKeepsTheLargest(k: nat, offers: seq<Instance>)
    ensures multiset(Priorities(OfferAll(k, offers).items)) == multiset(Largest(k, OfferedPriorities(offers)))
  {
    var ps := OfferedPriorities(offers);
    OffersKeepBest(k, offers);
    LargestIsBest(k, ps);
    BestSelectionIsUnique(
      k, multiset(Priorities(OfferAll(k, offers).items)), Dropped(k, offers),
      multiset(Largest(k, ps)), multiset(Sort(ps, Higher)) - multiset(Largest(k, ps)), multiset(ps));
  }
}
