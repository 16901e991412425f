/** How an arriving alert that does not take the screen gets in: it joins a queued alert, or is queued, perhaps in
place of a less important one, or is refused; in the fields of the alerts. */
module AlertEntry {
  import opened Common
  import opened Sorting
  import opened AlertModel
  import opened AlertQueueSpec
  import opened AlertSpec
  import opened AlertPreemption

  // ----- joining -----

  /** A live, named alert of a kind that can be grouped, and whose rule allows it. */
  predicate Groups(c: Instance) {
    && (c.eventType == SubscriptionGiftBatch || c.eventType == Bits || c.eventType == ChannelPointRedemption)
    && c.allowGrouping && c.actor != "" && !c.anonymous && !c.synthetic && !c.replayed
  }

  /** The same rule, source, kind and actor, and for redemptions the same reward; room for one more member; and
      the window that the queued alert opened has not closed. */
  predicate TakesIn(q: Instance, c: Instance, now: int) {
    && q.ruleId == c.ruleId && q.ruleUpdatedAt == c.ruleUpdatedAt
    && q.providerId == c.providerId && q.accountId == c.accountId
    && q.eventType == c.eventType && q.actor == c.actor
    && (c.eventType == ChannelPointRedemption ==> q.rewardId == c.rewardId)
    && q.groupCount < 1000 && now <= q.queuedAt + q.groupWindowMs * 1_000_000
  }

  /** The index of the first queued alert that takes c in, or how many there are. */
  ghost predicate FirstToTakeIn(items: seq<Item>, c: Instance, now: int, k: nat) {
    && k <= |items| && (k < |items| ==> TakesIn(items[k].inst, c, now))
    && forall i | 0 <= i < k :: !TakesIn(items[i].inst, c, now)
  }

  lemma {:induction false} JoinableIff(items: seq<Item>, c: Instance, now: int, k: nat)
    requires Groups(c) && FirstToTakeIn(items, c, now, k)
    ensures FirstJoinable(items, KeyOf(c), now) == if k < |items| then Some(k) else None
  {
    var r := FirstJoinable(items, KeyOf(c), now);
    forall i | 0 <= i < |items| ensures Joinable(items[i], KeyOf(c), now) <==> TakesIn(items[i].inst, c, now) {
      assert items[i].inst.eventType == c.eventType || KeyOf(items[i].inst) != KeyOf(c);
    }
  }

  /** The quantity of a group: gift batches and bits add up, to at most the largest 64-bit integer, and redemptions keep
      what the first one had. */
  function Together(q: Instance, c: Instance): Option<int> {
    if q.eventType == ChannelPointRedemption then q.quantity
    else match (q.quantity, c.quantity)
      case (Some(x), Some(y)) => Some(if x + y > 0x7FFF_FFFF_FFFF_FFFF then 0x7FFF_FFFF_FFFF_FFFF else x + y)
      case (Some(x), None) => Some(x)
      case (None, y) => y
  }

  lemma AddsUp(q: Instance, c: Instance)
    requires Groups(c) && q.eventType == c.eventType && NonNegative(q) && NonNegative(c)
    ensures MergedQuantity(q, c) == Together(q, c)
  {
  }

  lemma MergedIs(q: Instance, c: Instance)
    requires Groups(c) && q.eventType == c.eventType && NonNegative(q) && NonNegative(c) && q.groupCount < 1000
    ensures Merge(q, c).quantity == Together(q, c) && Merge(q, c).groupCount == q.groupCount + 1
    ensures Merge(q, c).(quantity := q.quantity, groupCount := q.groupCount, renderedText := q.renderedText) == q
    ensures Merge(q, c).renderedText == GroupedText(Merge(q, c))
  {
    AddsUp(q, c);
    TextIsNotInItself(q.(groupCount := q.groupCount + 1, quantity := MergedQuantity(q, c)));
  }

  /** What it looks like that the alert at k took c in: one more member, its ticket and place kept. */
  ghost predicate Joined(s: Runtime, t: Runtime, k: nat, c: Instance) {
    && k < |s.stock.items| && |t.stock.items| == |s.stock.items|
    && (forall i | 0 <= i < |s.stock.items| && i != k :: t.stock.items[i] == s.stock.items[i])
    && t.stock.items[k].ticket == s.stock.items[k].ticket
    && (var q, m := s.stock.items[k].inst, t.stock.items[k].inst;
        && m.groupCount == q.groupCount + 1 && m.quantity == Together(q, c)
        && m.renderedText == GroupedText(m)
        && m.(quantity := q.quantity, groupCount := q.groupCount, renderedText := q.renderedText) == q
        && t.tally.groupsCreated == s.tally.groupsCreated + if q.groupCount == 1 then 1 else 0)
    && t.tally.groupedMembers == s.tally.groupedMembers + 1 && t.tally.enqueued == s.tally.enqueued
    && t.tally.dropped == s.tally.dropped
  }

  // ----- being queued -----

  /** Less important than every other queued alert, or as important as the least and older. */
  ghost predicate FirstOut(items: seq<Item>, k: nat) {
    && k < |items|
    && forall i | 0 <= i < |items| && i != k ::
         items[k].inst.priority < items[i].inst.priority
         || (items[k].inst.priority == items[i].inst.priority && items[k].ticket < items[i].ticket)
  }

  lemma {:induction false} WorstIs(items: seq<Item>, next: nat, k: nat)
    requires Ticketed(items, next) && FirstOut(items, k)
    ensures Pick(items, EvictedBefore) == k
  {
    var w := Pick(items, EvictedBefore);
    OrdersAreStrict(items, next);
    assert items[k] in items;
    NothingBeatsThePick(items, EvictedBefore, items[k], multiset(items));
  }

  /** What it looks like that c was queued: last, but for its id, under the next ticket, behind `others`. */
  ghost predicate Queued(s: Runtime, t: Runtime, others: seq<Item>, c: Instance) {
    && |t.stock.items| == |others| + 1 && t.stock.items[..|others|] == others
    && t.stock.items[|others|].ticket == s.stock.next && t.stock.next == s.stock.next + 1
    && t.stock.items[|others|].inst.(id := c.id) == c
    && t.tally.enqueued == s.tally.enqueued + 1 && t.tally.rejected == s.tally.rejected
    && t.tally.synthetic == s.tally.synthetic + (if c.synthetic then 1 else 0)
  }

  /** With room it is queued; with none it takes the place of the first out, at k, if it is strictly more important
      than that, and is refused otherwise; either way one alert is dropped. */
  ghost predicate Offers(s: Runtime, t: Runtime, c: Instance, k: nat) {
    var items := s.stock.items;
    if |items| < s.maxItems then
      Queued(s, t, items, c) && t.tally.dropped == s.tally.dropped
    else if k < |items| && c.priority > items[k].inst.priority then
      Queued(s, t, items[..k] + items[k + 1..], c) && t.tally.dropped == s.tally.dropped + 1
    else
      && t.stock.items == items && t.stock.next == s.stock.next && t.tally.enqueued == s.tally.enqueued
      && t.tally.dropped == s.tally.dropped + 1 && t.tally.rejected == s.tally.rejected + 1
  }

  lemma {:induction false} OfferIs(items: seq<Item>, next: nat, maxItems: int, c: Instance, k: nat)
    requires Ticketed(items, next) && (items == [] || FirstOut(items, k))
    ensures Offer(items, next, maxItems, c) ==
            if |items| < maxItems then Offered(true, None, items + [Item(c, next)], next + 1)
            else if k < |items| && c.priority > items[k].inst.priority then
              Offered(true, Some(items[k]), items[..k] + items[k + 1..] + [Item(c, next)], next + 1)
            else Offered(false, None, items, next)
  {
    if items != [] { WorstIs(items, next, k); }
  }

  lemma {:induction false} EnqueueOffers(s: Runtime, c: Instance, now: int, ids: IdSupply, k: nat)
    requires Ticketed(s.stock.items, s.stock.next) && (s.stock.items == [] || FirstOut(s.stock.items, k))
    ensures Offers(s, Enqueue(CountArrival(s), c, now, ids), c, k)
  {
    var named := WithId(c, ids(s.idCalls));
    OnlyTheIdDiffers(c, ids(s.idCalls));
    OfferIs(s.stock.items, s.stock.next, s.maxItems, named, k);
    OfferCounts(s, Enqueue(CountArrival(s), c, now, ids), named, c, k);
  }

  lemma {:induction false} OfferCounts(s: Runtime, t: Runtime, named: Instance, c: Instance, k: nat)
    requires named.(id := c.id) == c && named.synthetic == c.synthetic && named.priority == c.priority
    requires s.stock.items == [] || FirstOut(s.stock.items, k)
    requires var o := Offer(s.stock.items, s.stock.next, s.maxItems, named);
             && t.stock.items == o.items && t.stock.next == o.next
             && t.tally == CountOffer(CountArrival(s).tally, o, named)
    requires Offer(s.stock.items, s.stock.next, s.maxItems, named) ==
             if |s.stock.items| < s.maxItems then
               Offered(true, None, s.stock.items + [Item(named, s.stock.next)], s.stock.next + 1)
             else if k < |s.stock.items| && named.priority > s.stock.items[k].inst.priority then
               Offered(true, Some(s.stock.items[k]), s.stock.items[..k] + s.stock.items[k + 1..] + [Item(named, s.stock.next)],
                       s.stock.next + 1)
             else Offered(false, None, s.stock.items, s.stock.next)
    ensures Offers(s, t, c, k)
  {
  }

  // ----- one arrival -----

  lemma {:induction false} JoinIs(s: Runtime, k: nat, c: Instance, now: int)
    requires k < |s.stock.items| && TakesIn(s.stock.items[k].inst, c, now)
    requires Groups(c) && NonNegative(s.stock.items[k].inst) && NonNegative(c)
    ensures Joined(s, Join(CountArrival(s), k, c, now), k, c)
  {
    MergedIs(s.stock.items[k].inst, c);
  }

  lemma {:induction false} OneCandidate(s: Runtime, c: Instance, now: int, ids: IdSupply)
    requires s.enabled
    ensures Step(s, DoMatched([c], now), ids) == Arrive(s, c, now, ids, true)
  {
    SortIsPermutation([c], HandledBefore);
    var list := Sort([c], HandledBefore);
    assert |list| == |multiset(list)| == 1 && list[0] in multiset(list);
    assert list == [c] && [c][1..] == [];
    assert ArriveAll(s, [c], now, ids, true) == Arrive(s, c, now, ids, true) by { NoMoreArrive(s, c, now, ids); }
  }

  lemma NoMoreArrive(s: Runtime, c: Instance, now: int, ids: IdSupply)
    ensures ArriveAll(s, [c], now, ids, true) == Arrive(s, c, now, ids, true)
  {
    assert [c][1..] == [];
  }

  /** A matched alert that does not take the screen joins the first queued alert that takes it in, if it may group and
      there is one, and is offered to the queue otherwise. */
  lemma {:induction false} MatchedGetsIn(s: Runtime, c: Instance, now: int, ids: IdSupply, j: nat, k: nat)
    requires s.enabled && !SomeTakes(s, DoMatched([c], now)) && Ticketed(s.stock.items, s.stock.next)
    requires NonNegative(c) && forall q | q in s.stock.items :: NonNegative(q.inst)
    requires if Groups(c) then FirstToTakeIn(s.stock.items, c, now, j) else j == |s.stock.items|
    requires s.stock.items == [] || FirstOut(s.stock.items, k)
    ensures var t := Step(s, DoMatched([c], now), ids);
            t.screen == s.screen && if j < |s.stock.items| then Joined(s, t, j, c) else Offers(s, t, c, k)
  {
    assert c in Arriving(s, DoMatched([c], now));
    PreemptsIff(s, c);
    OneCandidate(s, c, now, ids);
    GroupsIff(c);
    if Groups(c) { JoinableIff(s.stock.items, c, now, j); }
    if j < |s.stock.items| {
      assert s.stock.items[j] in s.stock.items;
      JoinIs(s, j, c, now);
    } else {
      EnqueueOffers(s, c, now, ids, k);
    }
  }

  lemma GroupsIff(c: Instance)
    ensures GroupingEligible(c) <==> Groups(c)
  {
  }

  /** A test alert that does not take the screen never joins another: it is offered to the queue, whether or not the
      profile is enabled. */
  lemma {:induction false} TestGetsIn(s: Runtime, c: Instance, now: int, ids: IdSupply, k: nat)
    requires !SomeTakes(s, DoTest(c, now)) && Ticketed(s.stock.items, s.stock.next)
    requires s.stock.items == [] || FirstOut(s.stock.items, k)
    ensures var t := Step(s, DoTest(c, now), ids); t.screen == s.screen && Offers(s, t, c, k)
  {
    assert c in Arriving(s, DoTest(c, now));
    PreemptsIff(s, c);
    EnqueueOffers(s, c, now, ids, k);
  }

  /** A disabled profile takes no matched alert, and an enabled one takes every candidate of a turn, each once. */
  lemma {:induction false} EveryCandidateArrives(s: Runtime, candidates: seq<Instance>, now: int, ids: IdSupply)
    ensures var t := Step(s, DoMatched(candidates, now), ids);
            && (!s.enabled ==> t == s)
            && (s.enabled ==> t.tally.offered == s.tally.offered + |candidates|)
  {
    SortIsPermutation(candidates, HandledBefore);
    if s.enabled {
      EachArrives(s, Sort(candidates, HandledBefore), now, ids, true);
      assert |Sort(candidates, HandledBefore)| == |multiset(candidates)|;
    }
  }

  lemma {:induction false} OneArrives(s: Runtime, c: Instance, now: int, ids: IdSupply, mayPreempt: bool)
    ensures Arrive(s, c, now, ids, mayPreempt).tally.offered == s.tally.offered + 1
  {
    var counted := CountArrival(s);
    if mayPreempt && CanPreempt(counted, c) {
      assert Preempt(counted, c, now, ids).tally.offered == counted.tally.offered;
    } else {
      assert Enqueue(counted, c, now, ids).tally.offered == counted.tally.offered;
    }
  }

  lemma {:induction false} EachArrives(s: Runtime, list: seq<Instance>, now: int, ids: IdSupply, mayPreempt: bool)
    ensures ArriveAll(s, list, now, ids, mayPreempt).tally.offered == s.tally.offered + |list|
    decreases |list|
  {
    if list != [] {
      OneArrives(s, list[0], now, ids, mayPreempt);
      EachArrives(Arrive(s, list[0], now, ids, mayPreempt), list[1..], now, ids, mayPreempt && !CanPreempt(s, list[0]));
    }
  }
}
