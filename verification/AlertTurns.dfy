/** Which alert comes on screen when the screen is free: a replay asked for, else the most important fresh alert,
the oldest among equals; over every run. */
module AlertTurns {
  import opened Common
  import opened Sorting
  import opened AlertModel
  import opened AlertQueueSpec
  import opened AlertScreen
  import opened AlertSpec
  import opened AlertDuration

  // ----- tickets, over every run -----

  lemma {:induction false} ArriveAllKeepsTickets(s: Runtime, list: seq<Instance>, now: int, ids: IdSupply, mayPreempt: bool)
    requires Ticketed(s.stock.items, s.stock.next)
    ensures var st := ArriveAll(s, list, now, ids, mayPreempt).stock; Ticketed(st.items, st.next)
    decreases |list|
  {
    if list != [] {
      var i := GroupIndex(CountArrival(s), list[0], now);
      TicketedOffer(s.stock.items, s.stock.next, s.maxItems, WithId(list[0], ids(s.idCalls)));
      if i.Some? {
        TicketedUpdate(s.stock.items, s.stock.next, i.value, Merge(s.stock.items[i.value].inst, list[0]));
      }
      var next := Arrive(s, list[0], now, ids, mayPreempt);
      ArriveAllKeepsTickets(next, list[1..], now, ids, mayPreempt && !CanPreempt(s, list[0]));
    }
  }

  lemma {:induction false} PromoteKeepsTickets(s: Runtime, now: int)
    requires Ticketed(s.stock.items, s.stock.next)
    ensures var st := Promote(s, now).stock; Ticketed(st.items, st.next)
  {
    TicketedPop(s.stock.items, s.stock.next, s.maxAge, now);
  }

  lemma {:induction false} TestKeepsTickets(s: Runtime, inst: Instance, now: int, ids: IdSupply)
    requires Ticketed(s.stock.items, s.stock.next)
    ensures var st := Test(s, inst, now, ids).stock; Ticketed(st.items, st.next)
  {
    TicketedOffer(s.stock.items, s.stock.next, s.maxItems, WithId(inst, ids(s.idCalls)));
  }

  lemma {:induction false} StepKeepsTickets(s: Runtime, a: Action, ids: IdSupply)
    requires Ticketed(s.stock.items, s.stock.next)
    ensures var st := Step(s, a, ids).stock; Ticketed(st.items, st.next)
  {
    match a
    case DoTick(now, answer) => PromoteKeepsTickets(Finish(s, now, answer), now);
    case DoMatched(candidates, now) => ArriveAllKeepsTickets(s, Sort(candidates, HandledBefore), now, ids, true);
    case DoTest(inst, now) => TestKeepsTickets(s, inst, now, ids);
    case DoSkip(now) => PromoteKeepsTickets(Complete(s, Skipped), now);
    case _ =>
  }

  lemma {:induction false} RunIsTicketed(s: Runtime, actions: seq<Action>, ids: IdSupply)
    requires Ticketed(s.stock.items, s.stock.next)
    ensures var st := Run(s, actions, ids).stock; Ticketed(st.items, st.next)
  {
    if actions != [] {
      RunIsTicketed(s, actions[..|actions| - 1], ids);
      StepKeepsTickets(Run(s, actions[..|actions| - 1], ids), actions[|actions| - 1], ids);
    }
  }

  lemma {:induction false} RemovedIsGone(items: seq<Item>, next: nat, i: nat, x: Item)
    requires Ticketed(items, next) && i < |items|
    ensures x in RemoveAt(items, i) <==> x in items && x != items[i]
  {
    var n := |items| - 1;
    assert items == items[..n] + [items[n]];
    if i == n {
      assert RemoveAt(items, i) == items[..n];
      if items[n] in items[..n] { TicketBelow(items[..n], items[n].ticket, items[n]); }
    } else {
      RemovedIsGone(items[..n], items[n].ticket, i, x);
      assert RemoveAt(items, i) == RemoveAt(items[..n], i) + [items[n]];
      TicketBelow(items[..n], items[n].ticket, items[i]);
    }
  }

  // ----- the pick -----

  /** Too old to be shown, under a limit on the age. */
  predicate OverAge(it: Item, maxAge: int, now: int) {
    maxAge > 0 && now > it.inst.queuedAt + maxAge
  }

  /** More important, or as important and queued earlier. */
  predicate Ahead(a: Item, b: Item) {
    a.inst.priority > b.inst.priority || (a.inst.priority == b.inst.priority && a.ticket < b.ticket)
  }

  /** c is fresh, and ahead of every other fresh item. */
  ghost predicate IsNext(items: seq<Item>, maxAge: int, now: int, c: Item) {
    && c in items && !OverAge(c, maxAge, now)
    && forall x | x in items && x != c && !OverAge(x, maxAge, now) :: Ahead(c, x)
  }

  lemma {:induction false} PickIsAhead(items: seq<Item>, next: nat, x: Item)
    requires Ticketed(items, next) && x in items && x != items[Pick(items, PlaysBefore)]
    ensures Ahead(items[Pick(items, PlaysBefore)], x)
  {
    OrdersAreStrict(items, next);
    NothingBeatsThePick(items, PlaysBefore, x, multiset(items));
    var p := items[Pick(items, PlaysBefore)];
    assert p in items;
    if x.ticket == p.ticket { TicketIdentifies(items, next, x, p); }
  }

  /** A pop hands out the next item, and takes only it and the over-age items ahead of it. */
  lemma {:induction false} PopTakesTheNext(items: seq<Item>, next: nat, maxAge: int, now: int, c: Item, x: Item)
    requires Ticketed(items, next) && IsNext(items, maxAge, now, c)
    ensures var r := PopNext(items, maxAge, now);
            && r.item == Some(c)
            && (x in r.rest <==> x in items && x != c && !(OverAge(x, maxAge, now) && Ahead(x, c)))
    decreases |items|
  {
    var p := Pick(items, PlaysBefore);
    var first, rest := items[p], RemoveAt(items, p);
    if first != c { PickIsAhead(items, next, c); }
    RemovedIsGone(items, next, p, x);
    RemovedIsGone(items, next, p, c);
    if OverAge(first, maxAge, now) {
      TicketedRemove(items, next, p);
      forall y | y in rest ensures y in items { }
      PopTakesTheNext(rest, next, maxAge, now, c, x);
    } else if x in items && x != c {
      PickIsAhead(items, next, x);
    }
  }

  lemma {:induction false} PopFindsNothing(items: seq<Item>, maxAge: int, now: int)
    requires forall x | x in items :: OverAge(x, maxAge, now)
    ensures PopNext(items, maxAge, now).item.None? && PopNext(items, maxAge, now).rest == []
    decreases |items|
  {
    if items != [] {
      var p := Pick(items, PlaysBefore);
      assert items[p] in items;
      forall y | y in RemoveAt(items, p) ensures y in items { }
      PopFindsNothing(RemoveAt(items, p), maxAge, now);
    }
  }

  // ----- the turn -----

  /** A poll or a skip that finds the screen free or ends what is on it, while nothing is paused. */
  predicate IsTurn(s: Runtime, a: Action, t: Runtime) {
    && !s.screen.paused
    && ((a.DoTick? && s.enabled && (s.screen.current.None? || Endings(t.tally) > Endings(s.tally)))
        || (a.DoSkip? && s.screen.current.Some?))
  }

  lemma {:induction false} TurnPromotes(s: Runtime, a: Action, ids: IdSupply) returns (free: Runtime)
    requires IsTurn(s, a, Step(s, a, ids))
    ensures Step(s, a, ids) == Promote(free, TimeOf(a)) && free.screen.current.None?
    ensures free.stock == s.stock && free.pendingReplay == s.pendingReplay && free.maxAge == s.maxAge
  {
    match a
    case DoTick(now, answer) => free := Finish(s, now, answer);
    case DoSkip(now) => free := Complete(s, Skipped);
  }

  /** A replay asked for comes first, and leaves the queue alone. */
  lemma {:induction false} ReplayGoesFirst(s: Runtime, a: Action, ids: IdSupply)
    requires IsTurn(s, a, Step(s, a, ids)) && s.pendingReplay.Some?
    ensures var t := Step(s, a, ids);
            t.screen.current == s.pendingReplay && t.pendingReplay.None? && t.stock == s.stock
  {
    var free := TurnPromotes(s, a, ids);
  }

  lemma {:induction false} PromotedIs(free: Runtime, now: int)
    requires free.pendingReplay.None? && free.screen.current.None?
    ensures var t, r := Promote(free, now), PopNext(free.stock.items, free.maxAge, now);
            && t.stock.items == r.rest && t.pendingReplay.None?
            && t.screen.current == if r.item.Some? then Some(r.item.value.inst) else None
  {
  }

  /** Over every run, with no replay asked for: the next alert on screen is the fresh one of highest priority, the
      oldest among equals; besides it only over-age alerts ahead of it leave the queue. */
  lemma {:induction false} TheNextIsShown(
      enabled: bool, maxItems: int, maxAge: int, audioLinked: bool, actions: seq<Action>, ids: IdSupply, a: Action,
      c: Item, x: Item)
    requires var s := Run(Initial(enabled, maxItems, maxAge, audioLinked), actions, ids);
             && IsTurn(s, a, Step(s, a, ids)) && s.pendingReplay.None?
             && IsNext(s.stock.items, s.maxAge, TimeOf(a), c)
    ensures var s := Run(Initial(enabled, maxItems, maxAge, audioLinked), actions, ids);
            var t := Step(s, a, ids);
            && t.screen.current == Some(c.inst)
            && (x in t.stock.items <==>
                  x in s.stock.items && x != c && !(OverAge(x, s.maxAge, TimeOf(a)) && Ahead(x, c)))
  {
    var s := Run(Initial(enabled, maxItems, maxAge, audioLinked), actions, ids);
    RunIsTicketed(Initial(enabled, maxItems, maxAge, audioLinked), actions, ids);
    PopTakesTheNext(s.stock.items, s.stock.next, s.maxAge, TimeOf(a), c, x);
    var free := TurnPromotes(s, a, ids);
    PromotedIs(free, TimeOf(a));
  }

  /** With every queued alert over age the screen stays free, and the queue is empty. */
  lemma {:induction false} NothingFreshNothingShown(s: Runtime, a: Action, ids: IdSupply)
    requires IsTurn(s, a, Step(s, a, ids)) && s.pendingReplay.None?
    requires forall x | x in s.stock.items :: OverAge(x, s.maxAge, TimeOf(a))
    ensures Step(s, a, ids).screen.current.None? && Step(s, a, ids).stock.items == []
  {
    PopFindsNothing(s.stock.items, s.maxAge, TimeOf(a));
    var free := TurnPromotes(s, a, ids);
    PromotedIs(free, TimeOf(a));
  }

  /** Asking for a replay puts up the alert that left the screen last, marked as replayed, and nothing else. */
  lemma ReplayIsOfTheLast(s: Runtime, ids: IdSupply)
    ensures s.lastCompleted.Some? ==>
              Step(s, DoReplay, ids) == s.(pendingReplay := Some(s.lastCompleted.value.(replayed := true)))
    ensures s.lastCompleted.None? ==> Step(s, DoReplay, ids) == s
  {
  }
}
