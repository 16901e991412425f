/** Alert ids, over every run: each alert taken in gets an id of its own, so that a call by id, as to call its audio
off, means one alert. */
module AlertIds {
  import opened Common
  import opened Sorting
  import opened AlertModel
  import opened AlertQueueSpec
  import opened AlertScreen
  import opened AlertStock
  import opened AlertSpec
  import opened AlertTurns

  /** A supply that never fails and never repeats itself. */
  ghost predicate NeverRepeats(ids: IdSupply) {
    (forall k: nat :: ids(k).Some?) && forall i: nat, j: nat | i != j :: ids(i) != ids(j)
  }

  /** One of the first n ids of the supply. */
  ghost predicate Drawn(ids: IdSupply, n: nat, id: string) {
    exists k: nat :: k < n && ids(k) == Some(id)
  }

  /** The alert, if any, has a drawn id that no queued alert has. */
  ghost predicate Apart(s: Runtime, ids: IdSupply, one: Option<Instance>) {
    one.Some? ==> Drawn(ids, s.idCalls, one.value.id) && forall x | x in s.stock.items :: x.inst.id != one.value.id
  }

  ghost predicate OwnIds(items: seq<Item>, n: nat, ids: IdSupply) {
    && (forall x | x in items :: Drawn(ids, n, x.inst.id))
    && forall x, y {:trigger x.inst.id, y.inst.id} | x in items && y in items && x.inst.id == y.inst.id :: x == y
  }

  ghost predicate Inv(s: Runtime, ids: IdSupply) {
    && Ticketed(s.stock.items, s.stock.next) && OwnIds(s.stock.items, s.idCalls, ids)
    && Apart(s, ids, s.screen.current) && Apart(s, ids, s.lastCompleted) && Apart(s, ids, s.pendingReplay)
  }

  lemma DrawnLater(ids: IdSupply, n: nat, id: string)
    requires Drawn(ids, n, id)
    ensures Drawn(ids, n + 1, id)
  {
  }

  lemma NextIsNew(ids: IdSupply, n: nat, id: string)
    requires NeverRepeats(ids)
    ensures ids(n).Some? && Drawn(ids, n + 1, ids(n).value) && (Drawn(ids, n, id) ==> id != ids(n).value)
  {
  }

  /** What is popped is gone from what remains. */
  lemma {:induction false} PoppedIsGone(items: seq<Item>, next: nat, maxAge: int, now: int)
    requires Ticketed(items, next)
    ensures var r := PopNext(items, maxAge, now);
            r.item.Some? ==> r.item.value in items && r.item.value !in r.rest
    decreases |items|
  {
    if items != [] {
      var p := Pick(items, PlaysBefore);
      RemovedIsGone(items, next, p, items[p]);
      TicketedRemove(items, next, p);
      PoppedIsGone(RemoveAt(items, p), next, maxAge, now);
    }
  }

  lemma {:induction false} PromoteKeepsIds(s: Runtime, now: int, ids: IdSupply)
    requires Inv(s, ids) && s.screen.current.None?
    ensures Inv(Promote(s, now), ids)
  {
    if s.pendingReplay.None? {
      var r := PopNext(s.stock.items, s.maxAge, now);
      TicketedPop(s.stock.items, s.stock.next, s.maxAge, now);
      PoppedIsGone(s.stock.items, s.stock.next, s.maxAge, now);
      forall x | x in r.rest ensures x in s.stock.items { PopKeepsItems(s.stock.items, s.maxAge, now, x); }
    }
  }

  lemma {:induction false} CompleteKeepsIds(s: Runtime, reason: HideReason, ids: IdSupply)
    requires Inv(s, ids)
    ensures Inv(Complete(s, reason), ids)
  {
  }

  lemma {:induction false} TickKeepsIds(s: Runtime, now: int, answer: AudioState, ids: IdSupply)
    requires Inv(s, ids)
    ensures Inv(Tick(s, now, answer), ids)
  {
    if s.enabled {
      var done := Finish(s, now, answer);
      CompleteKeepsIds(AfterHoldCheck(s, now), Completed, ids);
      if !done.screen.paused && done.screen.current.None? { PromoteKeepsIds(done, now, ids); }
    }
  }

  /** Drawing one more id leaves all others as they are. */
  lemma {:induction false} DrawKeepsIds(s: Runtime, ids: IdSupply)
    requires Inv(s, ids)
    ensures Inv(s.(idCalls := s.idCalls + 1), ids)
  {
    forall x | x in s.stock.items ensures Drawn(ids, s.idCalls + 1, x.inst.id) { DrawnLater(ids, s.idCalls, x.inst.id); }
    if s.screen.current.Some? { DrawnLater(ids, s.idCalls, s.screen.current.value.id); }
    if s.lastCompleted.Some? { DrawnLater(ids, s.idCalls, s.lastCompleted.value.id); }
    if s.pendingReplay.Some? { DrawnLater(ids, s.idCalls, s.pendingReplay.value.id); }
  }

  lemma {:induction false} PreemptKeepsIds(s: Runtime, inst: Instance, now: int, ids: IdSupply)
    requires Inv(s, ids) && NeverRepeats(ids)
    ensures Inv(Preempt(s, inst, now, ids), ids)
  {
    var done := Complete(s, Preempted);
    CompleteKeepsIds(s, Preempted, ids);
    DrawKeepsIds(done, ids);
    NextIsNew(ids, s.idCalls, "");
    forall x | x in s.stock.items ensures x.inst.id != ids(s.idCalls).value { NextIsNew(ids, s.idCalls, x.inst.id); }
  }

  lemma {:induction false} OfferKeepsIds(items: seq<Item>, next: nat, maxItems: int, named: Instance, n: nat, ids: IdSupply)
    requires Ticketed(items, next) && OwnIds(items, n, ids) && NeverRepeats(ids) && ids(n) == Some(named.id)
    ensures var o := Offer(items, next, maxItems, named);
            && Ticketed(o.items, o.next) && OwnIds(o.items, n + 1, ids)
            && forall x | x in o.items :: x in items || x.inst.id == named.id
  {
    TicketedOffer(items, next, maxItems, named);
    var o := Offer(items, next, maxItems, named);
    forall x | x in o.items ensures x in items || x == Item(named, next) { }
    forall x | x in items ensures Drawn(ids, n + 1, x.inst.id) && x.inst.id != named.id {
      DrawnLater(ids, n, x.inst.id);
      NextIsNew(ids, n, x.inst.id);
    }
    NextIsNew(ids, n, "");
  }

  lemma {:induction false} StaysApart(s: Runtime, t: Runtime, ids: IdSupply, one: Option<Instance>)
    requires Apart(s, ids, one) && t.idCalls == s.idCalls + 1 && NeverRepeats(ids)
    requires forall x | x in t.stock.items :: x in s.stock.items || Some(x.inst.id) == ids(s.idCalls)
    ensures Apart(t, ids, one)
  {
    if one.Some? {
      DrawnLater(ids, s.idCalls, one.value.id);
      NextIsNew(ids, s.idCalls, one.value.id);
    }
  }

  lemma {:induction false} EnqueueKeepsIds(s: Runtime, inst: Instance, now: int, ids: IdSupply)
    requires Inv(s, ids) && NeverRepeats(ids)
    ensures Inv(Enqueue(s, inst, now, ids), ids)
  {
    var named, t := WithId(inst, ids(s.idCalls)), Enqueue(s, inst, now, ids);
    NextIsNew(ids, s.idCalls, "");
    OfferKeepsIds(s.stock.items, s.stock.next, s.maxItems, named, s.idCalls, ids);
    StaysApart(s, t, ids, s.screen.current);
    StaysApart(s, t, ids, s.lastCompleted);
    StaysApart(s, t, ids, s.pendingReplay);
  }

  lemma {:induction false} JoinKeepsIds(s: Runtime, i: nat, inst: Instance, now: int, ids: IdSupply)
    requires Inv(s, ids) && i < |s.stock.items|
    ensures Inv(Join(s, i, inst, now), ids)
  {
    var items, m := s.stock.items, Merge(s.stock.items[i].inst, inst);
    var t := items[i := Item(m, items[i].ticket)];
    TicketedUpdate(items, s.stock.next, i, m);
    assert items[i] in items && t[i] in t && m.id == items[i].inst.id;
    forall x | x in t ensures x == t[i] || x in items { }
    forall x | x in t && x.inst.id == m.id ensures x == t[i] {
      if x != t[i] { OtherTicketsDiffer(items, s.stock.next, i, m, x); }
    }
  }

  lemma {:induction false} ArriveKeepsIds(s: Runtime, inst: Instance, now: int, ids: IdSupply, mayPreempt: bool)
    requires Inv(s, ids) && NeverRepeats(ids)
    ensures Inv(Arrive(s, inst, now, ids, mayPreempt), ids)
  {
    var counted := CountArrival(s);
    var i := GroupIndex(counted, inst, now);
    assert Inv(counted, ids);
    if mayPreempt && CanPreempt(counted, inst) {
      PreemptKeepsIds(counted, inst, now, ids);
    } else if i.Some? {
      JoinKeepsIds(counted, i.value, inst, now, ids);
    } else {
      EnqueueKeepsIds(counted, inst, now, ids);
    }
  }

  lemma {:induction false} ArriveAllKeepsIds(s: Runtime, list: seq<Instance>, now: int, ids: IdSupply, mayPreempt: bool)
    requires Inv(s, ids) && NeverRepeats(ids)
    ensures Inv(ArriveAll(s, list, now, ids, mayPreempt), ids)
    decreases |list|
  {
    if list != [] {
      ArriveKeepsIds(s, list[0], now, ids, mayPreempt);
      ArriveAllKeepsIds(Arrive(s, list[0], now, ids, mayPreempt), list[1..], now, ids, mayPreempt && !CanPreempt(s, list[0]));
    }
  }

  lemma {:induction false} TestKeepsIds(s: Runtime, inst: Instance, now: int, ids: IdSupply)
    requires Inv(s, ids) && NeverRepeats(ids)
    ensures Inv(Test(s, inst, now, ids), ids)
  {
    assert Inv(CountArrival(s), ids);
    PreemptKeepsIds(CountArrival(s), inst, now, ids);
    EnqueueKeepsIds(CountArrival(s), inst, now, ids);
  }

  lemma {:induction false} SkipKeepsIds(s: Runtime, now: int, ids: IdSupply)
    requires Inv(s, ids)
    ensures Inv(SkipCurrent(s, now), ids)
  {
    CompleteKeepsIds(s, Skipped, ids);
    if s.screen.current.Some? && !s.screen.paused { PromoteKeepsIds(Complete(s, Skipped), now, ids); }
  }

  /** Over every run, as long as the supply never fails or repeats: every queued alert, the one on screen and the one
      that can be replayed have ids drawn from it, no two queued alerts the same, and none that of the alert on screen. */
  lemma {:induction false} EveryAlertHasItsOwnId(
      enabled: bool, maxItems: int, maxAge: int, audioLinked: bool, actions: seq<Action>, ids: IdSupply)
    requires NeverRepeats(ids)
    ensures Inv(Run(Initial(enabled, maxItems, maxAge, audioLinked), actions, ids), ids)
  {
    if actions != [] {
      var s := Run(Initial(enabled, maxItems, maxAge, audioLinked), actions[..|actions| - 1], ids);
      EveryAlertHasItsOwnId(enabled, maxItems, maxAge, audioLinked, actions[..|actions| - 1], ids);
      match actions[|actions| - 1]
      case DoTick(now, answer) => TickKeepsIds(s, now, answer, ids);
      case DoMatched(candidates, now) => ArriveAllKeepsIds(s, Sort(candidates, HandledBefore), now, ids, true);
      case DoTest(inst, now) => TestKeepsIds(s, inst, now, ids);
      case DoSkip(now) => SkipKeepsIds(s, now, ids);
      case _ =>
    }
  }
}
