/** What holds of an overlay over every run of its steps. */
module OverlayReplica {
  import opened Common
  import opened Rings
  import opened ExpiryQueue
  import opened OverlaySpec
  import opened OverlayShelf

  datatype Action =
    | OnUpstream(verdict: Verdict)
    | OnBegin(settings: Settings, gap: bool)
    | OnRebuild(verdict: Verdict)
    | OnEnd
    | OnTimer(now: int, due: seq<string>)
    | OnPresentation
    | OnClose

  /** A timer step happens only with ids the expiry queue can give up at that time. */
  ghost function Step(o: Overlay, a: Action): Overlay {
    match a
    case OnUpstream(verdict) => Live(o, verdict)
    case OnBegin(settings, gap) => BeginConfigure(o, settings, gap)
    case OnRebuild(verdict) => Rebuild(o, verdict)
    case OnEnd => EndConfigure(o)
    case OnTimer(now, due) => if DueBy(o.shelf.expiry, now, due) then Expire(o, due) else o
    case OnPresentation => AnnouncePresentation(o)
    case OnClose => o.(closed := true)
  }

  ghost function Run(actions: seq<Action>): Overlay {
    if actions == [] then UNCONFIGURED else Step(Run(actions[..|actions| - 1]), actions[|actions| - 1])
  }

  /** No rebuild has touched the visible set since the last reset was announced. */
  ghost predicate Announced(actions: seq<Action>) {
    actions == [] ||
    match actions[|actions| - 1]
    case OnBegin(_, _) => false
    case OnRebuild(_) => false
    case OnEnd => true
    case _ => Announced(actions[..|actions| - 1])
  }

  /** An item's number is that of the revision that announced it in its present form; rebuilt items have none. */
  ghost predicate Stamped(latest: map<string, Item>, log: Log) {
    forall id | id in latest ::
      var n := latest[id].sequence;
      n == 0 || (n <= |log| && log[n - 1].payload == Upsert(latest[id]))
  }

  ghost predicate Inv(o: Overlay) {
    && Shelved(o.shelf) && Timely(o.shelf, o.settings.lifetimeSeconds) && |o.shelf.order| <= Limit(o.settings)
    && Numbered(o.log) && Stamped(o.shelf.latest, o.log)
  }

  /** A client that followed the whole log sees exactly the visible items, in order. */
  ghost predicate InStep(o: Overlay) {
    FollowAll([], o.log) == CurrentItems(o)
  }

  lemma {:induction false} AppendRemovesExtends(log: Log, ids: seq<string>, reason: RemoveReason)
    requires Numbered(log)
    ensures Numbered(AppendRemoves(log, ids, reason)) && log <= AppendRemoves(log, ids, reason)
    decreases ids
  {
    if ids != [] { AppendRemovesExtends(Append(log, Remove(ids[0], reason)), ids[1..], reason); }
  }

  // ----- live items -----

  /** Storing, evicting and storing again is storing the numbered item and then evicting. */
  lemma {:induction false} ShowLiveIsPutThenEvict(o: Overlay, item: Item)
    requires Inv(o)
    ensures var numbered := item.(sequence := |o.log| + 1);
            var put := Put(o.shelf, numbered, o.settings.lifetimeSeconds);
            && ShowLive(o, item).shelf == EvictOver(put, Limit(o.settings))
            && ShowLive(o, item).log
               == AppendRemoves(Append(o.log, Upsert(numbered)), Evictees(put, Limit(o.settings)), CapacityEvicted)
            && item.id in ShowLive(o, item).shelf.latest
  {
    StoringTwice(o.shelf, item.(sequence := 0), item.(sequence := |o.log| + 1), o.settings.lifetimeSeconds, Limit(o.settings));
  }

  lemma {:induction false} StoringTwice(s: Shelf, first: Item, numbered: Item, lifetimeSeconds: int, limit: nat)
    requires Shelved(s) && 1 <= limit && |s.order| <= limit
    requires first == numbered.(sequence := first.sequence)
    ensures var e := EvictOver(Put(s, first, lifetimeSeconds), limit);
            && e.(latest := e.latest[numbered.id := numbered]) == EvictOver(Put(s, numbered, lifetimeSeconds), limit)
            && numbered.id in e.latest
  {
    var put := Put(s, first, lifetimeSeconds);
    if first.id !in s.latest { NoRepeatsAppend(s.order, first.id); }
    WritingBackCommutes(put, limit, first.id, numbered);
    assert put.(latest := put.latest[first.id := numbered]) == Put(s, numbered, lifetimeSeconds);
  }

  lemma StampedStays(latest: map<string, Item>, log: Log, fewer: map<string, Item>, more: Log)
    requires Stamped(latest, log) && log <= more
    requires forall id | id in fewer :: id in latest && fewer[id] == latest[id]
    ensures Stamped(fewer, more)
  {
    forall id | id in fewer
      ensures fewer[id].sequence == 0
           || (fewer[id].sequence <= |more| && more[fewer[id].sequence - 1].payload == Upsert(fewer[id]))
    {
      assert latest[id] == fewer[id];
    }
  }

  lemma StampedPut(latest: map<string, Item>, log: Log, x: Item)
    requires Stamped(latest, log) && x.sequence == |log| + 1
    ensures Stamped(latest[x.id := x], Append(log, Upsert(x)))
  {
    StampedStays(latest, log, latest, Append(log, Upsert(x)));
  }

  lemma {:induction false} ShowLiveKeepsInv(o: Overlay, item: Item)
    requires Inv(o)
    ensures Inv(ShowLive(o, item))
  {
    var life, limit := o.settings.lifetimeSeconds, Limit(o.settings);
    var numbered := item.(sequence := |o.log| + 1);
    var put := Put(o.shelf, numbered, life);
    var announced := Append(o.log, Upsert(numbered));
    ShowLiveIsPutThenEvict(o, item);
    PutKeepsShelved(o.shelf, numbered, life);
    EvictShows(put, limit, life);
    AppendRemovesExtends(announced, Evictees(put, limit), CapacityEvicted);
    StampedPut(o.shelf.latest, o.log, numbered);
    StampedStays(put.latest, announced, ShowLive(o, item).shelf.latest, ShowLive(o, item).log);
  }

  lemma {:induction false} ShowLiveKeepsInStep(o: Overlay, item: Item)
    requires Inv(o) && InStep(o)
    ensures InStep(ShowLive(o, item))
  {
    var life, limit := o.settings.lifetimeSeconds, Limit(o.settings);
    var numbered := item.(sequence := |o.log| + 1);
    var put := Put(o.shelf, numbered, life);
    ShowLiveIsPutThenEvict(o, item);
    PutKeepsShelved(o.shelf, numbered, life);
    PutShows(o.shelf.order, o.shelf.latest, numbered);
    EvictShows(put, limit, life);
    FollowAppend(o.log, Upsert(numbered));
    FollowRemoves(Append(o.log, Upsert(numbered)), Evictees(put, limit), CapacityEvicted);
  }

  lemma {:induction false} HideLiveKeeps(o: Overlay, id: string, reason: RemoveReason)
    requires Inv(o)
    ensures Inv(HideLive(o, id, reason))
  {
    DropKeepsShelved(o.shelf, id, o.settings.lifetimeSeconds);
    StampedStays(o.shelf.latest, o.log, o.shelf.latest - {id}, Append(o.log, Remove(id, reason)));
  }

  lemma {:induction false} HideLiveKeepsInStep(o: Overlay, id: string, reason: RemoveReason)
    requires Inv(o) && InStep(o)
    ensures InStep(HideLive(o, id, reason))
  {
    DropShows(o.shelf.order, o.shelf.latest, id);
    FollowAppend(o.log, Remove(id, reason));
  }

  lemma {:induction false} RebuildKeepsInv(o: Overlay, verdict: Verdict)
    requires Inv(o)
    ensures Inv(Rebuild(o, verdict))
  {
    var life := o.settings.lifetimeSeconds;
    match verdict
    case Visible(item) =>
      PutKeepsShelved(o.shelf, item.(sequence := 0), life);
      EvictShows(Put(o.shelf, item.(sequence := 0), life), Limit(o.settings), life);
    case Hidden(id, _) =>
      DropKeepsShelved(o.shelf, id, life);
  }

  // ----- expiry -----

  /** Timely, but for the ids already taken from the expiry queue and still waiting to be removed. */
  ghost predicate TimelyBut(s: Shelf, lifetimeSeconds: int, pending: seq<string>) {
    && (forall id :: id in s.expiry <==> lifetimeSeconds > 0 && id in s.latest && id !in pending)
    && (forall id | id in s.expiry :: s.expiry[id] == s.latest[id].occurredAt + lifetimeSeconds * SECOND)
  }

  ghost predicate AllButTimely(o: Overlay, pending: seq<string>) {
    && Shelved(o.shelf) && TimelyBut(o.shelf, o.settings.lifetimeSeconds, pending)
    && |o.shelf.order| <= Limit(o.settings) && Numbered(o.log) && Stamped(o.shelf.latest, o.log)
  }

  lemma {:induction false} ExpireOneKeeps(o: Overlay, due: seq<string>)
    requires due != [] && due[0] in o.shelf.latest && AllButTimely(o, due)
    ensures var p := o.(shelf := Drop(o.shelf, due[0]), log := Append(o.log, Remove(due[0], Expired)));
            AllButTimely(p, due[1..]) && (InStep(o) ==> InStep(p))
  {
    DropKeepsTimelyBut(o.shelf, o.settings.lifetimeSeconds, due);
    StampedStays(o.shelf.latest, o.log, o.shelf.latest - {due[0]}, Append(o.log, Remove(due[0], Expired)));
    DropShows(o.shelf.order, o.shelf.latest, due[0]);
    FollowAppend(o.log, Remove(due[0], Expired));
  }

  lemma {:induction false} DropKeepsTimelyBut(s: Shelf, lifetimeSeconds: int, due: seq<string>)
    requires due != [] && due[0] in s.latest && Shelved(s) && TimelyBut(s, lifetimeSeconds, due)
    ensures Shelved(Drop(s, due[0])) && TimelyBut(Drop(s, due[0]), lifetimeSeconds, due[1..])
    ensures |Drop(s, due[0]).order| <= |s.order|
  {
    WithoutFirstRemoves(s.order, due[0]);
    assert due == [due[0]] + due[1..];
  }

  lemma {:induction false} ExpireEachKeeps(o: Overlay, due: seq<string>)
    requires AllButTimely(o, due)
    ensures Inv(ExpireEach(o, due))
    ensures InStep(o) ==> InStep(ExpireEach(o, due))
    decreases due
  {
    if due != [] {
      if due[0] in o.shelf.latest {
        ExpireOneKeeps(o, due);
        ExpireEachKeeps(o.(shelf := Drop(o.shelf, due[0]), log := Append(o.log, Remove(due[0], Expired))), due[1..]);
      } else {
        assert due == [due[0]] + due[1..];
        ExpireEachKeeps(o, due[1..]);
      }
    }
  }

  lemma {:induction false} ExpireKeeps(o: Overlay, due: seq<string>)
    requires Inv(o)
    ensures Inv(Expire(o, due))
    ensures InStep(o) ==> InStep(Expire(o, due))
  {
    if !o.closed {
      ExpireEachKeeps(o.(shelf := o.shelf.(expiry := Without(o.shelf.expiry, due))), due);
    }
  }

  lemma {:induction false} DropFilters(order: seq<string>, latest: map<string, Item>, id: string)
    requires Backed(order, latest)
    ensures Items(WithoutFirst(order, id), latest - {id}) == Filter(Items(order, latest), (x: Item) => x.id != id)
  {
    DropShows(order, latest, id);
    RemovedIsFilter(order, latest, id);
  }

  lemma {:induction false} RemovedIsFilter(order: seq<string>, latest: map<string, Item>, id: string)
    requires Backed(order, latest)
    ensures Removed(Items(order, latest), id) == Filter(Items(order, latest), (x: Item) => x.id != id)
  {
    if order != [] {
      if order[0] == id {
        forall x | x in Items(order[1..], latest) ensures x.id != id { ItemBears(order[1..], latest, x); }
        FilterAll(Items(order[1..], latest), (x: Item) => x.id != id);
      } else {
        RemovedIsFilter(order[1..], latest, id);
      }
    }
  }

  lemma {:induction false} ItemBears(order: seq<string>, latest: map<string, Item>, x: Item)
    requires x in Items(order, latest) && forall id | id in order :: id in latest && latest[id].id == id
    ensures x.id in order && latest[x.id] == x
  {
    if x != latest[order[0]] { ItemBears(order[1..], latest, x); }
  }

  lemma {:induction false} OnceEachIsNoRepeats(ids: seq<string>)
    requires forall id :: multiset(ids)[id] <= 1
    ensures NoRepeats(ids)
  {
    if ids != [] {
      assert ids == [ids[0]] + ids[1..];
      assert multiset(ids) == multiset{ids[0]} + multiset(ids[1..]);
      assert multiset(ids)[ids[0]] <= 1;
      forall id ensures multiset(ids[1..])[id] <= 1 { assert multiset(ids)[id] <= 1; }
      OnceEachIsNoRepeats(ids[1..]);
    }
  }

  lemma {:induction false} ExpireEachFilters(o: Overlay, due: seq<string>)
    requires Shelved(o.shelf) && NoRepeats(due) && forall id | id in due :: id in o.shelf.latest
    ensures CurrentItems(ExpireEach(o, due)) == Filter(CurrentItems(o), (x: Item) => x.id !in due)
    ensures ExpireEach(o, due).log == AppendRemoves(o.log, due, Expired)
    decreases due
  {
    var items := CurrentItems(o);
    if due == [] {
      FilterAll(items, (x: Item) => x.id !in due);
    } else {
      assert due == [due[0]] + due[1..];
      var one := o.(shelf := Drop(o.shelf, due[0]), log := Append(o.log, Remove(due[0], Expired)));
      WithoutFirstRemoves(o.shelf.order, due[0]);
      ExpireEachFilters(one, due[1..]);
      DropFilters(o.shelf.order, o.shelf.latest, due[0]);
      FilterFilter(items, (x: Item) => x.id != due[0], (x: Item) => x.id !in due[1..], (x: Item) => x.id !in due);
    }
  }

  /** When the timer fires, exactly the items whose lifetime is over disappear, the others keep their order,
      nothing visible is due any more, and one removal is announced for each expired item, earliest first. */
  lemma {:induction false} ExpiryIsExact(o: Overlay, now: int, due: seq<string>)
    requires Inv(o) && !o.closed && DueBy(o.shelf.expiry, now, due) && o.settings.lifetimeSeconds > 0
    ensures var life := o.settings.lifetimeSeconds * 1_000_000_000;
            CurrentItems(Expire(o, due)) == Filter(CurrentItems(o), (x: Item) => x.occurredAt + life > now)
    ensures forall id | id in Expire(o, due).shelf.expiry :: Expire(o, due).shelf.expiry[id] > now
    ensures Expire(o, due).log == AppendRemoves(o.log, due, Expired)
  {
    var life := o.settings.lifetimeSeconds * SECOND;
    var p := o.(shelf := o.shelf.(expiry := Without(o.shelf.expiry, due)));
    DueByIsExact(o.shelf.expiry, now, due);
    OnceEachIsNoRepeats(due);
    ExpireEachFilters(p, due);
    ExpireEachOnlyCancels(p, due);
    forall x | x in CurrentItems(o) ensures x.occurredAt + life > now <==> x.id !in due {
      ItemBears(o.shelf.order, o.shelf.latest, x);
    }
    FilterSame(CurrentItems(o), (x: Item) => x.id !in due, (x: Item) => x.occurredAt + life > now);
  }

  lemma {:induction false} ExpireEachOnlyCancels(o: Overlay, due: seq<string>)
    ensures forall id | id in ExpireEach(o, due).shelf.expiry ::
              id in o.shelf.expiry && ExpireEach(o, due).shelf.expiry[id] == o.shelf.expiry[id]
    decreases due
  {
    if due != [] {
      if due[0] in o.shelf.latest {
        ExpireEachOnlyCancels(o.(shelf := Drop(o.shelf, due[0]), log := Append(o.log, Remove(due[0], Expired))), due[1..]);
      } else {
        ExpireEachOnlyCancels(o, due[1..]);
      }
    }
  }

  // ----- all runs -----

  lemma {:induction false} StepKeepsInv(o: Overlay, a: Action)
    requires Inv(o)
    ensures Inv(Step(o, a))
  {
    if !o.closed {
      match a
      case OnUpstream(Visible(item)) => ShowLiveKeepsInv(o, item);
      case OnUpstream(Hidden(id, reason)) => HideLiveKeeps(o, id, reason);
      case OnRebuild(verdict) => RebuildKeepsInv(o, verdict);
      case OnTimer(_, due) => ExpireKeeps(o, due);
      case _ =>
    }
  }

  lemma {:induction false} StepKeepsInStep(o: Overlay, a: Action)
    requires Inv(o) && InStep(o) && !a.OnBegin? && !a.OnRebuild?
    ensures InStep(Step(o, a))
  {
    if !o.closed {
      match a
      case OnUpstream(Visible(item)) => ShowLiveKeepsInStep(o, item);
      case OnUpstream(Hidden(id, reason)) => HideLiveKeepsInStep(o, id, reason);
      case OnTimer(_, due) => ExpireKeeps(o, due);
      case OnEnd => FollowAppend(o.log, Reset(CurrentItems(o)));
      case OnPresentation => FollowAppend(o.log, PresentationChanged);
      case OnClose =>
    }
  }

  /** In every run the visible set stays well formed, within its limit, and timed exactly as its items say. */
  lemma {:induction false} RunKeepsInv(actions: seq<Action>)
    ensures Inv(Run(actions))
  {
    if actions != [] {
      RunKeepsInv(actions[..|actions| - 1]);
      StepKeepsInv(Run(actions[..|actions| - 1]), actions[|actions| - 1]);
    }
  }

  /** The log is a replica: whenever the last rebuild has been announced, following the whole log gives
      exactly the visible items in order, whatever was evicted, expired, hidden or rebuilt on the way. */
  lemma {:induction false} LogIsReplica(actions: seq<Action>)
    requires Announced(actions) && !Run(actions).closed
    ensures FollowAll([], Run(actions).log) == CurrentItems(Run(actions))
  {
    if actions != [] {
      var before, a := actions[..|actions| - 1], actions[|actions| - 1];
      RunKeepsInv(before);
      if a.OnEnd? {
        FollowAppend(Run(before).log, Reset(CurrentItems(Run(before))));
      } else {
        LogIsReplica(before);
        StepKeepsInStep(Run(before), a);
      }
    }
  }

  /** A client in step up to s > 0 that resumes from s without a gap ends with the visible items. */
  lemma {:induction false} GaplessResumeCatchesUp(actions: seq<Action>, capacity: nat, s: nat, view: seq<Item>)
    requires Announced(actions) && !Run(actions).closed
    requires 0 < capacity && 0 < s <= |Run(actions).log| && view == FollowAll([], Run(actions).log[..s])
    requires !HasGap(|Run(actions).log|, LastN(Run(actions).log, capacity), s)
    ensures FollowAll(view, Newer(LastN(Run(actions).log, capacity), s)) == CurrentItems(Run(actions))
  {
    RunKeepsInv(actions);
    LogIsReplica(actions);
    ReplayCompletes([], Run(actions).log, capacity, s);
  }

  /** Between the steps of a rebuild a client can be out of step: clearing the set is not announced until the end. */
  lemma {:induction false} RebuildingIsNotInStep(settings: Settings, item: Item)
    ensures var live := [OnUpstream(Visible(item))];
            InStep(Run(live)) && !InStep(Run(live + [OnBegin(settings, false)]))
            && InStep(Run(live + [OnBegin(settings, false), OnEnd]))
  {
    var live := [OnUpstream(Visible(item))];
    var begun, ended := live + [OnBegin(settings, false)], live + [OnBegin(settings, false), OnEnd];
    assert live[..0] == [] && begun[..1] == live && ended[..2] == begun;
    assert Run(live[..0]) == UNCONFIGURED;
    assert Run(live) == ShowLive(UNCONFIGURED, item);
    LogIsReplica(live);
    LogIsReplica(ended);
    RunKeepsInv([]);
    ShowLiveIsPutThenEvict(UNCONFIGURED, item);
    assert Run(begun) == BeginConfigure(Run(live), settings, false);
  }
}
