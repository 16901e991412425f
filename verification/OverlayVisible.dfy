/** What is visible on an overlay after each step, in the items themselves, and what is announced of it; over every run. */
module OverlayVisible {
  import opened Common
  import opened Rings
  import opened ExpiryQueue
  import opened OverlaySpec
  import opened OverlayShelf
  import opened OverlayReplica

  /** How many items may be visible. */
  function Most(o: Overlay): nat {
    if o.settings.maxVisible < 1 then 1 else o.settings.maxVisible
  }

  ghost predicate NoneHas(items: seq<Item>, id: string) {
    forall x | x in items :: x.id != id
  }

  // ----- from the shelf to its items -----

  lemma {:induction false} ItemsAre(order: seq<string>, latest: map<string, Item>)
    requires Backed(order, latest)
    ensures |Items(order, latest)| == |order|
    ensures forall k | 0 <= k < |order| :: Items(order, latest)[k] == latest[order[k]] && Items(order, latest)[k].id == order[k]
  {
    if order != [] { ItemsAre(order[1..], latest); }
  }

  /** Eviction keeps the newest. */
  lemma {:induction false} EvictKeepsTheNewest(s: Shelf, limit: nat)
    requires Backed(s.order, s.latest)
    ensures var e := EvictOver(s, limit); Items(e.order, e.latest) == LastN(Items(s.order, s.latest), limit)
    decreases |s.order|
  {
    ItemsAre(s.order, s.latest);
    if |s.order| > limit {
      var one := Shelf(s.order[1..], s.latest - {s.order[0]}, s.expiry - {s.order[0]});
      ItemsSame(s.order[1..], one.latest, s.latest);
      ItemsAre(s.order[1..], s.latest);
      EvictKeepsTheNewest(one, limit);
      assert Items(s.order, s.latest)[1..] == Items(s.order[1..], s.latest);
      LastNOfRest(Items(s.order, s.latest), limit);
    }
  }

  lemma LastNOfRest<T>(s: seq<T>, n: nat)
    requires |s| > n
    ensures LastN(s[1..], n) == LastN(s, n)
  {
  }

  lemma {:induction false} UpsertedNew(items: seq<Item>, x: Item)
    requires NoneHas(items, x.id)
    ensures Upserted(items, x) == items + [x]
  {
    if items != [] {
      assert items[0] in items;
      UpsertedNew(items[1..], x);
    }
  }

  lemma {:induction false} UpsertedAt(items: seq<Item>, x: Item, k: nat)
    requires k < |items| && items[k].id == x.id && NoneHas(items[..k], x.id)
    ensures Upserted(items, x) == items[k := x]
  {
    if k > 0 {
      assert items[0] in items[..k];
      assert items[1..][..k - 1] == items[..k][1..];
      UpsertedAt(items[1..], x, k - 1);
    }
  }

  lemma {:induction false} RemovedAt(items: seq<Item>, id: string, k: nat)
    requires k < |items| && items[k].id == id && NoneHas(items[..k], id)
    ensures Removed(items, id) == items[..k] + items[k + 1..]
  {
    if k > 0 {
      assert items[0] in items[..k];
      assert items[1..][..k - 1] == items[..k][1..];
      RemovedAt(items[1..], id, k - 1);
    }
  }

  /** An id is on the shelf exactly when an item with it is visible, and then in one place. */
  lemma {:induction false} ShelvedIff(o: Overlay, id: string)
    requires Shelved(o.shelf)
    ensures id in o.shelf.latest <==> !NoneHas(CurrentItems(o), id)
    ensures forall k | 0 <= k < |CurrentItems(o)| && CurrentItems(o)[k].id == id :: NoneHas(CurrentItems(o)[..k], id)
  {
    var items := CurrentItems(o);
    ItemsAre(o.shelf.order, o.shelf.latest);
    if id in o.shelf.latest {
      var k :| 0 <= k < |o.shelf.order| && o.shelf.order[k] == id;
      assert items[k] in items;
    }
    forall k | 0 <= k < |items| && items[k].id == id ensures NoneHas(items[..k], id) {
      forall x | x in items[..k] ensures x.id != id {
        var i :| 0 <= i < k && items[i] == x;
        DistinctAt(o.shelf.order, i, k);
      }
    }
  }

  lemma {:induction false} DistinctAt(order: seq<string>, i: nat, k: nat)
    requires NoRepeats(order) && i < k < |order|
    ensures order[i] != order[k]
  {
    if i == 0 {
      assert order[k] == order[1..][k - 1];
    } else {
      DistinctAt(order[1..], i - 1, k - 1);
    }
  }

  // ----- a live item -----

  lemma {:induction false} ShownIs(o: Overlay, item: Item, x: Item)
    requires Inv(o) && x == item.(sequence := |o.log| + 1)
    ensures CurrentItems(ShowLive(o, item)) == LastN(Upserted(CurrentItems(o), x), Most(o))
    ensures ShowLive(o, item).log
            == AppendRemoves(Append(o.log, Upsert(x)),
                             Evictees(Put(o.shelf, x, o.settings.lifetimeSeconds), Most(o)), CapacityEvicted)
  {
    var put := Put(o.shelf, x, o.settings.lifetimeSeconds);
    ShowLiveIsPutThenEvict(o, item);
    PutKeepsShelved(o.shelf, x, o.settings.lifetimeSeconds);
    PutShows(o.shelf.order, o.shelf.latest, x);
    EvictKeepsTheNewest(put, Most(o));
  }

  /** A live item that is not visible yet is shown last, numbered, and the oldest ones beyond the limit go. */
  lemma {:induction false} NewItemIsShownLast(actions: seq<Action>, item: Item)
    requires !Run(actions).closed && NoneHas(CurrentItems(Run(actions)), item.id)
    ensures var o, t := Run(actions), Step(Run(actions), OnUpstream(Visible(item)));
            var x := item.(sequence := |o.log| + 1);
            CurrentItems(t) == LastN(CurrentItems(o) + [x], Most(o))
  {
    RunKeepsInv(actions);
    var o := Run(actions);
    var x := item.(sequence := |o.log| + 1);
    ShownIs(o, item, x);
    UpsertedNew(CurrentItems(o), x);
  }

  /** A live item that is visible already is updated in its place, and nothing has to go. */
  lemma {:induction false} KnownItemIsUpdated(actions: seq<Action>, item: Item, k: nat)
    requires !Run(actions).closed && k < |CurrentItems(Run(actions))| && CurrentItems(Run(actions))[k].id == item.id
    ensures var o, t := Run(actions), Step(Run(actions), OnUpstream(Visible(item)));
            var x := item.(sequence := |o.log| + 1);
            CurrentItems(t) == CurrentItems(o)[k := x] && t.log == o.log + [Entry(|o.log| + 1, Upsert(x))]
  {
    RunKeepsInv(actions);
    var o := Run(actions);
    var x := item.(sequence := |o.log| + 1);
    ShownIs(o, item, x);
    ShelvedIff(o, item.id);
    UpsertedAt(CurrentItems(o), x, k);
    ItemsAre(o.shelf.order, o.shelf.latest);
    assert CurrentItems(o)[k] in CurrentItems(o);
  }

  /** What is announced of a new item: itself, numbered next, and then each one that had to go, oldest first. */
  lemma {:induction false} NewItemIsAnnounced(actions: seq<Action>, item: Item)
    requires !Run(actions).closed && NoneHas(CurrentItems(Run(actions)), item.id)
    ensures var o, t := Run(actions), Step(Run(actions), OnUpstream(Visible(item)));
            var before := CurrentItems(o);
            var gone := if |before| + 1 > Most(o) then |before| + 1 - Most(o) else 0;
            && gone <= |before| && |t.log| == |o.log| + 1 + gone && t.log[..|o.log|] == o.log
            && t.log[|o.log|] == Entry(|o.log| + 1, Upsert(item.(sequence := |o.log| + 1)))
            && forall j | 0 <= j < gone :: t.log[|o.log| + 1 + j].payload == Remove(before[j].id, CapacityEvicted)
  {
    RunKeepsInv(actions);
    var o := Run(actions);
    var x := item.(sequence := |o.log| + 1);
    var announced := Append(o.log, Upsert(x));
    var out := Evictees(Put(o.shelf, x, o.settings.lifetimeSeconds), Most(o));
    ShownIs(o, item, x);
    ShelvedIff(o, item.id);
    ItemsAre(o.shelf.order, o.shelf.latest);
    AppendedRemoves(announced, out, CapacityEvicted);
  }

  lemma {:induction false} AppendedRemoves(log: Log, ids: seq<string>, reason: RemoveReason)
    ensures var more := AppendRemoves(log, ids, reason);
            && |more| == |log| + |ids| && more[..|log|] == log
            && forall j | 0 <= j < |ids| :: more[|log| + j] == Entry(|log| + j + 1, Remove(ids[j], reason))
    decreases ids
  {
    if ids != [] {
      var one := Append(log, Remove(ids[0], reason));
      AppendedRemoves(one, ids[1..], reason);
      var more := AppendRemoves(one, ids[1..], reason);
      assert more[..|log|] == more[..|one|][..|log|];
      assert more[|log|] == more[..|one|][|log|];
    }
  }

  /** A live item found hidden is taken off, the others keep their places, and its removal is announced for the
      reason given; if it was not visible nothing happens. */
  lemma {:induction false} HiddenItemIsTakenOff(actions: seq<Action>, id: string, reason: RemoveReason)
    requires !Run(actions).closed
    ensures var o, t := Run(actions), Step(Run(actions), OnUpstream(Hidden(id, reason)));
            && (NoneHas(CurrentItems(o), id) ==> t == o)
            && forall k | 0 <= k < |CurrentItems(o)| && CurrentItems(o)[k].id == id ::
                 && CurrentItems(t) == CurrentItems(o)[..k] + CurrentItems(o)[k + 1..]
                 && t.log == o.log + [Entry(|o.log| + 1, Remove(id, reason))]
  {
    RunKeepsInv(actions);
    var o := Run(actions);
    ShelvedIff(o, id);
    DropShows(o.shelf.order, o.shelf.latest, id);
    forall k | 0 <= k < |CurrentItems(o)| && CurrentItems(o)[k].id == id
      ensures Removed(CurrentItems(o), id) == CurrentItems(o)[..k] + CurrentItems(o)[k + 1..] && id in o.shelf.latest
    {
      RemovedAt(CurrentItems(o), id, k);
      assert CurrentItems(o)[k] in CurrentItems(o);
    }
  }

  // ----- a rebuild, and the rest -----

  /** A rebuild begins with nothing visible and announces nothing; a rebuilt item is shown as a live one would be, but
      for its number, and is not announced; the end announces everything visible. */
  lemma {:induction false} RebuildIsSilent(actions: seq<Action>, settings: Settings, gap: bool, item: Item)
    requires !Run(actions).closed
    ensures var o := Run(actions);
            var begun, rebuilt, ended := Step(o, OnBegin(settings, gap)), Step(o, OnRebuild(Visible(item))), Step(o, OnEnd);
            && CurrentItems(begun) == [] && begun.log == o.log && begun.shelf.expiry == map[]
            && rebuilt.log == o.log
            && CurrentItems(rebuilt) == LastN(Upserted(CurrentItems(o), item.(sequence := 0)), Most(o))
            && CurrentItems(ended) == CurrentItems(o)
            && ended.log == o.log + [Entry(|o.log| + 1, Reset(CurrentItems(o)))]
  {
    RunKeepsInv(actions);
    var o := Run(actions);
    var x := item.(sequence := 0);
    PutKeepsShelved(o.shelf, x, o.settings.lifetimeSeconds);
    PutShows(o.shelf.order, o.shelf.latest, x);
    EvictKeepsTheNewest(Put(o.shelf, x, o.settings.lifetimeSeconds), Most(o));
  }

  /** A rebuilt item found hidden is taken off as a live one would be, unannounced. */
  lemma {:induction false} RebuildHidesSilently(actions: seq<Action>, id: string, reason: RemoveReason)
    requires !Run(actions).closed
    ensures var o, t := Run(actions), Step(Run(actions), OnRebuild(Hidden(id, reason)));
            t.log == o.log && CurrentItems(t) == Removed(CurrentItems(o), id)
  {
    RunKeepsInv(actions);
    var o := Run(actions);
    DropShows(o.shelf.order, o.shelf.latest, id);
    ShelvedIff(o, id);
    if id !in o.shelf.latest { RemovedNone(CurrentItems(o), id); }
  }

  lemma {:induction false} RemovedNone(items: seq<Item>, id: string)
    requires NoneHas(items, id)
    ensures Removed(items, id) == items
  {
    if items != [] {
      assert items[0] in items;
      RemovedNone(items[1..], id);
    }
  }

  /** Without a lifetime a timer takes nothing off. */
  lemma {:induction false} NothingExpires(actions: seq<Action>, now: int, due: seq<string>)
    requires Run(actions).settings.lifetimeSeconds <= 0
    ensures var o, t := Run(actions), Step(Run(actions), OnTimer(now, due));
            CurrentItems(t) == CurrentItems(o) && t.log == o.log
  {
    RunKeepsInv(actions);
    if due != [] && DueBy(Run(actions).shelf.expiry, now, due) {
      DueByIsExact(Run(actions).shelf.expiry, now, due);
      SomeIsIn(due);
    }
  }

  lemma SomeIsIn(ids: seq<string>)
    requires ids != []
    ensures exists id :: id in ids
  {
    assert ids[0] in ids;
  }

  /** A change of presentation is announced and changes no item; once closed, nothing changes any more. */
  lemma PresentationIsAnnounced(o: Overlay, a: Action)
    ensures !o.closed ==> Step(o, OnPresentation) == o.(log := o.log + [Entry(|o.log| + 1, PresentationChanged)])
    ensures o.closed ==> Step(o, a) == o
  {
  }

  /** The settings last configured, and whether the upstream ever reported a gap, before the overlay was closed. */
  datatype Known = Known(settings: Settings, gap: bool, closed: bool)

  function KnownAfter(actions: seq<Action>): Known {
    if actions == [] then Known(Settings(0, 0), false, false)
    else
      var before := KnownAfter(actions[..|actions| - 1]);
      match actions[|actions| - 1]
      case OnBegin(settings, gap) => if before.closed then before else Known(settings, before.gap || gap, false)
      case OnClose => before.(closed := true)
      case _ => before
  }

  lemma {:induction false} ExpireEachKeepsSettings(o: Overlay, due: seq<string>)
    ensures var t := ExpireEach(o, due); t.settings == o.settings && t.upstreamGap == o.upstreamGap && t.closed == o.closed
    decreases due
  {
    if due != [] {
      if due[0] in o.shelf.latest {
        ExpireEachKeepsSettings(o.(shelf := Drop(o.shelf, due[0]), log := Append(o.log, Remove(due[0], Expired))), due[1..]);
      } else {
        ExpireEachKeepsSettings(o, due[1..]);
      }
    }
  }

  /** Over every run: the overlay works by the settings last configured, and remembers a gap once one was reported. */
  lemma {:induction false} AsLastConfigured(actions: seq<Action>)
    ensures var o := Run(actions); KnownAfter(actions) == Known(o.settings, o.upstreamGap, o.closed)
  {
    if actions != [] {
      var before, a := actions[..|actions| - 1], actions[|actions| - 1];
      AsLastConfigured(before);
      if a.OnTimer? {
        var o := Run(before);
        ExpireEachKeepsSettings(o.(shelf := o.shelf.(expiry := Without(o.shelf.expiry, a.due))), a.due);
      }
    }
  }
}
