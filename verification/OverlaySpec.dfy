/** One chat overlay's projection as a state machine: a bounded first-in-first-out set of visible
items, their expiry times, and the public revision log.

Configure releases its lock between clearing the set, each rebuilt item and the final reset, so
these are separate steps here and any other step may come between them. */
module OverlaySpec {
  import opened Common
  import opened Rings
  import opened ExpiryQueue

  const SECOND: int := 1_000_000_000

  /** What filtering and presentation make of an item: its id, time and public content. */
  datatype Item = Item(id: string, sequence: nat, occurredAt: int, content: string)

  datatype RemoveReason = Expired | CapacityEvicted | MessageDeleted | ChatCleared | UserMessagesCleared | Unknown

  datatype Revision =
    | Upsert(item: Item)
    | Remove(id: string, reason: RemoveReason)
    | Reset(items: seq<Item>)
    | PresentationChanged

  type Log = seq<Entry<Revision>>

  /** Visible ids oldest first, the item behind each, and when each expires. */
  datatype Shelf = Shelf(order: seq<string>, latest: map<string, Item>, expiry: Table)

  datatype Settings = Settings(maxVisible: int, lifetimeSeconds: int)

  datatype Overlay = Overlay(shelf: Shelf, settings: Settings, log: Log, closed: bool, upstreamGap: bool)

  /** The verdict of filtering on one upstream item, under whatever settings were read. */
  datatype Verdict = Visible(item: Item) | Hidden(id: string, reason: RemoveReason)

  const EMPTY_SHELF := Shelf([], map[], map[])
  const UNCONFIGURED := Overlay(EMPTY_SHELF, Settings(0, 0), [], false, false)

  // ----- the visible set -----

  function Limit(settings: Settings): (n: nat)
    ensures n >= 1
  {
    if settings.maxVisible < 1 then 1 else settings.maxVisible
  }

  function Put(s: Shelf, item: Item, lifetimeSeconds: int): Shelf {
    Shelf(if item.id in s.latest then s.order else s.order + [item.id],
          s.latest[item.id := item],
          if lifetimeSeconds > 0 then s.expiry[item.id := item.occurredAt + lifetimeSeconds * SECOND]
          else s.expiry - {item.id})
  }

  /** Evicts the oldest items until at most `limit` are left. */
  function EvictOver(s: Shelf, limit: nat): Shelf
    decreases |s.order|
  {
    if |s.order| <= limit then s
    else EvictOver(Shelf(s.order[1..], s.latest - {s.order[0]}, s.expiry - {s.order[0]}), limit)
  }

  function Evictees(s: Shelf, limit: nat): seq<string> {
    if |s.order| <= limit then [] else s.order[..|s.order| - limit]
  }

  /** The sequence without the first occurrence of id. */
  function WithoutFirst(order: seq<string>, id: string): seq<string> {
    if order == [] then [] else if order[0] == id then order[1..] else [order[0]] + WithoutFirst(order[1..], id)
  }

  function Drop(s: Shelf, id: string): Shelf {
    if id !in s.latest then s
    else Shelf(WithoutFirst(s.order, id), s.latest - {id}, s.expiry - {id})
  }

  function Items(order: seq<string>, latest: map<string, Item>): seq<Item> {
    if order == [] then []
    else (if order[0] in latest then [latest[order[0]]] else []) + Items(order[1..], latest)
  }

  function CurrentItems(o: Overlay): seq<Item> {
    Items(o.shelf.order, o.shelf.latest)
  }

  // ----- the steps -----

  function Append(log: Log, rev: Revision): Log {
    log + [Entry(|log| + 1, rev)]
  }

  function AppendRemoves(log: Log, ids: seq<string>, reason: RemoveReason): Log
    decreases ids
  {
    if ids == [] then log else AppendRemoves(Append(log, Remove(ids[0], reason)), ids[1..], reason)
  }

  /** A live item found visible: stored without a number, room made, then stored again with its number and announced. */
  function ShowLive(o: Overlay, item: Item): Overlay {
    var put := Put(o.shelf, item.(sequence := 0), o.settings.lifetimeSeconds);
    var kept := EvictOver(put, Limit(o.settings));
    var numbered := item.(sequence := |o.log| + 1);
    o.(shelf := kept.(latest := kept.latest[item.id := numbered]),
       log := AppendRemoves(Append(o.log, Upsert(numbered)), Evictees(put, Limit(o.settings)), CapacityEvicted))
  }

  function HideLive(o: Overlay, id: string, reason: RemoveReason): Overlay {
    if id !in o.shelf.latest then o
    else o.(shelf := Drop(o.shelf, id), log := Append(o.log, Remove(id, reason)))
  }

  function Live(o: Overlay, verdict: Verdict): Overlay {
    if o.closed then o
    else match verdict
      case Visible(item) => ShowLive(o, item)
      case Hidden(id, reason) => HideLive(o, id, reason)
  }

  /** The same for an item replayed during a rebuild, which announces nothing. */
  function Rebuild(o: Overlay, verdict: Verdict): Overlay {
    if o.closed then o
    else match verdict
      case Visible(item) =>
        var put := Put(o.shelf, item.(sequence := 0), o.settings.lifetimeSeconds);
        o.(shelf := EvictOver(put, Limit(o.settings)))
      case Hidden(id, _) => o.(shelf := Drop(o.shelf, id))
  }

  function BeginConfigure(o: Overlay, settings: Settings, gap: bool): Overlay {
    if o.closed then o
    else o.(shelf := EMPTY_SHELF, settings := settings, upstreamGap := o.upstreamGap || gap)
  }

  function EndConfigure(o: Overlay): Overlay {
    if o.closed then o else o.(log := Append(o.log, Reset(CurrentItems(o))))
  }

  /** Takes the due ids off the shelf one by one, announcing those that were still visible. */
  function ExpireEach(o: Overlay, due: seq<string>): Overlay
    decreases due
  {
    if due == [] then o
    else if due[0] !in o.shelf.latest then ExpireEach(o, due[1..])
    else ExpireEach(o.(shelf := Drop(o.shelf, due[0]), log := Append(o.log, Remove(due[0], Expired))), due[1..])
  }

  /** The timer fired: `due` is what the expiry queue gave up by `now`. */
  function Expire(o: Overlay, due: seq<string>): Overlay {
    if o.closed then o
    else ExpireEach(o.(shelf := o.shelf.(expiry := Without(o.shelf.expiry, due))), due)
  }

  function AnnouncePresentation(o: Overlay): Overlay {
    if o.closed then o else o.(log := Append(o.log, PresentationChanged))
  }

  // ----- the client's side -----

  function Upserted(items: seq<Item>, x: Item): seq<Item> {
    if items == [] then [x]
    else if items[0].id == x.id then [x] + items[1..]
    else [items[0]] + Upserted(items[1..], x)
  }

  function Removed(items: seq<Item>, id: string): seq<Item> {
    if items == [] then []
    else if items[0].id == id then items[1..]
    else [items[0]] + Removed(items[1..], id)
  }

  function RemovedAll(items: seq<Item>, ids: seq<string>): seq<Item>
    decreases ids
  {
    if ids == [] then items else RemovedAll(Removed(items, ids[0]), ids[1..])
  }

  function Follow(view: seq<Item>, rev: Revision): seq<Item> {
    match rev
    case Upsert(item) => Upserted(view, item)
    case Remove(id, _) => Removed(view, id)
    case Reset(items) => items
    case PresentationChanged => view
  }

  function FollowAll(view: seq<Item>, entries: Log): seq<Item> {
    if entries == [] then view else Follow(FollowAll(view, entries[..|entries| - 1]), entries[|entries| - 1].payload)
  }

  lemma FollowAppend(log: Log, rev: Revision)
    ensures FollowAll([], Append(log, rev)) == Follow(FollowAll([], log), rev)
  {
    assert Append(log, rev)[..|log|] == log;
  }

  lemma {:induction false} FollowRemoves(log: Log, ids: seq<string>, reason: RemoveReason)
    ensures FollowAll([], AppendRemoves(log, ids, reason)) == RemovedAll(FollowAll([], log), ids)
    decreases ids
  {
    if ids != [] {
      FollowAppend(log, Remove(ids[0], reason));
      FollowRemoves(Append(log, Remove(ids[0], reason)), ids[1..], reason);
    }
  }

  lemma {:induction false} FollowAllAppend(view: seq<Item>, a: Log, b: Log)
    ensures FollowAll(view, a + b) == FollowAll(FollowAll(view, a), b)
  {
    if b == [] {
      assert a + b == a;
    } else {
      FollowAllAppend(view, a, b[..|b| - 1]);
      assert (a + b)[..|a + b| - 1] == a + b[..|b| - 1];
    }
  }

  /** Following the log up to s and then a gapless replay from s is following the whole log. */
  lemma {:induction false} ReplayCompletes(view: seq<Item>, log: Log, capacity: nat, s: nat)
    requires Numbered(log) && 0 < capacity && 0 < s <= |log| && !HasGap(|log|, LastN(log, capacity), s)
    ensures FollowAll(FollowAll(view, log[..s]), Newer(LastN(log, capacity), s)) == FollowAll(view, log)
  {
    GaplessReplay(log, capacity, s);
    FollowAllAppend(view, log[..s], log[s..]);
    assert log == log[..s] + log[s..];
  }
}
