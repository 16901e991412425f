/** The overlay projection as the source has it: an object that changes its visible set, its expiry queue and its
revision ring, one locked step at a time. Every method is proved to do exactly what `OverlaySpec` says. */
module OverlayRuntime {
  import opened Common
  import opened Rings
  import ExpiryQueue
  import opened OverlaySpec

  const REVISION_CAPACITY: nat := 400

  class Projection {
    const ring: Ring<Revision>
    var sequence: nat
    var latestById: map<string, Item>
    var visibleOrder: seq<string>
    var expiry: ExpiryQueue.Queue
    var closed: bool
    var settings: Settings
    var upstreamGap: bool

    ghost predicate Valid()
      reads this, ring, ring.items, expiry, expiry.h, expiry.entries
    {
      Logged() && expiry.Valid()
    }

    /** The log is numbered to the last number given out. */
    ghost predicate Logged()
      reads `sequence, ring, ring.items
    {
      ring.Valid() && Numbered(ring.log) && sequence == |ring.log|
    }

    ghost function Shown(): Shelf
      reads this, expiry
    {
      Shelf(visibleOrder, latestById, expiry.times)
    }

    ghost function State(): Overlay
      reads this, ring, expiry
    {
      Overlay(Shown(), settings, ring.log, closed, upstreamGap)
    }

    constructor ()
      ensures Valid() && State() == UNCONFIGURED
      ensures fresh(ring) && fresh(ring.items) && fresh(expiry) && fresh(expiry.entries)
    {
      ring := new Ring(REVISION_CAPACITY);
      sequence, latestById, visibleOrder := 0, map[], [];
      expiry := new ExpiryQueue.Queue();
      closed, settings, upstreamGap := false, Settings(0, 0), false;
    }

    // ----- the visible set -----

    method SetExpiry(item: Item)
      requires expiry.Valid()
      modifies expiry, expiry.entries
      ensures expiry.Valid() && fresh(expiry.entries - old(expiry.entries))
      ensures expiry.times == if settings.lifetimeSeconds > 0
              then old(expiry.times)[item.id := item.occurredAt + settings.lifetimeSeconds * SECOND]
              else old(expiry.times) - {item.id}
    {
      if settings.lifetimeSeconds > 0 {
        var lifetime := settings.lifetimeSeconds * SECOND;
        expiry.Schedule(item.id, item.occurredAt + lifetime);
      } else {
        expiry.Cancel(item.id);
      }
    }

    method EnterVisible(item: Item)
      modifies `visibleOrder, `latestById
      ensures visibleOrder == if item.id in old(latestById) then old(visibleOrder) else old(visibleOrder) + [item.id]
      ensures latestById == old(latestById)[item.id := item]
    {
      if item.id !in latestById {
        visibleOrder := visibleOrder + [item.id];
      }
      latestById := latestById[item.id := item];
    }

    method StoreVisible(item: Item)
      requires expiry.Valid()
      modifies `visibleOrder, `latestById, expiry, expiry.entries
      ensures expiry.Valid() && fresh(expiry.entries - old(expiry.entries))
      ensures Shown() == Put(old(Shown()), item, settings.lifetimeSeconds)
    {
      EnterVisible(item);
      SetExpiry(item);
    }

    method EvictOldest() returns (oldest: string)
      requires expiry.Valid() && visibleOrder != []
      modifies `visibleOrder, `latestById, expiry, expiry.entries
      ensures expiry.Valid() && expiry.entries <= old(expiry.entries) && oldest == old(visibleOrder)[0]
      ensures var s := old(Shown());
              Shown() == Shelf(s.order[1..], s.latest - {oldest}, s.expiry - {oldest})
    {
      oldest := visibleOrder[0];
      visibleOrder := visibleOrder[1..];
      latestById := latestById - {oldest};
      expiry.Cancel(oldest);
    }

    /** Makes item visible; returns the ids that had to leave to make room. */
    method UpsertVisible(item: Item) returns (evicted: seq<string>)
      requires expiry.Valid()
      modifies `visibleOrder, `latestById, expiry, expiry.entries
      ensures expiry.Valid() && fresh(expiry.entries - old(expiry.entries))
      ensures var put := Put(old(Shown()), item, settings.lifetimeSeconds);
              Shown() == EvictOver(put, Limit(settings)) && evicted == Evictees(put, Limit(settings))
    {
      StoreVisible(item);
      var maxVisible := settings.maxVisible;
      if maxVisible < 1 {
        maxVisible := 1;
      }
      evicted := MakeRoom(maxVisible);
    }

    method MakeRoom(maxVisible: nat) returns (evicted: seq<string>)
      requires expiry.Valid()
      modifies `visibleOrder, `latestById, expiry, expiry.entries
      ensures expiry.Valid() && expiry.entries <= old(expiry.entries)
      ensures Shown() == EvictOver(old(Shown()), maxVisible) && evicted == Evictees(old(Shown()), maxVisible)
    {
      evicted := [];
      while |visibleOrder| > maxVisible
        invariant expiry.Valid() && expiry.entries <= old(expiry.entries)
        invariant EvictOver(Shown(), maxVisible) == EvictOver(old(Shown()), maxVisible)
        invariant evicted + Evictees(Shown(), maxVisible) == Evictees(old(Shown()), maxVisible)
        decreases |visibleOrder|
      {
        EvictFirst(Shown(), maxVisible);
        var oldest := EvictOldest();
        Assoc(evicted, [oldest], Evictees(Shown(), maxVisible));
        evicted := evicted + [oldest];
      }
    }

    method RemoveVisible(id: string)
      requires expiry.Valid()
      modifies `visibleOrder, `latestById, expiry, expiry.entries
      ensures expiry.Valid() && expiry.entries <= old(expiry.entries)
      ensures Shown() == Drop(old(Shown()), id)
    {
      if id !in latestById { return; }
      latestById := latestById - {id};
      expiry.Cancel(id);
      visibleOrder := OrderWithout(id);
    }

    method OrderWithout(id: string) returns (order: seq<string>)
      ensures order == WithoutFirst(visibleOrder, id)
    {
      for i := 0 to |visibleOrder|
        invariant WithoutFirst(visibleOrder, id) == visibleOrder[..i] + WithoutFirst(visibleOrder[i..], id)
      {
        if visibleOrder[i] == id {
          assert visibleOrder[i..][1..] == visibleOrder[i + 1..];
          return visibleOrder[..i] + visibleOrder[i + 1..];
        }
        assert visibleOrder[i..] == [visibleOrder[i]] + visibleOrder[i + 1..];
        assert visibleOrder[..i + 1] == visibleOrder[..i] + [visibleOrder[i]];
      }
      assert visibleOrder[..|visibleOrder|] == visibleOrder;
      return visibleOrder;
    }

    method CurrentItemsLocked() returns (out: seq<Item>)
      ensures out == Items(visibleOrder, latestById)
    {
      out := [];
      for i := 0 to |visibleOrder|
        invariant out + Items(visibleOrder[i..], latestById) == Items(visibleOrder, latestById)
      {
        var id := visibleOrder[i];
        assert visibleOrder[i..][0] == id && visibleOrder[i..][1..] == visibleOrder[i + 1..];
        Assoc(out, if id in latestById then [latestById[id]] else [], Items(visibleOrder[i + 1..], latestById));
        if id in latestById {
          out := out + [latestById[id]];
        }
      }
    }

    // ----- the log -----

    /** Numbers a revision; it is retained later. */
    method Number(rev: Revision) returns (e: Entry<Revision>)
      modifies `sequence
      ensures sequence == old(sequence) + 1 && e == Entry(sequence, rev)
    {
      sequence := sequence + 1;
      return Entry(sequence, rev);
    }

    /** Numbers one removal for each id, after the revisions already numbered. */
    method NumberRemoves(numbered: seq<Entry<Revision>>, ids: seq<string>, reason: RemoveReason)
      returns (revs: seq<Entry<Revision>>)
      requires sequence == |ring.log| + |numbered|
      modifies `sequence
      ensures sequence == |ring.log| + |revs|
      ensures ring.log + revs == AppendRemoves(ring.log + numbered, ids, reason)
    {
      revs := numbered;
      for i := 0 to |ids|
        invariant sequence == |ring.log| + |revs|
        invariant AppendRemoves(ring.log + revs, ids[i..], reason) == AppendRemoves(ring.log + numbered, ids, reason)
      {
        var e := Number(Remove(ids[i], reason));
        assert ids[i..][0] == ids[i] && ids[i..][1..] == ids[i + 1..];
        Assoc(ring.log, revs, [e]);
        revs := revs + [e];
      }
    }

    method Retain(revs: seq<Entry<Revision>>)
      requires ring.Valid() && Numbered(ring.log + revs)
      modifies ring, ring.items
      ensures ring.Valid() && ring.log == old(ring.log) + revs && Numbered(ring.log)
    {
      for i := 0 to |revs|
        invariant ring.Valid() && ring.log == old(ring.log) + revs[..i]
      {
        assert revs[..i + 1] == revs[..i] + [revs[i]];
        Assoc(old(ring.log), revs[..i], [revs[i]]);
        ring.Push(revs[i]);
      }
      assert revs[..|revs|] == revs;
    }

    // ----- the locked steps -----

    /** Makes the item visible, not yet numbered. */
    method MakeVisible(item: Item) returns (evicted: seq<string>)
      requires expiry.Valid() && !closed
      modifies `visibleOrder, `latestById, expiry, expiry.entries
      ensures expiry.Valid() && fresh(expiry.entries - old(expiry.entries))
      ensures State() == Rebuild(old(State()), Visible(item))
      ensures evicted == Evictees(Put(old(Shown()), item.(sequence := 0), settings.lifetimeSeconds), Limit(settings))
    {
      evicted := UpsertVisible(item.(sequence := 0));
    }

    method ShowItem(item: Item, emit: bool)
      requires Valid() && !closed
      modifies `visibleOrder, `latestById, `sequence, ring, ring.items, expiry, expiry.entries
      ensures Valid() && fresh(expiry.entries - old(expiry.entries))
      ensures State() == if emit then ShowLive(old(State()), item) else Rebuild(old(State()), Visible(item))
    {
      var evicted := MakeVisible(item);
      if emit {
        AnnounceShown(item, evicted);
      }
    }

    /** Numbers and retains the upsert, stores the numbered item, and announces what left. */
    method AnnounceShown(item: Item, evicted: seq<string>)
      requires Logged()
      modifies `latestById, `sequence, ring, ring.items
      ensures Logged()
      ensures var o := old(State()); var numbered := item.(sequence := |o.log| + 1);
              State() == o.(shelf := o.shelf.(latest := o.shelf.latest[item.id := numbered]),
                            log := AppendRemoves(Append(o.log, Upsert(numbered)), evicted, CapacityEvicted))
    {
      var publicItem := item.(sequence := sequence + 1);
      var e := Number(Upsert(publicItem));
      latestById := latestById[item.id := publicItem];
      var revs := NumberRemoves([e], evicted, CapacityEvicted);
      RemovesStayNumbered(Append(ring.log, Upsert(publicItem)), evicted, CapacityEvicted);
      Retain(revs);
    }

    method HideItem(id: string, reason: RemoveReason, emit: bool)
      requires Valid() && !closed
      modifies `visibleOrder, `latestById, `sequence, ring, ring.items, expiry, expiry.entries
      ensures Valid() && fresh(expiry.entries - old(expiry.entries))
      ensures State() == if emit then HideLive(old(State()), id, reason) else Rebuild(old(State()), Hidden(id, reason))
    {
      var wasVisible := id in latestById;
      if wasVisible {
        RemoveVisible(id);
        if emit {
          AnnounceHidden(id, reason);
        }
      }
    }

    method AnnounceHidden(id: string, reason: RemoveReason)
      requires Logged()
      modifies `sequence, ring, ring.items
      ensures Logged() && ring.log == Append(old(ring.log), Remove(id, reason))
    {
      var e := Number(Remove(id, reason));
      ring.Push(e);
    }

    /** One upstream item: announced when live, silent during a rebuild. */
    method ApplyUpstreamItem(verdict: Verdict, emit: bool)
      requires Valid()
      modifies `visibleOrder, `latestById, `sequence, ring, ring.items, expiry, expiry.entries
      ensures Valid() && fresh(expiry.entries - old(expiry.entries))
      ensures State() == if emit then Live(old(State()), verdict) else Rebuild(old(State()), verdict)
    {
      if closed { return; }
      match verdict
      case Visible(item) => ShowItem(item, emit);
      case Hidden(id, reason) => HideItem(id, reason, emit);
    }

    method NotifyPresentationChanged()
      requires Valid()
      modifies `sequence, ring, ring.items
      ensures Valid() && State() == AnnouncePresentation(old(State()))
    {
      if closed { return; }
      var e := Number(PresentationChanged);
      ring.Push(e);
    }

    method Close()
      requires Valid()
      modifies `closed
      ensures Valid() && State() == old(State()).(closed := true)
    {
      closed := true;
    }

    // ----- configuration -----

    method StartOver(newSettings: Settings, gap: bool)
      requires Valid()
      modifies this
      ensures Valid() && State() == BeginConfigure(old(State()), newSettings, gap)
      ensures if closed then expiry == old(expiry) else fresh(expiry) && fresh(expiry.entries)
    {
      if closed { return; }
      settings, latestById, visibleOrder := newSettings, map[], [];
      expiry := new ExpiryQueue.Queue();
      upstreamGap := upstreamGap || gap;
    }

    method AnnounceReset()
      requires Valid()
      modifies `sequence, ring, ring.items
      ensures Valid() && State() == EndConfigure(old(State()))
    {
      if closed { return; }
      var visible := CurrentItemsLocked();
      var e := Number(Reset(visible));
      ring.Push(e);
    }

    /** Applies new settings and rebuilds the visible set from what upstream retains, under one reset. */
    method Configure(newSettings: Settings, gap: bool, retained: seq<Verdict>)
      requires Valid()
      modifies this, ring, ring.items
      ensures Valid()
      ensures State() == EndConfigure(RebuildAll(BeginConfigure(old(State()), newSettings, gap), retained))
      ensures if closed then expiry == old(expiry) else fresh(expiry) && fresh(expiry.entries)
    {
      StartOver(newSettings, gap);
      if closed {
        ClosedStays(State(), retained);
        return;
      }
      ghost var begun := State();
      for i := 0 to |retained|
        invariant Valid() && fresh(expiry) && fresh(expiry.entries)
        invariant RebuildAll(State(), retained[i..]) == RebuildAll(begun, retained) && !closed
      {
        assert retained[i..][0] == retained[i] && retained[i..][1..] == retained[i + 1..];
        ApplyUpstreamItem(retained[i], false);
      }
      AnnounceReset();
    }

    // ----- expiry -----

    /** Takes the due ids off and numbers a removal for each that was visible. */
    method RemoveDue(due: seq<string>) returns (revs: seq<Entry<Revision>>)
      requires Valid() && !closed
      modifies `visibleOrder, `latestById, `sequence, expiry, expiry.entries
      ensures expiry.Valid() && expiry.entries <= old(expiry.entries) && sequence == |ring.log| + |revs|
      ensures State().(log := ring.log + revs) == ExpireEach(old(State()), due)
    {
      revs := [];
      assert ring.log + revs == ring.log;
      for i := 0 to |due|
        invariant expiry.Valid() && expiry.entries <= old(expiry.entries) && sequence == |ring.log| + |revs|
        invariant ExpireEach(State().(log := ring.log + revs), due[i..]) == ExpireEach(old(State()), due)
      {
        assert due[i..][0] == due[i] && due[i..][1..] == due[i + 1..];
        revs := RemoveExpired(due[i], revs);
      }
    }

    /** Removes a due id that is still visible, and numbers its removal after the revisions already numbered. */
    method RemoveExpired(id: string, numbered: seq<Entry<Revision>>) returns (revs: seq<Entry<Revision>>)
      requires expiry.Valid() && sequence == |ring.log| + |numbered|
      modifies `visibleOrder, `latestById, `sequence, expiry, expiry.entries
      ensures expiry.Valid() && expiry.entries <= old(expiry.entries) && sequence == |ring.log| + |revs|
      ensures Shown() == Drop(old(Shown()), id)
      ensures ring.log + revs == if id in old(latestById) then Append(ring.log + numbered, Remove(id, Expired)) else ring.log + numbered
    {
      if id !in latestById { return numbered; }
      RemoveVisible(id);
      var e := Number(Remove(id, Expired));
      Assoc(ring.log, numbered, [e]);
      return numbered + [e];
    }

    /** Removes what is due and announces each removal. */
    method ExpireDue(due: seq<string>)
      requires Valid() && !closed
      modifies `visibleOrder, `latestById, `sequence, ring, ring.items, expiry, expiry.entries
      ensures Valid() && expiry.entries <= old(expiry.entries)
      ensures State() == ExpireEach(old(State()), due)
    {
      ExpiryStaysNumbered(State(), due);
      var revs := RemoveDue(due);
      Retain(revs);
    }

    /** The expiry timer fired at `now`. */
    method ProcessExpiry(now: int) returns (ghost due: seq<string>)
      requires Valid()
      modifies `visibleOrder, `latestById, `sequence, ring, ring.items, expiry, expiry.entries
      ensures Valid() && expiry.entries <= old(expiry.entries)
      ensures !closed ==> ExpiryQueue.DueBy(old(expiry.times), now, due)
      ensures State() == Expire(old(State()), due)
    {
      if closed { return []; }
      var ids := expiry.PopDue(now);
      ExpireDue(ids);
      return ids;
    }
  }

  function RebuildAll(o: Overlay, verdicts: seq<Verdict>): Overlay
    decreases verdicts
  {
    if verdicts == [] then o else RebuildAll(Rebuild(o, verdicts[0]), verdicts[1..])
  }

  lemma {:induction false} ClosedStays(o: Overlay, verdicts: seq<Verdict>)
    requires o.closed
    ensures RebuildAll(o, verdicts) == o
    decreases verdicts
  {
    if verdicts != [] { ClosedStays(o, verdicts[1..]); }
  }

  lemma {:induction false} RemovesStayNumbered(log: Log, ids: seq<string>, reason: RemoveReason)
    requires Numbered(log)
    ensures Numbered(AppendRemoves(log, ids, reason))
    decreases ids
  {
    if ids != [] { RemovesStayNumbered(Append(log, Remove(ids[0], reason)), ids[1..], reason); }
  }

  lemma {:induction false} ExpiryStaysNumbered(o: Overlay, due: seq<string>)
    requires Numbered(o.log)
    ensures Numbered(ExpireEach(o, due).log)
    decreases due
  {
    if due != [] {
      if due[0] in o.shelf.latest {
        ExpiryStaysNumbered(o.(shelf := Drop(o.shelf, due[0]), log := Append(o.log, Remove(due[0], Expired))), due[1..]);
      } else {
        ExpiryStaysNumbered(o, due[1..]);
      }
    }
  }

  lemma EvictFirst(s: Shelf, limit: nat)
    requires |s.order| > limit
    ensures var one := Shelf(s.order[1..], s.latest - {s.order[0]}, s.expiry - {s.order[0]});
            EvictOver(s, limit) == EvictOver(one, limit) && Evictees(s, limit) == [s.order[0]] + Evictees(one, limit)
  {
  }
}
