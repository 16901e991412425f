/** What every step of the audio runtime keeps: the record is lawful, the counters match it, no id is used twice,
and audio belongs to the item it was made for. */
module AudioLaws {
  import opened Common
  import opened AudioSpec
  import opened AudioTrace

  // `hand` is an item taken from somewhere and not yet put anywhere.

  function HandCount(hand: Option<Item>, id: nat): nat {
    if hand.Some? then ChainCount(hand.value, id) else 0
  }

  function CurrentTail(r: Runtime, id: nat): nat {
    if r.current.Some? then TailCount(r.current.value.item, id) else 0
  }

  /** How often an id can still be promoted, or was. */
  function Alive(r: Runtime, hand: Option<Item>, id: nat): nat {
    CountIn(r.ready, id) + CountIn(r.pending, id) + HandCount(hand, id) + CurrentTail(r, id) + PromotedCount(r.trace, id)
  }

  /** The record is lawful and agrees with what is current. */
  ghost predicate Told(r: Runtime, hand: Option<Item>) {
    && Lawful(r.trace) && Open(r.trace) == (if r.current.Some? then Some(r.current.value.item) else None)
    && (Due(r.trace).Some? ==> Due(r.trace) == hand)
    && (Due(r.trace).None? && hand.Some? ==> Offered(hand.value) in r.trace)
  }

  /** Every counter counts its endings. */
  predicate Tallied(r: Runtime) {
    && r.totals.played == EndedBy(r.trace, Played)
    && r.totals.playbackFailed == EndedBy(r.trace, PlaybackFailed)
    && r.totals.synthesisFailed == EndedBy(r.trace, SynthesisFailed)
    && r.totals.interrupted == EndedBy(r.trace, Interrupted)
    && r.totals.interruptedByAlert == EndedBy(r.trace, InterruptedByAlert)
    && r.counters.skipped == EndedBy(r.trace, Skipped)
  }

  /** No id is offered twice, and none is used more often than offered. */
  ghost predicate Sole(r: Runtime, hand: Option<Item>) {
    forall id: nat ::
      Alive(r, hand, id) <= OfferedCount(r.trace, id) && OfferedCount(r.trace, id) <= (if id < r.nextId then 1 else 0)
  }

  ghost predicate Listed(r: Runtime) {
    forall x | x in r.ready || x in r.pending :: Offered(x) in r.trace
  }

  /** A synthesis is in flight for every current item without audio; audio is of the item it is attached to. */
  ghost predicate Matched(r: Runtime) {
    && (forall x | x in r.inFlight :: Promoted(x) in r.trace)
    && (r.current.Some? ==>
          var c := r.current.value;
          && (c.audio.None? <==> c.item in r.inFlight)
          && (c.audio.Some? ==> c.audio.value.of == c.item)
          && (c.audio.None? ==> c.token == ""))
  }

  /** What followed an item that was cut off can never be promoted. */
  ghost predicate CutOff(r: Runtime, hand: Option<Item>) {
    forall e | e in r.trace && Cut(e) :: Alive(r, hand, NextOf(e.item).value.id) == 0
  }

  predicate Cut(e: Event) {
    e.Ended? && !Natural(e.how) && NextOf(e.item).Some?
  }

  ghost predicate Sound(r: Runtime, hand: Option<Item>) {
    Told(r, hand) && Tallied(r) && Sole(r, hand) && Listed(r) && Matched(r) && CutOff(r, hand)
  }

  // ----- counting -----

  lemma {:induction false} CountAppend(items: seq<Item>, x: Item, id: nat)
    ensures CountIn(items + [x], id) == CountIn(items, id) + ChainCount(x, id)
  {
    if items == [] {
      assert CountIn([x][1..], id) == 0;
    } else {
      CountAppend(items[1..], x, id);
      ConsAppend(items, [x]);
    }
  }

  lemma {:induction false} CountRemoveAt(items: seq<Item>, i: nat, id: nat)
    requires i < |items|
    ensures CountIn(items, id) == CountIn(RemoveAt(items, i), id) + ChainCount(items[i], id)
  {
    if i == 0 {
      assert RemoveAt(items, 0) == items[1..];
    } else {
      CountRemoveAt(items[1..], i - 1, id);
      assert RemoveAt(items, i)[0] == items[0];
      assert RemoveAt(items, i)[1..] == RemoveAt(items[1..], i - 1);
    }
  }

  lemma {:induction false} CountKept(items: seq<Item>, now: int, id: nat)
    ensures CountIn(Kept(items, now), id) <= CountIn(items, id)
  {
    if items != [] {
      CountKept(items[1..], now, id);
      assert Kept(items, now) == if Expired(items[0], now) then Kept(items[1..], now) else [items[0]] + Kept(items[1..], now);
    }
  }

  lemma {:induction false} KeptAreItems(items: seq<Item>, now: int, x: Item)
    requires x in Kept(items, now)
    ensures x in items
  {
    if x != items[0] { KeptAreItems(items[1..], now, x); }
  }

  lemma {:induction false} CountUnlinked(items: seq<Item>, instance: string, id: nat)
    ensures CountIn(Unlinked(items, instance), id) <= CountIn(items, id)
  {
    if items != [] {
      CountUnlinked(items[1..], instance, id);
      var rest := Unlinked(items[1..], instance);
      assert Unlinked(items, instance) == if LinkedTo(items[0], instance) then rest else [items[0]] + rest;
    }
  }

  lemma {:induction false} UnlinkedAreItems(items: seq<Item>, instance: string, x: Item)
    requires x in Unlinked(items, instance)
    ensures x in items && !LinkedTo(x, instance)
  {
    if items != [] {
      if x != items[0] || LinkedTo(items[0], instance) { UnlinkedAreItems(items[1..], instance, x); }
    }
  }

  lemma {:induction false} CountDrop(items: seq<Item>, n: nat, id: nat)
    requires n <= |items|
    ensures CountIn(items[n..], id) <= CountIn(items, id)
  {
    if n > 0 {
      CountDrop(items[1..], n - 1, id);
      assert items[1..][n - 1..] == items[n..];
    }
  }

  // ----- the elementary changes -----

  ghost predicate SameItem(a: Option<Current>, b: Option<Current>) {
    a.Some? == b.Some? && (a.Some? ==> a.value.item == b.value.item)
  }

  ghost predicate Holds(r: Runtime, hand: Option<Item>, x: Item) {
    x in r.ready || x in r.pending || hand == Some(x)
  }

  function Waiting(r: Runtime, hand: Option<Item>, id: nat): nat {
    CountIn(r.ready, id) + CountIn(r.pending, id) + HandCount(hand, id)
  }

  /** Moving, dropping or reshaping what is queued, with the record unchanged. */
  lemma {:induction false} Transfer(r: Runtime, hand: Option<Item>, s: Runtime, after: Option<Item>)
    requires Sound(r, hand) && Due(r.trace).None? && Matched(s)
    requires s.trace == r.trace && s.totals == r.totals && s.counters.skipped == r.counters.skipped
    requires s.nextId >= r.nextId && SameItem(r.current, s.current)
    requires forall x | Holds(s, after, x) :: Holds(r, hand, x)
    requires forall id: nat :: Waiting(s, after, id) <= Waiting(r, hand, id)
    ensures Sound(s, after)
  {
    forall id: nat
      ensures Alive(s, after, id) <= Alive(r, hand, id)
    {
      assert Waiting(s, after, id) <= Waiting(r, hand, id);
    }
    if after.Some? { assert Holds(s, after, after.value); }
    forall x | x in s.ready || x in s.pending ensures Offered(x) in s.trace {
      assert Holds(s, after, x);
    }
  }

  /** The chain's ids lie in a range, and do not repeat. */
  ghost predicate DrawsFrom(item: Item, from: nat, to: nat) {
    forall id: nat :: ChainCount(item, id) <= (if from <= id < to then 1 else 0)
  }

  lemma OfferAdds(r: Runtime, s: Runtime, item: Item, id: nat)
    requires s.trace == r.trace + [Offered(item)]
    requires s.ready == r.ready && s.pending == r.pending && s.current == r.current
    ensures Alive(s, Some(item), id) == Alive(r, None, id) + ChainCount(item, id)
    ensures OfferedCount(s.trace, id) == OfferedCount(r.trace, id) + ChainCount(item, id)
  {
    assert s.trace[..|r.trace|] == r.trace;
  }

  lemma {:induction false} OfferStaysSole(r: Runtime, item: Item, nextId: nat, s: Runtime)
    requires Sole(r, None) && nextId >= r.nextId && DrawsFrom(item, r.nextId, nextId)
    requires s == Note(r.(nextId := nextId), Offered(item))
    ensures Sole(s, Some(item))
  {
    forall id: nat
      ensures Alive(s, Some(item), id) <= OfferedCount(s.trace, id) && OfferedCount(s.trace, id) <= (if id < s.nextId then 1 else 0)
    {
      OfferAdds(r, s, item, id);
      assert Alive(r, None, id) <= OfferedCount(r.trace, id) && OfferedCount(r.trace, id) <= (if id < r.nextId then 1 else 0);
      assert ChainCount(item, id) <= (if r.nextId <= id < nextId then 1 else 0);
    }
  }

  lemma {:induction false} OfferCutsOff(r: Runtime, item: Item, nextId: nat, s: Runtime)
    requires Sound(r, None) && DrawsFrom(item, r.nextId, nextId)
    requires s == Note(r.(nextId := nextId), Offered(item))
    ensures CutOff(s, Some(item))
  {
    forall e | e in s.trace && Cut(e) ensures Alive(s, Some(item), NextOf(e.item).value.id) == 0 {
      var id := NextOf(e.item).value.id;
      assert e in r.trace;
      CutWasOffered(r, e);
      OfferAdds(r, s, item, id);
      assert ChainCount(item, id) == 0;
    }
  }

  /** A new chain with ids from the supply is offered. */
  lemma {:induction false} OfferKeeps(r: Runtime, item: Item, nextId: nat)
    requires Sound(r, None) && nextId >= r.nextId
    requires DrawsFrom(item, r.nextId, nextId)
    ensures Sound(Note(r.(nextId := nextId), Offered(item)), Some(item))
  {
    var s := Note(r.(nextId := nextId), Offered(item));
    OfferStaysSole(r, item, nextId, s);
    OfferCutsOff(r, item, nextId, s);
  }

  /** What follows a cut-off item has an id already drawn. */
  lemma {:induction false} CutWasOffered(r: Runtime, e: Event)
    requires Sound(r, None) && e in r.trace && Cut(e)
    ensures NextOf(e.item).value.id < r.nextId
  {
    var z := NextOf(e.item).value;
    EndedWasPromoted(r.trace, e);
    var first := PromotedWasOffered(r.trace, e.item);
    InChainStep(first, e.item, z);
    InTailCounts(first, z);
    OfferCounts(r.trace, first, z.id);
    assert OfferedCount(r.trace, z.id) <= (if z.id < r.nextId then 1 else 0);
  }

  lemma {:induction false} EndedWasPromoted(trace: Trace, e: Event)
    requires Lawful(trace) && e in trace && e.Ended?
    ensures Promoted(e.item) in trace
  {
    var p, last := trace[..|trace| - 1], trace[|trace| - 1];
    assert trace == p + [last];
    if e == last { OpenWasPromoted(p); } else { EndedWasPromoted(p, e); }
  }

  /** The item in hand becomes current. */
  lemma {:induction false} PromoteKeeps(r: Runtime, item: Item)
    requires Sound(r, Some(item)) && r.current.None?
    ensures Sound(Promote(r, item), None)
  {
    var s := Promote(r, item);
    forall id: nat
      ensures Alive(s, None, id) == Alive(r, Some(item), id) && OfferedCount(s.trace, id) == OfferedCount(r.trace, id)
    {
    }
    forall id: nat
      ensures Alive(s, None, id) <= OfferedCount(s.trace, id) && OfferedCount(s.trace, id) <= (if id < s.nextId then 1 else 0)
    {
      assert Alive(r, Some(item), id) <= OfferedCount(r.trace, id) && OfferedCount(r.trace, id) <= (if id < r.nextId then 1 else 0);
    }
    forall e1 | e1 in s.trace && Cut(e1) ensures Alive(s, None, NextOf(e1.item).value.id) == 0 { assert e1 in r.trace; }
  }

  function Follower(item: Item, how: Ending): Option<Item> {
    if Natural(how) then NextOf(item) else None
  }

  /** The current item ends; if by itself, its next link comes to hand, else that link is lost for good. */
  lemma EndCounts(r: Runtime, how: Ending, id: nat)
    requires r.current.Some?
    ensures Alive(End(r, how), Follower(r.current.value.item, how), id)
         == Alive(r, None, id) - (if Natural(how) then 0 else TailCount(r.current.value.item, id))
    ensures OfferedCount(End(r, how).trace, id) == OfferedCount(r.trace, id)
  {
    EndedAt(r, End(r, how), how, id);
  }

  lemma EndedAt(r: Runtime, s: Runtime, how: Ending, id: nat)
    requires r.current.Some? && s.current.None? && s.ready == r.ready && s.pending == r.pending
    requires s.trace == r.trace + [Ended(r.current.value.item, how)]
    ensures Alive(s, Follower(r.current.value.item, how), id)
         == Alive(r, None, id) - (if Natural(how) then 0 else TailCount(r.current.value.item, id))
    ensures OfferedCount(s.trace, id) == OfferedCount(r.trace, id)
  {
    assert s.trace[..|r.trace|] == r.trace;
  }

  lemma {:induction false} EndStaysSole(r: Runtime, how: Ending)
    requires Sole(r, None) && r.current.Some?
    ensures Sole(End(r, how), Follower(r.current.value.item, how))
  {
    var s, after := End(r, how), Follower(r.current.value.item, how);
    forall id: nat
      ensures Alive(s, after, id) <= OfferedCount(s.trace, id) && OfferedCount(s.trace, id) <= (if id < s.nextId then 1 else 0)
    {
      EndCounts(r, how, id);
      assert Alive(r, None, id) <= OfferedCount(r.trace, id) && OfferedCount(r.trace, id) <= (if id < r.nextId then 1 else 0);
    }
  }

  lemma {:induction false} EndCutsOff(r: Runtime, how: Ending)
    requires Sole(r, None) && CutOff(r, None) && r.current.Some?
    ensures CutOff(End(r, how), Follower(r.current.value.item, how))
  {
    var item := r.current.value.item;
    var s, after := End(r, how), Follower(item, how);
    forall e1 | e1 in s.trace && Cut(e1) ensures Alive(s, after, NextOf(e1.item).value.id) == 0 {
      var id := NextOf(e1.item).value.id;
      EndCounts(r, how, id);
      if e1 !in r.trace {
        assert Alive(r, None, id) <= 1 && TailCount(item, id) >= 1;
      }
    }
  }

  lemma {:induction false} EndKeeps(r: Runtime, how: Ending)
    requires Sound(r, None) && r.current.Some?
    ensures Sound(End(r, how), Follower(r.current.value.item, how))
  {
    EndStaysSole(r, how);
    EndCutsOff(r, how);
  }

  // ----- the steps -----

  lemma {:induction false} AcceptKeeps(r: Runtime, item: Item, manual: bool)
    requires Sound(r, Some(item)) && Due(r.trace).None?
    ensures Sound(Accept(r, item, manual), None)
  {
    var s := Accept(r, item, manual);
    forall id: nat ensures Waiting(s, None, id) <= Waiting(r, Some(item), id) {
      CountAppend(r.ready, item, id);
      CountAppend(r.pending, item, id);
    }
    Transfer(r, Some(item), s, None);
  }

  lemma {:induction false} FinishKeeps(r: Runtime, how: Ending, outcome: AlertState)
    requires Sound(r, None) && r.current.Some? && Natural(how)
    ensures Sound(Finish(r, how, outcome), None)
  {
    var item := r.current.value.item;
    EndKeeps(r, how);
    if NextOf(item).Some? {
      PromoteKeeps(End(r, how), NextOf(item).value);
    } else {
    }
  }

  lemma {:induction false} AbortKeeps(r: Runtime, how: Ending)
    requires Sound(r, None) && r.current.Some? && !Natural(how)
    ensures Sound(Abort(r, how), None)
  {
    EndKeeps(r, how);
  }

  lemma {:induction false} DiscardKeeps(r: Runtime, now: int)
    requires Sound(r, None)
    ensures Sound(DiscardExpired(r, now), None)
  {
    var s := DiscardExpired(r, now);
    forall id: nat ensures Waiting(s, None, id) <= Waiting(r, None, id) { CountKept(r.ready, now, id); }
    forall x | Holds(s, None, x) ensures Holds(r, None, x) {
      if x in s.ready { KeptAreItems(r.ready, now, x); }
    }
    Transfer(r, None, s, None);
  }

  lemma {:induction false} SkipExpiredKeeps(r: Runtime, now: int)
    requires Sound(r, None)
    ensures Sound(SkipExpired(r, now), None)
  {
    var s := SkipExpired(r, now);
    forall id: nat ensures Waiting(s, None, id) <= Waiting(r, None, id) { CountDrop(r.ready, ExpiredAhead(r.ready, now), id); }
    Transfer(r, None, s, None);
  }

  lemma {:induction false} TickKeeps(r: Runtime, now: int)
    requires Sound(r, None)
    ensures Sound(Tick(r, now), None)
  {
    var d := DiscardExpired(r, now);
    DiscardKeeps(r, now);
    if d.current.None? && d.renderer.Some? {
      var s := SkipExpired(d, now);
      SkipExpiredKeeps(d, now);
      if s.ready != [] {
        PromoteKeeps(s.(ready := s.ready[1..]), s.ready[0]);
      }
    }
  }

  lemma {:induction false} SubmitKeeps(r: Runtime, content: string, synthetic: bool, manual: bool, expiresAt: int)
    requires Sound(r, None)
    ensures Sound(Submit(r, content, synthetic, manual, expiresAt), None)
  {
    OfferOneKeeps(r, Item(r.nextId, GlobalTts, content, synthetic, Some(expiresAt), None), manual,
                  Submit(r, content, synthetic, manual, expiresAt));
  }

  lemma {:induction false} OfferOneKeeps(r: Runtime, item: Item, manual: bool, t: Runtime)
    requires Sound(r, None) && DrawsFrom(item, r.nextId, r.nextId + 1) && t == OfferOne(r, item, manual)
    ensures Sound(t, None)
  {
    var s := Note(r.(nextId := r.nextId + 1), Offered(item));
    OfferKeeps(r, item, r.nextId + 1);
    OfferedAcceptKeeps(s, item, manual, t);
  }

  lemma {:induction false} OfferedAcceptKeeps(s: Runtime, item: Item, manual: bool, t: Runtime)
    requires Sound(s, Some(item)) && s.trace != [] && s.trace[|s.trace| - 1] == Offered(item)
    requires t == Accept(s, item, manual)
    ensures Sound(t, None)
  {
    AcceptKeeps(s, item, manual);
  }

  lemma {:induction false} OfferAndPlaceKeeps(r: Runtime, item: Item, nextId: nat, instance: string, t: Runtime)
    requires Sound(r, None) && nextId >= r.nextId && DrawsFrom(item, r.nextId, nextId)
    requires t == Place(Note(r.(nextId := nextId), Offered(item)), item, instance)
    ensures Sound(t, None)
  {
    OfferKeeps(r, item, nextId);
    PlaceKeeps(Note(r.(nextId := nextId), Offered(item)), item, instance, t);
  }

  lemma {:induction false} ChainIds(requests: seq<Request>, firstId: nat, instance: string, id: nat)
    requires requests != []
    ensures ChainCount(Chain(requests, firstId, instance), id) == if firstId <= id < firstId + |requests| then 1 else 0
    decreases |requests|
  {
    if |requests| > 1 { ChainIds(requests[1..], firstId + 1, instance, id); }
  }

  lemma {:induction false} ChainDraws(requests: seq<Request>, firstId: nat, instance: string)
    requires requests != []
    ensures DrawsFrom(Chain(requests, firstId, instance), firstId, firstId + |requests|)
  {
    var first := Chain(requests, firstId, instance);
    forall id: nat ensures ChainCount(first, id) <= (if firstId <= id < firstId + |requests| then 1 else 0) {
      ChainIds(requests, firstId, instance, id);
    }
  }

  lemma {:induction false} PreemptKeeps(r: Runtime)
    requires Sound(r, None)
    ensures Sound(Preempt(r), None) && Preempt(r).nextId == r.nextId
  {
    if r.current.Some? && r.current.value.item.source == GlobalTts { EndKeeps(r, InterruptedByAlert); }
  }

  lemma {:induction false} PlaceKeeps(r: Runtime, first: Item, instance: string, t: Runtime)
    requires Sound(r, Some(first)) && Due(r.trace).None? && t == Place(r, first, instance)
    ensures Sound(t, None)
  {
    if r.current.None? {
      PromoteKeeps(r, first);
    } else {
      AcceptKeeps(r, first, false);
    }
  }

  lemma {:induction false} DrawKeeps(r: Runtime, ids: nat, t: Runtime)
    requires Sound(r, None) && t == r.(nextId := r.nextId + ids)
    ensures Sound(t, None)
  {
    forall id: nat ensures Waiting(t, None, id) <= Waiting(r, None, id) { }
    Transfer(r, None, t, None);
  }

  lemma {:induction false} PlayChainKeeps(r: Runtime, instance: string, requests: seq<Request>, t: Runtime)
    requires Sound(r, None) && requests != []
    requires var first := Chain(requests, r.nextId, instance);
             t == Place(Note(Preempt(r).(nextId := r.nextId + |requests|), Offered(first)), first, instance)
    ensures Sound(t, None)
  {
    PreemptKeeps(r);
    ChainDraws(requests, r.nextId, instance);
    OfferAndPlaceKeeps(Preempt(r), Chain(requests, r.nextId, instance), r.nextId + |requests|, instance, t);
  }

  lemma {:induction false} EnqueueAlertKeeps(r: Runtime, instance: string, requests: seq<Request>, ids: nat, t: Runtime)
    requires Sound(r, None) && t == EnqueueAlert(r, instance, requests, ids)
    ensures Sound(t, None)
  {
    if requests != [] {
      if ids < |requests| {
        DrawKeeps(r, ids, t);
      } else {
        PlayChainKeeps(r, instance, requests, t);
      }
    }
  }

  lemma {:induction false} UnlinkKeeps(r: Runtime, s: Runtime, instance: string)
    requires Sound(r, None)
    requires s == r.(ready := Unlinked(r.ready, instance), pending := Unlinked(r.pending, instance), outcomes := s.outcomes)
    ensures Sound(s, None)
  {
    forall id: nat ensures Waiting(s, None, id) <= Waiting(r, None, id) {
      CountUnlinked(r.ready, instance, id);
      CountUnlinked(r.pending, instance, id);
    }
    forall x | Holds(s, None, x) ensures Holds(r, None, x) {
      if x in s.ready { UnlinkedAreItems(r.ready, instance, x); } else { UnlinkedAreItems(r.pending, instance, x); }
    }
    Transfer(r, None, s, None);
  }

  lemma {:induction false} CancelAlertKeeps(r: Runtime, instance: string)
    requires Sound(r, None)
    ensures Sound(CancelAlert(r, instance), None)
  {
    var c := if r.current.Some? && LinkedTo(r.current.value.item, instance) then End(r, Cancelled) else r;
    if r.current.Some? { EndKeeps(r, Cancelled); }
    UnlinkKeeps(c, CancelAlert(r, instance), instance);
  }

  /** Both were promoted under one id, so they are the same item. */
  lemma {:induction false} SameIdSameItem(r: Runtime, a: Item, b: Item)
    requires Sole(r, None) && Promoted(a) in r.trace && Promoted(b) in r.trace && a.id == b.id
    ensures a == b
  {
    if a != b {
      assert Alive(r, None, a.id) <= OfferedCount(r.trace, a.id) && OfferedCount(r.trace, a.id) <= (if a.id < r.nextId then 1 else 0);
      TwoPromotionsCount(r.trace, a, b);
    }
  }

  lemma {:induction false} ResultIsForCurrent(r: Runtime, item: Item)
    requires Sound(r, None) && item in r.inFlight && IsCurrent(r, item.id)
    ensures item == r.current.value.item && r.current.value.audio.None?
  {
    OpenWasPromoted(r.trace);
    SameIdSameItem(r, item, r.current.value.item);
  }

  lemma {:induction false} SynthesizedKeeps(r: Runtime, item: Item, bytes: Option<string>, token: Option<string>)
    requires Sound(r, None)
    ensures Sound(Synthesized(r, item, bytes, token), None)
  {
    if item in r.inFlight {
      var s := r.(inFlight := r.inFlight - {item}, handle := None);
      if !IsCurrent(s, item.id) {
      } else {
        ResultIsForCurrent(r, item);
        if Usable(s, bytes, token) {
        } else {
          FailedKeeps(r, item, Finish(s, SynthesisFailed, HasFailed));
        }
      }
    }
  }

  lemma {:induction false} FailedKeeps(r: Runtime, item: Item, t: Runtime)
    requires Sound(r, None) && item in r.inFlight && r.current.Some? && r.current.value.item == item
    requires t == Finish(r.(inFlight := r.inFlight - {item}, handle := None), SynthesisFailed, HasFailed)
    ensures Sound(t, None)
  {
    var e := End(r, SynthesisFailed);
    var f := e.(inFlight := r.inFlight - {item}, handle := None);
    EndKeeps(r, SynthesisFailed);
    forall id: nat ensures Alive(f, NextOf(item), id) <= Alive(e, NextOf(item), id) { }

    assert f == End(r.(inFlight := r.inFlight - {item}, handle := None), SynthesisFailed);
    if NextOf(item).Some? {
      PromoteKeeps(f, NextOf(item).value);
    } else {
    }
  }

  lemma {:induction false} ApproveKeeps(r: Runtime, id: nat)
    requires Sound(r, None)
    ensures Sound(Approve(r, id), None) && Sound(Reject(r, id), None)
  {
    var i := IndexOf(r.pending, id);
    if i < |r.pending| {
      var s, t := Approve(r, id), Reject(r, id);
      forall k: nat ensures Waiting(s, None, k) <= Waiting(r, None, k) && Waiting(t, None, k) <= Waiting(r, None, k) {
        CountRemoveAt(r.pending, i, k);
        CountAppend(r.ready, r.pending[i], k);
      }
      Transfer(r, None, s, None);
      Transfer(r, None, t, None);
    }
  }

  lemma {:induction false} DisconnectKeeps(r: Runtime, token: string)
    requires Sound(r, None)
    ensures Sound(Disconnect(r, token), None)
  {
    var d := Note(r.(renderer := None), RendererLost);
    if r.renderer == Some(token) && d.current.Some? && d.current.value.playback == Playing { AbortKeeps(d, Interrupted); }
  }

  lemma {:induction false} AcknowledgeKeeps(r: Runtime, token: string, id: nat, kind: AckKind)
    requires Sound(r, None)
    ensures Sound(Acknowledge(r, token, id, kind), None)
  {
    if Acceptable(r, token, id, kind) {
      match kind
      case AckStarted =>
      case AckEnded => FinishKeeps(r, Played, HasEnded);
      case AckFailed => FinishKeeps(r, PlaybackFailed, HasFailed);
    }
  }

  lemma {:induction false} ClearKeeps(r: Runtime)
    requires Sound(r, None)
    ensures Sound(ClearQueue(r), None)
  {
    Transfer(r, None, ClearQueue(r), None);
  }

  lemma {:induction false} ConnectKeeps(r: Runtime, token: string)
    requires Sound(r, None)
    ensures Sound(Connect(r, token), None)
  {
    assert forall id: nat :: Alive(Connect(r, token), None, id) == Alive(r, None, id);
  }

  lemma {:induction false} ReadKeeps(r: Runtime, instance: string, capacity: int)
    requires Sound(r, None)
    ensures Sound(ReadState(r, instance), None) && Sound(r.(capacity := capacity), None)
  {
    assert forall id: nat :: Alive(ReadState(r, instance), None, id) == Alive(r, None, id);
    assert forall id: nat :: Alive(r.(capacity := capacity), None, id) == Alive(r, None, id);
  }

  lemma {:induction false} StepKeeps(r: Runtime, a: Action)
    requires Sound(r, None)
    ensures Sound(Step(r, a), None)
  {
    match a
    case DoTick(now) => TickKeeps(r, now);
    case DoSubmit(content, synthetic, manual, expiresAt) => SubmitKeeps(r, content, synthetic, manual, expiresAt);
    case DoEnqueueAlert(instance, requests, ids) => EnqueueAlertKeeps(r, instance, requests, ids, Step(r, a));
    case DoCancelAlert(instance) => CancelAlertKeeps(r, instance);
    case DoSynthesized(item, bytes, token) => SynthesizedKeeps(r, item, bytes, token);
    case DoSkip => if r.current.Some? { AbortKeeps(r, Skipped); }
    case DoApprove(id) => ApproveKeeps(r, id);
    case DoReject(id) => ApproveKeeps(r, id);
    case DoDisconnect(token) => DisconnectKeeps(r, token);
    case DoAck(token, id, kind) => AcknowledgeKeeps(r, token, id, kind);
    case DoClear => ClearKeeps(r);
    case DoConnect(token) => ConnectKeeps(r, token);
    case DoSetCapacity(capacity) => ReadKeeps(r, "", capacity);
    case DoReadState(instance) => ReadKeeps(r, instance, 0);
  }

  lemma {:induction false} RunIsSound(capacity: int, maxBytes: int, actions: seq<Action>)
    ensures Sound(Run(capacity, maxBytes, actions), None)
  {
    if actions != [] {
      RunIsSound(capacity, maxBytes, actions[..|actions| - 1]);
      StepKeeps(Run(capacity, maxBytes, actions[..|actions| - 1]), actions[|actions| - 1]);
    }
  }
}
