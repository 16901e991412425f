/** The engagement event bus: a ring, a dedupe set and the registered subscribers, changed step by step.

Every atomic section of the bus is one step of `HubSpec`; `run` records the steps taken, so what is
proved about all runs there holds of this class. */
module EventBus {
  import opened Common
  import opened Rings
  import opened HubSpec
  import opened HubOnce
  import opened HubOrder
  import opened Dedupe
  import opened EventDrops

  datatype Event = Event(id: string, key: string, receivedAt: int, body: string)

  datatype Refusal = Invalid | Closed | NoId

  /** What became of one publish: refused with an error, dropped as a duplicate, or numbered and retained. */
  datatype Outcome = Refused(why: Refusal) | Duplicate | Published(entry: Entry<Event>, snapshot: seq<nat>)

  const MAX_SUBSCRIBER_CHANNEL: nat := 2048

  /** The events of a log, each as its key and when it was published. */
  function StampsOf(log: seq<Entry<Event>>): seq<Stamp> {
    if log == [] then []
    else var last := log[|log| - 1].payload; StampsOf(log[..|log| - 1]) + [Stamp(last.key, last.receivedAt)]
  }

  lemma StampsAppend(log: seq<Entry<Event>>, e: Entry<Event>)
    ensures StampsOf(log + [e]) == StampsOf(log) + [Stamp(e.payload.key, e.payload.receivedAt)]
  {
    assert (log + [e])[..|log|] == log;
  }

  /** The steps of one publish that is not interrupted: the commit, then its deliveries. */
  function PublishSteps<T>(ops: nat, payload: T, snapshot: seq<nat>): seq<Step<T>> {
    [Commit(payload, snapshot)] + seq(|snapshot|, _ => Deliver(ops))
  }

  /** The steps of one subscribe that is not interrupted: the registration, then n replay deliveries. */
  function SubscribeSteps<T>(ops: nat, after: nat, n: nat): seq<Step<T>> {
    [Register(after)] + seq(n, _ => Deliver(ops))
  }

  class Bus {
    const capacity: nat
    const channel: nat
    const ring: Ring<Event>
    const dedupe: DedupeSet
    var sequence: nat
    var subs: map<nat, Sub<Event>>
    var nextSub: nat
    var closed: bool
    /** The deliveries every started call still has to make, and every step taken so far. */
    ghost var ops: seq<seq<Delivery<Event>>>
    ghost var run: seq<Step<Event>>

    ghost predicate Valid()
      reads this, ring, ring.items, dedupe
    {
      && ring.Valid() && dedupe.Valid() && ring.capacity == capacity
      && sequence == |ring.log|
      && State() == Exec(Empty(capacity, channel), run)
    }

    /** No call has deliveries left, and so far no two calls have overlapped. */
    ghost predicate Uninterrupted()
      reads this, ring
    {
      Quiet(State()) && Serial(Empty(capacity, channel), run)
    }

    ghost function State(): Hub<Event>
      reads this, ring
    {
      Hub(ring.log, capacity, channel, subs, nextSub, ops, closed)
    }

    /** The keys accepted and the events of the log, as keys with times, are what these publishes lead to. */
    ghost predicate After(attempts: seq<Attempt>)
      reads ring, dedupe
    {
      && Leads(Remembers(), attempts, dedupe.accepted, StampsOf(ring.log), dedupe.clock)
      && (dedupe.accepted == [] ==> attempts == [])
    }

    ghost function Remembers(): Bounds {
      Bounds(dedupe.capacity, dedupe.ttl)
    }

    /** After any publishes: an event is dropped iff an event with its key was published less than ttl ago and is among
        the last accepted, or, never both, a publish of the key could not draw its id so recently. If every publish drew
        its id, that is an event with its key among the last of the log, younger than ttl. */
    lemma DropsIff(attempts: seq<Attempt>, key: string, now: int)
      requires After(attempts) && dedupe.NotBefore(now)
      ensures var b := TryAll(Remembers(), attempts);
              && (Remembered(dedupe.accepted, dedupe.capacity, dedupe.ttl, key, now)
                  <==> RecentEvent(b, Remembers(), key, now) || RecentFailure(b, Remembers(), key, now))
              && !(RecentEvent(b, Remembers(), key, now) && RecentFailure(b, Remembers(), key, now))
      ensures AllDrawn(attempts) ==>
              (Remembered(dedupe.accepted, dedupe.capacity, dedupe.ttl, key, now)
               <==> Remembered(StampsOf(ring.log), dedupe.capacity, dedupe.ttl, key, now))
    {
      DroppedIff(Remembers(), attempts, key, now);
      if AllDrawn(attempts) { OnlyRedeliveredAreDropped(Remembers(), attempts, key, now); }
    }

    constructor (capacity: nat, dedupeTtl: int, dedupeCapacity: nat)
      requires 0 < capacity && 0 < dedupeTtl && 0 < dedupeCapacity
      ensures Valid() && run == [] && !closed && ring.log == [] && dedupe.accepted == [] && After([])
      ensures dedupe.capacity == dedupeCapacity && dedupe.ttl == dedupeTtl
      ensures this.capacity == capacity && channel == if capacity < 2048 then capacity else 2048
      ensures fresh(ring) && fresh(ring.items) && fresh(dedupe)
    {
      this.capacity := capacity;
      channel := Min(capacity, MAX_SUBSCRIBER_CHANNEL);
      ring := new Ring(capacity);
      dedupe := new DedupeSet(dedupeCapacity, dedupeTtl);
      sequence, subs, nextSub, closed := 0, map[], 0, false;
      ops, run := [], [];
    }

    /** Everything proved about all runs holds of the state this bus is in. */
    lemma Reachable()
      requires Valid()
      ensures Inv(State())
    {
      RunKeepsInv(Empty<Event>(capacity, channel), run);
    }

    lemma LogIsNumbered()
      requires Valid()
      ensures Numbered(ring.log) && 0 < capacity
    {
      Reachable();
    }

    method SnapshotSubs() returns (ids: seq<nat>)
      ensures Lists(ids, subs)
    {
      ids := [];
      var left := subs.Keys;
      while left != {}
        invariant Distinct(ids) && left <= subs.Keys
        invariant forall id: nat :: id in subs.Keys <==> id in left || id in ids
        invariant forall id | id in ids :: id !in left
        decreases left
      {
        var id :| id in left;
        left := left - {id};
        assert ([id] + ids)[1..] == ids;
        ids := [id] + ids;
      }
    }

    /** The locked section of a publish: dedupe, number, retain, and snapshot the subscribers.
        An id that cannot be drawn is noticed only after the key has been recorded as seen. */
    method CommitEvent(key: string, body: string, now: int, freshId: Option<string>, ghost attempts: seq<Attempt> := [])
      returns (r: Outcome)
      requires Valid() && dedupe.NotBefore(now)
      modifies this, ring, ring.items, dedupe
      ensures Valid()
      ensures old(closed) <==> r == Refused(Closed)
      ensures r == Duplicate <==>
              !old(closed) && Remembered(old(dedupe.accepted), dedupe.capacity, dedupe.ttl, key, now)
      ensures r.Published? ==> freshId.Some? && r.entry == Entry(|old(ring.log)| + 1, Event(freshId.value, key, now, body))
      ensures r.Refused? ==> r.why == Closed || (r.why == NoId && freshId == None)
      ensures dedupe.accepted == if old(closed) then old(dedupe.accepted)
                                 else Consult(old(dedupe.accepted), dedupe.capacity, dedupe.ttl, Stamp(key, now))
      ensures dedupe.NotBefore(now)
      ensures old(After(attempts)) && !old(closed) ==> After(attempts + [Attempt(key, now, freshId.Some?)])
      ensures old(After(attempts)) && old(closed) ==> After(attempts)
      ensures !r.Published? ==> State() == old(State()) && run == old(run)
      ensures r.Published? ==>
        && Lists(r.snapshot, old(subs)) && State() == Apply(old(State()), Commit(r.entry.payload, r.snapshot))
        && run == old(run) + [Commit(r.entry.payload, r.snapshot)] && ops == old(ops) + [ToAll(r.snapshot, r.entry)]
      ensures old(Uninterrupted()) ==> Serial(Empty(capacity, channel), run)
    {
      if closed { return Refused(Closed); }
      var duplicate := Look(key, now, freshId.Some?, attempts);
      if duplicate { return Duplicate; }
      if freshId == None { return Refused(NoId); }
      var e, snapshot := Admit(Event(freshId.value, key, now, body));
      return Published(e, snapshot);
    }

    /** Numbers and retains an event and snapshots the subscribers. */
    method Admit(event: Event) returns (e: Entry<Event>, snapshot: seq<nat>)
      requires Valid() && !closed
      modifies this, ring, ring.items
      ensures Valid() && Lists(snapshot, old(subs)) && run == old(run) + [Commit(event, snapshot)]
      ensures e == Entry(|old(ring.log)| + 1, event)
      ensures StampsOf(ring.log) == StampsOf(old(ring.log)) + [Stamp(event.key, event.receivedAt)]
      ensures ops == old(ops) + [ToAll(snapshot, e)] && State() == Apply(old(State()), Commit(event, snapshot))
      ensures old(Uninterrupted()) ==> Serial(Empty(capacity, channel), run)
    {
      snapshot := SnapshotSubs();
      e := Retain(event, snapshot);
      StampsAppend(old(ring.log), e);
    }

    /** Looks the key up and records it; all that is left to do then is to retain the event, if an id was drawn. */
    method Look(key: string, now: int, ghost draws: bool, ghost attempts: seq<Attempt>) returns (duplicate: bool)
      requires dedupe.Valid() && dedupe.NotBefore(now)
      modifies dedupe
      ensures dedupe.Valid() && dedupe.NotBefore(now)
      ensures duplicate <==> Remembered(old(dedupe.accepted), dedupe.capacity, dedupe.ttl, key, now)
      ensures dedupe.accepted == Consult(old(dedupe.accepted), dedupe.capacity, dedupe.ttl, Stamp(key, now))
      ensures old(After(attempts)) ==>
                dedupe.accepted != [] && Leads(Remembers(), attempts + [Attempt(key, now, draws)], dedupe.accepted,
                  if draws && !duplicate then StampsOf(ring.log) + [Stamp(key, now)] else StampsOf(ring.log), dedupe.clock)
    {
      if After(attempts) {
        OneMore(Remembers(), attempts, dedupe.accepted, StampsOf(ring.log), dedupe.clock, Attempt(key, now, draws));
      }
      duplicate := dedupe.Seen(key, now);
    }

    method Retain(event: Event, ghost snapshot: seq<nat>) returns (e: Entry<Event>)
      requires Valid() && !closed && Lists(snapshot, subs)
      modifies this, ring, ring.items
      ensures Valid() && run == old(run) + [Commit(event, snapshot)]
      ensures e == Entry(|old(ring.log)| + 1, event) && ring.log == old(ring.log) + [e]
      ensures ops == old(ops) + [ToAll(snapshot, e)] && State() == Apply(old(State()), Commit(event, snapshot))
      ensures old(Uninterrupted()) ==> Serial(Empty(capacity, channel), run)
    {
      ExecStep(Empty(capacity, channel), run, Commit(event, snapshot));
      sequence := sequence + 1;
      e := Entry(sequence, event);
      ring.Push(e);
      ops := ops + [ToAll(snapshot, e)];
      run := run + [Commit(event, snapshot)];
    }

    /** One delivery: into the subscriber's channel, or drop the subscriber when the channel is full. */
    method DeliverNext(d: Delivery<Event>, ghost op: nat)
      requires Valid() && op < |ops| && ops[op] != [] && ops[op][0] == d
      modifies this
      ensures Valid() && run == old(run) + [Deliver(op)] && ops == old(ops)[op := old(ops)[op][1..]]
      ensures State() == Apply(old(State()), Deliver(op))
    {
      if d.to in subs {
        if |subs[d.to].buffer| < channel {
          subs := subs[d.to := subs[d.to].(buffer := subs[d.to].buffer + [d.entry])];
        } else {
          subs := subs - {d.to};
        }
      }
      ops := ops[op := ops[op][1..]];
      ExecStep(Empty<Event>(capacity, channel), run, Deliver(op));
      run := run + [Deliver(op)];
    }

    /** A publish: duplicates and refusals change nothing a subscriber can see; otherwise the commit and one delivery
        per snapshotted subscriber happen in a row, whatever other calls still have to deliver. */
    method Publish(valid: bool, key: string, body: string, now: int, freshId: Option<string>,
                   ghost attempts: seq<Attempt> := []) returns (r: Outcome)
      requires Valid() && dedupe.NotBefore(now)
      modifies this, ring, ring.items, dedupe
      ensures Valid() && (old(Uninterrupted()) ==> Uninterrupted())
      ensures !valid <==> r == Refused(Invalid)
      ensures r == Refused(Closed) <==> valid && old(closed)
      ensures r == Duplicate <==>
              valid && !old(closed) && Remembered(old(dedupe.accepted), dedupe.capacity, dedupe.ttl, key, now)
      ensures r == Refused(NoId) ==> freshId == None
      ensures r.Published? ==> freshId.Some? && r.entry.payload == Event(freshId.value, key, now, body)
      ensures old(After(attempts)) && valid && !old(closed) ==> After(attempts + [Attempt(key, now, freshId.Some?)])
      ensures old(After(attempts)) && (!valid || old(closed)) ==> After(attempts)
      ensures !r.Published? ==> run == old(run) && ops == old(ops)
      ensures r.Published? ==>
        && r.entry.sequence == |old(ring.log)| + 1 && Lists(r.snapshot, old(subs))
        && run == old(run) + PublishSteps(|old(ops)|, r.entry.payload, r.snapshot) && ops == old(ops) + [[]]
    {
      if !valid { return Refused(Invalid); }
      r := CommitEvent(key, body, now, freshId, attempts);
      if r.Published? {
        FanOut(r.entry, r.snapshot, old(run), old(ops), attempts + [Attempt(key, now, freshId.Some?)]);
      }
    }

    method FanOut(e: Entry<Event>, ids: seq<nat>, ghost before: seq<Step<Event>>, ghost others: seq<seq<Delivery<Event>>>,
                  ghost attempts: seq<Attempt>)
      requires Valid() && run == before + [Commit(e.payload, ids)]
      requires ops == others + [ToAll(ids, e)]
      modifies this
      ensures Valid() && run == before + PublishSteps(|others|, e.payload, ids) && ops == others + [[]]
      ensures (forall k | 0 <= k < |others| :: others[k] == []) ==> Quiet(State())
      ensures old(After(attempts)) ==> After(attempts)
      ensures old(Serial(Empty(capacity, channel), run)) ==> Serial(Empty(capacity, channel), run)
    {
      ghost var op := |others|;
      DeliverAll(ToAll(ids, e), others, run);
      assert before + [Commit(e.payload, ids)] + seq(|ids|, _ => Deliver(op)) == before + PublishSteps(op, e.payload, ids);
    }

    method DeliverOne(d: Delivery<Event>, ghost others: seq<seq<Delivery<Event>>>, ghost rest: seq<Delivery<Event>>)
      requires Valid() && ops == others + [[d] + rest]
      modifies this
      ensures Valid() && ops == others + [rest] && run == old(run) + [Deliver(|others|)]
      ensures old(Serial(Empty(capacity, channel), run)) ==> Serial(Empty(capacity, channel), run)
    {
      ExecStep(Empty<Event>(capacity, channel), run, Deliver(|others|));
      DeliverNext(d, |others|);
    }

    /** The fan-out loop shared by publish and replay: it makes all deliveries of its own call and no other. */
    method DeliverAll(todo: seq<Delivery<Event>>, ghost others: seq<seq<Delivery<Event>>>, ghost before: seq<Step<Event>>)
      requires Valid() && ops == others + [todo] && run == before
      modifies this
      ensures Valid() && ops == others + [[]]
      ensures run == before + seq(|todo|, _ => Deliver(|others|))
      ensures old(Serial(Empty(capacity, channel), run)) ==> Serial(Empty(capacity, channel), run)
    {
      ghost var op := |others|;
      for i := 0 to |todo|
        invariant Valid() && ops == others + [todo[i..]]
        invariant old(Serial(Empty(capacity, channel), run)) ==> Serial(Empty(capacity, channel), run)
        invariant run == before + seq(i, _ => Deliver(op))
      {
        assert todo[i..] == [todo[i]] + todo[i + 1..];
        DeliverOne(todo[i], others, todo[i + 1..]);
        assert before + seq(i + 1, _ => Deliver(op)) == before + seq(i, _ => Deliver(op)) + [Deliver(op)];
      }
    }

    /** The locked section of a subscribe: number the subscriber, snapshot its replay and gap, register it. */
    method RegisterSub(after: nat) returns (replay: seq<Entry<Event>>, gap: bool)
      requires Valid() && !closed
      modifies this
      ensures Valid() && run == old(run) + [Register(after)] && State() == Apply(old(State()), Register(after))
      ensures replay == Newer(ring.Retained(), after) && ops == old(ops) + [ToOne(nextSub, replay)]
      ensures gap == HasGap(|ring.log|, ring.Retained(), after)
      ensures old(Uninterrupted()) ==> Serial(Empty(capacity, channel), run)
    {
      replay := ring.After(after);
      gap := HasGapNow(after);
      Enroll(after, replay);
    }

    method Enroll(after: nat, replay: seq<Entry<Event>>)
      requires Valid() && !closed && replay == Newer(ring.Retained(), after)
      modifies this
      ensures Valid() && run == old(run) + [Register(after)] && State() == Apply(old(State()), Register(after))
      ensures ops == old(ops) + [ToOne(nextSub, replay)] && nextSub == old(nextSub) + 1
      ensures old(Uninterrupted()) ==> Serial(Empty(capacity, channel), run)
    {
      LogIsNumbered();
      ReplayIsOwed(ring.log, capacity, after);
      ExecStep(Empty(capacity, channel), run, Register(after));
      nextSub := nextSub + 1;
      subs := subs[nextSub := Sub(sequence - |replay|, [], [])];
      ops := ops + [ToOne(nextSub, replay)];
      assert State() == AfterRegister(old(State()), after);
      run := run + [Register(after)];
    }

    /** A subscribe: register, replay what is retained above `after`, flag a gap, all in a row. */
    method Subscribe(after: nat) returns (r: Result<(nat, bool), Refusal>)
      requires Valid()
      modifies this
      ensures Valid() && (old(Uninterrupted()) ==> Uninterrupted())
      ensures old(closed) <==> r.Err?
      ensures r.Err? ==> r == Err(Closed) && run == old(run) && ops == old(ops)
      ensures r.Ok? ==>
        && r.value.0 == old(nextSub) + 1
        && r.value.1 == HasGap(|ring.log|, ring.Retained(), after)
        && run == old(run) + SubscribeSteps(|old(ops)|, after, |Newer(ring.Retained(), after)|) && ops == old(ops) + [[]]
    {
      if closed { return Err(Closed); }
      var replay, gap := RegisterSub(after);
      var id := nextSub;
      Replay(id, replay, after, old(run), old(ops));
      return Ok((id, gap));
    }

    method Replay(id: nat, replay: seq<Entry<Event>>, ghost after: nat, ghost before: seq<Step<Event>>,
                  ghost others: seq<seq<Delivery<Event>>>)
      requires Valid() && run == before + [Register(after)]
      requires ops == others + [ToOne(id, replay)]
      modifies this
      ensures Valid() && run == before + SubscribeSteps(|others|, after, |replay|) && ops == others + [[]]
      ensures old(Serial(Empty(capacity, channel), run)) ==> Serial(Empty(capacity, channel), run)
    {
      ghost var op := |others|;
      DeliverAll(ToOne(id, replay), others, run);
      assert before + [Register(after)] + seq(|replay|, _ => Deliver(op)) == before + SubscribeSteps(op, after, |replay|);
    }

    method HasGapNow(after: nat) returns (gap: bool)
      requires ring.Valid() && sequence == |ring.log|
      ensures gap == HasGap(|ring.log|, ring.Retained(), after)
    {
      if after == 0 { return false; }
      if ring.count == 0 { return sequence > 0 && after < sequence; }
      var oldest := ring.OldestSequence();
      if oldest <= 1 { return false; }
      return after < oldest - 1;
    }

    /** The bounded snapshot: the first `limit` retained events above `after` (all of them for limit 0). */
    method EventsAfter(after: nat, limit: nat) returns (events: seq<Entry<Event>>, gap: bool)
      requires Valid()
      ensures events <= Newer(ring.Retained(), after)
      ensures |events| == if limit == 0 then |Newer(ring.Retained(), after)| else Min(limit, |Newer(ring.Retained(), after)|)
      ensures gap <==> after > 0 && exists e :: Missed(ring.log, ring.Retained(), after, e)
    {
      events := ring.After(after);
      gap := HasGapNow(after);
      LogIsNumbered();
      GapIsExact(ring.log, capacity, after);
      if limit > 0 && |events| > limit {
        events := events[..limit];
      }
    }

    /** A subscriber reads the oldest buffered event. */
    method Read(id: nat) returns (e: Option<Entry<Event>>)
      requires Valid()
      modifies this
      ensures Valid() && State() == Apply(old(State()), Receive(id))
      ensures e == if id in old(subs) && old(subs)[id].buffer != [] then Some(old(subs)[id].buffer[0]) else None
    {
      e := None;
      ExecStep(Empty<Event>(capacity, channel), run, Receive(id));
      if id in subs && subs[id].buffer != [] {
        var s := subs[id];
        e := Some(s.buffer[0]);
        subs := subs[id := s.(buffer := s.buffer[1..], received := s.received + [s.buffer[0]])];
      }
      run := run + [Receive(id)];
    }

    method Cancel(id: nat)
      requires Valid()
      modifies this
      ensures Valid() && State() == Apply(old(State()), Unsubscribe(id))
    {
      ExecStep(Empty<Event>(capacity, channel), run, Unsubscribe(id));
      subs := subs - {id};
      run := run + [Unsubscribe(id)];
    }

    method ShutdownBus()
      requires Valid()
      modifies this
      ensures Valid() && closed && State() == Apply(old(State()), Shutdown)
    {
      ExecStep(Empty<Event>(capacity, channel), run, Shutdown);
      if !closed {
        closed := true;
        subs := map[];
      }
      run := run + [Shutdown];
    }
  }

  /** What the order of the two steps would lead to on a new bus, could an id ever not be drawn: the event is not
      retained, and the same event published again within the ttl is dropped as a duplicate of nothing. */
  method RefusedThenDuplicate(capacity: nat, ttl: int, dedupeCapacity: nat, key: string, body: string, now: int,
      again: int, freshId: Option<string>) returns (bus: Bus, first: Outcome, second: Outcome)
    requires 0 < capacity && 0 < dedupeCapacity && now <= again < now + ttl
    ensures fresh(bus) && bus.Valid() && !bus.closed
    ensures first == Refused(NoId) && second == Duplicate && bus.ring.log == []
  {
    bus := new Bus(capacity, ttl, dedupeCapacity);
    first := bus.CommitEvent(key, body, now, None);
    assert bus.dedupe.accepted == [Stamp(key, now)];
    assert bus.dedupe.accepted[0].key == key;
    second := bus.CommitEvent(key, body, again, freshId);
  }

  lemma OnlyOneToList<T>(snapshot: seq<nat>, subs: map<nat, Sub<T>>)
    requires Lists(snapshot, subs) && subs.Keys == {1}
    ensures snapshot == [1]
  {
    assert 1 in subs;
    if |snapshot| > 1 { SameTwice(snapshot, 1); }
  }

  lemma SameTwice(ids: seq<nat>, id: nat)
    requires |ids| > 1 && forall i | i in ids :: i == id
    ensures !Distinct(ids)
  {
    assert ids[0] in ids && ids[1] in ids && ids[1..][0] == ids[1];
  }

  /** A subscribe and a publish on a new hub, step by step. */
  lemma {:induction false} FirstDelivery<T>(capacity: nat, channel: nat, payload: T)
    requires 0 < channel
    ensures var registered := Exec(Empty<T>(capacity, channel), [Register(0)]);
            var h := Exec(Empty<T>(capacity, channel), [Register(0)] + PublishSteps(1, payload, [1]));
            && registered.subs.Keys == {1} && |registered.ops| == 1 && !registered.closed && registered.log == []
            && 1 in h.subs && h.subs[1].buffer == [Entry(1, payload)]
  {
    var start, e := Empty<T>(capacity, channel), Entry(1, payload);
    var one: seq<Step<T>> := [Register(0)];
    var two: seq<Step<T>> := [Register(0), Commit(payload, [1])];
    assert one[..0] == [] && two[..1] == one && (two + [Deliver(1)])[..2] == two;
    assert [Register(0)] + PublishSteps(1, payload, [1]) == two + [Deliver(1)];
    FirstStep(start);
    var registered := AfterRegister(start, 0);
    assert Exec(start, one) == registered;
    assert Lists([1], registered.subs);
    var committed := AfterCommit(registered, payload, [1]);
    assert Exec(start, two) == committed;
    assert committed.ops[1] == [Delivery(1, e)] && committed.subs[1].buffer == [];
    assert [] + [e] == [e];
  }

  lemma FirstStep<T>(start: Hub<T>)
    requires start.log == [] && start.subs == map[] && start.nextSub == 0 && start.ops == []
    ensures var h := AfterRegister(start, 0);
            h.subs == map[1 := Sub(0, [], [])] && h.subs.Keys == {1} && h.ops == [[]] && h.log == [] && h.closed == start.closed
  {
    assert LastN<Entry<T>>([], start.capacity) == [];
  }

  /** A subscriber of a new bus is still there after the first event, and has it. */
  method FirstEventIsBuffered(capacity: nat, ttl: int, dedupeCapacity: nat, key: string, body: string, now: int, id: string)
      returns (bus: Bus, sub: nat)
    requires 0 < capacity && 0 < ttl && 0 < dedupeCapacity
    ensures fresh(bus) && bus.Valid()
    ensures sub in bus.subs && bus.subs[sub].buffer == [Entry(1, Event(id, key, now, body))]
  {
    bus := new Bus(capacity, ttl, dedupeCapacity);
    var r := bus.Subscribe(0);
    sub := r.value.0;
    assert bus.run == [Register(0)];
    FirstDelivery(capacity, bus.channel, Event(id, key, now, body));
    assert bus.State() == Exec(Empty(capacity, bus.channel), [Register(0)]);
    ghost var subs := bus.subs;
    var out := bus.Publish(true, key, body, now, Some(id));
    OnlyOneToList(out.snapshot, subs);
  }
}
