/** Exactly-once delivery: what every interleaving of the hub's steps keeps for every subscriber. */
module HubOnce {
  import opened Common
  import opened Rings
  import opened HubSpec

  // ----- what is still in flight to one subscriber -----

  ghost function PendingIn<T>(ds: seq<Delivery<T>>, id: nat): multiset<Entry<T>> {
    if ds == [] then multiset{}
    else (if ds[0].to == id then multiset{ds[0].entry} else multiset{}) + PendingIn(ds[1..], id)
  }

  ghost function Pending<T>(ops: seq<seq<Delivery<T>>>, id: nat): multiset<Entry<T>> {
    if ops == [] then multiset{} else PendingIn(ops[0], id) + Pending(ops[1..], id)
  }

  lemma {:induction false} PendingPush<T>(ops: seq<seq<Delivery<T>>>, ds: seq<Delivery<T>>, id: nat)
    ensures Pending(ops + [ds], id) == Pending(ops, id) + PendingIn(ds, id)
  {
    if ops == [] {
      assert ops + [ds] == [ds] && [ds][1..] == [];
    } else {
      PendingPush(ops[1..], ds, id);
      assert (ops + [ds])[1..] == ops[1..] + [ds];
    }
  }

  lemma {:induction false} PendingTake<T>(ops: seq<seq<Delivery<T>>>, k: nat, id: nat)
    requires k < |ops| && ops[k] != []
    ensures Pending(ops, id) == Pending(ops[k := ops[k][1..]], id) +
            (if ops[k][0].to == id then multiset{ops[k][0].entry} else multiset{})
  {
    var rest := ops[k := ops[k][1..]];
    if k == 0 {
      assert rest[1..] == ops[1..];
    } else {
      PendingTake(ops[1..], k - 1, id);
      assert rest[1..] == ops[1..][k - 1 := ops[k][1..]];
    }
  }

  lemma {:induction false} PendingToAll<T>(ids: seq<nat>, e: Entry<T>, id: nat)
    requires Distinct(ids)
    ensures PendingIn(ToAll(ids, e), id) == if id in ids then multiset{e} else multiset{}
  {
    if ids != [] {
      PendingToAll(ids[1..], e, id);
      assert ToAll(ids, e)[1..] == ToAll(ids[1..], e);
    }
  }

  lemma {:induction false} PendingToOne<T>(to: nat, entries: seq<Entry<T>>, id: nat)
    ensures PendingIn(ToOne(to, entries), id) == if id == to then multiset(entries) else multiset{}
  {
    if entries != [] {
      PendingToOne(to, entries[1..], id);
      assert ToOne(to, entries)[1..] == ToOne(to, entries[1..]);
      assert entries == [entries[0]] + entries[1..];
    }
  }

  // ----- exactly once, under every interleaving -----

  /** What a subscriber was promised: everything logged from its starting position on. */
  ghost function Owed<T>(log: seq<Entry<T>>, s: Sub<T>): seq<Entry<T>> {
    if s.from <= |log| then log[s.from..] else []
  }

  /** Read, buffered and in-flight deliveries of a subscriber make up exactly what it is owed. */
  ghost predicate Balanced<T>(log: seq<Entry<T>>, s: Sub<T>, pending: multiset<Entry<T>>) {
    && s.from <= |log|
    && multiset(s.received) + multiset(s.buffer) + pending == multiset(log[s.from..])
  }

  ghost predicate Accounted<T>(h: Hub<T>, id: nat) {
    id in h.subs ==> id <= h.nextSub && Balanced(h.log, h.subs[id], Pending(h.ops, id))
  }

  ghost predicate NothingYet<T>(h: Hub<T>, id: nat) {
    id > h.nextSub ==> Pending(h.ops, id) == multiset{}
  }

  ghost predicate Inv<T>(h: Hub<T>) {
    && 0 < h.capacity && Numbered(h.log)
    && (forall id: nat :: Accounted(h, id))
    && (forall id: nat :: NothingYet(h, id))
  }

  lemma {:induction false} ReplayIsOwed<T>(log: seq<Entry<T>>, capacity: nat, after: nat)
    requires Numbered(log) && capacity > 0
    ensures var replay := Newer(LastN(log, capacity), after);
            |replay| <= |log| && replay == log[|log| - |replay|..]
  {
    NewerIsSuffix(log, |log| - |LastN(log, capacity)|, after);
  }

  lemma {:induction false} ReplayBalances<T>(log: seq<Entry<T>>, capacity: nat, after: nat)
    requires Numbered(log) && capacity > 0
    ensures var replay := Newer(LastN(log, capacity), after);
            Balanced(log, NewSub(log, replay), multiset(replay))
  {
    ReplayIsOwed(log, capacity, after);
  }

  lemma {:induction false} BalancedCommit<T>(log: seq<Entry<T>>, s: Sub<T>, pending: multiset<Entry<T>>, e: Entry<T>)
    requires Balanced(log, s, pending)
    ensures Balanced(log + [e], s, pending + multiset{e})
  {
    assert (log + [e])[s.from..] == log[s.from..] + [e];
  }

  lemma {:induction false} BalancedReceive<T>(log: seq<Entry<T>>, s: Sub<T>, pending: multiset<Entry<T>>)
    requires Balanced(log, s, pending) && s.buffer != []
    ensures Balanced(log, s.(buffer := s.buffer[1..], received := s.received + [s.buffer[0]]), pending)
  {
    assert s.buffer == [s.buffer[0]] + s.buffer[1..];
  }

  /** An offer reaches only its addressee, who either buffers it or is dropped for being full. */
  lemma OfferIsLocal<T>(h: Hub<T>, d: Delivery<T>, id: nat)
    ensures id in Offer(h, d) ==> id in h.subs
    ensures id in Offer(h, d) && id != d.to ==> Offer(h, d)[id] == h.subs[id]
    ensures id in Offer(h, d) && id == d.to ==> Offer(h, d)[id] == h.subs[id].(buffer := h.subs[id].buffer + [d.entry])
    ensures id in h.subs && id !in Offer(h, d) ==> id == d.to && |h.subs[id].buffer| >= h.channel
  {
  }

  lemma {:induction false} CommitAccounts<T>(h: Hub<T>, payload: T, snapshot: seq<nat>, id: nat)
    requires Lists(snapshot, h.subs) && Accounted(h, id) && NothingYet(h, id)
    ensures Accounted(AfterCommit(h, payload, snapshot), id) && NothingYet(AfterCommit(h, payload, snapshot), id)
  {
    var e := Entry(|h.log| + 1, payload);
    PendingPush(h.ops, ToAll(snapshot, e), id);
    PendingToAll(snapshot, e, id);
    if id in h.subs {
      BalancedCommit(h.log, h.subs[id], Pending(h.ops, id), e);
    }
  }

  lemma {:induction false} RegisterPends<T>(h: Hub<T>, replay: seq<Entry<T>>, id: nat)
    ensures Pending(WithSub(h, replay).ops, id) == Pending(h.ops, id) + if id == h.nextSub + 1 then multiset(replay) else multiset{}
  {
    var ds := ToOne(h.nextSub + 1, replay);
    assert WithSub(h, replay).ops == h.ops + [ds];
    PendingPush(h.ops, ds, id);
    PendingToOne(h.nextSub + 1, replay, id);
  }

  lemma {:induction false} RegisterAccounts<T>(h: Hub<T>, replay: seq<Entry<T>>, id: nat)
    requires Balanced(h.log, NewSub(h.log, replay), multiset(replay)) && Accounted(h, id) && NothingYet(h, id)
    ensures Accounted(WithSub(h, replay), id) && NothingYet(WithSub(h, replay), id)
  {
    RegisterPends(h, replay, id);
    if id == h.nextSub + 1 {
      assert WithSub(h, replay).subs[id] == NewSub(h.log, replay);
    } else if id in h.subs {
      assert WithSub(h, replay).subs[id] == h.subs[id];
    }
  }

  lemma {:induction false} DeliverAccounts<T>(h: Hub<T>, op: nat, id: nat)
    requires op < |h.ops| && h.ops[op] != [] && Accounted(h, id) && NothingYet(h, id)
    ensures Accounted(AfterDeliver(h, op), id) && NothingYet(AfterDeliver(h, op), id)
  {
    PendingTake(h.ops, op, id);
    OfferIsLocal(h, h.ops[op][0], id);
  }

  lemma {:induction false} ReceiveAccounts<T>(h: Hub<T>, read: nat, id: nat)
    requires read in h.subs && h.subs[read].buffer != [] && Accounted(h, id)
    ensures Accounted(AfterReceive(h, read), id)
  {
    if id == read {
      BalancedReceive(h.log, h.subs[id], Pending(h.ops, id));
    }
  }

  lemma {:induction false} StepAccounts<T>(h: Hub<T>, step: Step<T>, id: nat)
    requires Inv(h)
    ensures Accounted(Apply(h, step), id) && NothingYet(Apply(h, step), id)
  {
    assert Accounted(h, id) && NothingYet(h, id);
    match step
    case Commit(payload, snapshot) => if Lists(snapshot, h.subs) { CommitAccounts(h, payload, snapshot, id); }
    case Register(after) =>
      ReplayBalances(h.log, h.capacity, after);
      RegisterAccounts(h, Newer(LastN(h.log, h.capacity), after), id);
    case Deliver(op) => if op < |h.ops| && h.ops[op] != [] { DeliverAccounts(h, op, id); }
    case Receive(read) => if read in h.subs && h.subs[read].buffer != [] { ReceiveAccounts(h, read, id); }
    case Unsubscribe(_) =>
    case Shutdown =>
  }

  lemma {:induction false} StepKeepsInv<T>(h: Hub<T>, step: Step<T>)
    requires Inv(h)
    ensures Inv(Apply(h, step))
  {
    forall id: nat ensures Accounted(Apply(h, step), id) && NothingYet(Apply(h, step), id) {
      StepAccounts(h, step, id);
    }
  }

  lemma {:induction false} RunKeepsInv<T>(h: Hub<T>, steps: seq<Step<T>>)
    requires Inv(h)
    ensures Inv(Exec(h, steps))
  {
    if steps != [] {
      RunKeepsInv(h, steps[..|steps| - 1]);
      StepKeepsInv(Exec(h, steps[..|steps| - 1]), steps[|steps| - 1]);
    }
  }

  lemma {:induction false} NumberedIsDistinct<T>(log: seq<Entry<T>>, from: nat, e: Entry<T>)
    requires Numbered(log) && from <= |log|
    ensures multiset(log[from..])[e] == if e in log && e.sequence > from then 1 else 0
    decreases |log| - from
  {
    if from < |log| {
      NumberedIsDistinct(log, from + 1, e);
      assert log[from..] == [log[from]] + log[from + 1..];
      assert log[from].sequence == from + 1;
      if e in log {
        var i :| 0 <= i < |log| && log[i] == e;
        assert e.sequence == i + 1;
      }
    } else if e in log {
      var i :| 0 <= i < |log| && log[i] == e;
    }
  }

  /** Exactly once: whatever the interleaving, each event a registered subscriber is owed has been read,
      is buffered or is in flight to it exactly once, and no other event is. */
  lemma {:induction false} ExactlyOnce<T>(capacity: nat, channel: nat, steps: seq<Step<T>>, id: nat, e: Entry<T>)
    requires 0 < capacity && id in Exec(Empty(capacity, channel), steps).subs
    ensures var h := Exec(Empty(capacity, channel), steps);
            var s := h.subs[id];
            multiset(s.received)[e] + multiset(s.buffer)[e] + Pending(h.ops, id)[e]
            == if e in h.log && e.sequence > s.from then 1 else 0
  {
    RunKeepsInv(Empty<T>(capacity, channel), steps);
    var h := Exec(Empty(capacity, channel), steps);
    assert Accounted(h, id);
    var s := h.subs[id];
    NumberedIsDistinct(h.log, s.from, e);
    assert (multiset(s.received) + multiset(s.buffer) + Pending(h.ops, id))[e] == multiset(h.log[s.from..])[e];
  }

  /** A subscriber with at most `channel` owed events unread is never dropped as a slow consumer. */
  lemma {:induction false} KeepingUpIsNeverDropped<T>(h: Hub<T>, op: nat, id: nat)
    requires Inv(h) && id in h.subs && |Owed(h.log, h.subs[id])| - |h.subs[id].received| <= h.channel
    ensures id in Apply(h, Deliver(op)).subs
  {
    if op < |h.ops| && h.ops[op] != [] && h.ops[op][0].to == id {
      PendingTake(h.ops, op, id);
      assert Accounted(h, id);
      var s := h.subs[id];
      assert |multiset(s.received) + multiset(s.buffer) + Pending(h.ops, id)| == |multiset(h.log[s.from..])|;
    }
  }
}
