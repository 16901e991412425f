/** Delivery order: when a delivery keeps a subscriber in order, and why calls that do not overlap keep all of them so. */
module HubOrder {
  import opened Common
  import opened Rings
  import opened HubSpec
  import opened HubOnce

  /** What a subscriber has been handed so far is an initial part of what it is owed, in order. */
  ghost predicate InOrder<T>(h: Hub<T>, id: nat)
    requires id in h.subs
  {
    h.subs[id].received + h.subs[id].buffer <= Owed(h.log, h.subs[id])
  }

  /** The part of what is owed that comes after what was handed over is exactly what is in flight. */
  lemma {:induction false} InFlightIsTheRest<T>(log: seq<Entry<T>>, s: Sub<T>, pending: multiset<Entry<T>>)
    requires Balanced(log, s, pending) && s.received + s.buffer <= Owed(log, s)
    ensures var handed := |s.received| + |s.buffer|;
            s.from + handed <= |log| && pending == multiset(log[s.from + handed..])
  {
    var handed := s.received + s.buffer;
    var rest := log[s.from + |handed|..];
    assert log[s.from..] == handed + rest;
    assert multiset(handed) == multiset(s.received) + multiset(s.buffer);
    Cancel(multiset(handed), pending, multiset(rest));
  }

  lemma Cancel<T>(common: multiset<T>, a: multiset<T>, b: multiset<T>)
    requires common + a == common + b
    ensures a == b
  {
    forall x ensures a[x] == b[x] {
      assert (common + a)[x] == (common + b)[x];
    }
  }

  /** Handing over one of the entries not handed over yet continues the order iff it is the oldest of them. */
  lemma {:induction false} NextIffOldest<T>(log: seq<Entry<T>>, from: nat, handed: seq<Entry<T>>, e: Entry<T>)
    requires Numbered(log) && from + |handed| <= |log| && handed <= log[from..]
    requires e in multiset(log[from + |handed|..])
    ensures handed + [e] <= log[from..] <==> forall x | x in multiset(log[from + |handed|..]) :: e.sequence <= x.sequence
  {
    var next := from + |handed|;
    var rest := log[next..];
    assert rest[0] == log[next] && rest[0] in multiset(rest);
    forall x | x in multiset(rest) ensures log[next].sequence <= x.sequence && (x.sequence == next + 1 ==> x == log[next]) {
      var i :| 0 <= i < |rest| && rest[i] == x;
      assert x == log[next + i];
    }
    assert handed + [e] <= log[from..] <==> e == log[next] by {
      assert log[from..][|handed|] == log[next] && (handed + [e])[|handed|] == e;
      assert log[from..][..|handed|] == handed;
    }
  }

  lemma {:induction false} AppendKeepsOrderIff<T>(log: seq<Entry<T>>, s: Sub<T>, pending: multiset<Entry<T>>, e: Entry<T>)
    requires Numbered(log) && Balanced(log, s, pending) && e in pending && s.received + s.buffer <= Owed(log, s)
    ensures s.received + (s.buffer + [e]) <= Owed(log, s) <==> forall x | x in pending :: e.sequence <= x.sequence
  {
    InFlightIsTheRest(log, s, pending);
    NextIffOldest(log, s.from, s.received + s.buffer, e);
    assert s.received + (s.buffer + [e]) == (s.received + s.buffer) + [e];
  }

  /** A delivery keeps a subscriber in order exactly when nothing older is still in flight to it. */
  lemma {:induction false} DeliveryKeepsOrderIff<T>(h: Hub<T>, op: nat)
    requires Numbered(h.log) && op < |h.ops| && h.ops[op] != []
    requires var d := h.ops[op][0];
             d.to in h.subs && Accounted(h, d.to) && InOrder(h, d.to) && |h.subs[d.to].buffer| < h.channel
    ensures var d, next := h.ops[op][0], AfterDeliver(h, op);
            d.to in next.subs
            && (InOrder(next, d.to) <==> forall e | e in Pending(h.ops, d.to) :: d.entry.sequence <= e.sequence)
  {
    var d := h.ops[op][0];
    PendingTake(h.ops, op, d.to);
    AppendKeepsOrderIff(h.log, h.subs[d.to], Pending(h.ops, d.to), d.entry);
  }

  // ----- over a run -----

  /** The step puts an entry into the channel of subscriber id. */
  predicate Buffers<T>(h: Hub<T>, step: Step<T>, id: nat) {
    && step.Deliver? && step.op < |h.ops| && h.ops[step.op] != [] && h.ops[step.op][0].to == id
    && id in h.subs && |h.subs[id].buffer| < h.channel
  }

  /** Every entry put into the channel of id found nothing older in flight to it. */
  ghost predicate EachInTurn<T>(h: Hub<T>, steps: seq<Step<T>>, id: nat) {
    steps == [] ||
    var before, last := Exec(h, steps[..|steps| - 1]), steps[|steps| - 1];
    && EachInTurn(h, steps[..|steps| - 1], id)
    && (Buffers(before, last, id) ==>
          forall e | e in Pending(before.ops, id) :: before.ops[last.op][0].entry.sequence <= e.sequence)
  }

  /** Appending to the log changes nothing about the order of what was handed over. */
  lemma {:induction false} GrowingLogKeepsOrder<T>(log: seq<Entry<T>>, s: Sub<T>, pending: multiset<Entry<T>>, e: Entry<T>)
    requires Balanced(log, s, pending)
    ensures s.received + s.buffer <= Owed(log + [e], s) <==> s.received + s.buffer <= Owed(log, s)
  {
    var handed, more := s.received + s.buffer, log + [e];
    assert |multiset(handed)| + |pending| == |multiset(log[s.from..])| by {
      assert multiset(handed) == multiset(s.received) + multiset(s.buffer);
    }
    assert more[s.from..] == log[s.from..] + [e];
    assert more[s.from..][..|handed|] == log[s.from..][..|handed|];
  }

  /** A subscriber that has been handed something out of order stays out of order. */
  lemma {:induction false} StepOrderIff<T>(h: Hub<T>, step: Step<T>, id: nat)
    requires Inv(h) && id in h.subs && id in Apply(h, step).subs
    ensures InOrder(Apply(h, step), id) <==> InOrder(h, id) && (Buffers(h, step, id) ==>
              forall e | e in Pending(h.ops, id) :: h.ops[step.op][0].entry.sequence <= e.sequence)
  {
    assert Accounted(h, id) && NothingYet(h, id);
    match step
    case Commit(payload, snapshot) =>
      GrowingLogKeepsOrder(h.log, h.subs[id], Pending(h.ops, id), Entry(|h.log| + 1, payload));
    case Deliver(op) => DeliverOrderIff(h, op, id);
    case Receive(read) => ReadingKeepsOrder(h, read, id);
    case _ =>
  }

  lemma {:induction false} DeliverOrderIff<T>(h: Hub<T>, op: nat, id: nat)
    requires Inv(h) && Accounted(h, id) && id in h.subs && id in Apply(h, Deliver(op)).subs
    ensures InOrder(Apply(h, Deliver(op)), id) <==> InOrder(h, id) && (Buffers(h, Deliver(op), id) ==>
              forall e | e in Pending(h.ops, id) :: h.ops[op][0].entry.sequence <= e.sequence)
  {
    if op < |h.ops| && h.ops[op] != [] {
      OfferIsLocal(h, h.ops[op][0], id);
      if Buffers(h, Deliver(op), id) { BufferedOrderIff(h, op, id); }
    }
  }

  lemma {:induction false} ReadingKeepsOrder<T>(h: Hub<T>, read: nat, id: nat)
    requires id in h.subs
    ensures id in Apply(h, Receive(read)).subs && (InOrder(Apply(h, Receive(read)), id) <==> InOrder(h, id))
  {
    if read in h.subs && h.subs[read].buffer != [] && read == id {
      var s := h.subs[read];
      assert (s.received + [s.buffer[0]]) + s.buffer[1..] == s.received + s.buffer;
    }
  }

  lemma {:induction false} BufferedOrderIff<T>(h: Hub<T>, op: nat, id: nat)
    requires Inv(h) && Accounted(h, id) && Buffers(h, Deliver(op), id)
    ensures id in AfterDeliver(h, op).subs
    ensures InOrder(AfterDeliver(h, op), id)
            <==> InOrder(h, id) && forall e | e in Pending(h.ops, id) :: h.ops[op][0].entry.sequence <= e.sequence
  {
    if InOrder(h, id) {
      DeliveryKeepsOrderIff(h, op);
    } else {
      var s, e := h.subs[id], h.ops[op][0].entry;
      assert s.received + (s.buffer + [e]) == (s.received + s.buffer) + [e];
    }
  }

  /** Nobody is handed anything before registering. */
  lemma {:induction false} NotBeforeRegistering<T>(capacity: nat, channel: nat, steps: seq<Step<T>>, id: nat)
    requires 0 < capacity && id > Exec(Empty<T>(capacity, channel), steps).nextSub
    ensures EachInTurn(Empty<T>(capacity, channel), steps, id)
  {
    if steps != [] {
      var p := steps[..|steps| - 1];
      NotBeforeRegistering(capacity, channel, p, id);
      RunKeepsInv(Empty<T>(capacity, channel), p);
      assert NothingYet(Exec(Empty<T>(capacity, channel), p), id);
    }
  }

  /** Over every run: a subscriber still registered has been handed an initial part of what it is owed, in order and
      without a hole, if and only if every entry put into its channel found nothing older in flight to it. */
  lemma {:induction false} RunInOrderIff<T>(capacity: nat, channel: nat, steps: seq<Step<T>>, id: nat)
    requires 0 < capacity && id in Exec(Empty<T>(capacity, channel), steps).subs
    ensures InOrder(Exec(Empty<T>(capacity, channel), steps), id) <==> EachInTurn(Empty<T>(capacity, channel), steps, id)
  {
    var start := Empty<T>(capacity, channel);
    if steps != [] {
      var p, last := steps[..|steps| - 1], steps[|steps| - 1];
      var before := Exec(start, p);
      RunKeepsInv(start, p);
      if id in before.subs {
        RunInOrderIff(capacity, channel, p, id);
        StepOrderIff(before, last, id);
      } else {
        OnlyRegisteringAdds(before, last, id);
        NotBeforeRegistering(capacity, channel, p, id);
      }
    }
  }

  lemma {:induction false} OnlyRegisteringAdds<T>(h: Hub<T>, step: Step<T>, id: nat)
    requires id !in h.subs && id in Apply(h, step).subs
    ensures id > h.nextSub && InOrder(Apply(h, step), id) && !Buffers(h, step, id)
  {
    match step
    case Deliver(op) => OfferIsLocal(h, h.ops[op][0], id);
    case _ =>
  }

  // ----- calls that do not overlap -----

  ghost predicate Quiet<T>(h: Hub<T>) {
    forall k | 0 <= k < |h.ops| :: h.ops[k] == []
  }

  /** Calls do not overlap: none commits or registers while another still has deliveries to make. */
  ghost predicate Serial<T>(h: Hub<T>, steps: seq<Step<T>>) {
    steps == [] ||
    var before, last := steps[..|steps| - 1], steps[|steps| - 1];
    Serial(h, before) && (last.Commit? || last.Register? ==> Quiet(Exec(h, before)))
  }

  ghost function Sent<T>(ds: seq<Delivery<T>>, id: nat): seq<Entry<T>> {
    if ds == [] then [] else (if ds[0].to == id then [ds[0].entry] else []) + Sent(ds[1..], id)
  }

  lemma {:induction false} SentToAll<T>(ids: seq<nat>, e: Entry<T>, id: nat)
    requires Distinct(ids)
    ensures Sent(ToAll(ids, e), id) == if id in ids then [e] else []
  {
    if ids != [] {
      SentToAll(ids[1..], e, id);
      assert ToAll(ids, e)[1..] == ToAll(ids[1..], e);
    }
  }

  lemma {:induction false} SentToOne<T>(to: nat, entries: seq<Entry<T>>, id: nat)
    ensures Sent(ToOne(to, entries), id) == if id == to then entries else []
  {
    if entries != [] {
      SentToOne(to, entries[1..], id);
      assert ToOne(to, entries)[1..] == ToOne(to, entries[1..]);
    }
  }

  /** What a subscriber has been handed, followed by `tail`, is exactly what it is owed. */
  ghost predicate Continues<T>(log: seq<Entry<T>>, s: Sub<T>, tail: seq<Entry<T>>) {
    s.from <= |log| && s.received + s.buffer + tail == log[s.from..]
  }

  ghost function Tail<T>(ops: seq<seq<Delivery<T>>>, id: nat): seq<Entry<T>> {
    if ops == [] then [] else Sent(ops[|ops| - 1], id)
  }

  ghost predicate Followed<T>(h: Hub<T>, id: nat) {
    id in h.subs ==> Continues(h.log, h.subs[id], Tail(h.ops, id))
  }

  /** Only the latest call has deliveries left, and they continue what every subscriber has been handed. */
  ghost predicate SerialInv<T>(h: Hub<T>) {
    && (forall k | 0 <= k < |h.ops| - 1 :: h.ops[k] == [])
    && (forall id: nat :: Followed(h, id))
  }

  lemma {:induction false} ReplayContinues<T>(log: seq<Entry<T>>, capacity: nat, after: nat)
    requires Numbered(log) && capacity > 0
    ensures var replay := Newer(LastN(log, capacity), after); Continues(log, NewSub(log, replay), replay)
  {
    ReplayIsOwed(log, capacity, after);
    var replay := Newer(LastN(log, capacity), after);
    assert [] + [] + replay == replay;
  }

  lemma {:induction false} SerialCommit<T>(h: Hub<T>, payload: T, snapshot: seq<nat>, id: nat)
    requires Lists(snapshot, h.subs) && Tail(h.ops, id) == [] && Followed(h, id)
    ensures Followed(AfterCommit(h, payload, snapshot), id)
  {
    if id in h.subs {
      var e := Entry(|h.log| + 1, payload);
      SentToAll(snapshot, e, id);
      assert Tail(h.ops + [ToAll(snapshot, e)], id) == [e];
    }
  }

  lemma {:induction false} RegisterTail<T>(h: Hub<T>, replay: seq<Entry<T>>, id: nat)
    ensures Tail(WithSub(h, replay).ops, id) == if id == h.nextSub + 1 then replay else []
  {
    SentToOne(h.nextSub + 1, replay, id);
  }

  lemma {:induction false} SerialRegister<T>(h: Hub<T>, replay: seq<Entry<T>>, id: nat)
    requires Continues(h.log, NewSub(h.log, replay), replay) && Tail(h.ops, id) == [] && Followed(h, id)
    ensures Followed(WithSub(h, replay), id)
  {
    RegisterTail(h, replay, id);
    if id == h.nextSub + 1 {
      assert WithSub(h, replay).subs[id] == NewSub(h.log, replay);
    } else if id in h.subs {
      assert WithSub(h, replay).subs[id] == h.subs[id];
    }
  }

  lemma {:induction false} SerialDeliver<T>(h: Hub<T>, id: nat)
    requires h.ops != [] && h.ops[|h.ops| - 1] != [] && Followed(h, id)
    ensures Followed(AfterDeliver(h, |h.ops| - 1), id)
  {
    var ds := h.ops[|h.ops| - 1];
    OfferIsLocal(h, ds[0], id);
    if id in Offer(h, ds[0]) {
      assert Tail(h.ops, id) == (if ds[0].to == id then [ds[0].entry] else []) + Sent(ds[1..], id);
      assert Tail(AfterDeliver(h, |h.ops| - 1).ops, id) == Sent(ds[1..], id);
      Regroup(h.subs[id].received, h.subs[id].buffer, ds[0].entry, Sent(ds[1..], id));
      assert [] + Sent(ds[1..], id) == Sent(ds[1..], id);
    }
  }

  lemma Regroup<T>(a: seq<T>, b: seq<T>, x: T, c: seq<T>)
    ensures (a + (b + [x])) + c == (a + b) + ([x] + c)
  {
  }

  lemma {:induction false} SerialReceive<T>(h: Hub<T>, read: nat, id: nat)
    requires read in h.subs && h.subs[read].buffer != [] && Followed(h, id)
    ensures Followed(AfterReceive(h, read), id)
  {
    if id == read {
      var s := h.subs[read];
      assert (s.received + [s.buffer[0]]) + s.buffer[1..] == s.received + s.buffer;
    }
  }

  lemma {:induction false} SerialStepFollows<T>(h: Hub<T>, step: Step<T>, id: nat)
    requires 0 < h.capacity && Numbered(h.log) && SerialInv(h) && (step.Commit? || step.Register? ==> Quiet(h))
    ensures Followed(Apply(h, step), id)
  {
    assert Followed(h, id);
    match step
    case Commit(payload, snapshot) => if Lists(snapshot, h.subs) { SerialCommit(h, payload, snapshot, id); }
    case Register(after) =>
      ReplayContinues(h.log, h.capacity, after);
      SerialRegister(h, Newer(LastN(h.log, h.capacity), after), id);
    case Deliver(op) => if op < |h.ops| && h.ops[op] != [] { SerialDeliver(h, id); }
    case Receive(read) => if read in h.subs && h.subs[read].buffer != [] { SerialReceive(h, read, id); }
    case _ =>
  }

  lemma {:induction false} SerialStepKeepsInv<T>(h: Hub<T>, step: Step<T>)
    requires 0 < h.capacity && Numbered(h.log) && SerialInv(h) && (step.Commit? || step.Register? ==> Quiet(h))
    ensures SerialInv(Apply(h, step))
  {
    forall id: nat ensures Followed(Apply(h, step), id) {
      SerialStepFollows(h, step, id);
    }
    forall k | 0 <= k < |Apply(h, step).ops| - 1 ensures Apply(h, step).ops[k] == [] {
      if k < |h.ops| - 1 { assert h.ops[k] == []; }
    }
  }

  /** In-order delivery: when calls do not overlap, every registered subscriber has been handed, in order and
      without a hole, the first events it is owed. */
  lemma {:induction false} SerialRunInOrder<T>(capacity: nat, channel: nat, steps: seq<Step<T>>)
    requires 0 < capacity && Serial(Empty(capacity, channel), steps)
    ensures SerialInv(Exec(Empty(capacity, channel), steps))
    ensures var h := Exec(Empty(capacity, channel), steps); forall id | id in h.subs :: InOrder(h, id)
  {
    var start := Empty<T>(capacity, channel);
    if steps != [] {
      var before := Exec(start, steps[..|steps| - 1]);
      SerialRunInOrder(capacity, channel, steps[..|steps| - 1]);
      RunKeepsInv(start, steps[..|steps| - 1]);
      SerialStepKeepsInv(before, steps[|steps| - 1]);
    }
    var h := Exec(start, steps);
    forall id | id in h.subs ensures InOrder(h, id) {
      assert Followed(h, id);
    }
  }

  lemma {:induction false} ExecStep<T>(h: Hub<T>, steps: seq<Step<T>>, step: Step<T>)
    ensures Exec(h, steps + [step]) == Apply(Exec(h, steps), step)
    ensures Serial(h, steps) && (step.Commit? || step.Register? ==> Quiet(Exec(h, steps))) ==> Serial(h, steps + [step])
  {
    assert (steps + [step])[..|steps|] == steps;
  }

  /** Overlapping calls can break the documented order, with any ring of two or more: of two events the subscriber
      has seen the first and resumes after it, and an event published meanwhile is handed over before the replay. */
  lemma {:induction false} OverlapCanReorder<T>(capacity: nat, channel: nat, p: T, q: T, live: T)
    requires capacity > 1 && channel > 0
    ensures var steps := [Commit(p, []), Commit(q, []), Register(1), Commit(live, [1]), Deliver(3)];
            var h := Exec(Empty(capacity, channel), steps);
            && 1 in h.subs && h.subs[1].buffer == [Entry(3, live)] && Owed(h.log, h.subs[1]) == [Entry(2, q), Entry(3, live)]
            && !InOrder(h, 1)
  {
    var start := Empty<T>(capacity, channel);
    var a: Step<T>, b: Step<T>, r: Step<T> := Commit(p, []), Commit(q, []), Register(1);
    var c: Step<T>, d: Step<T> := Commit(live, [1]), Deliver(3);
    var h := TwoPublished(capacity, channel, p, q);
    var g := Resumed(h, p, q);
    var l := Overtaken(g, q, live);
    ExecStep(start, [a, b], r);
    ExecStep(start, [a, b, r], c);
    ExecStep(start, [a, b, r, c], d);
    assert [a, b] + [r] == [a, b, r] && [a, b, r] + [c] == [a, b, r, c] && [a, b, r, c] + [d] == [a, b, r, c, d];
  }

  /** The log after two publishes nobody listens to. */
  lemma {:induction false} TwoPublished<T>(capacity: nat, channel: nat, p: T, q: T) returns (h: Hub<T>)
    ensures h == Exec(Empty<T>(capacity, channel), [Commit(p, []), Commit(q, [])])
    ensures h == Hub([Entry(1, p), Entry(2, q)], capacity, channel, map[], 0, [[], []], false)
  {
    var start, a: Step<T>, b: Step<T> := Empty<T>(capacity, channel), Commit(p, []), Commit(q, []);
    ExecStep(start, [], a);
    ExecStep(start, [a], b);
    assert [] + [a] == [a] && [a] + [b] == [a, b];
    var none: map<nat, Sub<T>> := map[];
    assert Lists([], none);
    assert ToAll([], Entry(1, p)) == [] && ToAll([], Entry(2, q)) == [];
    h := Exec(start, [a, b]);
  }

  lemma {:induction false} Resumed<T>(h: Hub<T>, p: T, q: T) returns (g: Hub<T>)
    requires h.log == [Entry(1, p), Entry(2, q)] && h.capacity > 1 && h.nextSub == 0 && h.subs == map[] && !h.closed
    requires h.ops == [[], []]
    ensures g == Apply(h, Register(1))
    ensures g == h.(nextSub := 1, subs := map[1 := Sub(1, [], [])], ops := [[], [], [Delivery(1, Entry(2, q))]])
  {
    g := Apply(h, Register(1));
    assert h.log[0..] == h.log && h.log[1..] == [Entry(2, q)];
    NewerIsSuffix(h.log, 0, 1);
    assert ToOne(1, [Entry(2, q)]) == [Delivery(1, Entry(2, q))];
  }

  lemma {:induction false} Overtaken<T>(g: Hub<T>, q: T, live: T) returns (l: Hub<T>)
    requires |g.log| == 2 && g.log[1] == Entry(2, q) && g.channel > 0 && !g.closed
    requires g.subs == map[1 := Sub(1, [], [])] && |g.ops| == 3
    ensures l == Apply(Apply(g, Commit(live, [1])), Deliver(3))
    ensures 1 in l.subs && l.subs[1].buffer == [Entry(3, live)] && Owed(l.log, l.subs[1]) == [Entry(2, q), Entry(3, live)]
    ensures !InOrder(l, 1)
  {
    assert [1][1..] == [];
    assert Lists([1], g.subs);
    assert ToAll([1], Entry(3, live)) == [Delivery(1, Entry(3, live))];
    var c := Apply(g, Commit(live, [1]));
    assert c.ops[3] == [Delivery(1, Entry(3, live))];
    l := Apply(c, Deliver(3));
    assert l.subs[1].buffer == [Entry(3, live)];
    assert l.log[1..] == [Entry(2, q), Entry(3, live)];
    assert (l.subs[1].received + l.subs[1].buffer)[0] == Entry(3, live);
  }
}
