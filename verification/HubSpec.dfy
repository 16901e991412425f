/** Replay-then-live fan-out as a system of atomic steps.

A publish is one locked commit followed by one delivery per snapshotted subscriber; a subscribe is
one locked registration followed by its replay deliveries. Steps of different calls interleave
freely, so `ops` keeps, for every call, the deliveries it still has to make. The event bus and the
two projections share this shape; the payload is left generic. */
module HubSpec {
  import opened Common
  import opened Rings

  /** A registered subscriber: the log position it was promised from, its channel, and what it has read. */
  datatype Sub<+T> = Sub(from: nat, buffer: seq<Entry<T>>, received: seq<Entry<T>>)

  datatype Delivery<+T> = Delivery(to: nat, entry: Entry<T>)

  datatype Hub<+T> = Hub(
    log: seq<Entry<T>>, capacity: nat, channel: nat,
    subs: map<nat, Sub<T>>, nextSub: nat, ops: seq<seq<Delivery<T>>>, closed: bool)

  datatype Step<+T> =
    | Commit(payload: T, snapshot: seq<nat>)
    | Register(after: nat)
    | Deliver(op: nat)
    | Receive(id: nat)
    | Unsubscribe(id: nat)
    | Shutdown

  function Empty<T>(capacity: nat, channel: nat): Hub<T> {
    Hub([], capacity, channel, map[], 0, [], false)
  }

  predicate Distinct(ids: seq<nat>) {
    ids == [] || (ids[0] !in ids[1..] && Distinct(ids[1..]))
  }

  /** The snapshot lists every registered subscriber once, in any order. */
  predicate Lists<T>(snapshot: seq<nat>, subs: map<nat, Sub<T>>) {
    Distinct(snapshot) && (forall id | id in snapshot :: id in subs) && (forall id | id in subs :: id in snapshot)
  }

  function ToAll<T>(ids: seq<nat>, e: Entry<T>): seq<Delivery<T>> {
    seq(|ids|, i requires 0 <= i < |ids| => Delivery(ids[i], e))
  }

  function ToOne<T>(id: nat, entries: seq<Entry<T>>): seq<Delivery<T>> {
    seq(|entries|, i requires 0 <= i < |entries| => Delivery(id, entries[i]))
  }

  function Offer<T>(h: Hub<T>, d: Delivery<T>): map<nat, Sub<T>> {
    if d.to !in h.subs then h.subs
    else if |h.subs[d.to].buffer| < h.channel then
      h.subs[d.to := h.subs[d.to].(buffer := h.subs[d.to].buffer + [d.entry])]
    else h.subs - {d.to}
  }

  function AfterCommit<T>(h: Hub<T>, payload: T, snapshot: seq<nat>): Hub<T> {
    var e := Entry(|h.log| + 1, payload);
    h.(log := h.log + [e], ops := h.ops + [ToAll(snapshot, e)])
  }

  /** A new subscriber is promised its replay, the last entries of the log, and all that follows. */
  function NewSub<T>(log: seq<Entry<T>>, replay: seq<Entry<T>>): Sub<T> {
    Sub(if |replay| <= |log| then |log| - |replay| else 0, [], [])
  }

  function AfterRegister<T>(h: Hub<T>, after: nat): Hub<T> {
    WithSub(h, Newer(LastN(h.log, h.capacity), after))
  }

  function WithSub<T>(h: Hub<T>, replay: seq<Entry<T>>): Hub<T> {
    h.(nextSub := h.nextSub + 1,
       subs := h.subs[h.nextSub + 1 := NewSub(h.log, replay)],
       ops := h.ops + [ToOne(h.nextSub + 1, replay)])
  }

  function AfterDeliver<T>(h: Hub<T>, op: nat): Hub<T>
    requires op < |h.ops| && h.ops[op] != []
  {
    h.(ops := h.ops[op := h.ops[op][1..]], subs := Offer(h, h.ops[op][0]))
  }

  function AfterReceive<T>(h: Hub<T>, id: nat): Hub<T>
    requires id in h.subs && h.subs[id].buffer != []
  {
    var s := h.subs[id];
    h.(subs := h.subs[id := s.(buffer := s.buffer[1..], received := s.received + [s.buffer[0]])])
  }

  /** One atomic step; a step that is not enabled leaves the hub as it was. */
  function Apply<T>(h: Hub<T>, step: Step<T>): Hub<T> {
    match step
    case Commit(payload, snapshot) => if h.closed || !Lists(snapshot, h.subs) then h else AfterCommit(h, payload, snapshot)
    case Register(after) => if h.closed then h else AfterRegister(h, after)
    case Deliver(op) => if op >= |h.ops| || h.ops[op] == [] then h else AfterDeliver(h, op)
    case Receive(id) => if id !in h.subs || h.subs[id].buffer == [] then h else AfterReceive(h, id)
    case Unsubscribe(id) => h.(subs := h.subs - {id})
    case Shutdown => if h.closed then h else h.(closed := true, subs := map[])
  }

  function Exec<T>(h: Hub<T>, steps: seq<Step<T>>): Hub<T> {
    if steps == [] then h else Apply(Exec(h, steps[..|steps| - 1]), steps[|steps| - 1])
  }
}
