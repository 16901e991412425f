/** The audio runtime as a state machine: the ready and pending queue, the one current item, syntheses in flight,
the renderer's lease, and sound-then-speech chains.

Every call holds the manager's lock, and so does the end of each synthesis; each is one step. Results of
syntheses in flight may come in any order and at any time, also for items long gone. */
module AudioSpec {
  import opened Common

  datatype Source = GlobalTts | AlertSound | AlertTts

  /** The alert an item belongs to, and the rest of its chain. */
  datatype Link = Link(instance: string, next: Option<Item>)

  /** One accepted item; ids come from a supply that never repeats. */
  datatype Item = Item(id: nat, source: Source, content: string, synthetic: bool, expiresAt: Option<int>, link: Option<Link>)

  datatype Playback = Synthesizing | WaitingForRenderer | Ready | Playing

  /** Audio, and the item it was synthesized for. */
  datatype Audio = Audio(of: Item, bytes: string)

  datatype Current = Current(item: Item, audio: Option<Audio>, token: string, sequence: nat, playback: Playback)

  datatype Counters = Counters(enqueued: nat, dropped: nat, expired: nat, rejected: nat, skipped: nat, synthetic: nat)

  datatype Totals = Totals(played: nat, playbackFailed: nat, synthesisFailed: nat, interrupted: nat, interruptedByAlert: nat)

  datatype Ending = Played | PlaybackFailed | SynthesisFailed | Interrupted | InterruptedByAlert | Skipped | Cancelled

  /** What happened, for the record. */
  datatype Event =
    | Offered(item: Item)
    | Promoted(item: Item)
    | Ended(item: Item, how: Ending)
    | RendererLost
    | ResultDiscarded(item: Item)

  type Trace = seq<Event>

  datatype AlertState = NeverRequested | Started | IsPlaying | HasEnded | HasFailed | NoRenderer

  datatype Runtime = Runtime(
    capacity: int, maxBytes: int, ready: seq<Item>, pending: seq<Item>, counters: Counters,
    current: Option<Current>, handle: Option<nat>, renderer: Option<string>, sequence: nat, totals: Totals,
    outcomes: map<string, AlertState>, inFlight: set<Item>, nextId: nat, trace: Trace)

  datatype Request = Request(source: Source, content: string)

  datatype AckKind = AckStarted | AckEnded | AckFailed | AckOther

  function Fresh(capacity: int, maxBytes: int): Runtime {
    Runtime(capacity, maxBytes, [], [], Counters(0, 0, 0, 0, 0, 0), None, None, None, 0, Totals(0, 0, 0, 0, 0), map[], {}, 0, [])
  }

  function NextOf(item: Item): Option<Item> {
    if item.link.Some? then item.link.value.next else None
  }

  predicate Expired(item: Item, now: int) {
    item.expiresAt.Some? && now > item.expiresAt.value
  }

  predicate LinkedTo(item: Item, instance: string) {
    item.link.Some? && item.link.value.instance == instance
  }

  // ----- the queue -----

  function WithCounted(c: Counters, item: Item): Counters {
    c.(enqueued := c.enqueued + 1, synthetic := c.synthetic + if item.synthetic then 1 else 0)
  }

  predicate IsFull(r: Runtime) {
    |r.ready| + |r.pending| >= r.capacity
  }

  function Accept(r: Runtime, item: Item, manual: bool): Runtime {
    if IsFull(r) then r.(counters := r.counters.(dropped := r.counters.dropped + 1))
    else if manual then r.(pending := r.pending + [item], counters := WithCounted(r.counters, item))
    else r.(ready := r.ready + [item], counters := WithCounted(r.counters, item))
  }

  function IndexOf(items: seq<Item>, id: nat): (i: nat)
    ensures i <= |items|
    ensures i < |items| ==> items[i].id == id
  {
    if items == [] then 0 else if items[0].id == id then 0 else 1 + IndexOf(items[1..], id)
  }

  function RemoveAt(items: seq<Item>, i: nat): seq<Item>
    requires i < |items|
  {
    items[..i] + items[i + 1..]
  }

  function Approve(r: Runtime, id: nat): Runtime {
    var i := IndexOf(r.pending, id);
    if i == |r.pending| then r else r.(pending := RemoveAt(r.pending, i), ready := r.ready + [r.pending[i]])
  }

  function Reject(r: Runtime, id: nat): Runtime {
    var i := IndexOf(r.pending, id);
    if i == |r.pending| then r
    else r.(pending := RemoveAt(r.pending, i), counters := r.counters.(rejected := r.counters.rejected + 1))
  }

  function Kept(items: seq<Item>, now: int): (kept: seq<Item>)
    ensures |kept| <= |items|
  {
    if items == [] then [] else (if Expired(items[0], now) then [] else [items[0]]) + Kept(items[1..], now)
  }

  function DiscardExpired(r: Runtime, now: int): Runtime {
    var kept := Kept(r.ready, now);
    r.(ready := kept, counters := r.counters.(expired := r.counters.expired + (|r.ready| - |kept|)))
  }

  /** How many expired items stand before the first that is not. */
  function ExpiredAhead(items: seq<Item>, now: int): (n: nat)
    ensures n <= |items|
    ensures n < |items| ==> !Expired(items[n], now)
  {
    if items == [] || !Expired(items[0], now) then 0 else 1 + ExpiredAhead(items[1..], now)
  }

  function SkipExpired(r: Runtime, now: int): Runtime {
    var n := ExpiredAhead(r.ready, now);
    r.(ready := r.ready[n..], counters := r.counters.(expired := r.counters.expired + n))
  }

  function ClearQueue(r: Runtime): Runtime {
    r.(ready := [], pending := [])
  }

  function Unlinked(items: seq<Item>, instance: string): seq<Item> {
    if items == [] then []
    else (if LinkedTo(items[0], instance) then [] else [items[0]]) + Unlinked(items[1..], instance)
  }

  // ----- the current item -----

  function Note(r: Runtime, e: Event): Runtime {
    r.(trace := r.trace + [e])
  }

  function Promote(r: Runtime, item: Item): Runtime {
    Note(r.(current := Some(Current(item, None, "", 0, Synthesizing)), handle := Some(item.id),
            inFlight := r.inFlight + {item}),
         Promoted(item))
  }

  /** Counts the ending where the source has a counter for it; cancelling has none. */
  function Count(r: Runtime, how: Ending): Runtime {
    match how
    case Played => r.(totals := r.totals.(played := r.totals.played + 1))
    case PlaybackFailed => r.(totals := r.totals.(playbackFailed := r.totals.playbackFailed + 1))
    case SynthesisFailed => r.(totals := r.totals.(synthesisFailed := r.totals.synthesisFailed + 1))
    case Interrupted => r.(totals := r.totals.(interrupted := r.totals.interrupted + 1))
    case InterruptedByAlert => r.(totals := r.totals.(interruptedByAlert := r.totals.interruptedByAlert + 1))
    case Skipped => r.(counters := r.counters.(skipped := r.counters.skipped + 1))
    case Cancelled => r
  }

  function End(r: Runtime, how: Ending): Runtime
    requires r.current.Some?
  {
    Note(Count(r, how).(current := None), Ended(r.current.value.item, how))
  }

  function Record(r: Runtime, item: Item, outcome: AlertState): Runtime {
    if item.link.None? then r else r.(outcomes := r.outcomes[item.link.value.instance := outcome])
  }

  /** The current item is over by itself: its chain goes on, or the alert's outcome is recorded. */
  function Finish(r: Runtime, how: Ending, outcome: AlertState): Runtime
    requires r.current.Some?
  {
    var item := r.current.value.item;
    if NextOf(item).Some? then Promote(End(r, how), NextOf(item).value) else Record(End(r, how), item, outcome)
  }

  /** The current item is discarded, and its chain with it. */
  function Abort(r: Runtime, how: Ending): Runtime
    requires r.current.Some?
  {
    Record(End(r, how), r.current.value.item, HasFailed)
  }

  // ----- the steps -----

  /** The poll loop. */
  function Tick(r: Runtime, now: int): Runtime {
    var d := DiscardExpired(r, now);
    if d.current.Some? || d.renderer.None? then d
    else
      var s := SkipExpired(d, now);
      if s.ready == [] then s else Promote(s.(ready := s.ready[1..]), s.ready[0])
  }

  /** An eligible event's item, or a spoken test. */
  function Submit(r: Runtime, content: string, synthetic: bool, manual: bool, expiresAt: int): Runtime {
    OfferOne(r, Item(r.nextId, GlobalTts, content, synthetic, Some(expiresAt), None), manual)
  }

  function OfferOne(r: Runtime, item: Item, manual: bool): Runtime {
    Accept(Note(r.(nextId := r.nextId + 1), Offered(item)), item, manual)
  }

  function Chain(requests: seq<Request>, firstId: nat, instance: string): Item
    requires requests != []
    decreases |requests|
  {
    var next := if |requests| == 1 then None else Some(Chain(requests[1..], firstId + 1, instance));
    Item(firstId, requests[0].source, requests[0].content, false, None, Some(Link(instance, next)))
  }

  /** Global speech gives way to an alert's audio at once; anything else makes it wait its turn. */
  function Preempt(r: Runtime): Runtime {
    if r.current.Some? && r.current.value.item.source == GlobalTts then End(r, InterruptedByAlert) else r
  }

  function Place(r: Runtime, first: Item, instance: string): Runtime {
    if r.current.None? then Promote(r, first)
    else if IsFull(r) then Accept(r, first, false).(outcomes := r.outcomes[instance := HasFailed])
    else Accept(r, first, false)
  }

  /** `ids` is how many ids the supply yields before it fails. */
  function EnqueueAlert(r: Runtime, instance: string, requests: seq<Request>, ids: nat): Runtime {
    if requests == [] then r
    else if ids < |requests| then r.(nextId := r.nextId + ids)
    else
      var first := Chain(requests, r.nextId, instance);
      Place(Note(Preempt(r).(nextId := r.nextId + |requests|), Offered(first)), first, instance)
  }

  function CancelAlert(r: Runtime, instance: string): Runtime {
    var c := if r.current.Some? && LinkedTo(r.current.value.item, instance) then End(r, Cancelled) else r;
    c.(ready := Unlinked(c.ready, instance), pending := Unlinked(c.pending, instance), outcomes := c.outcomes - {instance})
  }

  function Attach(r: Runtime, item: Item, bytes: string, token: string): Runtime
    requires r.current.Some?
  {
    var playback := if r.renderer.Some? then Ready else WaitingForRenderer;
    r.(sequence := r.sequence + 1,
       current := Some(r.current.value.(audio := Some(Audio(item, bytes)), token := token,
                                        sequence := r.sequence + 1, playback := playback)))
  }

  predicate IsCurrent(r: Runtime, id: nat) {
    r.current.Some? && r.current.value.item.id == id
  }

  predicate Usable(r: Runtime, bytes: Option<string>, token: Option<string>) {
    bytes.Some? && !(r.maxBytes > 0 && |bytes.value| > r.maxBytes) && token.Some?
  }

  /** The synthesis started for `item` ends, with bytes or an error, whatever is current by then. */
  function Synthesized(r: Runtime, item: Item, bytes: Option<string>, token: Option<string>): Runtime {
    if item !in r.inFlight then r
    else
      var s := r.(inFlight := r.inFlight - {item}, handle := None);
      if !IsCurrent(s, item.id) then Note(s, ResultDiscarded(item))
      else if !Usable(s, bytes, token) then Finish(s, SynthesisFailed, HasFailed)
      else Attach(s, item, bytes.value, token.value)
  }

  function Skip(r: Runtime): Runtime {
    if r.current.None? then r else Abort(r, Skipped)
  }

  function WithPlayback(r: Runtime, playback: Playback): Runtime
    requires r.current.Some?
  {
    r.(current := Some(r.current.value.(playback := playback)))
  }

  function Connect(r: Runtime, token: string): Runtime {
    var c := r.(renderer := Some(token));
    if c.current.Some? && c.current.value.playback == WaitingForRenderer then WithPlayback(c, Ready) else c
  }

  function Disconnect(r: Runtime, token: string): Runtime {
    if r.renderer != Some(token) then r
    else
      var d := Note(r.(renderer := None), RendererLost);
      if d.current.None? then d
      else if d.current.value.playback == Playing then Abort(d, Interrupted)
      else WithPlayback(d, WaitingForRenderer)
  }

  /** Whether an acknowledgement is applied. */
  predicate Acceptable(r: Runtime, token: string, id: nat, kind: AckKind) {
    && r.renderer == Some(token) && IsCurrent(r, id)
    && match kind
       case AckStarted => r.current.value.playback == Ready
       case AckEnded => r.current.value.playback == Playing
       case AckFailed => r.current.value.playback == Playing || r.current.value.playback == Ready
       case AckOther => false
  }

  function Acknowledge(r: Runtime, token: string, id: nat, kind: AckKind): Runtime {
    if !Acceptable(r, token, id, kind) then r
    else match kind
      case AckStarted => WithPlayback(r, Playing)
      case AckEnded => Finish(r, Played, HasEnded)
      case AckFailed => Finish(r, PlaybackFailed, HasFailed)
      case AckOther => r
  }

  /** What is known of an alert's audio; a final outcome is forgotten once read. */
  function StateOf(r: Runtime, instance: string): AlertState {
    if r.current.Some? && LinkedTo(r.current.value.item, instance) then
      match r.current.value.playback
      case Playing => IsPlaying
      case WaitingForRenderer => if r.renderer.None? then NoRenderer else Started
      case _ => Started
    else if Unlinked(r.ready, instance) != r.ready || Unlinked(r.pending, instance) != r.pending then Started
    else if instance in r.outcomes then r.outcomes[instance]
    else NeverRequested
  }

  function ReadState(r: Runtime, instance: string): Runtime {
    if r.current.Some? && LinkedTo(r.current.value.item, instance) then r
    else if Unlinked(r.ready, instance) != r.ready || Unlinked(r.pending, instance) != r.pending then r
    else r.(outcomes := r.outcomes - {instance})
  }

  /** What a request for the current audio is answered with. */
  function ServedBytes(r: Runtime, id: nat, token: string): Option<string> {
    if r.current.None? || r.current.value.token == "" then None
    else if r.current.value.item.id != id || r.current.value.token != token then None
    else if r.current.value.audio.None? then Some("")
    else Some(r.current.value.audio.value.bytes)
  }

  datatype Action =
    | DoTick(now: int)
    | DoSubmit(content: string, synthetic: bool, manual: bool, expiresAt: int)
    | DoEnqueueAlert(instance: string, requests: seq<Request>, ids: nat)
    | DoCancelAlert(instance: string)
    | DoSynthesized(item: Item, bytes: Option<string>, synthToken: Option<string>)
    | DoSkip
    | DoClear
    | DoApprove(id: nat)
    | DoReject(id: nat)
    | DoConnect(token: string)
    | DoDisconnect(token: string)
    | DoAck(token: string, id: nat, kind: AckKind)
    | DoSetCapacity(capacity: int)
    | DoReadState(instance: string)

  function Step(r: Runtime, a: Action): Runtime {
    match a
    case DoTick(now) => Tick(r, now)
    case DoSubmit(content, synthetic, manual, expiresAt) => Submit(r, content, synthetic, manual, expiresAt)
    case DoEnqueueAlert(instance, requests, ids) => EnqueueAlert(r, instance, requests, ids)
    case DoCancelAlert(instance) => CancelAlert(r, instance)
    case DoSynthesized(item, bytes, token) => Synthesized(r, item, bytes, token)
    case DoSkip => Skip(r)
    case DoClear => ClearQueue(r)
    case DoApprove(id) => Approve(r, id)
    case DoReject(id) => Reject(r, id)
    case DoConnect(token) => Connect(r, token)
    case DoDisconnect(token) => Disconnect(r, token)
    case DoAck(token, id, kind) => Acknowledge(r, token, id, kind)
    case DoSetCapacity(capacity) => r.(capacity := capacity)
    case DoReadState(instance) => ReadState(r, instance)
  }

  function Run(capacity: int, maxBytes: int, actions: seq<Action>): Runtime {
    if actions == [] then Fresh(capacity, maxBytes)
    else Step(Run(capacity, maxBytes, actions[..|actions| - 1]), actions[|actions| - 1])
  }
}
