/** The audio manager and its queue as the source has them: objects changed in place under the manager's lock.
Every method is proved to do exactly what `AudioSpec` says. */
module AudioRuntime {
  import opened Common
  import opened AudioSpec
  import opened AudioOutcomes

  /** The bounded ready and pending lists. */
  class Queue {
    var capacity: int
    var ready: seq<Item>
    var pending: seq<Item>
    var counters: Counters

    constructor (capacity: int)
      ensures this.capacity == capacity && ready == [] && pending == [] && counters == Counters(0, 0, 0, 0, 0, 0)
    {
      this.capacity, ready, pending, counters := capacity, [], [], Counters(0, 0, 0, 0, 0, 0);
    }

    method Admit(item: Item, manual: bool) returns (accepted: bool)
      modifies `ready, `pending, `counters
      ensures accepted <==> |old(ready)| + |old(pending)| < capacity
      ensures ready == if accepted && !manual then old(ready) + [item] else old(ready)
      ensures pending == if accepted && manual then old(pending) + [item] else old(pending)
      ensures counters == if accepted then WithCounted(old(counters), item)
                          else old(counters).(dropped := old(counters).dropped + 1)
    {
      if |ready| + |pending| >= capacity {
        counters := counters.(dropped := counters.dropped + 1);
        return false;
      }
      if manual {
        pending := pending + [item];
      } else {
        ready := ready + [item];
      }
      counters := counters.(enqueued := counters.enqueued + 1);
      if item.synthetic {
        counters := counters.(synthetic := counters.synthetic + 1);
      }
      return true;
    }

    method Find(id: nat) returns (i: nat)
      ensures i == IndexOf(pending, id)
    {
      i := 0;
      while i < |pending|
        invariant i <= |pending| && IndexOf(pending, id) == i + IndexOf(pending[i..], id)
      {
        if pending[i].id == id { return; }
        assert pending[i..][1..] == pending[i + 1..];
        i := i + 1;
      }
    }

    method TakePending(i: nat) returns (item: Item)
      requires i < |pending|
      modifies `pending
      ensures item == old(pending)[i] && pending == RemoveAt(old(pending), i)
    {
      item := pending[i];
      pending := pending[..i] + pending[i + 1..];
    }

    method Approve(id: nat) returns (ok: bool)
      modifies `ready, `pending
      ensures var i := IndexOf(old(pending), id);
              && (ok <==> i < |old(pending)|)
              && pending == (if ok then RemoveAt(old(pending), i) else old(pending))
              && ready == (if ok then old(ready) + [old(pending)[i]] else old(ready))
    {
      var i := Find(id);
      if i == |pending| { return false; }
      var item := TakePending(i);
      ready := ready + [item];
      return true;
    }

    method Reject(id: nat) returns (ok: bool)
      modifies `pending, `counters
      ensures var i := IndexOf(old(pending), id);
              && (ok <==> i < |old(pending)|)
              && pending == (if ok then RemoveAt(old(pending), i) else old(pending))
              && counters == old(counters).(rejected := old(counters).rejected + if ok then 1 else 0)
    {
      var i := Find(id);
      if i == |pending| { return false; }
      var _ := TakePending(i);
      counters := counters.(rejected := counters.rejected + 1);
      return true;
    }

    /** Removes and returns the oldest ready item that has not expired, counting the expired ones passed over. */
    method PopNextEligible(now: int) returns (item: Option<Item>)
      modifies `ready, `counters
      ensures var n := ExpiredAhead(old(ready), now);
              && counters == old(counters).(expired := old(counters).expired + n)
              && (item.None? <==> n == |old(ready)|) && (item.Some? ==> item.value == old(ready)[n])
              && ready == (if item.Some? then old(ready)[n + 1..] else [])
    {
      ghost var n := 0;
      while |ready| > 0
        invariant n <= |old(ready)| && ready == old(ready)[n..]
        invariant ExpiredAhead(old(ready), now) == n + ExpiredAhead(ready, now)
        invariant counters == old(counters).(expired := old(counters).expired + n)
        decreases |ready|
      {
        var candidate := ready[0];
        ready := ready[1..];
        if Expired(candidate, now) {
          counters := counters.(expired := counters.expired + 1);
          n := n + 1;
        } else {
          return Some(candidate);
        }
      }
      return None;
    }

    method DiscardExpired(now: int) returns (discarded: nat)
      modifies `ready, `counters
      ensures ready == Kept(old(ready), now) && discarded == |old(ready)| - |ready|
      ensures counters == old(counters).(expired := old(counters).expired + discarded)
    {
      var kept: seq<Item> := [];
      discarded := 0;
      for i := 0 to |ready|
        invariant ready == old(ready) && counters == old(counters)
        invariant kept + Kept(ready[i..], now) == Kept(ready, now)
        invariant |kept| + discarded == i
      {
        assert ready[i..][0] == ready[i] && ready[i..][1..] == ready[i + 1..];
        Assoc(kept, if Expired(ready[i], now) then [] else [ready[i]], Kept(ready[i + 1..], now));
        if Expired(ready[i], now) {
          discarded := discarded + 1;
        } else {
          kept := kept + [ready[i]];
        }
      }
      ready := kept;
      counters := counters.(expired := counters.expired + discarded);
    }

    method Clear() returns (removed: nat)
      modifies `ready, `pending
      ensures ready == [] && pending == [] && removed == |old(ready)| + |old(pending)|
    {
      removed := |ready| + |pending|;
      ready, pending := [], [];
    }

    method WithoutLinked(items: seq<Item>, instance: string) returns (kept: seq<Item>, removed: nat)
      ensures kept == Unlinked(items, instance) && removed == |items| - |kept|
    {
      kept, removed := [], 0;
      for i := 0 to |items|
        invariant kept + Unlinked(items[i..], instance) == Unlinked(items, instance) && |kept| + removed == i
      {
        assert items[i..][0] == items[i] && items[i..][1..] == items[i + 1..];
        Assoc(kept, if LinkedTo(items[i], instance) then [] else [items[i]], Unlinked(items[i + 1..], instance));
        if LinkedTo(items[i], instance) {
          removed := removed + 1;
        } else {
          kept := kept + [items[i]];
        }
      }
    }

    method RemoveLinked(instance: string) returns (removed: nat)
      modifies `ready, `pending
      ensures ready == Unlinked(old(ready), instance) && pending == Unlinked(old(pending), instance)
      ensures removed == |old(ready)| + |old(pending)| - |ready| - |pending|
    {
      var fromReady, fromPending;
      ready, fromReady := WithoutLinked(ready, instance);
      pending, fromPending := WithoutLinked(pending, instance);
      return fromReady + fromPending;
    }

    method HasLinked(items: seq<Item>, instance: string) returns (found: bool)
      ensures found <==> AnyLinked(items, instance)
    {
      for i := 0 to |items|
        invariant forall k | 0 <= k < i :: !LinkedTo(items[k], instance)
      {
        if LinkedTo(items[i], instance) { return true; }
      }
      return false;
    }
  }

  lemma {:induction false} FoundIffThere(items: seq<Item>, id: nat)
    ensures IndexOf(items, id) < |items| <==> exists x | x in items :: x.id == id
  {
    if items != [] {
      FoundIffThere(items[1..], id);
      assert items == [items[0]] + items[1..];
      if x :| x in items[1..] && x.id == id { assert x in items; }
    }
  }

  class Manager {
    const queue: Queue
    const maxBytes: int
    var current: Option<Current>
    var currentSynthCancel: Option<nat>
    var rendererSession: Option<string>
    var sequence: nat
    var totals: Totals
    var alertAudioStates: map<string, AlertState>
    /** How many ids the supply has yielded. */
    var idsDrawn: nat
    /** The syntheses still running, and what has happened. */
    ghost var inFlight: set<Item>
    ghost var trace: Trace

    ghost function State(): Runtime
      reads this, queue
    {
      Runtime(queue.capacity, maxBytes, queue.ready, queue.pending, queue.counters, current, currentSynthCancel,
              rendererSession, sequence, totals, alertAudioStates, inFlight, idsDrawn, trace)
    }

    constructor (capacity: int, maxBytes: int)
      ensures fresh(queue) && State() == Fresh(capacity, maxBytes)
    {
      queue := new Queue(capacity);
      this.maxBytes := maxBytes;
      current, currentSynthCancel, rendererSession, sequence := None, None, None, 0;
      totals, alertAudioStates, idsDrawn := Totals(0, 0, 0, 0, 0), map[], 0;
      inFlight, trace := {}, [];
    }

    // ----- the current item -----

    /** Makes item current and starts its synthesis. */
    method PromoteLocked(item: Item)
      modifies `current, `currentSynthCancel, `inFlight, `trace
      ensures State() == Promote(old(State()), item)
    {
      current := Some(Current(item, None, "", 0, Synthesizing));
      currentSynthCancel := Some(item.id);
      inFlight := inFlight + {item};
      trace := trace + [Promoted(item)];
    }

    /** Clears the current item, the counter of its ending already counted. */
    method DropCurrent(ghost how: Ending, ghost before: Runtime) returns (finished: Item)
      requires current.Some? && State() == Count(before, how)
      modifies `current, `trace
      ensures finished == old(current).value.item && before.current == old(current) && State() == End(before, how)
    {
      finished := current.value.item;
      current := None;
      trace := trace + [Ended(finished, how)];
    }

    method RecordOutcome(item: Item, outcome: AlertState)
      modifies `alertAudioStates
      ensures State() == Record(old(State()), item, outcome)
    {
      if item.link.None? { return; }
      alertAudioStates := alertAudioStates[item.link.value.instance := outcome];
    }

    /** Clears the current item after it ended by itself, its counter already counted. */
    method FinishCurrentLocked(outcome: AlertState, ghost how: Ending, ghost before: Runtime)
      requires current.Some? && State() == Count(before, how)
      modifies `current, `currentSynthCancel, `inFlight, `trace, `alertAudioStates
      ensures before.current.Some? && State() == Finish(before, how, outcome)
    {
      var finished := DropCurrent(how, before);
      if finished.link.None? { return; }
      var next := finished.link.value.next;
      if next.Some? {
        PromoteLocked(next.value);
        return;
      }
      RecordOutcome(finished, outcome);
    }

    /** Discards the current item and its chain, its counter already counted. */
    method AbortCurrentLocked(ghost how: Ending, ghost before: Runtime)
      requires current.Some? && State() == Count(before, how)
      modifies `current, `trace, `alertAudioStates
      ensures before.current.Some? && State() == Abort(before, how)
    {
      var finished := DropCurrent(how, before);
      RecordOutcome(finished, HasFailed);
    }

    /** The end of a synthesis: attached if its item is still current, else discarded. */
    method SynthesisDone(item: Item, bytes: Option<string>, token: Option<string>)
      requires item in inFlight
      modifies this
      ensures State() == Synthesized(old(State()), item, bytes, token)
    {
      inFlight := inFlight - {item};
      currentSynthCancel := None;
      if current.None? || current.value.item.id != item.id {
        trace := trace + [ResultDiscarded(item)];
        return;
      }
      if bytes.None? || (maxBytes > 0 && |bytes.value| > maxBytes) || token.None? {
        ghost var before := State();
        totals := totals.(synthesisFailed := totals.synthesisFailed + 1);
        FinishCurrentLocked(HasFailed, SynthesisFailed, before);
        return;
      }
      sequence := sequence + 1;
      current := Some(current.value.(audio := Some(Audio(item, bytes.value)), token := token.value, sequence := sequence,
                                     playback := if rendererSession.Some? then Ready else WaitingForRenderer));
    }

    // ----- the poll loop and what feeds it -----

    method Tick(now: int)
      modifies this, queue
      ensures State() == AudioSpec.Tick(old(State()), now)
    {
      var _ := queue.DiscardExpired(now);
      if current.Some? || rendererSession.None? { return; }
      var item := queue.PopNextEligible(now);
      if item.None? { return; }

      PromoteLocked(item.value);
    }

    method SubmitItem(content: string, synthetic: bool, manual: bool, expiresAt: int) returns (accepted: bool)
      modifies `idsDrawn, `trace, queue
      ensures State() == Submit(old(State()), content, synthetic, manual, expiresAt)
      ensures accepted <==> !IsFull(old(State()))
    {
      var item := Item(idsDrawn, GlobalTts, content, synthetic, Some(expiresAt), None);
      idsDrawn := idsDrawn + 1;
      trace := trace + [Offered(item)];
      accepted := queue.Admit(item, manual);
    }

    /** Builds the chain for an alert's audio, or nothing when the id supply fails. */
    method BuildChain(instance: string, requests: seq<Request>, ids: nat) returns (first: Option<Item>)
      requires requests != []
      modifies `idsDrawn
      ensures first.Some? <==> ids >= |requests|
      ensures idsDrawn == old(idsDrawn) + if first.Some? then |requests| else ids
      ensures first.Some? ==> first.value == Chain(requests, old(idsDrawn), instance)
    {
      var built: seq<Item> := [];
      for i := 0 to |requests|
        invariant i <= ids && |built| == i && idsDrawn == old(idsDrawn) + i
        invariant forall k | 0 <= k < i ::
                    built[k] == Item(old(idsDrawn) + k, requests[k].source, requests[k].content, false, None, Some(Link(instance, None)))
      {
        if i == ids { return None; }
        built := built + [Item(idsDrawn, requests[i].source, requests[i].content, false, None, Some(Link(instance, None)))];
        idsDrawn := idsDrawn + 1;
      }
      var i := |built| - 1;
      first := Some(built[i]);
      assert requests[i..] == [requests[i]];
      while i > 0
        invariant 0 <= i < |built| && first == Some(Chain(requests[i..], old(idsDrawn) + i, instance))
      {
        i := i - 1;
        assert requests[i..][0] == requests[i] && requests[i..][1..] == requests[i + 1..];
        first := Some(built[i].(link := Some(Link(instance, first))));
      }
    }

    method PreemptSpeech()
      modifies `current, `trace, `totals
      ensures State() == Preempt(old(State()))
    {
      if current.Some? && current.value.item.source == GlobalTts {
        ghost var before := State();
        totals := totals.(interruptedByAlert := totals.interruptedByAlert + 1);
        var _ := DropCurrent(InterruptedByAlert, before);
      }
    }

    method PlaceFirst(first: Item, instance: string)
      modifies this, queue
      ensures State() == Place(old(State()), first, instance)
    {
      if current.None? {
        PromoteLocked(first);
        return;
      }
      var accepted := queue.Admit(first, false);
      if !accepted {
        alertAudioStates := alertAudioStates[instance := HasFailed];
      }
    }

    /** Plays an alert's audio: at once over global speech or silence, else in its turn. */
    method EnqueueAlertAudio(instance: string, requests: seq<Request>, ids: nat)
      modifies this, queue
      ensures State() == EnqueueAlert(old(State()), instance, requests, ids)
    {
      if requests == [] { return; }
      var first := BuildChain(instance, requests, ids);
      if first.None? { return; }
      PreemptSpeech();
      trace := trace + [Offered(first.value)];
      PlaceFirst(first.value, instance);
    }

    method CancelAlertAudio(instance: string)
      modifies this, queue
      ensures State() == CancelAlert(old(State()), instance)
    {
      if current.Some? && LinkedTo(current.value.item, instance) {
        var _ := DropCurrent(Cancelled, State());
      }
      var _ := queue.RemoveLinked(instance);
      alertAudioStates := alertAudioStates - {instance};
    }

    // ----- the operator -----

    method SkipCurrent() returns (skipped: bool)
      modifies this, queue
      ensures State() == Skip(old(State())) && (skipped <==> old(current).Some?)
    {
      if current.None? { return false; }
      ghost var before := State();
      queue.counters := queue.counters.(skipped := queue.counters.skipped + 1);
      AbortCurrentLocked(Skipped, before);
      return true;
    }

    method ClearAll() returns (removed: nat)
      modifies queue
      ensures State() == ClearQueue(old(State())) && removed == |old(State()).ready| + |old(State()).pending|
    {
      removed := queue.Clear();
    }

    method ApproveItem(id: nat) returns (ok: bool)
      modifies queue
      ensures State() == Approve(old(State()), id)
      ensures ok <==> exists x | x in old(State()).pending :: x.id == id
    {
      FoundIffThere(queue.pending, id);
      ok := queue.Approve(id);
    }

    method RejectItem(id: nat) returns (ok: bool)
      modifies queue
      ensures State() == Reject(old(State()), id)
      ensures ok <==> exists x | x in old(State()).pending :: x.id == id
    {
      FoundIffThere(queue.pending, id);
      ok := queue.Reject(id);
    }

    method SetCapacity(capacity: int)
      modifies queue
      ensures State() == old(State()).(capacity := capacity)
    {
      queue.capacity := capacity;
    }

    // ----- the renderer -----

    method ConnectRenderer(token: string)
      modifies `rendererSession, `current
      ensures State() == Connect(old(State()), token)
    {
      rendererSession := Some(token);
      if current.Some? && current.value.playback == WaitingForRenderer {
        current := Some(current.value.(playback := Ready));
      }
    }

    method DisconnectRenderer(token: string)
      modifies this
      ensures State() == Disconnect(old(State()), token)
    {
      if rendererSession.None? || rendererSession.value != token { return; }
      rendererSession := None;
      trace := trace + [RendererLost];
      if current.None? { return; }
      if current.value.playback == Playing {
        ghost var before := State();
        totals := totals.(interrupted := totals.interrupted + 1);
        AbortCurrentLocked(Interrupted, before);
        return;
      }
      current := Some(current.value.(playback := WaitingForRenderer));
    }

    /** Applies one acknowledgement, or refuses it without changing anything. */
    method Ack(token: string, id: nat, kind: AckKind) returns (ok: bool)
      modifies this
      ensures ok <==> Acceptable(old(State()), token, id, kind)
      ensures State() == Acknowledge(old(State()), token, id, kind)
    {
      if rendererSession.None? || rendererSession.value != token { return false; }
      if current.None? || current.value.item.id != id { return false; }
      ghost var before := State();
      match kind {
        case AckStarted =>
          if current.value.playback != Ready { return false; }
          current := Some(current.value.(playback := Playing));
        case AckEnded =>
          if current.value.playback != Playing { return false; }
          totals := totals.(played := totals.played + 1);
          FinishCurrentLocked(HasEnded, Played, before);
        case AckFailed =>
          if current.value.playback != Playing && current.value.playback != Ready { return false; }
          totals := totals.(playbackFailed := totals.playbackFailed + 1);
          FinishCurrentLocked(HasFailed, PlaybackFailed, before);
        case AckOther =>
          return false;
      }
      return true;
    }

    // ----- what others read -----

    /** Reads an alert's audio progress; a final outcome is forgotten once read. */
    method AlertAudioState(instance: string) returns (state: AlertState)
      modifies `alertAudioStates
      ensures state == StateOf(old(State()), instance) && State() == ReadState(old(State()), instance)
    {
      if current.Some? && LinkedTo(current.value.item, instance) {
        match current.value.playback
        case Playing => return IsPlaying;
        case WaitingForRenderer => return if rendererSession.None? then NoRenderer else Started;
        case _ => return Started;
      }
      var inReady := queue.HasLinked(queue.ready, instance);
      var inPending := queue.HasLinked(queue.pending, instance);
      UnlinkedIffNone(queue.ready, instance);
      UnlinkedIffNone(queue.pending, instance);
      if inReady || inPending { return Started; }
      if instance in alertAudioStates {
        state := alertAudioStates[instance];
        alertAudioStates := alertAudioStates - {instance};
        return;
      }
      assert alertAudioStates - {instance} == alertAudioStates;
      return NeverRequested;
    }

    method CurrentAudioBytes(id: nat, token: string) returns (bytes: Option<string>)
      ensures bytes == ServedBytes(State(), id, token)
    {
      if current.None? || current.value.token == "" { return None; }
      if current.value.item.id != id || current.value.token != token { return None; }
      return Some(if current.value.audio.Some? then current.value.audio.value.bytes else "");
    }
  }
}
