/** What the alert engine can learn of an alert's audio: over every run, exactly when it is no longer known. */
module AudioOutcomes {
  import opened Common
  import opened AudioSpec

  /** A chain of one alert's items; none of them expires or is global speech. */
  ghost predicate Coherent(item: Item)
    decreases item
  {
    && item.link.Some? && item.expiresAt.None? && item.source != GlobalTts
    && (NextOf(item).Some? ==> Coherent(NextOf(item).value) && LinkedTo(NextOf(item).value, item.link.value.instance))
  }

  ghost predicate Fine(item: Item) {
    item.link.Some? ==> Coherent(item)
  }

  ghost predicate Orderly(r: Runtime) {
    && (forall x | x in r.ready :: Fine(x)) && (forall x | x in r.pending :: x.link.None?)
    && (r.current.Some? ==> Fine(r.current.value.item))
    && (forall i | i in r.outcomes :: r.outcomes[i] == HasEnded || r.outcomes[i] == HasFailed)
  }

  ghost predicate AnyLinked(items: seq<Item>, instance: string) {
    exists x | x in items :: LinkedTo(x, instance)
  }

  ghost predicate OnAir(r: Runtime, instance: string) {
    r.current.Some? && LinkedTo(r.current.value.item, instance)
  }

  /** The alert's audio is current, waiting, or has an outcome nobody has read. */
  ghost predicate Known(r: Runtime, instance: string) {
    OnAir(r, instance) || AnyLinked(r.ready, instance) || instance in r.outcomes
  }

  /** The audio of an alert is requested with sources meant for alerts only. */
  predicate Proper(a: Action) {
    a.DoEnqueueAlert? ==> forall q | q in a.requests :: q.source != GlobalTts
  }

  predicate Requests(a: Action, instance: string) {
    a.DoEnqueueAlert? && a.instance == instance && a.requests != [] && a.ids >= |a.requests|
  }

  /** Cancelling, reading a final outcome, or clearing the queue while the audio only waits there. */
  ghost predicate Forgets(r: Runtime, a: Action, instance: string) {
    || (a.DoCancelAlert? && a.instance == instance)
    || (a.DoReadState? && a.instance == instance && !OnAir(r, instance) && !AnyLinked(r.ready, instance))
    || (a.DoClear? && !OnAir(r, instance) && instance !in r.outcomes)
  }

  // ----- the queue -----

  lemma {:induction false} UnlinkedIffNone(items: seq<Item>, instance: string)
    ensures Unlinked(items, instance) == items <==> !AnyLinked(items, instance)
    ensures |Unlinked(items, instance)| <= |items|
  {
    if items != [] {
      UnlinkedIffNone(items[1..], instance);
      assert items == [items[0]] + items[1..];
      if LinkedTo(items[0], instance) {
        assert AnyLinked(items, instance);
      } else {
        assert Unlinked(items, instance)[1..] == Unlinked(items[1..], instance);
        if AnyLinked(items[1..], instance) {
          var x :| x in items[1..] && LinkedTo(x, instance);
          assert x in items;
        }
      }
    }
  }

  lemma {:induction false} UnlinkedHolds(items: seq<Item>, instance: string, x: Item)
    ensures x in Unlinked(items, instance) <==> x in items && !LinkedTo(x, instance)
  {
    if items != [] {
      UnlinkedHolds(items[1..], instance, x);
      assert items == [items[0]] + items[1..];
    }
  }

  lemma {:induction false} KeptHolds(items: seq<Item>, now: int, x: Item)
    ensures x in Kept(items, now) <==> x in items && !Expired(x, now)
  {
    if items != [] {
      KeptHolds(items[1..], now, x);
      assert items == [items[0]] + items[1..];
    }
  }

  /** Expiry takes nothing that is linked to an alert. */
  lemma {:induction false} DiscardKeepsLinks(r: Runtime, now: int, instance: string)
    requires Orderly(r)
    ensures var s := SkipExpired(DiscardExpired(r, now), now);
            && Orderly(DiscardExpired(r, now)) && Orderly(s)
            && (AnyLinked(DiscardExpired(r, now).ready, instance) <==> AnyLinked(r.ready, instance))
            && (AnyLinked(s.ready, instance) <==> AnyLinked(r.ready, instance))
  {
    var d := DiscardExpired(r, now);
    forall x ensures x in d.ready <==> x in r.ready && !Expired(x, now) { KeptHolds(r.ready, now, x); }
    if d.ready != [] { assert d.ready[0] in d.ready; }
    assert ExpiredAhead(d.ready, now) == 0 && d.ready[0..] == d.ready;
  }

  // ----- the current item -----

  lemma {:induction false} FinishKnows(r: Runtime, how: Ending, outcome: AlertState, instance: string)
    requires Orderly(r) && r.current.Some? && (outcome == HasEnded || outcome == HasFailed)
    ensures Orderly(Finish(r, how, outcome))
    ensures Known(Finish(r, how, outcome), instance) <==> Known(r, instance)
  {
    assert End(r, how).ready == r.ready && End(r, how).pending == r.pending && End(r, how).outcomes == r.outcomes;
  }

  lemma {:induction false} AbortKnows(r: Runtime, how: Ending, instance: string)
    requires Orderly(r) && r.current.Some?
    ensures Orderly(Abort(r, how))
    ensures Known(Abort(r, how), instance) <==> Known(r, instance)
  {
  }

  lemma {:induction false} TickKnows(r: Runtime, now: int, instance: string)
    requires Orderly(r)
    ensures Orderly(Tick(r, now))
    ensures Known(Tick(r, now), instance) <==> Known(r, instance)
  {
    DiscardKeepsLinks(r, now, instance);
    var s := SkipExpired(DiscardExpired(r, now), now);
    if r.current.None? && r.renderer.Some? && s.ready != [] {
      assert s.ready == [s.ready[0]] + s.ready[1..];
      assert AnyLinked(s.ready, instance) <==> LinkedTo(s.ready[0], instance) || AnyLinked(s.ready[1..], instance);
    }
  }

  lemma {:induction false} ChainIsCoherent(requests: seq<Request>, firstId: nat, instance: string)
    requires requests != [] && forall q | q in requests :: q.source != GlobalTts
    ensures Coherent(Chain(requests, firstId, instance)) && LinkedTo(Chain(requests, firstId, instance), instance)
    decreases |requests|
  {
    assert requests[0] in requests;
    if |requests| > 1 {
      assert forall q | q in requests[1..] :: q in requests;
      ChainIsCoherent(requests[1..], firstId + 1, instance);
    }
  }

  lemma {:induction false} EnqueueAlertKnows(r: Runtime, owner: string, requests: seq<Request>, ids: nat, instance: string)
    requires Orderly(r) && forall q | q in requests :: q.source != GlobalTts
    ensures Orderly(EnqueueAlert(r, owner, requests, ids))
    ensures Known(EnqueueAlert(r, owner, requests, ids), instance)
            <==> Known(r, instance) || (instance == owner && requests != [] && ids >= |requests|)
  {
    if requests != [] && ids >= |requests| {
      var first := Chain(requests, r.nextId, owner);
      var s := Note(Preempt(r).(nextId := r.nextId + |requests|), Offered(first));
      ChainIsCoherent(requests, r.nextId, owner);
      assert Orderly(s) && (Known(s, instance) <==> Known(r, instance));
    }
  }

  lemma {:induction false} CancelAlertKnows(r: Runtime, owner: string, instance: string)
    requires Orderly(r)
    ensures Orderly(CancelAlert(r, owner))
    ensures Known(CancelAlert(r, owner), instance) <==> Known(r, instance) && instance != owner
  {
    var s := CancelAlert(r, owner);
    forall x ensures x in s.ready <==> x in r.ready && !LinkedTo(x, owner) { UnlinkedHolds(r.ready, owner, x); }
    forall x ensures x in s.pending <==> x in r.pending && !LinkedTo(x, owner) { UnlinkedHolds(r.pending, owner, x); }
  }

  lemma {:induction false} SynthesizedKnows(r: Runtime, item: Item, bytes: Option<string>, token: Option<string>, instance: string)
    requires Orderly(r)
    ensures Orderly(Synthesized(r, item, bytes, token))
    ensures Known(Synthesized(r, item, bytes, token), instance) <==> Known(r, instance)
  {
    var s := r.(inFlight := r.inFlight - {item}, handle := None);
    if item in r.inFlight && IsCurrent(s, item.id) && !Usable(s, bytes, token) {
      FinishKnows(s, SynthesisFailed, HasFailed, instance);
    }
  }

  lemma {:induction false} ApproveKnows(r: Runtime, id: nat, instance: string)
    requires Orderly(r)
    ensures Orderly(Approve(r, id)) && Orderly(Reject(r, id))
    ensures Known(Approve(r, id), instance) <==> Known(r, instance)
    ensures Known(Reject(r, id), instance) <==> Known(r, instance)
  {
    var i := IndexOf(r.pending, id);
    if i < |r.pending| {
      assert r.pending[i] in r.pending;
      assert forall x | x in RemoveAt(r.pending, i) :: x in r.pending;
      assert forall x :: x in Approve(r, id).ready <==> x in r.ready || x == r.pending[i];
    }
  }

  lemma {:induction false} DisconnectKnows(r: Runtime, token: string, instance: string)
    requires Orderly(r)
    ensures Orderly(Disconnect(r, token))
    ensures Known(Disconnect(r, token), instance) <==> Known(r, instance)
  {
    var d := Note(r.(renderer := None), RendererLost);
    if r.renderer == Some(token) && d.current.Some? && d.current.value.playback == Playing {
      AbortKnows(d, Interrupted, instance);
    }
  }

  lemma {:induction false} AcknowledgeKnows(r: Runtime, token: string, id: nat, kind: AckKind, instance: string)
    requires Orderly(r)
    ensures Orderly(Acknowledge(r, token, id, kind))
    ensures Known(Acknowledge(r, token, id, kind), instance) <==> Known(r, instance)
  {
    if Acceptable(r, token, id, kind) {
      match kind
      case AckStarted =>
      case AckEnded => FinishKnows(r, Played, HasEnded, instance);
      case AckFailed => FinishKnows(r, PlaybackFailed, HasFailed, instance);
    }
  }

  lemma {:induction false} ReadKnows(r: Runtime, owner: string, instance: string)
    requires Orderly(r)
    ensures Orderly(ReadState(r, owner))
    ensures Known(ReadState(r, owner), instance) <==> Known(r, instance) && !Forgets(r, DoReadState(owner), instance)
  {
    UnlinkedIffNone(r.ready, owner);
    UnlinkedIffNone(r.pending, owner);
  }

  lemma {:induction false} SubmitKnows(r: Runtime, content: string, synthetic: bool, manual: bool, expiresAt: int, instance: string)
    requires Orderly(r)
    ensures Orderly(Submit(r, content, synthetic, manual, expiresAt))
    ensures Known(Submit(r, content, synthetic, manual, expiresAt), instance) <==> Known(r, instance)
  {
    var item := Item(r.nextId, GlobalTts, content, synthetic, Some(expiresAt), None);
    assert AnyLinked(r.ready + [item], instance) <==> AnyLinked(r.ready, instance);
  }

  lemma {:induction false} ClearKnows(r: Runtime, instance: string)
    requires Orderly(r)
    ensures Orderly(ClearQueue(r))
    ensures Known(ClearQueue(r), instance) <==> OnAir(r, instance) || instance in r.outcomes
  {
  }

  /** One step: an alert's audio is known afterwards iff it was requested just now, or was known and is not forgotten. */
  lemma {:induction false} StepKnows(r: Runtime, a: Action, instance: string)
    requires Orderly(r) && Proper(a)
    ensures Orderly(Step(r, a))
    ensures Known(Step(r, a), instance) <==> Requests(a, instance) || (Known(r, instance) && !Forgets(r, a, instance))
  {
    match a
    case DoTick(now) => TickKnows(r, now, instance);
    case DoEnqueueAlert(owner, requests, ids) => EnqueueAlertKnows(r, owner, requests, ids, instance);
    case DoCancelAlert(owner) => CancelAlertKnows(r, owner, instance);
    case DoSynthesized(item, bytes, token) => SynthesizedKnows(r, item, bytes, token, instance);
    case DoSkip => if r.current.Some? { AbortKnows(r, Skipped, instance); }
    case DoApprove(id) => ApproveKnows(r, id, instance);
    case DoReject(id) => ApproveKnows(r, id, instance);
    case DoDisconnect(token) => DisconnectKnows(r, token, instance);
    case DoAck(token, id, kind) => AcknowledgeKnows(r, token, id, kind, instance);
    case DoReadState(owner) => ReadKnows(r, owner, instance);
    case DoSubmit(content, synthetic, manual, expiresAt) => SubmitKnows(r, content, synthetic, manual, expiresAt, instance);
    case DoClear => ClearKnows(r, instance);
    case _ =>
  }

  /** Requested, and not forgotten since. */
  ghost predicate Awaited(capacity: int, maxBytes: int, actions: seq<Action>, instance: string) {
    actions != [] &&
    var before, a := actions[..|actions| - 1], actions[|actions| - 1];
    Requests(a, instance)
    || (Awaited(capacity, maxBytes, before, instance) && !Forgets(Run(capacity, maxBytes, before), a, instance))
  }

  lemma {:induction false} KnownIffAwaited(capacity: int, maxBytes: int, actions: seq<Action>, instance: string)
    requires forall a | a in actions :: Proper(a)
    ensures Orderly(Run(capacity, maxBytes, actions))
    ensures Known(Run(capacity, maxBytes, actions), instance) <==> Awaited(capacity, maxBytes, actions, instance)
  {
    if actions != [] {
      var before, a := actions[..|actions| - 1], actions[|actions| - 1];
      assert actions == before + [a];
      KnownIffAwaited(capacity, maxBytes, before, instance);
      StepKnows(Run(capacity, maxBytes, before), a, instance);
    }
  }

  lemma {:induction false} StateTellsKnown(r: Runtime, instance: string)
    requires Orderly(r)
    ensures StateOf(r, instance) != NeverRequested <==> Known(r, instance)
  {
    UnlinkedIffNone(r.ready, instance);
    UnlinkedIffNone(r.pending, instance);
  }

  /** No alert's audio is lost: an alert is told that its audio was never requested exactly when it was not,
      or when since then it was cancelled, its final outcome was read, or the queue in which it waited was cleared. */
  lemma {:induction false} NeverRequestedIff(capacity: int, maxBytes: int, actions: seq<Action>, instance: string)
    requires forall a | a in actions :: Proper(a)
    ensures StateOf(Run(capacity, maxBytes, actions), instance) == NeverRequested
            <==> !Awaited(capacity, maxBytes, actions, instance)
  {
    KnownIffAwaited(capacity, maxBytes, actions, instance);
    StateTellsKnown(Run(capacity, maxBytes, actions), instance);
  }
}
