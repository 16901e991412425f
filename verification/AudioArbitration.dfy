/** Who has the one output, who loses it and to whom: an alert's audio against global speech, against another
alert's audio, and against what waits.

Stated of what is current, ready and pending before and after a step, whatever the state before. */
module AudioArbitration {
  import opened Common
  import opened AudioSpec

  /** The links of a chain, first to last. */
  function Links(item: Item): seq<Item> {
    if item.link.Some? && item.link.value.next.Some? then [item] + Links(item.link.value.next.value) else [item]
  }

  /** One link per request, in their order, with consecutive ids, all the alert's, and none that can expire. */
  ghost predicate Carries(item: Item, instance: string, requests: seq<Request>, firstId: nat) {
    var links := Links(item);
    && |links| == |requests|
    && forall k | 0 <= k < |links| ::
         && links[k].source == requests[k].source && links[k].content == requests[k].content
         && links[k].id == firstId + k && links[k].link.Some? && links[k].link.value.instance == instance
         && !links[k].synthetic && links[k].expiresAt.None?
  }

  lemma {:induction false} ChainCarries(requests: seq<Request>, firstId: nat, instance: string)
    requires requests != []
    ensures Carries(Chain(requests, firstId, instance), instance, requests, firstId)
    decreases |requests|
  {
    var first := Chain(requests, firstId, instance);
    if |requests| > 1 {
      var next := first.link.value.next.value;
      ChainCarries(requests[1..], firstId + 1, instance);
      assert Links(first) == [first] + Links(next);
      forall k | 1 <= k < |requests| ensures Links(first)[k] == Links(next)[k - 1] && requests[k] == requests[1..][k - 1] {
      }
    }
  }

  /** With nothing current, or global speech, an alert's audio is current at once: the speech is over and counted as
      interrupted, and nothing that waits is touched. */
  lemma {:induction false} AlertTakesTheOutput(r: Runtime, instance: string, requests: seq<Request>, ids: nat)
    requires requests != [] && ids >= |requests|
    requires r.current.Some? ==> r.current.value.item.source == GlobalTts
    ensures var s := Step(r, DoEnqueueAlert(instance, requests, ids));
            && s.current.Some? && Carries(s.current.value.item, instance, requests, r.nextId)
            && s.current.value.audio.None? && s.current.value.playback == Synthesizing
            && s.handle == Some(s.current.value.item.id) && s.inFlight == r.inFlight + {s.current.value.item}
            && s.ready == r.ready && s.pending == r.pending && s.counters == r.counters && s.outcomes == r.outcomes
            && s.totals == r.totals.(interruptedByAlert := r.totals.interruptedByAlert + if r.current.Some? then 1 else 0)
            && s.trace == r.trace + (if r.current.Some? then [Ended(r.current.value.item, InterruptedByAlert)] else [])
                          + [Offered(s.current.value.item), Promoted(s.current.value.item)]
  {
    ChainCarries(requests, r.nextId, instance);
  }

  /** Another alert's audio is never interrupted: the new one goes last among what is ready, or, with no room, is
      dropped and the alert is told that it failed. */
  lemma {:induction false} AlertWaitsItsTurn(r: Runtime, instance: string, requests: seq<Request>, ids: nat)
    requires requests != [] && ids >= |requests|
    requires r.current.Some? && r.current.value.item.source != GlobalTts
    ensures var s := Step(r, DoEnqueueAlert(instance, requests, ids));
            && s.current == r.current && s.pending == r.pending && s.totals == r.totals && s.inFlight == r.inFlight
            && (|r.ready| + |r.pending| < r.capacity ==>
                  && |s.ready| == |r.ready| + 1 && s.ready[..|r.ready|] == r.ready
                  && Carries(s.ready[|r.ready|], instance, requests, r.nextId)
                  && s.outcomes == r.outcomes && s.counters == r.counters.(enqueued := r.counters.enqueued + 1))
            && (|r.ready| + |r.pending| >= r.capacity ==>
                  && s.ready == r.ready && s.outcomes == r.outcomes[instance := HasFailed]
                  && s.counters == r.counters.(dropped := r.counters.dropped + 1))
  {
    ChainCarries(requests, r.nextId, instance);
  }

  /** Without anything to play, or when the ids run out, nothing is played, dropped or told. */
  lemma IncompleteChainChangesNothing(r: Runtime, instance: string, requests: seq<Request>, ids: nat)
    requires requests == [] || ids < |requests|
    ensures var s := Step(r, DoEnqueueAlert(instance, requests, ids)); s == r.(nextId := s.nextId)
  {
  }

  // ----- losing the output -----

  /** The step ended the current item this way. */
  ghost predicate Loses(r: Runtime, s: Runtime, how: Ending) {
    r.current.Some? && exists k: nat | |r.trace| <= k < |s.trace| :: s.trace[k] == Ended(r.current.value.item, how)
  }

  /** What ends the current item, for each way it can end. */
  predicate EndsIt(c: Current, r: Runtime, a: Action, how: Ending) {
    match how
    case Skipped => a.DoSkip?
    case Cancelled => a.DoCancelAlert? && c.item.link.Some? && c.item.link.value.instance == a.instance
    case InterruptedByAlert =>
      a.DoEnqueueAlert? && c.item.source == GlobalTts && a.requests != [] && a.ids >= |a.requests|
    case SynthesisFailed =>
      && a.DoSynthesized? && a.item in r.inFlight && a.item.id == c.item.id
      && (a.bytes.None? || a.synthToken.None? || (r.maxBytes > 0 && |a.bytes.value| > r.maxBytes))
    case Interrupted => a.DoDisconnect? && r.renderer == Some(a.token) && c.playback == Playing
    case Played => a.DoAck? && r.renderer == Some(a.token) && a.id == c.item.id && a.kind == AckEnded && c.playback == Playing
    case PlaybackFailed =>
      && a.DoAck? && r.renderer == Some(a.token) && a.id == c.item.id && a.kind == AckFailed
      && (c.playback == Playing || c.playback == Ready)
  }

  lemma LosesOnce(r: Runtime, s: Runtime, how: Ending, rest: Trace)
    requires r.current.Some? && s.trace == r.trace + [Ended(r.current.value.item, how)] + rest
    requires forall e | e in rest :: !e.Ended?
    ensures forall h: Ending :: Loses(r, s, h) <==> h == how
  {
    assert s.trace[|r.trace|] == Ended(r.current.value.item, how);
    forall k: nat | |r.trace| < k < |s.trace| ensures !s.trace[k].Ended? { assert s.trace[k] == rest[k - |r.trace| - 1]; }
  }

  lemma {:induction false} FinishLoses(r: Runtime, how: Ending, outcome: AlertState)
    requires r.current.Some?
    ensures forall h: Ending :: Loses(r, Finish(r, how, outcome), h) <==> h == how
    ensures forall h: Ending :: Loses(r, Abort(r, how), h) <==> h == how
  {
    var item := r.current.value.item;
    LosesOnce(r, Finish(r, how, outcome), how, if NextOf(item).Some? then [Promoted(NextOf(item).value)] else []);
    LosesOnce(r, Abort(r, how), how, []);
  }

  lemma {:induction false} NoneLost(r: Runtime, s: Runtime, rest: Trace)
    requires s.trace == r.trace + rest && forall e | e in rest :: !e.Ended?
    ensures forall h: Ending :: !Loses(r, s, h)
  {
    forall k: nat | |r.trace| <= k < |s.trace| ensures !s.trace[k].Ended? { assert s.trace[k] == rest[k - |r.trace|]; }
  }

  lemma {:induction false} EnqueueLoses(r: Runtime, a: Action, how: Ending)
    requires r.current.Some? && a.DoEnqueueAlert?
    ensures Loses(r, Step(r, a), how) <==> EndsIt(r.current.value, r, a, how)
  {
    var s := Step(r, a);
    if a.requests == [] || a.ids < |a.requests| {
      NoneLost(r, s, []);
    } else {
      var first := Chain(a.requests, r.nextId, a.instance);
      if r.current.value.item.source == GlobalTts {
        LosesOnce(r, s, InterruptedByAlert, [Offered(first), Promoted(first)]);
      } else {
        NoneLost(r, s, [Offered(first)]);
      }
    }
  }

  lemma {:induction false} SynthesizedLoses(r: Runtime, a: Action, how: Ending)
    requires r.current.Some? && a.DoSynthesized?
    ensures Loses(r, Step(r, a), how) <==> EndsIt(r.current.value, r, a, how)
  {
    var s, d := Step(r, a), r.(inFlight := r.inFlight - {a.item}, handle := None);
    if a.item !in r.inFlight {
      NoneLost(r, s, []);
    } else if !IsCurrent(d, a.item.id) {
      NoneLost(r, s, [ResultDiscarded(a.item)]);
    } else if Usable(d, a.bytes, a.synthToken) {
      NoneLost(r, s, []);
    } else {
      FinishLoses(d, SynthesisFailed, HasFailed);
      assert Loses(r, s, how) <==> Loses(d, s, how);
    }
  }

  lemma {:induction false} DisconnectLoses(r: Runtime, a: Action, how: Ending)
    requires r.current.Some? && a.DoDisconnect?
    ensures Loses(r, Step(r, a), how) <==> EndsIt(r.current.value, r, a, how)
  {
    var s := Step(r, a);
    if r.renderer != Some(a.token) {
      NoneLost(r, s, []);
    } else if r.current.value.playback != Playing {
      NoneLost(r, s, [RendererLost]);
    } else {
      assert s.trace == r.trace + [RendererLost] + [Ended(r.current.value.item, Interrupted)];
      assert s.trace[|r.trace| + 1] == Ended(r.current.value.item, Interrupted);
    }
  }

  lemma {:induction false} AckLoses(r: Runtime, a: Action, how: Ending)
    requires r.current.Some? && a.DoAck?
    ensures Loses(r, Step(r, a), how) <==> EndsIt(r.current.value, r, a, how)
  {
    if !Acceptable(r, a.token, a.id, a.kind) || a.kind == AckStarted {
      NoneLost(r, Step(r, a), []);
    } else if a.kind == AckEnded {
      FinishLoses(r, Played, HasEnded);
    } else {
      FinishLoses(r, PlaybackFailed, HasFailed);
    }
  }

  lemma {:induction false} CancelLoses(r: Runtime, a: Action, how: Ending)
    requires r.current.Some? && a.DoCancelAlert?
    ensures Loses(r, Step(r, a), how) <==> EndsIt(r.current.value, r, a, how)
  {
    if LinkedTo(r.current.value.item, a.instance) {
      LosesOnce(r, Step(r, a), Cancelled, []);
    } else {
      NoneLost(r, Step(r, a), []);
    }
  }

  /** The current item is over exactly when one of these happens, and in no other way. */
  lemma {:induction false} OutputIsLostIff(r: Runtime, a: Action, how: Ending)
    requires r.current.Some?
    ensures Loses(r, Step(r, a), how) <==> EndsIt(r.current.value, r, a, how)
  {
    match a
    case DoSkip => FinishLoses(r, Skipped, HasFailed);
    case DoCancelAlert(_) => CancelLoses(r, a, how);
    case DoEnqueueAlert(_, _, _) => EnqueueLoses(r, a, how);
    case DoSynthesized(_, _, _) => SynthesizedLoses(r, a, how);
    case DoDisconnect(_) => DisconnectLoses(r, a, how);
    case DoAck(_, _, _) => AckLoses(r, a, how);
    case DoSubmit(content, synthetic, _, expiresAt) =>
      NoneLost(r, Step(r, a), [Offered(Item(r.nextId, GlobalTts, content, synthetic, Some(expiresAt), None))]);
    case _ => NoneLost(r, Step(r, a), []);
  }
}
