/** What is promised of the audio runtime, for every run. */
module AudioResults {
  import opened Common
  import opened AudioSpec
  import opened AudioTrace
  import opened AudioLaws

  /** A state some run of the runtime ends in. */
  ghost predicate Reachable(r: Runtime) {
    exists capacity: int, maxBytes: int, actions: seq<Action> :: r == Run(capacity, maxBytes, actions)
  }

  lemma {:induction false} ReachableIsSound(r: Runtime)
    requires Reachable(r)
    ensures Sound(r, None) && Standing(r)
  {
    var capacity: int, maxBytes: int, actions: seq<Action> :| r == Run(capacity, maxBytes, actions);
    RunIsSound(capacity, maxBytes, actions);
    RunStands(capacity, maxBytes, actions);
  }

  /** Every promotion is accounted for by one counter, a cancellation, or the item still current. */
  lemma {:induction false} LedgerBalances(r: Runtime)
    requires Reachable(r)
    ensures Promotions(r.trace) == r.totals.played + r.totals.playbackFailed + r.totals.synthesisFailed
                                 + r.totals.interrupted + r.totals.interruptedByAlert + r.counters.skipped
                                 + EndedBy(r.trace, Cancelled) + (if r.current.Some? then 1 else 0)
  {
    ReachableIsSound(r);
    PromotionsBalance(r.trace);
  }

  /** Nothing is promoted over a live current item. */
  lemma {:induction false} PromotionNeverOverwrites(r: Runtime, k: nat)
    requires Reachable(r) && k < |r.trace| && r.trace[k].Promoted?
    ensures Open(r.trace[..k]).None?
  {
    ReachableIsSound(r);
    LawfulPrefix(r.trace, k);
  }

  /** No item is promoted twice. */
  lemma {:induction false} PromotedOnce(r: Runtime, item: Item)
    requires Reachable(r) && Promoted(item) in r.trace
    ensures PromotedCount(r.trace, item.id) == 1
  {
    ReachableIsSound(r);
    PromotionCounts(r.trace, item);
    UsedAtMostOnce(r, item.id);
  }

  lemma UsedAtMostOnce(r: Runtime, id: nat)
    requires Sound(r, None)
    ensures PromotedCount(r.trace, id) <= 1 && OfferedCount(r.trace, id) <= 1
  {
    assert Alive(r, None, id) <= OfferedCount(r.trace, id) && OfferedCount(r.trace, id) <= (if id < r.nextId then 1 else 0);
  }

  // ----- chains -----

  /** A later link of an alert's chain is promoted only right after its predecessor ended by itself,
      with nothing in between; the second link only right after the first. */
  lemma {:induction false} ChainIntegrity(r: Runtime, k: nat, y: Item, z: Item)
    requires Reachable(r) && k < |r.trace| && r.trace[k] == Promoted(z)
    requires Offered(y) in r.trace && InChain(y, z) && y != z
    ensures k > 0 && r.trace[k - 1].Ended? && Natural(r.trace[k - 1].how) && NextOf(r.trace[k - 1].item) == Some(z)
    ensures InChain(y, r.trace[k - 1].item) && (NextOf(y) == Some(z) ==> r.trace[k - 1].item == y)
  {
    ReachableIsSound(r);
    UsedAtMostOnce(r, z.id);
    LinkFollowsItsPredecessor(r.trace, k, y, z);
  }

  /** Once a link was skipped, cancelled or interrupted, the next one is never promoted. */
  lemma {:induction false} CutChainStops(r: Runtime, y: Item, how: Ending, z: Item)
    requires Reachable(r) && Ended(y, how) in r.trace && !Natural(how) && NextOf(y) == Some(z)
    ensures Promoted(z) !in r.trace
  {
    ReachableIsSound(r);
    assert Cut(Ended(y, how));
    assert Alive(r, None, z.id) == 0;
    if Promoted(z) in r.trace { PromotionCounts(r.trace, z); }
  }

  /** A link that ended by itself, well or badly, is followed at once by the next. */
  lemma {:induction false} WholeChainGoesOn(r: Runtime, k: nat)
    requires Reachable(r) && k < |r.trace| && r.trace[k].Ended? && Natural(r.trace[k].how) && NextOf(r.trace[k].item).Some?
    ensures k + 1 < |r.trace| && r.trace[k + 1] == Promoted(NextOf(r.trace[k].item).value)
  {
    ReachableIsSound(r);
    ChainGoesOn(r.trace, k);
  }

  // ----- the bytes -----

  /** The audio of the current item came from a synthesis of that very item, under that very token. */
  ghost predicate FromItsSynthesis(r: Runtime, actions: seq<Action>) {
    r.current.Some? && r.current.value.audio.Some? ==>
      DoSynthesized(r.current.value.item, Some(r.current.value.audio.value.bytes), Some(r.current.value.token)) in actions
  }

  /** The audio of s, if any, is that of r, for the same item and under the same token. */
  ghost predicate SameAudio(r: Runtime, s: Runtime) {
    s.current.Some? && s.current.value.audio.Some? ==>
      && r.current.Some? && r.current.value.item == s.current.value.item
      && r.current.value.audio == s.current.value.audio && r.current.value.token == s.current.value.token
  }

  lemma {:induction false} OthersKeepAudio(r: Runtime, a: Action)
    requires !a.DoSynthesized?
    ensures SameAudio(r, Step(r, a))
  {
  }

  /** Audio appears only through a synthesis that ends; any other step keeps it, with its item, or loses both. */
  lemma {:induction false} AudioOnlyFromSynthesis(r: Runtime, a: Action)
    requires Sound(r, None)
    ensures var s := Step(r, a);
            || SameAudio(r, s)
            || a == DoSynthesized(s.current.value.item, Some(s.current.value.audio.value.bytes), Some(s.current.value.token))
  {
    match a
    case DoSynthesized(item, bytes, token) =>
      if item in r.inFlight && IsCurrent(r, item.id) { ResultIsForCurrent(r, item); }
    case _ => OthersKeepAudio(r, a);
  }

  lemma {:induction false} AudioIsOwn(capacity: int, maxBytes: int, actions: seq<Action>)
    ensures FromItsSynthesis(Run(capacity, maxBytes, actions), actions)
  {
    if actions != [] {
      var before, a := actions[..|actions| - 1], actions[|actions| - 1];
      AudioIsOwn(capacity, maxBytes, before);
      RunIsSound(capacity, maxBytes, before);
      AudioOnlyFromSynthesis(Run(capacity, maxBytes, before), a);
      assert actions == before + [a];
    }
  }

  /** Whatever order results come in, the bytes served for an item are those synthesized for it. */
  lemma {:induction false} ServedBytesAreOwn(capacity: int, maxBytes: int, actions: seq<Action>, id: nat, token: string)
    requires ServedBytes(Run(capacity, maxBytes, actions), id, token).Some?
    ensures var r := Run(capacity, maxBytes, actions);
            && IsCurrent(r, id)
            && DoSynthesized(r.current.value.item, ServedBytes(r, id, token), Some(token)) in actions
  {
    RunIsSound(capacity, maxBytes, actions);
    AudioIsOwn(capacity, maxBytes, actions);
  }

  // ----- an item without audio -----

  /** Since the last promotion the renderer went away. */
  function LostSince(trace: Trace): bool {
    if trace == [] then false
    else match trace[|trace| - 1]
      case Promoted(_) => false
      case RendererLost => true
      case _ => LostSince(trace[..|trace| - 1])
  }

  /** Since the last promotion the result of an older synthesis was discarded. */
  function DiscardedSince(trace: Trace): bool {
    if trace == [] then false
    else match trace[|trace| - 1]
      case Promoted(_) => false
      case ResultDiscarded(_) => true
      case _ => DiscardedSince(trace[..|trace| - 1])
  }

  /** How a current item without audio stands. */
  ghost predicate Standing(r: Runtime) {
    r.current.Some? && r.current.value.audio.None? ==>
      var c := r.current.value;
      && (if !LostSince(r.trace) then c.playback == Synthesizing
          else if r.renderer.None? then c.playback == WaitingForRenderer
          else c.playback == Ready || c.playback == Playing)
      && r.handle == (if DiscardedSince(r.trace) then None else Some(c.item.id))
  }

  lemma {:induction false} EnqueueAlertStands(r: Runtime, instance: string, requests: seq<Request>, ids: nat)
    requires Standing(r)
    ensures Standing(EnqueueAlert(r, instance, requests, ids))
  {
  }

  lemma {:induction false} SynthesizedStands(r: Runtime, item: Item, bytes: Option<string>, token: Option<string>)
    requires Standing(r)
    ensures Standing(Synthesized(r, item, bytes, token))
  {
    if item in r.inFlight {
      var s := r.(inFlight := r.inFlight - {item}, handle := None);
      if !IsCurrent(s, item.id) {
      } else if !Usable(s, bytes, token) {
      }
    }
  }

  lemma {:induction false} TickStands(r: Runtime, now: int)
    requires Standing(r)
    ensures Standing(AudioSpec.Tick(r, now))
  {
  }

  lemma {:induction false} FinishStands(r: Runtime, how: Ending, outcome: AlertState)
    requires r.current.Some?
    ensures Standing(Finish(r, how, outcome)) && Standing(Abort(r, how))
  {
  }

  lemma {:induction false} RendererStands(r: Runtime, token: string)
    requires Standing(r)
    ensures Standing(Connect(r, token)) && Standing(Disconnect(r, token))
  {
    var d := Note(r.(renderer := None), RendererLost);
    assert d.trace[..|r.trace|] == r.trace;
    if r.current.Some? && r.current.value.playback == Playing { FinishStands(d, Interrupted, HasFailed); }
  }

  lemma {:induction false} AcknowledgeStands(r: Runtime, token: string, id: nat, kind: AckKind)
    requires Standing(r)
    ensures Standing(Acknowledge(r, token, id, kind))
  {
    if Acceptable(r, token, id, kind) {
      FinishStands(r, Played, HasEnded);
      FinishStands(r, PlaybackFailed, HasFailed);
    }
  }

  lemma {:induction false} StepStands(r: Runtime, a: Action)
    requires Standing(r)
    ensures Standing(Step(r, a))
  {
    match a
    case DoEnqueueAlert(instance, requests, ids) => EnqueueAlertStands(r, instance, requests, ids);
    case DoSynthesized(item, bytes, token) => SynthesizedStands(r, item, bytes, token);
    case DoTick(now) => TickStands(r, now);
    case DoSkip => if r.current.Some? { FinishStands(r, Skipped, HasFailed); }
    case DoConnect(token) => RendererStands(r, token);
    case DoDisconnect(token) => RendererStands(r, token);
    case DoAck(token, id, kind) => AcknowledgeStands(r, token, id, kind);
    case _ =>
  }

  lemma {:induction false} RunStands(capacity: int, maxBytes: int, actions: seq<Action>)
    ensures Standing(Run(capacity, maxBytes, actions))
  {
    if actions != [] {
      RunStands(capacity, maxBytes, actions[..|actions| - 1]);
      StepStands(Run(capacity, maxBytes, actions[..|actions| - 1]), actions[|actions| - 1]);
    }
  }

  /** An item still without audio is marked ready, or playing, exactly when a renderer went away while it was being
      synthesized and another is connected now. */
  lemma {:induction false} ReadyWithoutAudioIff(r: Runtime)
    requires Reachable(r) && r.current.Some? && r.current.value.audio.None?
    ensures (r.current.value.playback == Ready || r.current.value.playback == Playing)
            <==> LostSince(r.trace) && r.renderer.Some?
  {
    ReachableIsSound(r);
  }

  /** The synthesis of the current item can still be called off exactly when no older result was discarded since:
      a discarded result drops the handle, whoever's it is. */
  lemma {:induction false} CanCallOffIff(r: Runtime)
    requires Reachable(r) && r.current.Some? && r.current.value.audio.None?
    ensures r.handle == Some(r.current.value.item.id) <==> !DiscardedSince(r.trace)
  {
    ReachableIsSound(r);
  }
}
