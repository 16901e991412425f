/** What becomes known: the audio a synthesis brings, and what an alert is told when its audio is over. */
module AudioTold {
  import opened Common
  import opened AudioSpec
  import opened AudioArbitration
  import Outcomes = AudioOutcomes

  /** A usable result for the current item is attached under the next number; the item is ready iff a renderer is
      connected, and is served with exactly these bytes to whoever has the token. */
  lemma {:induction false} ResultIsAttached(r: Runtime, item: Item, bytes: string, token: string)
    requires item in r.inFlight && r.current.Some? && r.current.value.item == item && token != ""
    requires r.maxBytes <= 0 || |bytes| <= r.maxBytes
    ensures var s := Step(r, DoSynthesized(item, Some(bytes), Some(token)));
            && s.current == Some(Current(item, Some(Audio(item, bytes)), token, r.sequence + 1,
                                         if r.renderer.Some? then Ready else WaitingForRenderer))
            && s.sequence == r.sequence + 1 && s.trace == r.trace && s.outcomes == r.outcomes && s.ready == r.ready
            && forall id: nat, t: string ::
                 ServedBytes(s, id, t) == if id == item.id && t == token then Some(bytes) else None
  {
  }

  /** An item without audio has no token yet. */
  ghost predicate Silent(r: Runtime) {
    r.current.Some? && r.current.value.audio.None? ==> r.current.value.token == ""
  }

  lemma {:induction false} StepKeepsSilent(r: Runtime, a: Action)
    requires Silent(r)
    ensures Silent(Step(r, a))
  {
  }

  /** Nothing is served, to anyone, before the audio of the current item is there. */
  lemma {:induction false} NothingIsServedBefore(capacity: int, maxBytes: int, actions: seq<Action>, id: nat, token: string)
    ensures var r := Run(capacity, maxBytes, actions);
            Silent(r) && (r.current.None? || r.current.value.audio.None? ==> ServedBytes(r, id, token).None?)
  {
    if actions != [] {
      NothingIsServedBefore(capacity, maxBytes, actions[..|actions| - 1], id, token);
      StepKeepsSilent(Run(capacity, maxBytes, actions[..|actions| - 1]), actions[|actions| - 1]);
    }
  }

  /** When the current item is over, what follows it and what its alert is told: the next link goes on after a natural
      end, and only the last link's end is told; an item cut short takes its chain along. */
  lemma {:induction false} EndIsTold(r: Runtime, a: Action, how: Ending)
    requires r.current.Some? && EndsIt(r.current.value, r, a, how) && r.current.value.item.link.Some?
    ensures var s, link := Step(r, a), r.current.value.item.link.value;
            match how
            case InterruptedByAlert => s.outcomes == r.outcomes
            case Cancelled => s.current.None? && s.outcomes == r.outcomes - {link.instance}
            case Skipped => s.current.None? && s.outcomes == r.outcomes[link.instance := HasFailed]
            case Interrupted => s.current.None? && s.outcomes == r.outcomes[link.instance := HasFailed]
            case _ =>
              if link.next.Some? then s.current.Some? && s.current.value.item == link.next.value && s.outcomes == r.outcomes
              else s.current.None? && s.outcomes == r.outcomes[link.instance := if how == Played then HasEnded else HasFailed]
  {
    match how
    case SynthesisFailed => assert !Usable(r, a.bytes, a.synthToken);
    case Played => assert Acceptable(r, a.token, a.id, a.kind);
    case PlaybackFailed => assert Acceptable(r, a.token, a.id, a.kind);
    case _ =>
  }

  /** Nothing is told of an item that belongs to no alert, and nothing else follows it. */
  lemma {:induction false} UnlinkedEndIsNotTold(r: Runtime, a: Action, how: Ending)
    requires r.current.Some? && EndsIt(r.current.value, r, a, how) && r.current.value.item.link.None?
    ensures var s := Step(r, a); s.outcomes == r.outcomes && (how != InterruptedByAlert ==> s.current.None?)
  {
  }

  /** An alert that asks is told of its audio: playing, without a renderer, or on its way while it is current or
      waits, and else the outcome recorded for it, if any. */
  lemma {:induction false} AskedIsTold(r: Runtime, instance: string)
    requires forall i | i in r.outcomes :: r.outcomes[i] == HasEnded || r.outcomes[i] == HasFailed
    ensures var told := StateOf(r, instance);
            var onAir := r.current.Some? && r.current.value.item.link.Some?
                         && r.current.value.item.link.value.instance == instance;
            var waits := exists x | x in r.ready + r.pending :: x.link.Some? && x.link.value.instance == instance;
            && (told == IsPlaying <==> onAir && r.current.value.playback == Playing)
            && (told == NoRenderer <==> onAir && r.current.value.playback == WaitingForRenderer && r.renderer.None?)
            && (told == HasEnded <==> !onAir && !waits && instance in r.outcomes && r.outcomes[instance] == HasEnded)
            && (told == HasFailed <==> !onAir && !waits && instance in r.outcomes && r.outcomes[instance] == HasFailed)
            && (told == NeverRequested <==> !onAir && !waits && instance !in r.outcomes)
  {
    Outcomes.UnlinkedIffNone(r.ready, instance);
    Outcomes.UnlinkedIffNone(r.pending, instance);
    assert forall x :: x in r.ready + r.pending <==> x in r.ready || x in r.pending;
  }

  /** Clearing empties both lists and leaves what is current. */
  lemma ClearedWaitsNoMore(r: Runtime)
    ensures Step(r, DoClear) == r.(ready := [], pending := [])
  {
  }

  /** A new capacity evicts nothing; from then on it decides, whatever it was before. */
  lemma NewCapacityDecides(r: Runtime, capacity: int, content: string, synthetic: bool, manual: bool, expiresAt: int)
    ensures var limited := Step(r, DoSetCapacity(capacity));
            var s := Step(limited, DoSubmit(content, synthetic, manual, expiresAt));
            && limited.ready == r.ready && limited.pending == r.pending && limited.current == r.current
            && (|s.ready| + |s.pending| == |r.ready| + |r.pending| + 1 <==> |r.ready| + |r.pending| < capacity)
  {
  }

  /** Cancelling takes everything of the alert away, current, ready or pending, and keeps everything else in order. */
  lemma {:induction false} CancelTakesAll(r: Runtime, instance: string)
    ensures var s := Step(r, DoCancelAlert(instance));
            var others := (x: Item) => !(x.link.Some? && x.link.value.instance == instance);
            && s.ready == Filter(r.ready, others) && s.pending == Filter(r.pending, others)
            && s.current == (if r.current.Some? && others(r.current.value.item) then r.current else None)
            && instance !in s.outcomes && forall i | i != instance :: i in s.outcomes <==> i in r.outcomes
  {
    UnlinkedAreOthers(r.ready, instance);
    UnlinkedAreOthers(r.pending, instance);
  }

  lemma {:induction false} UnlinkedAreOthers(items: seq<Item>, instance: string)
    ensures Unlinked(items, instance) == Filter(items, (x: Item) => !(x.link.Some? && x.link.value.instance == instance))
  {
    if items != [] { UnlinkedAreOthers(items[1..], instance); }
  }

  /** A renderer that connects takes the place of any other, and an item that waited for one is ready; when the one
      connected leaves there is none, and an item that does not play waits for the next. */
  lemma {:induction false} RenderersComeAndGo(r: Runtime, token: string)
    requires r.current.Some?
    ensures var s := Step(r, DoConnect(token));
            && s.renderer == Some(token) && s.trace == r.trace && s.current.Some?
            && s.current.value == r.current.value.(playback :=
                 if r.current.value.playback == WaitingForRenderer then Ready else r.current.value.playback)
    ensures var s := Step(r, DoDisconnect(token));
            && (r.renderer != Some(token) ==> s == r)
            && (r.renderer == Some(token) ==> s.renderer.None?)
            && (r.renderer == Some(token) && r.current.value.playback != Playing ==>
                  s.current == Some(r.current.value.(playback := WaitingForRenderer)))
  {
  }

  /** A renderer that says it began makes a ready item playing, and nothing but the current one. */
  lemma {:induction false} BeginningIsPlaying(r: Runtime, token: string, id: nat)
    requires r.current.Some?
    ensures var s := Step(r, DoAck(token, id, AckStarted));
            s == if r.renderer == Some(token) && r.current.value.item.id == id && r.current.value.playback == Ready
                 then r.(current := Some(r.current.value.(playback := Playing))) else r
    ensures Step(r, DoAck(token, id, AckOther)) == r
  {
  }

  /** The result of a synthesis that is no longer wanted changes nothing that is current, ready or told. */
  lemma {:induction false} LateResultIsDiscarded(r: Runtime, item: Item, bytes: Option<string>, token: Option<string>)
    requires item in r.inFlight && (r.current.Some? ==> r.current.value.item.id != item.id)
    ensures var s := Step(r, DoSynthesized(item, bytes, token));
            s == r.(inFlight := r.inFlight - {item}, handle := None, trace := r.trace + [ResultDiscarded(item)])
  {
  }
}
