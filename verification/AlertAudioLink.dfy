/** The audio an alert profile starts and cancels: outside two cases, exactly the alert on screen is to be heard. */
module AlertAudioLink {
  import AlertStock
  import opened Common
  import opened Sorting
  import opened AlertModel
  import opened AlertQueueSpec
  import opened AlertScreen
  import opened AlertSpec

  function Obey(live: set<string>, c: AudioCommand): set<string> {
    match c
    case PlayAudio(id, _, _) => live + {id}
    case CancelAudio(id) => live - {id}
  }

  /** Alerts whose audio was started and not cancelled since. */
  function Live(commands: seq<AudioCommand>): set<string> {
    if commands == [] then {} else Obey(Live(commands[..|commands| - 1]), commands[|commands| - 1])
  }

  /** The alert that is current has audio, and audio is linked at all. */
  predicate HasAudio(s: Runtime) {
    s.audioLinked && s.screen.current.Some? && s.screen.current.value.audio.Some?
  }

  /** Live is exactly the audio of the current alert. */
  ghost predicate Matched(s: Runtime) {
    Live(s.audio) == if HasAudio(s) then {s.screen.current.value.id} else {}
  }

  /** Live is exactly the audio of the alert on screen; a closed stream has nothing on screen. */
  ghost predicate Tidy(s: Runtime) {
    Matched(s) && (s.screen.closed ==> Live(s.audio) == {})
  }

  /** The alert that would be promoted next. */
  function NextUp(s: Runtime, now: int): Option<Instance> {
    if s.pendingReplay.Some? then s.pendingReplay
    else
      var r := PopNext(s.stock.items, s.maxAge, now);
      if r.item.Some? then Some(r.item.value.inst) else None
  }

  predicate Sounds(inst: Option<Instance>) {
    inst.Some? && inst.value.audio.Some?
  }

  /** The first candidate that can preempt, if any, has audio. */
  predicate PreemptsWithAudio(s: Runtime, list: seq<Instance>) {
    list != [] && if CanPreempt(s, list[0]) then list[0].audio.Some? else PreemptsWithAudio(s, list[1..])
  }

  /** The operation makes an alert with audio current, where the one that is has none. */
  predicate Starts(s: Runtime, a: Action) {
    s.audioLinked &&
    match a
    case DoTick(now, _) =>
      s.enabled && !s.screen.paused && (s.screen.current.None? || now >= s.screen.deadline) && Sounds(NextUp(s, now))
    case DoMatched(candidates, _) => s.enabled && PreemptsWithAudio(s, Sort(candidates, HandledBefore))
    case DoTest(inst, _) => CanPreempt(s, inst) && inst.audio.Some?
    case DoSkip(now) => s.screen.current.Some? && !s.screen.paused && Sounds(NextUp(s, now))
    case _ => false
  }

  /** Disabling the profile or closing its stream, as deleting the profile does, while audio is live; and, where an
      operation comes too late and finds the stream closed, starting audio there. */
  predicate Orphans(s: Runtime, a: Action) {
    || (Live(s.audio) != {} && (a.DoShut? || (a.DoApply? && s.enabled && !a.enabled)))
    || (s.screen.closed && Starts(s, a))
  }

  // ----- what is live is the current alert's -----

  lemma {:induction false} StartMatches(s: Runtime, inst: Instance, now: int)
    requires s.screen.current.None? && Matched(s)
    ensures Matched(Start(s, inst, now))
  {
    if s.audioLinked && inst.audio.Some? {
    } else {
      assert s.audio + [] == s.audio;
    }
  }

  lemma {:induction false} CompleteMatches(s: Runtime, reason: HideReason)
    requires Matched(s)
    ensures Matched(Complete(s, reason)) && Complete(s, reason).screen.current.None?
  {
    if s.screen.current.Some? {
      assert s.audio + [] == s.audio;
    }
  }

  lemma {:induction false} PromoteMatches(s: Runtime, now: int)
    requires s.screen.current.None? && Matched(s)
    ensures Matched(Promote(s, now))
  {
    if s.pendingReplay.Some? {
      var shown := s.(pendingReplay := None, tally := s.tally.(replayed := s.tally.replayed + 1));
      StartMatches(shown, s.pendingReplay.value, now);
    } else {
      var r := PopNext(s.stock.items, s.maxAge, now);
      if r.item.Some? {
        var taken := s.(stock := AlertStock.Take(s.stock, s.maxAge, now), tally := CountTaken(s.tally, r));
        StartMatches(taken, r.item.value.inst, now);
      }
    }
  }

  lemma {:induction false} FinishMatches(s: Runtime, now: int, answer: AudioState)
    requires Matched(s)
    ensures Matched(Finish(s, now, answer))
  {
    if s.screen.current.Some? && now >= s.screen.deadline && !Held(s, now, answer) {
      var done := Complete(AfterHoldCheck(s, now), Completed);
      CompleteMatches(s, Completed);
      if AfterHoldCheck(s, now) != s {
        var id := s.screen.current.value.id;
        assert done.audio == s.audio + [CancelAudio(id)] + [CancelAudio(id)];
        CancelledTwice(s.audio, id);
      }
    }
  }

  lemma CancelledTwice(commands: seq<AudioCommand>, id: string)
    ensures Live(commands + [CancelAudio(id)] + [CancelAudio(id)]) == Live(commands) - {id}
  {
    var once := commands + [CancelAudio(id)];
    assert once[..|commands|] == commands && (once + [CancelAudio(id)])[..|once|] == once;
  }

  lemma {:induction false} TickMatches(s: Runtime, now: int, answer: AudioState)
    requires Matched(s)
    ensures Matched(Tick(s, now, answer))
  {
    FinishMatches(s, now, answer);
    var done := Finish(s, now, answer);
    if done.screen.current.None? {
      PromoteMatches(done, now);
    }
  }

  lemma {:induction false} PreemptMatches(s: Runtime, inst: Instance, now: int, ids: IdSupply)
    requires Matched(s)
    ensures Matched(Preempt(s, inst, now, ids))
  {
    CompleteMatches(s, Preempted);
    StartMatches(Complete(s, Preempted).(idCalls := s.idCalls + 1), WithId(inst, ids(s.idCalls)), now);
  }

  lemma {:induction false} ArriveMatches(s: Runtime, inst: Instance, now: int, ids: IdSupply, mayPreempt: bool)
    requires Matched(s)
    ensures Matched(Arrive(s, inst, now, ids, mayPreempt))
  {
    if mayPreempt && CanPreempt(CountArrival(s), inst) {
      PreemptMatches(CountArrival(s), inst, now, ids);
    }
  }

  lemma {:induction false} ArriveAllMatches(s: Runtime, list: seq<Instance>, now: int, ids: IdSupply, mayPreempt: bool)
    requires Matched(s)
    ensures Matched(ArriveAll(s, list, now, ids, mayPreempt))
    decreases |list|
  {
    if list != [] {
      ArriveMatches(s, list[0], now, ids, mayPreempt);
      ArriveAllMatches(Arrive(s, list[0], now, ids, mayPreempt), list[1..], now, ids,
                       mayPreempt && !CanPreempt(s, list[0]));
    }
  }

  lemma {:induction false} SkipMatches(s: Runtime, now: int)
    requires Matched(s)
    ensures Matched(SkipCurrent(s, now))
  {
    CompleteMatches(s, Skipped);
    PromoteMatches(Complete(s, Skipped), now);
  }

  /** Every operation but disabling a profile whose audio is live keeps the two in agreement. */
  lemma {:induction false} StepMatchesIff(s: Runtime, a: Action, ids: IdSupply)
    requires Matched(s)
    ensures Matched(Step(s, a, ids)) <==> !(a.DoApply? && s.enabled && !a.enabled && Live(s.audio) != {})
  {
    match a
    case DoTick(now, answer) => TickMatches(s, now, answer);
    case DoMatched(candidates, now) => ArriveAllMatches(s, Sort(candidates, HandledBefore), now, ids, true);
    case DoTest(inst, now) => PreemptMatches(CountArrival(s), inst, now, ids);
    case DoSkip(now) => SkipMatches(s, now);
    case _ =>
  }

  // ----- when an operation starts audio -----

  lemma PromoteStartsIff(s: Runtime, now: int)
    requires s.screen.current.None?
    ensures HasAudio(Promote(s, now)) <==> s.audioLinked && Sounds(NextUp(s, now))
  {
  }

  lemma {:induction false} TickStartsIff(s: Runtime, now: int, answer: AudioState)
    requires !HasAudio(s)
    ensures HasAudio(Tick(s, now, answer)) <==> Starts(s, DoTick(now, answer))
  {
    var done := Finish(s, now, answer);
    assert NextUp(done, now) == NextUp(s, now);
    if done.screen.current.None? { PromoteStartsIff(done, now); }
  }

  lemma {:induction false} SkipStartsIff(s: Runtime, now: int)
    requires !HasAudio(s)
    ensures HasAudio(SkipCurrent(s, now)) <==> Starts(s, DoSkip(now))
  {
    var done := Complete(s, Skipped);
    assert NextUp(done, now) == NextUp(s, now);
    if done.screen.current.None? { PromoteStartsIff(done, now); }
  }

  /** Who may not preempt leaves the screen alone, and so whoever else could preempt still can. */
  lemma {:induction false} PreemptionWaits(s: Runtime, t: Runtime, list: seq<Instance>)
    requires t.screen == s.screen
    ensures PreemptsWithAudio(t, list) == PreemptsWithAudio(s, list)
  {
    if list != [] { PreemptionWaits(s, t, list[1..]); }
  }

  lemma {:induction false} LaterKeepScreen(s: Runtime, list: seq<Instance>, now: int, ids: IdSupply)
    ensures ArriveAll(s, list, now, ids, false).screen == s.screen
    ensures ArriveAll(s, list, now, ids, false).audioLinked == s.audioLinked
    decreases |list|
  {
    if list != [] { LaterKeepScreen(Arrive(s, list[0], now, ids, false), list[1..], now, ids); }
  }

  lemma {:induction false} ArriveAllStartsIff(s: Runtime, list: seq<Instance>, now: int, ids: IdSupply)
    requires !HasAudio(s)
    ensures HasAudio(ArriveAll(s, list, now, ids, true)) <==> s.audioLinked && PreemptsWithAudio(s, list)
    decreases |list|
  {
    if list != [] {
      var t := Arrive(s, list[0], now, ids, true);
      if CanPreempt(s, list[0]) {
        LaterKeepScreen(t, list[1..], now, ids);
      } else {
        ArriveAllStartsIff(t, list[1..], now, ids);
        PreemptionWaits(s, t, list[1..]);
      }
    }
  }

  lemma {:induction false} StepStartsIff(s: Runtime, a: Action, ids: IdSupply)
    requires !HasAudio(s)
    ensures HasAudio(Step(s, a, ids)) <==> Starts(s, a)
  {
    match a
    case DoTick(now, answer) => TickStartsIff(s, now, answer);
    case DoMatched(candidates, now) => ArriveAllStartsIff(s, Sort(candidates, HandledBefore), now, ids);
    case DoSkip(now) => SkipStartsIff(s, now);
    case _ =>
  }

  // ----- what is live is on screen -----

  lemma PromoteStaysOpen(s: Runtime, now: int)
    ensures Promote(s, now).screen.closed == s.screen.closed
  {
  }

  lemma TickStaysOpen(s: Runtime, now: int, answer: AudioState)
    ensures Tick(s, now, answer).screen.closed == s.screen.closed
  {
    PromoteStaysOpen(Finish(s, now, answer), now);
  }

  lemma SkipStaysOpen(s: Runtime, now: int)
    ensures SkipCurrent(s, now).screen.closed == s.screen.closed
  {
    PromoteStaysOpen(Complete(s, Skipped), now);
  }

  lemma {:induction false} OnlyShutCloses(s: Runtime, a: Action, ids: IdSupply)
    ensures Step(s, a, ids).screen.closed == (s.screen.closed || a.DoShut?)
  {
    match a
    case DoMatched(candidates, now) =>
      if s.enabled { ArriveAllStaysOpen(s, Sort(candidates, HandledBefore), now, ids, true); }
    case DoTick(now, answer) => TickStaysOpen(s, now, answer);
    case DoSkip(now) => SkipStaysOpen(s, now);
    case _ =>
  }

  lemma {:induction false} ArriveAllStaysOpen(s: Runtime, list: seq<Instance>, now: int, ids: IdSupply, mayPreempt: bool)
    ensures ArriveAll(s, list, now, ids, mayPreempt).screen.closed == s.screen.closed
    decreases |list|
  {
    if list != [] {
      ArriveAllStaysOpen(Arrive(s, list[0], now, ids, mayPreempt), list[1..], now, ids, mayPreempt && !CanPreempt(s, list[0]));
    }
  }

  /** Ending an alert silences it in every way but two: an operation leaves audio running for an alert that is not on
      screen exactly when it disables the profile or closes its stream while audio is live, or starts audio on a stream
      already closed. */
  lemma {:induction false} OrphanedIff(s: Runtime, a: Action, ids: IdSupply)
    requires Tidy(s)
    ensures Tidy(Step(s, a, ids)) <==> !Orphans(s, a)
  {
    StepMatchesIff(s, a, ids);
    OnlyShutCloses(s, a, ids);
    if s.screen.closed { StepStartsIff(s, a, ids); }
  }

  ghost predicate NeverOrphans(s: Runtime, actions: seq<Action>, ids: IdSupply) {
    actions == [] ||
    var before := actions[..|actions| - 1];
    NeverOrphans(s, before, ids) && !Orphans(Run(s, before, ids), actions[|actions| - 1])
  }

  /** Over every run that never does that, no audio outlives its alert, and the alert on screen has its audio live. */
  lemma {:induction false} AudioEndsWithItsAlert(
      enabled: bool, maxItems: int, maxAge: int, audioLinked: bool, actions: seq<Action>, ids: IdSupply)
    requires NeverOrphans(Initial(enabled, maxItems, maxAge, audioLinked), actions, ids)
    ensures Tidy(Run(Initial(enabled, maxItems, maxAge, audioLinked), actions, ids))
  {
    if actions != [] {
      var n := |actions| - 1;
      AudioEndsWithItsAlert(enabled, maxItems, maxAge, audioLinked, actions[..n], ids);
      OrphanedIff(Run(Initial(enabled, maxItems, maxAge, audioLinked), actions[..n], ids), actions[n], ids);
    }
  }

  /** A new linked profile queues a test alert. */
  lemma {:induction false} QueuedForAudio(inst: Instance, now: int, ids: IdSupply) returns (queued: Runtime)
    ensures queued == Step(Initial(true, 1, 0, true), DoTest(inst, now), ids)
    ensures queued.enabled && queued.audioLinked && queued.audio == [] && queued.pendingReplay.None? && queued.maxAge == 0
    ensures queued.screen.current.None? && !queued.screen.paused && queued.stock.items == [Item(WithId(inst, ids(0)), 0)]
  {
    queued := Step(Initial(true, 1, 0, true), DoTest(inst, now), ids);
  }

  /** The next tick shows it and starts its audio. */
  lemma {:induction false} ShownWithAudio(inst: Instance, now: int, ids: IdSupply) returns (shown: Runtime)
    requires inst.audio.Some?
    ensures shown == Step(Step(Initial(true, 1, 0, true), DoTest(inst, now), ids), DoTick(now, NeverRequested), ids)
    ensures shown.enabled && shown.screen.current == Some(WithId(inst, ids(0)))
    ensures shown.audio == AudioFor(shown, WithId(inst, ids(0))) && shown.audioLinked
  {
    var queued := QueuedForAudio(inst, now, ids);
    assert Pick(queued.stock.items, PlaysBefore) == 0;
    shown := Step(queued, DoTick(now, NeverRequested), ids);
    assert [] + AudioFor(shown, WithId(inst, ids(0))) == AudioFor(shown, WithId(inst, ids(0)));
  }

  lemma {:induction false} RunTwo(s: Runtime, a: Action, b: Action, ids: IdSupply)
    ensures Run(s, [a, b], ids) == Step(Step(s, a, ids), b, ids)
  {
    assert [a, b][..1] == [a] && [a][..0] == [];
    assert Run(s, [a], ids) == Step(s, a, ids);
  }

  lemma {:induction false} RunThird(s: Runtime, a: Action, b: Action, c: Action, ids: IdSupply)
    ensures Run(s, [a, b, c], ids) == Step(Step(Step(s, a, ids), b, ids), c, ids)
  {
    assert [a, b, c][..2] == [a, b];
    RunTwo(s, a, b, ids);
  }

  lemma {:induction false} OneIsLive(inst: Instance, now: int, ids: IdSupply) returns (shown: Runtime)
    requires inst.audio.Some?
    ensures shown == Step(Step(Initial(true, 1, 0, true), DoTest(inst, now), ids), DoTick(now, NeverRequested), ids)
    ensures shown.enabled && Live(shown.audio) == {WithId(inst, ids(0)).id} && WithId(inst, ids(0)).id in Live(shown.audio)
  {
    shown := ShownWithAudio(inst, now, ids);
    assert shown.audio[..0] == [];
  }

  /** Both happen. An alert with audio is shown and its profile disabled: its audio is live with nothing on screen. */
  lemma {:induction false} DisablingLeavesAudioRunning(inst: Instance, now: int, ids: IdSupply)
    requires inst.audio.Some?
    ensures var r := Run(Initial(true, 1, 0, true),
                         [DoTest(inst, now), DoTick(now, NeverRequested), DoApply(false, 1, 0)], ids);
            r.screen.current.None? && Live(r.audio) == {WithId(inst, ids(0)).id} && !Tidy(r)
  {
    var shown := OneIsLive(inst, now, ids);
    RunThird(Initial(true, 1, 0, true), DoTest(inst, now), DoTick(now, NeverRequested), DoApply(false, 1, 0), ids);
  }

  /** An alert with audio is shown and its profile deleted: its audio is live and the stream is closed. */
  lemma {:induction false} DeletingLeavesAudioRunning(inst: Instance, now: int, ids: IdSupply)
    requires inst.audio.Some?
    ensures var r := Run(Initial(true, 1, 0, true), [DoTest(inst, now), DoTick(now, NeverRequested), DoShut], ids);
            r.screen.closed && Live(r.audio) == {WithId(inst, ids(0)).id} && !Tidy(r)
  {
    var shown := OneIsLive(inst, now, ids);
    RunThird(Initial(true, 1, 0, true), DoTest(inst, now), DoTick(now, NeverRequested), DoShut, ids);
  }
}
