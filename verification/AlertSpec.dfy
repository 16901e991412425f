/** The alert playback engine of one profile as a state machine: what every operation does to the state. */
module AlertSpec {
  import opened Common
  import opened Sorting
  import opened AlertModel
  import opened AlertQueueSpec
  import opened AlertScreen
  import opened AlertStock

  const MAX_AUDIO_HOLD := 15 * SECOND

  /** The public counters, and the flows the engine does not count itself. */
  datatype Tally = Tally(
    enqueued: nat, played: nat, expired: nat, dropped: nat, skipped: nat, synthetic: nat,
    groupedMembers: nat, groupsCreated: nat, preempted: nat,
    offered: nat, rejected: nat, replayed: nat, hiddenByDisable: nat)

  const NOTHING_COUNTED := Tally(0, 0, 0, 0, 0, 0, 0, 0, 0, 0, 0, 0, 0)

  /** Commands to the linked audio runtime. */
  datatype AudioCommand = PlayAudio(alertId: string, sound: bool, tts: bool) | CancelAudio(alertId: string)

  datatype AudioState = NeverRequested | Started | Playing | Ended | Failed | NoRenderer

  /** newID called for the k-th time. */
  type IdSupply = nat -> Option<string>

  datatype Runtime = Runtime(
    enabled: bool, maxItems: int, maxAge: int,
    stock: Stock, screen: Screen, pendingReplay: Option<Instance>, lastCompleted: Option<Instance>,
    tally: Tally, audioLinked: bool, audio: seq<AudioCommand>, idCalls: nat)

  function Initial(enabled: bool, maxItems: int, maxAge: int, audioLinked: bool): Runtime {
    Runtime(enabled, maxItems, maxAge, EMPTY_STOCK, Screen(None, 0, false, [], false), None, None,
            NOTHING_COUNTED, audioLinked, [], 0)
  }

  function WithId(inst: Instance, id: Option<string>): Instance {
    if id.Some? then inst.(id := id.value) else inst
  }

  // ----- transitions of the current alert -----

  function AudioFor(s: Runtime, inst: Instance): seq<AudioCommand> {
    if s.audioLinked && inst.audio.Some?
    then [PlayAudio(inst.id, inst.audio.value.soundEnabled, inst.audio.value.ttsEnabled)] else []
  }

  function Start(s: Runtime, inst: Instance, now: int): Runtime {
    s.(screen := ShowOn(s.screen, inst, now), audio := s.audio + AudioFor(s, inst))
  }

  function CountEnd(t: Tally, reason: HideReason): Tally {
    match reason
    case Skipped => t.(skipped := t.skipped + 1)
    case Preempted => t.(preempted := t.preempted + 1)
    case _ => t.(played := t.played + 1)
  }

  function Complete(s: Runtime, reason: HideReason): Runtime {
    if s.screen.current.None? then s
    else
      var done := s.screen.current.value;
      s.(screen := HideOn(s.screen, reason), lastCompleted := Some(done), tally := CountEnd(s.tally, reason),
         audio := s.audio + if s.audioLinked && done.audio.Some? then [CancelAudio(done.id)] else [])
  }

  function CountTaken(t: Tally, r: Popped): Tally {
    t.(expired := t.expired + |r.expired|)
  }

  function Promote(s: Runtime, now: int): Runtime {
    if s.pendingReplay.Some? then
      Start(s.(pendingReplay := None, tally := s.tally.(replayed := s.tally.replayed + 1)), s.pendingReplay.value, now)
    else
      var r := PopNext(s.stock.items, s.maxAge, now);
      var taken := s.(stock := Take(s.stock, s.maxAge, now), tally := CountTaken(s.tally, r));
      if r.item.None? then taken else Start(taken, r.item.value.inst, now)
  }

  /** Whether the current alert, past its deadline, is held because its audio still runs. */
  predicate Held(s: Runtime, now: int, answer: AudioState) {
    && s.audioLinked && s.screen.current.Some? && s.screen.current.value.audio.Some?
    && now - s.screen.deadline < MAX_AUDIO_HOLD
    && (answer == Started || answer == Playing)
  }

  /** Asking whether to hold cancels the audio once the bound on holding is reached. */
  function AfterHoldCheck(s: Runtime, now: int): Runtime {
    if s.audioLinked && s.screen.current.Some? && s.screen.current.value.audio.Some?
       && now - s.screen.deadline >= MAX_AUDIO_HOLD
    then s.(audio := s.audio + [CancelAudio(s.screen.current.value.id)]) else s
  }

  function Finish(s: Runtime, now: int, answer: AudioState): Runtime {
    if s.screen.current.Some? && now >= s.screen.deadline && !Held(s, now, answer)
    then Complete(AfterHoldCheck(s, now), Completed) else s
  }

  function Tick(s: Runtime, now: int, answer: AudioState): Runtime {
    if !s.enabled then s
    else
      var done := Finish(s, now, answer);
      if done.screen.paused || done.screen.current.Some? then done else Promote(done, now)
  }

  // ----- arrivals -----

  predicate CanPreempt(s: Runtime, inst: Instance) {
    && !s.screen.paused && s.screen.current.Some? && !inst.replayed
    && !(inst.synthetic && !s.screen.current.value.synthetic)
    && inst.interruptsLower && s.screen.current.value.interruptible
    && inst.priority > s.screen.current.value.priority
  }

  function Preempt(s: Runtime, inst: Instance, now: int, ids: IdSupply): Runtime {
    Start(Complete(s, Preempted).(idCalls := s.idCalls + 1), WithId(inst, ids(s.idCalls)), now)
  }

  function GroupIndex(s: Runtime, inst: Instance, now: int): Option<nat> {
    if GroupingEligible(inst) then FirstJoinable(s.stock.items, KeyOf(inst), now) else None
  }

  function CountMerge(t: Tally, before: Instance, after: Instance): Tally {
    t.(groupedMembers := t.groupedMembers + 1,
       groupsCreated := if before.groupCount == 1 && after.groupCount > 1 then t.groupsCreated + 1 else t.groupsCreated)
  }

  function Join(s: Runtime, i: nat, inst: Instance, now: int): Runtime
    requires i < |s.stock.items|
  {
    s.(stock := MergeInto(s.stock, i, inst, now), tally := CountMerge(s.tally, s.stock.items[i].inst, Merge(s.stock.items[i].inst, inst)))
  }

  function CountOffer(t: Tally, o: Offered, inst: Instance): Tally {
    if o.accepted then
      t.(enqueued := t.enqueued + 1, synthetic := t.synthetic + (if inst.synthetic then 1 else 0),
         dropped := t.dropped + (if o.evicted.Some? then 1 else 0))
    else t.(dropped := t.dropped + 1, rejected := t.rejected + 1)
  }

  function Enqueue(s: Runtime, inst: Instance, now: int, ids: IdSupply): Runtime {
    var named := WithId(inst, ids(s.idCalls));
    var o := Offer(s.stock.items, s.stock.next, s.maxItems, named);
    s.(idCalls := s.idCalls + 1, stock := Admit(s.stock, s.maxItems, named, now), tally := CountOffer(s.tally, o, named))
  }

  function CountArrival(s: Runtime): Runtime {
    s.(tally := s.tally.(offered := s.tally.offered + 1))
  }

  /** Where a candidate goes: on screen if it may preempt, else into a group, else to the queue. */
  function Place(s: Runtime, inst: Instance, now: int, ids: IdSupply, mayPreempt: bool): Runtime {
    var i := GroupIndex(s, inst, now);
    if mayPreempt && CanPreempt(s, inst) then Preempt(s, inst, now, ids)
    else if i.Some? then Join(s, i.value, inst, now)
    else Enqueue(s, inst, now, ids)
  }

  function Arrive(s: Runtime, inst: Instance, now: int, ids: IdSupply, mayPreempt: bool): Runtime {
    Place(CountArrival(s), inst, now, ids, mayPreempt)
  }

  function ArriveAll(s: Runtime, list: seq<Instance>, now: int, ids: IdSupply, mayPreempt: bool): Runtime
    decreases |list|
  {
    if list == [] then s
    else ArriveAll(Arrive(s, list[0], now, ids, mayPreempt), list[1..], now, ids, mayPreempt && !CanPreempt(s, list[0]))
  }

  /** Byte-wise string order. */
  predicate LexLess(a: string, b: string) {
    b != "" && (a == "" || a[0] < b[0] || (a[0] == b[0] && LexLess(a[1..], b[1..])))
  }

  /** Candidates are handled by priority, highest first, then by rule id. */
  predicate HandledBefore(a: Instance, b: Instance) {
    a.priority > b.priority || (a.priority == b.priority && LexLess(a.ruleId, b.ruleId))
  }

  function Matched(s: Runtime, candidates: seq<Instance>, now: int, ids: IdSupply): Runtime {
    if !s.enabled then s else ArriveAll(s, Sort(candidates, HandledBefore), now, ids, true)
  }

  /** A test alert: it never groups, and is taken even while the profile is disabled. */
  function Test(s: Runtime, inst: Instance, now: int, ids: IdSupply): Runtime {
    PlaceTest(CountArrival(s), inst, now, ids)
  }

  function PlaceTest(s: Runtime, inst: Instance, now: int, ids: IdSupply): Runtime {
    if CanPreempt(s, inst) then Preempt(s, inst, now, ids) else Enqueue(s, inst, now, ids)
  }

  // ----- operator commands -----

  function SetPaused(s: Runtime, paused: bool): Runtime {
    s.(screen := PauseOn(s.screen, paused))
  }

  function SkipCurrent(s: Runtime, now: int): Runtime {
    if s.screen.current.None? then s
    else
      var skipped := Complete(s, Skipped);
      if skipped.screen.paused then skipped else Promote(skipped, now)
  }

  function ReplayPrevious(s: Runtime): Runtime {
    if s.lastCompleted.None? then s else s.(pendingReplay := Some(s.lastCompleted.value.(replayed := true)))
  }

  function ClearQueue(s: Runtime): Runtime {
    s.(stock := Empty(s.stock), pendingReplay := None)
  }

  /** Disabling clears the queue and hides the current alert; its audio is left alone. */
  function Disable(s: Runtime): Runtime {
    var cleared := ClearQueue(s);
    if s.screen.current.None? then cleared
    else cleared.(screen := HideOn(s.screen, ProfileDisabled),
                  tally := s.tally.(hiddenByDisable := s.tally.hiddenByDisable + 1))
  }

  function ApplyProfile(s: Runtime, enabled: bool, maxItems: int, maxAge: int): Runtime {
    var configured := s.(enabled := enabled, maxItems := maxItems, maxAge := maxAge);
    if s.enabled && !enabled then Disable(configured) else configured
  }

  function Shut(s: Runtime): Runtime {
    s.(screen := s.screen.(closed := true))
  }

  // ----- runs -----

  datatype Action =
    | DoTick(now: int, answer: AudioState)
    | DoMatched(candidates: seq<Instance>, now: int)
    | DoTest(inst: Instance, now: int)
    | DoPause(paused: bool)
    | DoSkip(now: int)
    | DoReplay
    | DoClear
    | DoApply(enabled: bool, maxItems: int, maxAge: int)
    | DoShut

  function Step(s: Runtime, a: Action, ids: IdSupply): Runtime {
    match a
    case DoTick(now, answer) => Tick(s, now, answer)
    case DoMatched(candidates, now) => Matched(s, candidates, now, ids)
    case DoTest(inst, now) => Test(s, inst, now, ids)
    case DoPause(paused) => SetPaused(s, paused)
    case DoSkip(now) => SkipCurrent(s, now)
    case DoReplay => ReplayPrevious(s)
    case DoClear => ClearQueue(s)
    case DoApply(enabled, maxItems, maxAge) => ApplyProfile(s, enabled, maxItems, maxAge)
    case DoShut => Shut(s)
  }

  function Run(s: Runtime, actions: seq<Action>, ids: IdSupply): Runtime {
    if actions == [] then s else Step(Run(s, actions[..|actions| - 1], ids), actions[|actions| - 1], ids)
  }
}
