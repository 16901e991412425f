/** Alert profiles, which come and go, and the one audio manager they share, as one system: profiles are created,
operated, polled and deleted, their audio calls are carried out one at a time, and the manager goes on in between. */
module AlertAudioJoint {
  import opened Common
  import AlertModel
  import AlertScreen
  import Sorting
  import A = AlertSpec
  import Link = AlertAudioLink
  import M = AudioSpec
  import Outcomes = AudioOutcomes

  /** The profiles, deleted ones closed, how many of its audio calls each has carried out, and the manager. */
  datatype Joint = Joint(profiles: map<nat, A.Runtime>, made: map<nat, nat>, audio: M.Runtime)

  datatype Move =
    | Create(profile: nat, enabled: bool, maxItems: int, maxAge: int, linked: bool)
    | Delete(profile: nat)
    | Poll(profile: nat, now: int)
    | Operate(profile: nat, action: A.Action)
    | Call(profile: nat, sound: string, speech: string, ids: nat)
    | Manage(step: M.Action)

  /** Each profile draws ids of its own. */
  type Supplies = nat -> A.IdSupply

  function Start(capacity: int, maxBytes: int): Joint {
    Joint(map[], map[], M.Fresh(capacity, maxBytes))
  }

  function Answer(st: M.AlertState): A.AudioState {
    match st
    case NeverRequested => A.NeverRequested
    case Started => A.Started
    case IsPlaying => A.Playing
    case HasEnded => A.Ended
    case HasFailed => A.Failed
    case NoRenderer => A.NoRenderer
  }

  /** Whether a poll asks the manager about the alert on screen. */
  predicate Asks(s: A.Runtime, now: int) {
    && s.enabled && s.audioLinked && s.screen.current.Some? && s.screen.current.value.audio.Some?
    && s.screen.deadline <= now < s.screen.deadline + A.MAX_AUDIO_HOLD
  }

  function Requests(sound: bool, tts: bool, soundContent: string, speech: string): seq<M.Request> {
    (if sound then [M.Request(M.AlertSound, soundContent)] else []) + (if tts then [M.Request(M.AlertTts, speech)] else [])
  }

  function Carry(r: M.Runtime, c: A.AudioCommand, sound: string, speech: string, ids: nat): M.Runtime {
    match c
    case PlayAudio(id, withSound, withSpeech) => M.EnqueueAlert(r, id, Requests(withSound, withSpeech, sound, speech), ids)
    case CancelAudio(id) => M.CancelAlert(r, id)
  }

  /** No audio call of the profile is outstanding: it holds its lock until all are made. */
  predicate Free(j: Joint, p: nat) {
    p in j.profiles && p in j.made && j.made[p] == |j.profiles[p].audio|
  }

  /** What a poll of the profile does: its tick, with the manager's answer if it asks. */
  function TickOf(j: Joint, p: nat, now: int): A.Action
    requires p in j.profiles
  {
    var s := j.profiles[p];
    A.DoTick(now, if Asks(s, now) then Answer(M.StateOf(j.audio, s.screen.current.value.id)) else A.NeverRequested)
  }

  function PollOne(j: Joint, p: nat, now: int, ids: Supplies): Joint
    requires p in j.profiles
  {
    var s := j.profiles[p];
    j.(profiles := j.profiles[p := A.Step(s, TickOf(j, p, now), ids(p))],
       audio := if Asks(s, now) then M.ReadState(j.audio, s.screen.current.value.id) else j.audio)
  }

  /** Operations are not polls, and close no stream. */
  predicate Operation(a: A.Action) {
    !a.DoTick? && !a.DoShut?
  }

  /** What the manager does besides the profiles' calls. */
  predicate OwnStep(a: M.Action) {
    !a.DoEnqueueAlert? && !a.DoCancelAlert? && !a.DoReadState?
  }

  /** One move; a move that is not possible changes nothing. Deleting waits for nobody: it may come while the profile
      still has calls to make, and an operation that had found the profile before may come after it. */
  function Take(j: Joint, m: Move, ids: Supplies): Joint {
    match m
    case Create(p, enabled, maxItems, maxAge, linked) =>
      if p in j.profiles then j
      else j.(profiles := j.profiles[p := A.Initial(enabled, maxItems, maxAge, linked)], made := j.made[p := 0])
    case Delete(p) =>
      if p !in j.profiles then j else j.(profiles := j.profiles[p := A.Step(j.profiles[p], A.DoShut, ids(p))])
    case Poll(p, now) => if !Free(j, p) then j else PollOne(j, p, now, ids)
    case Operate(p, a) =>
      if !Free(j, p) || !Operation(a) then j else j.(profiles := j.profiles[p := A.Step(j.profiles[p], a, ids(p))])
    case Call(p, sound, speech, n) =>
      if p !in j.profiles || p !in j.made || j.made[p] >= |j.profiles[p].audio| then j
      else j.(made := j.made[p := j.made[p] + 1], audio := Carry(j.audio, j.profiles[p].audio[j.made[p]], sound, speech, n))
    case Manage(a) => if OwnStep(a) then j.(audio := M.Step(j.audio, a)) else j
  }

  function Run(j: Joint, moves: seq<Move>, ids: Supplies): Joint {
    if moves == [] then j else Take(Run(j, moves[..|moves| - 1], ids), moves[|moves| - 1], ids)
  }

  // ----- what is heard -----

  /** The alerts whose audio the profile has started and not cancelled since, as far as its calls are made. */
  ghost function Heard(j: Joint, p: nat): set<string>
    requires p in j.profiles && p in j.made && j.made[p] <= |j.profiles[p].audio|
  {
    Link.Live(j.profiles[p].audio[..j.made[p]])
  }

  ghost predicate Sane(j: Joint) {
    && j.made.Keys == j.profiles.Keys && Outcomes.Orderly(j.audio)
    && forall p | p in j.profiles :: j.made[p] <= |j.profiles[p].audio|
  }

  /** The manager knows of no alert's audio but what some profile has started and not cancelled. */
  ghost predicate Owned(j: Joint)
    requires Sane(j)
  {
    forall i | Outcomes.Known(j.audio, i) :: exists p :: p in j.profiles && i in Heard(j, p)
  }

  ghost predicate Inv(j: Joint) {
    Sane(j) && Owned(j)
  }

  // ----- a profile only ever adds calls -----

  lemma {:induction false} PromoteAdds(s: A.Runtime, now: int)
    ensures s.audio <= A.Promote(s, now).audio
  {
  }

  lemma {:induction false} TickAdds(s: A.Runtime, now: int, answer: A.AudioState)
    ensures s.audio <= A.Tick(s, now, answer).audio
  {
    assert s.audio <= A.Finish(s, now, answer).audio;
    PromoteAdds(A.Finish(s, now, answer), now);
  }

  lemma {:induction false} SkipAdds(s: A.Runtime, now: int)
    ensures s.audio <= A.SkipCurrent(s, now).audio
  {
    PromoteAdds(A.Complete(s, AlertScreen.Skipped), now);
  }

  lemma {:induction false} ArriveAllAdds(
      s: A.Runtime, list: seq<AlertModel.Instance>, now: int, ids: A.IdSupply, mayPreempt: bool)
    ensures s.audio <= A.ArriveAll(s, list, now, ids, mayPreempt).audio
    decreases |list|
  {
    if list != [] {
      assert s.audio <= A.Arrive(s, list[0], now, ids, mayPreempt).audio;
      ArriveAllAdds(A.Arrive(s, list[0], now, ids, mayPreempt), list[1..], now, ids,
                    mayPreempt && !A.CanPreempt(s, list[0]));
    }
  }

  lemma {:induction false} StepAdds(s: A.Runtime, a: A.Action, ids: A.IdSupply)
    ensures s.audio <= A.Step(s, a, ids).audio
  {
    match a
    case DoTick(now, answer) => TickAdds(s, now, answer);
    case DoMatched(candidates, now) =>
      if s.enabled { ArriveAllAdds(s, Sorting.Sort(candidates, A.HandledBefore), now, ids, true); }
    case DoSkip(now) => SkipAdds(s, now);
    case _ =>
  }

  /** Replacing a profile by one with more calls leaves what is heard. */
  lemma {:induction false} GrowthKeepsInv(j: Joint, p: nat, s: A.Runtime, r: M.Runtime)
    requires Inv(j) && p in j.profiles && j.profiles[p].audio <= s.audio
    requires Outcomes.Orderly(r) && forall i | Outcomes.Known(r, i) :: Outcomes.Known(j.audio, i)
    ensures Inv(j.(profiles := j.profiles[p := s], audio := r))
  {
    var k := j.(profiles := j.profiles[p := s], audio := r);
    assert s.audio[..j.made[p]] == j.profiles[p].audio[..j.made[p]];
    forall i | Outcomes.Known(r, i) ensures exists q :: q in k.profiles && i in Heard(k, q) {
      var q :| q in j.profiles && i in Heard(j, q);
      assert i in Heard(k, q);
    }
  }

  lemma {:induction false} PollKeepsInv(j: Joint, p: nat, now: int, ids: Supplies)
    requires Inv(j) && Free(j, p)
    ensures Inv(PollOne(j, p, now, ids))
  {
    var s := j.profiles[p];
    StepAdds(s, TickOf(j, p, now), ids(p));
    if Asks(s, now) {
      var id := s.screen.current.value.id;
      forall i ensures Outcomes.Orderly(M.ReadState(j.audio, id))
        && (Outcomes.Known(M.ReadState(j.audio, id), i) ==> Outcomes.Known(j.audio, i))
      {
        Outcomes.ReadKnows(j.audio, id, i);
      }
    }
    GrowthKeepsInv(j, p, A.Step(s, TickOf(j, p, now), ids(p)), PollOne(j, p, now, ids).audio);
  }

  lemma {:induction false} CreateKeepsInv(j: Joint, p: nat, s: A.Runtime)
    requires Inv(j) && p !in j.profiles
    ensures Inv(j.(profiles := j.profiles[p := s], made := j.made[p := 0]))
  {
    var k := j.(profiles := j.profiles[p := s], made := j.made[p := 0]);
    forall i | Outcomes.Known(j.audio, i) ensures exists q :: q in k.profiles && i in Heard(k, q) {
      var q :| q in j.profiles && i in Heard(j, q);
      assert i in Heard(k, q);
    }
  }

  /** After a call the manager knows of an alert's audio only if it did before or the call plays it, and not if the
      call cancels it. */
  lemma {:induction false} CarryKnows(r: M.Runtime, c: A.AudioCommand, sound: string, speech: string, ids: nat, i: string)
    requires Outcomes.Orderly(r)
    ensures Outcomes.Orderly(Carry(r, c, sound, speech, ids))
    ensures Outcomes.Known(Carry(r, c, sound, speech, ids), i) ==>
              if c.PlayAudio? then i == c.alertId || Outcomes.Known(r, i) else i != c.alertId && Outcomes.Known(r, i)
  {
    match c
    case PlayAudio(id, withSound, withSpeech) =>
      Outcomes.EnqueueAlertKnows(r, id, Requests(withSound, withSpeech, sound, speech), ids, i);
    case CancelAudio(id) => Outcomes.CancelAlertKnows(r, id, i);
  }

  lemma {:induction false} CallKeepsInv(j: Joint, p: nat, r: M.Runtime, sound: string, speech: string, ids: nat)
    requires Inv(j) && p in j.profiles && j.made[p] < |j.profiles[p].audio|
    requires r == Carry(j.audio, j.profiles[p].audio[j.made[p]], sound, speech, ids)
    ensures Inv(j.(made := j.made[p := j.made[p] + 1], audio := r))
  {
    var c, n, calls := j.profiles[p].audio[j.made[p]], j.made[p], j.profiles[p].audio;
    var k := j.(made := j.made[p := n + 1], audio := r);
    assert calls[..n + 1][..n] == calls[..n];
    assert Heard(k, p) == Link.Obey(Heard(j, p), c);
    CarryKnows(j.audio, c, sound, speech, ids, "");
    forall i | Outcomes.Known(r, i) ensures exists q :: q in k.profiles && i in Heard(k, q) {
      CarryKnows(j.audio, c, sound, speech, ids, i);
      if c.PlayAudio? && i == c.alertId {
        assert i in Heard(k, p);
      } else {
        var q :| q in j.profiles && i in Heard(j, q);
        assert i in Heard(k, q);
      }
    }
  }

  lemma {:induction false} ManageKeepsInv(j: Joint, a: M.Action)
    requires Inv(j) && OwnStep(a)
    ensures Inv(j.(audio := M.Step(j.audio, a)))
  {
    Outcomes.StepKnows(j.audio, a, "");
    forall i | Outcomes.Known(M.Step(j.audio, a), i) ensures exists q :: q in j.profiles && i in Heard(j, q) {
      Outcomes.StepKnows(j.audio, a, i);
    }
  }

  lemma {:induction false} OneStepKeepsInv(j: Joint, p: nat, a: A.Action, ids: Supplies, k: Joint)
    requires Inv(j) && p in j.profiles && k == j.(profiles := j.profiles[p := A.Step(j.profiles[p], a, ids(p))])
    ensures Inv(k)
  {
    StepAdds(j.profiles[p], a, ids(p));
    GrowthKeepsInv(j, p, k.profiles[p], j.audio);
  }

  lemma {:induction false} MoveKeepsInv(j: Joint, m: Move, ids: Supplies)
    requires Inv(j)
    ensures Inv(Take(j, m, ids))
  {
    match m
    case Create(p, enabled, maxItems, maxAge, linked) =>
      if p !in j.profiles { CreateKeepsInv(j, p, A.Initial(enabled, maxItems, maxAge, linked)); }
    case Delete(p) =>
      if p in j.profiles { OneStepKeepsInv(j, p, A.DoShut, ids, Take(j, m, ids)); }
    case Poll(p, now) => if Free(j, p) { PollKeepsInv(j, p, now, ids); }
    case Operate(p, a) =>
      if Free(j, p) && Operation(a) { OneStepKeepsInv(j, p, a, ids, Take(j, m, ids)); }
    case Call(p, sound, speech, n) =>
      if p in j.profiles && j.made[p] < |j.profiles[p].audio| {
        CallKeepsInv(j, p, Carry(j.audio, j.profiles[p].audio[j.made[p]], sound, speech, n), sound, speech, n);
      }
    case Manage(a) => if OwnStep(a) { ManageKeepsInv(j, a); }
  }

  // ----- what is heard is on screen -----

  /** Disabling or deleting a profile while audio of its alert is live, or starting audio after its deletion. */
  predicate Orphans(j: Joint, m: Move) {
    match m
    case Delete(p) => p in j.profiles && Link.Orphans(j.profiles[p], A.DoShut)
    case Poll(p, now) => Free(j, p) && Link.Orphans(j.profiles[p], TickOf(j, p, now))
    case Operate(p, a) => Free(j, p) && Operation(a) && Link.Orphans(j.profiles[p], a)
    case _ => false
  }

  predicate NeverOrphans(j: Joint, moves: seq<Move>, ids: Supplies) {
    moves == [] ||
    var before := moves[..|moves| - 1];
    NeverOrphans(j, before, ids) && !Orphans(Run(j, before, ids), moves[|moves| - 1])
  }

  ghost predicate AllTidy(j: Joint) {
    forall p | p in j.profiles :: Link.Tidy(j.profiles[p])
  }

  /** A move keeps every profile's live audio on its screen if and only if it is none of these. */
  lemma {:induction false} MoveIsTidyIff(j: Joint, m: Move, ids: Supplies)
    requires AllTidy(j)
    ensures AllTidy(Take(j, m, ids)) <==> !Orphans(j, m)
  {
    match m
    case Delete(p) =>
      if p in j.profiles { OneChangesIff(j, p, A.DoShut, ids, Take(j, m, ids)); }
    case Poll(p, now) =>
      if Free(j, p) { OneChangesIff(j, p, TickOf(j, p, now), ids, Take(j, m, ids)); }
    case Operate(p, a) =>
      if Free(j, p) && Operation(a) { OneChangesIff(j, p, a, ids, Take(j, m, ids)); }
    case _ =>
  }

  lemma {:induction false} OneChangesIff(j: Joint, p: nat, a: A.Action, ids: Supplies, k: Joint)
    requires AllTidy(j) && p in j.profiles && k.profiles == j.profiles[p := A.Step(j.profiles[p], a, ids(p))]
    ensures AllTidy(k) <==> !Link.Orphans(j.profiles[p], a)
  {
    Link.OrphanedIff(j.profiles[p], a, ids(p));
    assert k.profiles[p] == A.Step(j.profiles[p], a, ids(p));
  }

  lemma {:induction false} RunKeepsInv(capacity: int, maxBytes: int, moves: seq<Move>, ids: Supplies)
    ensures Inv(Run(Start(capacity, maxBytes), moves, ids))
    ensures NeverOrphans(Start(capacity, maxBytes), moves, ids) ==> AllTidy(Run(Start(capacity, maxBytes), moves, ids))
  {
    if moves == [] {
      assert forall i :: !Outcomes.Known(M.Fresh(capacity, maxBytes), i);
    } else {
      var before := Run(Start(capacity, maxBytes), moves[..|moves| - 1], ids);
      RunKeepsInv(capacity, maxBytes, moves[..|moves| - 1], ids);
      MoveKeepsInv(before, moves[|moves| - 1], ids);
      if NeverOrphans(Start(capacity, maxBytes), moves, ids) { MoveIsTidyIff(before, moves[|moves| - 1], ids); }
    }
  }

  /** Alert i is on the screen of profile p, with audio. */
  predicate OnScreen(j: Joint, p: nat, i: string) {
    p in j.profiles && Link.HasAudio(j.profiles[p]) && !j.profiles[p].screen.closed
    && j.profiles[p].screen.current.value.id == i
  }

  /** Profile p has still to make the call that cancels the audio of alert i. */
  predicate AboutToCancel(j: Joint, p: nat, i: string) {
    p in j.profiles && p in j.made && j.made[p] <= |j.profiles[p].audio|
    && A.CancelAudio(i) in j.profiles[p].audio[j.made[p]..]
  }

  /** What is live after some calls is live after more, unless one of these cancels it. */
  lemma {:induction false} LiveUnlessCancelled(calls: seq<A.AudioCommand>, n: nat, i: string)
    requires n <= |calls| && i in Link.Live(calls[..n]) && A.CancelAudio(i) !in calls[n..]
    ensures i in Link.Live(calls)
  {
    var last := |calls| - 1;
    if n == |calls| {
      assert calls[..n] == calls;
    } else {
      assert calls[..last][..n] == calls[..n] && calls[n..] == calls[..last][n..] + [calls[last]];
      LiveUnlessCancelled(calls[..last], n, i);
    }
  }

  lemma {:induction false} KnownIsOnScreen(j: Joint, i: string)
    requires Inv(j) && AllTidy(j) && Outcomes.Known(j.audio, i)
    ensures exists p :: OnScreen(j, p, i) || AboutToCancel(j, p, i)
  {
    var p :| p in j.profiles && i in Heard(j, p);
    if !AboutToCancel(j, p, i) {
      LiveUnlessCancelled(j.profiles[p].audio, j.made[p], i);
      assert Link.Tidy(j.profiles[p]);
      assert OnScreen(j, p, i);
    }
  }

  /** Over every run of profiles and their manager from nothing, however their steps interleave, in which no profile is
      disabled or deleted while its alert's audio is live nor starts audio afterwards: whatever alert audio the manager
      plays, synthesizes, keeps waiting or has an outcome for belongs to the alert some profile has on screen, or is
      about to be cancelled by a profile that has not yet made the call. */
  lemma {:induction false} HeardOnlyOnScreen(capacity: int, maxBytes: int, moves: seq<Move>, ids: Supplies, i: string)
    requires NeverOrphans(Start(capacity, maxBytes), moves, ids)
    ensures var j := Run(Start(capacity, maxBytes), moves, ids);
            Outcomes.Known(j.audio, i) ==> exists p :: OnScreen(j, p, i) || AboutToCancel(j, p, i)
  {
    RunKeepsInv(capacity, maxBytes, moves, ids);
    var j := Run(Start(capacity, maxBytes), moves, ids);
    if Outcomes.Known(j.audio, i) { KnownIsOnScreen(j, i); }
  }

  lemma {:induction false} RunStep(j: Joint, moves: seq<Move>, m: Move, ids: Supplies)
    ensures Run(j, moves + [m], ids) == Take(Run(j, moves, ids), m, ids)
  {
    assert (moves + [m])[..|moves|] == moves;
  }

  // Runs of one profile, numbered 0.

  ghost predicate Only(j: Joint, s: A.Runtime, made: nat, r: M.Runtime) {
    j == Joint(map[0 := s], map[0 := made], r)
  }

  lemma CreateOnly(r: M.Runtime, ids: Supplies)
    ensures Only(Take(Joint(map[], map[], r), Create(0, true, 1, 0, true), ids), A.Initial(true, 1, 0, true), 0, r)
  {
  }

  lemma OperateOnly(j: Joint, s: A.Runtime, r: M.Runtime, a: A.Action, ids: Supplies)
    requires Only(j, s, |s.audio|, r) && Operation(a)
    ensures Only(Take(j, Operate(0, a), ids), A.Step(s, a, ids(0)), |s.audio|, r)
  {
  }

  lemma DeleteOnly(j: Joint, s: A.Runtime, made: nat, r: M.Runtime, ids: Supplies)
    requires Only(j, s, made, r)
    ensures Only(Take(j, Delete(0), ids), A.Shut(s), made, r)
  {
  }

  lemma PollOnly(j: Joint, s: A.Runtime, r: M.Runtime, now: int, ids: Supplies)
    requires Only(j, s, |s.audio|, r) && s.screen.current.None?
    ensures Only(Take(j, Poll(0, now), ids), A.Step(s, A.DoTick(now, A.NeverRequested), ids(0)), |s.audio|, r)
  {
  }

  lemma CallOnly(j: Joint, s: A.Runtime, made: nat, r: M.Runtime, sound: string, speech: string, n: nat, ids: Supplies)
    requires Only(j, s, made, r) && made < |s.audio|
    ensures Only(Take(j, Call(0, sound, speech, n), ids), s, made + 1, Carry(r, s.audio[made], sound, speech, n))
  {
  }

  /** A profile is made, takes a test alert with sound and speech, and shows it. */
  function ShowOne(inst: AlertModel.Instance, now: int): seq<Move> {
    [Create(0, true, 1, 0, true)] + [Operate(0, A.DoTest(inst, now))] + [Poll(0, now)]
  }

  lemma {:induction false} AboutToPlay(inst: AlertModel.Instance, now: int, ids: Supplies, capacity: int, maxBytes: int)
      returns (j: Joint, shown: A.Runtime)
    requires inst.audio == Some(AlertModel.AudioSnapshot(true, true))
    ensures j == Run(Start(capacity, maxBytes), ShowOne(inst, now), ids)
    ensures Only(j, shown, 0, M.Fresh(capacity, maxBytes)) && shown.enabled
    ensures shown.audio == [A.PlayAudio(A.WithId(inst, ids(0)(0)).id, true, true)]
  {
    var r, start := M.Fresh(capacity, maxBytes), Start(capacity, maxBytes);
    var create, test := Create(0, true, 1, 0, true), Operate(0, A.DoTest(inst, now));
    var queued := Link.QueuedForAudio(inst, now, ids(0));
    shown := Link.ShownWithAudio(inst, now, ids(0));
    RunStep(start, [], create, ids);
    RunStep(start, [create], test, ids);
    RunStep(start, [create] + [test], Poll(0, now), ids);
    assert [] + [create] == [create];
    CreateOnly(r, ids);
    var made := Take(start, create, ids);
    OperateOnly(made, A.Initial(true, 1, 0, true), r, A.DoTest(inst, now), ids);
    PollOnly(Take(made, test, ids), queued, r, now, ids);
    j := Take(Take(made, test, ids), Poll(0, now), ids);
  }

  /** The call is made: the sound is current, the speech linked behind it. */
  lemma {:induction false} Played(
      inst: AlertModel.Instance, now: int, ids: Supplies, capacity: int, maxBytes: int, sound: string, speech: string)
      returns (j: Joint, shown: A.Runtime, r: M.Runtime)
    requires inst.audio == Some(AlertModel.AudioSnapshot(true, true))
    ensures j == Run(Start(capacity, maxBytes), ShowOne(inst, now) + [Call(0, sound, speech, 2)], ids)
    ensures Only(j, shown, 1, r) && |shown.audio| == 1 && shown.enabled
    ensures Waiting(r, A.WithId(inst, ids(0)(0)).id, sound, speech)
  {
    var before;
    before, shown := AboutToPlay(inst, now, ids, capacity, maxBytes);
    RunStep(Start(capacity, maxBytes), ShowOne(inst, now), Call(0, sound, speech, 2), ids);
    CallOnly(before, shown, 0, M.Fresh(capacity, maxBytes), sound, speech, 2, ids);
    j := Take(before, Call(0, sound, speech, 2), ids);
    r := Carry(M.Fresh(capacity, maxBytes), shown.audio[0], sound, speech, 2);
    SoundThenSpeech(capacity, maxBytes, A.WithId(inst, ids(0)(0)).id, sound, speech);
  }

  function SpeechOf(i: string, speech: string): M.Item {
    M.Item(1, M.AlertTts, speech, false, None, Some(M.Link(i, None)))
  }

  function SoundOf(i: string, sound: string, speech: string): M.Item {
    M.Item(0, M.AlertSound, sound, false, None, Some(M.Link(i, Some(SpeechOf(i, speech)))))
  }

  /** The sound of alert i is current and being synthesized, its speech linked behind it. */
  predicate Waiting(r: M.Runtime, i: string, sound: string, speech: string) {
    && r.current == Some(M.Current(SoundOf(i, sound, speech), None, "", 0, M.Synthesizing))
    && SoundOf(i, sound, speech) in r.inFlight
  }

  lemma {:induction false} SoundThenSpeech(capacity: int, maxBytes: int, i: string, sound: string, speech: string)
    ensures Waiting(M.EnqueueAlert(M.Fresh(capacity, maxBytes), i, Requests(true, true, sound, speech), 2), i, sound, speech)
  {
    var first, second := M.Request(M.AlertSound, sound), M.Request(M.AlertTts, speech);
    assert Requests(true, true, sound, speech) == [first, second];
    assert [first, second][1..] == [second];
    assert M.Chain([second], 1, i) == SpeechOf(i, speech);
    assert M.Chain([first, second], 0, i) == SoundOf(i, sound, speech);
  }

  /** Where a profile is disabled while its alert's audio is live, that audio goes on with nothing on screen. */
  lemma {:induction false} DisabledAndHeard(
      inst: AlertModel.Instance, now: int, ids: Supplies, capacity: int, maxBytes: int, sound: string, speech: string)
    requires inst.audio == Some(AlertModel.AudioSnapshot(true, true))
    ensures var moves := ShowOne(inst, now) + [Call(0, sound, speech, 2)] + [Operate(0, A.DoApply(false, 1, 0))];
            var j := Run(Start(capacity, maxBytes), moves, ids);
            && 0 in j.profiles && Free(j, 0) && j.profiles[0].screen.current.None?
            && Outcomes.OnAir(j.audio, A.WithId(inst, ids(0)(0)).id)
  {
    var j, shown, r := Played(inst, now, ids, capacity, maxBytes, sound, speech);
    RunStep(Start(capacity, maxBytes), ShowOne(inst, now) + [Call(0, sound, speech, 2)],
            Operate(0, A.DoApply(false, 1, 0)), ids);
    OperateOnly(j, shown, r, A.DoApply(false, 1, 0), ids);
  }

  /** Where it is deleted, the audio goes on too, and when the sound is over, here for want of a synthesis, the speech
      linked behind it is promoted, with the stream closed. */
  lemma {:induction false} DeletedAndHeard(
      inst: AlertModel.Instance, now: int, ids: Supplies, capacity: int, maxBytes: int, sound: string, speech: string)
    requires inst.audio == Some(AlertModel.AudioSnapshot(true, true))
    ensures var i := A.WithId(inst, ids(0)(0)).id;
            var over := Manage(M.DoSynthesized(SoundOf(i, sound, speech), None, None));
            var j := Run(Start(capacity, maxBytes),
                         ShowOne(inst, now) + [Call(0, sound, speech, 2)] + [Delete(0)] + [over], ids);
            && 0 in j.profiles && Free(j, 0) && j.profiles[0].screen.closed
            && j.audio.current == Some(M.Current(SpeechOf(i, speech), None, "", 0, M.Synthesizing))
  {
    var i := A.WithId(inst, ids(0)(0)).id;
    var start, called := Start(capacity, maxBytes), ShowOne(inst, now) + [Call(0, sound, speech, 2)];
    var over := Manage(M.DoSynthesized(SoundOf(i, sound, speech), None, None));
    var j, shown, r := Played(inst, now, ids, capacity, maxBytes, sound, speech);
    RunStep(start, called, Delete(0), ids);
    RunStep(start, called + [Delete(0)], over, ids);
    DeleteOnly(j, shown, 1, r, ids);
    SpeechFollows(r, i, sound, speech);
  }

  lemma SpeechFollows(r: M.Runtime, i: string, sound: string, speech: string)
    requires Waiting(r, i, sound, speech)
    ensures M.Synthesized(r, SoundOf(i, sound, speech), None, None).current
         == Some(M.Current(SpeechOf(i, speech), None, "", 0, M.Synthesizing))
  {
  }

  // ----- how long an alert is held -----

  /** The manager has the alert's audio current, and not stuck without a renderer, or waiting its turn. */
  ghost predicate Coming(r: M.Runtime, i: string) {
    if Outcomes.OnAir(r, i) then !(r.current.value.playback == M.WaitingForRenderer && r.renderer.None?)
    else Outcomes.AnyLinked(r.ready, i)
  }

  lemma {:induction false} ComingIff(r: M.Runtime, i: string)
    requires Outcomes.Orderly(r)
    ensures Coming(r, i) <==> M.StateOf(r, i) == M.Started || M.StateOf(r, i) == M.IsPlaying
  {
    Outcomes.UnlinkedIffNone(r.ready, i);
    Outcomes.UnlinkedIffNone(r.pending, i);
  }

  /** In every state a run reaches: polling a profile past its alert's deadline changes nothing, the alert being held,
      iff audio is linked, the bound on holding is not reached, and the alert's audio is still coming; else the
      alert ends with this poll. */
  lemma {:induction false} HeldIffComing(j: Joint, p: nat, now: int, ids: Supplies)
    requires Inv(j) && Free(j, p) && j.profiles[p].enabled
    requires j.profiles[p].screen.current.Some? && now >= j.profiles[p].screen.deadline
    ensures var s := j.profiles[p]; var alert := s.screen.current.value;
            && (PollOne(j, p, now, ids).profiles[p] == s
                <==> s.audioLinked && alert.audio.Some? && now < s.screen.deadline + A.MAX_AUDIO_HOLD
                     && Coming(j.audio, alert.id))
            && (PollOne(j, p, now, ids).profiles[p] != s ==> PollOne(j, p, now, ids).profiles[p].lastCompleted == Some(alert))
  {
    var s := j.profiles[p];
    ComingIff(j.audio, s.screen.current.value.id);
    EndsUnlessHeld(s, now, TickOf(j, p, now).answer);
  }

  /** A poll asks the manager only between its alert's deadline and the bound on holding, and asking once the audio is
      over makes the manager forget how it ended; any other poll leaves the manager as it is. */
  lemma {:induction false} AskingForgetsTheOutcome(j: Joint, p: nat, now: int, ids: Supplies)
    requires Inv(j) && Free(j, p)
    ensures var s, r, after := j.profiles[p], j.audio, Take(j, Poll(p, now), ids).audio;
            if s.enabled && s.audioLinked && s.screen.current.Some? && s.screen.current.value.audio.Some?
               && s.screen.deadline <= now < s.screen.deadline + 15_000_000_000
               && !Outcomes.OnAir(r, s.screen.current.value.id) && !Outcomes.AnyLinked(r.ready, s.screen.current.value.id)
            then after == r.(outcomes := r.outcomes - {s.screen.current.value.id})
            else after == r
  {
    var s, r := j.profiles[p], j.audio;
    if s.screen.current.Some? {
      Outcomes.UnlinkedIffNone(r.ready, s.screen.current.value.id);
      Outcomes.UnlinkedIffNone(r.pending, s.screen.current.value.id);
    }
  }

  lemma {:induction false} EndsUnlessHeld(s: A.Runtime, now: int, answer: A.AudioState)
    requires s.enabled && s.screen.current.Some? && now >= s.screen.deadline
    ensures A.Held(s, now, answer) ==> A.Tick(s, now, answer) == s
    ensures !A.Held(s, now, answer) ==>
      A.Tick(s, now, answer).tally.played == s.tally.played + 1 && A.Tick(s, now, answer).lastCompleted == s.screen.current
  {
    if !A.Held(s, now, answer) {
      var done := A.Finish(s, now, answer);
      assert done.tally.played == s.tally.played + 1 && done.lastCompleted == s.screen.current;
      PromoteCounts(done, now);
    }
  }

  lemma PromoteCounts(s: A.Runtime, now: int)
    ensures A.Promote(s, now).tally.played == s.tally.played && A.Promote(s, now).lastCompleted == s.lastCompleted
  {
  }
}
