/** The alert engine as the source has it: objects whose methods change the queue, the screen and the counters.

Every method is proved to do exactly what `AlertSpec` says, so what is proved there about all runs holds here. */
module AlertRuntime {
  import opened Common
  import opened Rings
  import opened Sorting
  import opened AlertModel
  import opened AlertQueueSpec
  import opened AlertQueue
  import opened AlertScreen
  import opened AlertStock
  import opened AlertSpec

  const REVISION_CAPACITY: nat := 200

  /** The public revision stream of one profile. */
  class Projection {
    const ring: Ring<Revision>
    var sequence: nat
    var closed: bool

    ghost predicate Valid()
      reads this, ring, ring.items
    {
      ring.Valid() && sequence == |ring.log| && Numbered(ring.log)
    }

    constructor (capacity: int)
      ensures Valid() && fresh(ring) && fresh(ring.items) && ring.log == [] && !closed
      ensures ring.capacity == if capacity <= 0 then REVISION_CAPACITY else capacity
    {
      ring := new Ring(if capacity <= 0 then REVISION_CAPACITY else capacity);
      sequence, closed := 0, false;
    }

    /** Number and retain one revision, unless the stream is closed. */
    method Publish(rev: Revision)
      requires Valid()
      modifies this, ring, ring.items
      ensures Valid() && closed == old(closed)
      ensures ring.log == if closed then old(ring.log) else old(ring.log) + [Entry(|old(ring.log)| + 1, rev)]
    {
      if closed { return; }
      sequence := sequence + 1;
      ring.Push(Entry(sequence, rev));
    }

    /** The replay for a subscriber that has seen everything up to `after`, and whether it has a gap. */
    method Subscribe(after: nat) returns (r: Result<(Log, bool), ()>)
      requires Valid()
      ensures closed <==> r.Err?
      ensures r.Ok? ==> r.value.0 == Newer(ring.Retained(), after)
      ensures r.Ok? ==> (r.value.1 <==> after > 0 && exists e :: Missed(ring.log, ring.Retained(), after, e))
    {
      if closed { return Err(()); }
      var replay, gap := ring.Resume(sequence, after);
      return Ok((replay, gap));
    }

    method Shutdown()
      requires Valid()
      modifies `closed
      ensures Valid() && closed
    {
      closed := true;
    }
  }

  class ProfileRuntime {
    var enabled: bool
    var maxAge: int
    const queue: Queue
    const proj: Projection
    const audioLinked: bool
    var current: Option<Instance>
    var deadline: int
    var paused: bool
    var pendingReplay: Option<Instance>
    var lastCompleted: Option<Instance>
    var tally: Tally
    var audio: seq<AudioCommand>
    var idCalls: nat
    /** Departures from the queue, and the members of every group. */
    ghost var left: seq<Departure>
    ghost var members: seq<seq<Member>>

    ghost predicate Valid()
      reads this, queue, proj, proj.ring, proj.ring.items
    {
      queue.Valid() && proj.Valid() && queue.maxAge == maxAge
    }

    ghost function Books(): Stock
      reads this, queue
    {
      Stock(queue.items, queue.nextTicket, left, members)
    }

    ghost function Shown(): Screen
      reads this, proj, proj.ring
    {
      Screen(current, deadline, paused, proj.ring.log, proj.closed)
    }

    ghost function State(): Runtime
      reads this, queue, proj, proj.ring
    {
      Runtime(enabled, queue.maxItems, maxAge, Books(), Shown(), pendingReplay, lastCompleted, tally, audioLinked, audio, idCalls)
    }

    constructor (enabled: bool, maxItems: int, maxAge: int, audioLinked: bool)
      ensures Valid() && fresh(queue) && fresh(proj) && fresh(proj.ring) && fresh(proj.ring.items)
      ensures State() == Initial(enabled, maxItems, maxAge, audioLinked)
    {
      this.enabled, this.maxAge, this.audioLinked := enabled, maxAge, audioLinked;
      queue := new Queue(maxItems, maxAge);
      proj := new Projection(REVISION_CAPACITY);
      current, deadline, paused, pendingReplay, lastCompleted := None, 0, false, None, None;
      tally, audio, idCalls, left, members := NOTHING_COUNTED, [], 0, [], [];
    }

    method NewId(ids: IdSupply) returns (id: Option<string>)
      modifies `idCalls
      ensures id == ids(old(idCalls)) && idCalls == old(idCalls) + 1
    {
      id := ids(idCalls);
      idCalls := idCalls + 1;
    }

    // ----- the screen, the queue and the counters, one at a time -----

    method ShowAlert(inst: Instance, now: int)
      requires Valid()
      modifies `current, `deadline, proj, proj.ring, proj.ring.items
      ensures Valid() && Shown() == ShowOn(old(Shown()), inst, now)
    {
      current := Some(inst);
      deadline := now + inst.durationMs * MILLISECOND;
      proj.Publish(Show(ToPublic(inst), paused));
    }

    method HideAlert(reason: HideReason)
      requires Valid() && current.Some?
      modifies `current, proj, proj.ring, proj.ring.items
      ensures Valid() && Shown() == HideOn(old(Shown()), reason)
    {
      var hiddenId := current.value.id;
      current := None;
      proj.Publish(Hide(hiddenId, reason, paused));
    }

    method AdmitToQueue(inst: Instance, now: int) returns (accepted: bool, evicted: Option<Item>)
      requires Valid()
      modifies queue, `left, `members
      ensures Valid() && queue.maxItems == old(queue.maxItems) && Books() == Admit(old(Books()), queue.maxItems, inst, now)
      ensures var o := Offer(old(queue.items), old(queue.nextTicket), queue.maxItems, inst);
              accepted == o.accepted && evicted == o.evicted
    {
      accepted, evicted := queue.Enqueue(inst);
      left := left + (if evicted.Some? then Departing([evicted.value], Evicted) else []);
      if accepted {
        members := members + [[Member(inst, now)]];
      }
    }

    method TakeFromQueue(now: int) returns (item: Option<Item>, expiredCount: nat)
      requires Valid()
      modifies queue, `left
      ensures Valid() && queue.maxItems == old(queue.maxItems) && Books() == Take(old(Books()), maxAge, now)
      ensures var r := PopNext(old(queue.items), maxAge, now); item == r.item && expiredCount == |r.expired|
    {
      ghost var expired;
      item, expiredCount, expired := queue.PopNextEligible(now);
      left := left + Departing(expired, Fate.Expired) + (if item.Some? then Departing([item.value], Fate.Played) else []);
    }

    method MergeInQueue(i: nat, inst: Instance, now: int)
      requires Valid() && i < |queue.items|
      modifies queue, `members
      ensures Valid() && queue.maxItems == old(queue.maxItems) && Books() == MergeInto(old(Books()), i, inst, now)
    {
      ghost var t := queue.items[i].ticket;
      queue.MergeAt(i, inst);
      members := if t < |members| then members[t := members[t] + [Member(inst, now)]] else members;
    }

    method CountEnded(reason: HideReason)
      modifies `tally
      ensures tally == CountEnd(old(tally), reason)
    {
      match reason {
        case Skipped => tally := tally.(skipped := tally.skipped + 1);
        case Preempted => tally := tally.(preempted := tally.preempted + 1);
        case _ => tally := tally.(played := tally.played + 1);
      }
    }

    method CountOffered(accepted: bool, evicted: Option<Item>, ghost o: Offered, inst: Instance)
      requires accepted == o.accepted && evicted == o.evicted
      modifies `tally
      ensures tally == CountOffer(old(tally), o, inst)
    {
      if accepted {
        tally := tally.(enqueued := tally.enqueued + 1);
        if inst.synthetic {
          tally := tally.(synthetic := tally.synthetic + 1);
        }
        if evicted.Some? {
          tally := tally.(dropped := tally.dropped + 1);
        }
      } else {
        tally := tally.(dropped := tally.dropped + 1, rejected := tally.rejected + 1);
      }
    }

    // ----- the transitions -----

    method StartCurrent(inst: Instance, now: int)
      requires Valid()
      modifies `current, `deadline, `audio, proj, proj.ring, proj.ring.items
      ensures Valid() && State() == Start(old(State()), inst, now)
    {
      ShowAlert(inst, now);
      if audioLinked && inst.audio.Some? {
        audio := audio + [PlayAudio(inst.id, inst.audio.value.soundEnabled, inst.audio.value.ttsEnabled)];
      } else {
        assert audio + [] == audio;
      }
    }

    method CancelLinked(done: Instance)
      modifies `audio
      ensures audio == old(audio) + if audioLinked && done.audio.Some? then [CancelAudio(done.id)] else []
    {
      if audioLinked && done.audio.Some? {
        audio := audio + [CancelAudio(done.id)];
      } else {
        assert audio + [] == audio;
      }
    }

    /** Remembers and counts the alert that ended, and ends its audio. */
    method RecordEnd(done: Instance, reason: HideReason)
      modifies `lastCompleted, `audio, `tally
      ensures State() == old(State()).(lastCompleted := Some(done), tally := CountEnd(old(tally), reason),
                                       audio := old(audio) + if audioLinked && done.audio.Some? then [CancelAudio(done.id)] else [])
    {
      lastCompleted := Some(done);
      CancelLinked(done);
      CountEnded(reason);
    }

    method CompleteCurrent(reason: HideReason)
      requires Valid()
      modifies `current, `lastCompleted, `audio, `tally, proj, proj.ring, proj.ring.items
      ensures Valid() && State() == Complete(old(State()), reason)
    {
      if current.None? { return; }
      RecordEnd(current.value, reason);
      HideAlert(reason);
    }

    method PromoteNext(now: int)
      requires Valid()
      modifies this, queue, proj, proj.ring, proj.ring.items
      ensures Valid() && State() == Promote(old(State()), now)
    {
      if pendingReplay.Some? {
        var inst := pendingReplay.value;
        pendingReplay := None;
        tally := tally.(replayed := tally.replayed + 1);
        StartCurrent(inst, now);
        return;
      }
      var item, expiredCount := TakeFromQueue(now);
      tally := tally.(expired := tally.expired + expiredCount);
      if item.None? { return; }
      StartCurrent(item.value.inst, now);
    }

    /** Whether to keep showing the current alert for its audio; cancels that audio once the bound is reached. */
    method ShouldHoldForAudio(now: int, answer: AudioState) returns (hold: bool)
      requires Valid()
      modifies `audio
      ensures Valid() && hold == Held(old(State()), now, answer) && State() == AfterHoldCheck(old(State()), now)
    {
      if !audioLinked || current.None? || current.value.audio.None? { return false; }
      if now - deadline >= MAX_AUDIO_HOLD {
        audio := audio + [CancelAudio(current.value.id)];
        return false;
      }
      return answer == Started || answer == Playing;
    }

    /** One poll: end an expired current alert, then promote the next one unless paused. */
    method TickOnce(now: int, answer: AudioState)
      requires Valid()
      modifies this, queue, proj, proj.ring, proj.ring.items
      ensures Valid() && State() == Tick(old(State()), now, answer)
    {
      if !enabled { return; }
      if current.Some? && now >= deadline {
        var hold := ShouldHoldForAudio(now, answer);
        if !hold {
          CompleteCurrent(Completed);
        }
      }
      if paused || current.Some? { return; }
      PromoteNext(now);
    }

    method SetPausedTo(value: bool)
      requires Valid()
      modifies `paused, proj, proj.ring, proj.ring.items
      ensures Valid() && State() == SetPaused(old(State()), value)
    {
      paused := value;
      proj.Publish(PauseChanged(value));
    }

    method Skip(now: int) returns (skipped: bool)
      requires Valid()
      modifies this, queue, proj, proj.ring, proj.ring.items
      ensures Valid() && State() == SkipCurrent(old(State()), now) && skipped == old(current).Some?
    {
      if current.None? { return false; }
      CompleteCurrent(Skipped);
      if !paused {
        PromoteNext(now);
      }
      return true;
    }

    method CanPreemptNow(inst: Instance) returns (can: bool)
      ensures can == CanPreempt(State(), inst)
    {
      if paused || current.None? { return false; }
      if inst.replayed { return false; }
      if inst.synthetic && !current.value.synthetic { return false; }
      if !inst.interruptsLower { return false; }
      if !current.value.interruptible { return false; }
      return inst.priority > current.value.priority;
    }

    method PreemptCurrent(inst: Instance, now: int, ids: IdSupply)
      requires Valid()
      modifies this, proj, proj.ring, proj.ring.items
      ensures Valid() && State() == Preempt(old(State()), inst, now, ids)
    {
      CompleteCurrent(Preempted);
      var id := NewId(ids);
      StartCurrent(WithId(inst, id), now);
    }

    /** Merges the candidate into a queued group if one will have it. */
    method TryGroup(inst: Instance, now: int) returns (joined: bool)
      requires Valid()
      modifies `tally, `members, queue
      ensures Valid()
      ensures var i := GroupIndex(old(State()), inst, now);
              joined == i.Some? && State() == if i.Some? then Join(old(State()), i.value, inst, now) else old(State())
    {
      if !GroupingEligible(inst) { return false; }
      var idx := queue.FindGroupable(KeyOf(inst), now);
      if idx < 0 { return false; }
      JoinAt(idx, inst, now);
      return true;
    }

    method JoinAt(i: nat, inst: Instance, now: int)
      requires Valid() && i < |queue.items|
      modifies `tally, `members, queue
      ensures Valid() && State() == Join(old(State()), i, inst, now)
    {
      var before := queue.items[i].inst;
      MergeInQueue(i, inst, now);
      CountJoined(before, queue.items[i].inst);
    }

    method CountJoined(before: Instance, after: Instance)
      modifies `tally
      ensures tally == CountMerge(old(tally), before, after)
    {
      tally := tally.(groupedMembers := tally.groupedMembers + 1);
      if before.groupCount == 1 && after.groupCount > 1 {
        tally := tally.(groupsCreated := tally.groupsCreated + 1);
      }
    }

    method EnqueueOne(inst: Instance, now: int, ids: IdSupply) returns (stored: Instance, accepted: bool)
      requires Valid()
      modifies this, queue
      ensures Valid() && State() == Enqueue(old(State()), inst, now, ids)
      ensures stored == WithId(inst, ids(old(idCalls)))
      ensures accepted == Offer(old(queue.items), old(queue.nextTicket), queue.maxItems, stored).accepted
    {
      ghost var o := Offer(queue.items, queue.nextTicket, queue.maxItems, WithId(inst, ids(idCalls)));
      var id := NewId(ids);
      stored := WithId(inst, id);
      var evicted;
      accepted, evicted := AdmitToQueue(stored, now);
      CountOffered(accepted, evicted, o, stored);
    }

    /** One candidate of a turn; reports whether it preempted. */
    method HandleCandidate(inst: Instance, now: int, ids: IdSupply, mayPreempt: bool) returns (preempted: bool)
      requires Valid()
      modifies this, queue, proj, proj.ring, proj.ring.items
      ensures Valid() && State() == Arrive(old(State()), inst, now, ids, mayPreempt)
      ensures preempted <==> mayPreempt && CanPreempt(old(State()), inst)
    {
      CountOne();
      preempted := PlaceCandidate(inst, now, ids, mayPreempt);
    }

    method CountOne()
      requires Valid()
      modifies `tally
      ensures Valid() && State() == CountArrival(old(State()))
    {
      tally := tally.(offered := tally.offered + 1);
    }

    method PlaceCandidate(inst: Instance, now: int, ids: IdSupply, mayPreempt: bool) returns (preempted: bool)
      requires Valid()
      modifies this, queue, proj, proj.ring, proj.ring.items
      ensures Valid() && State() == Place(old(State()), inst, now, ids, mayPreempt)
      ensures preempted <==> mayPreempt && CanPreempt(old(State()), inst)
    {
      var can := CanPreemptNow(inst);
      if mayPreempt && can {
        PreemptCurrent(inst, now, ids);
        return true;
      }
      var joined := TryGroup(inst, now);
      if !joined {
        var _, _ := EnqueueOne(inst, now, ids);
      }
      return false;
    }

    /** The candidates one event matched: sorted, at most one preempts, the others group or queue. */
    method EnqueueMatched(candidates: seq<Instance>, now: int, ids: IdSupply)
      requires Valid()
      modifies this, queue, proj, proj.ring, proj.ring.items
      ensures Valid() && State() == Matched(old(State()), candidates, now, ids)
    {
      if !enabled { return; }
      var ordered := new Instance[|candidates|](i requires 0 <= i < |candidates| => candidates[i]);
      assert ordered[..] == candidates;
      InsertionSort(ordered, HandledBefore);
      var sorted := ordered[..];
      var preempted := false;
      for i := 0 to |sorted|
        invariant Valid()
        invariant ArriveAll(State(), sorted[i..], now, ids, !preempted) == ArriveAll(old(State()), sorted, now, ids, true)
      {
        assert sorted[i..][1..] == sorted[i + 1..];
        var did := HandleCandidate(sorted[i], now, ids, !preempted);
        preempted := preempted || did;
      }
    }

    method EnqueueTest(inst: Instance, now: int, ids: IdSupply) returns (accepted: bool)
      requires Valid()
      modifies this, queue, proj, proj.ring, proj.ring.items
      ensures Valid() && State() == Test(old(State()), inst, now, ids)
      ensures accepted <==>
              CanPreempt(old(State()), inst) ||
              Offer(old(queue.items), old(queue.nextTicket), old(queue.maxItems), WithId(inst, ids(old(idCalls)))).accepted
    {
      CountOne();
      var can := CanPreemptNow(inst);
      if can {
        PreemptCurrent(inst, now, ids);
        return true;
      }
      var stored;
      stored, accepted := EnqueueOne(inst, now, ids);
    }

    method Replay() returns (ok: bool)
      requires Valid()
      modifies `pendingReplay
      ensures Valid() && State() == ReplayPrevious(old(State())) && ok == lastCompleted.Some?
    {
      if lastCompleted.None? { return false; }
      pendingReplay := Some(lastCompleted.value.(replayed := true));
      return true;
    }

    method Clear() returns (removed: nat)
      requires Valid()
      modifies `pendingReplay, `left, queue
      ensures Valid() && State() == ClearQueue(old(State()))
      ensures removed == |old(queue.items)| + (if old(pendingReplay).Some? then 1 else 0)
    {
      var cleared := queue.Clear();
      left := left + Departing(cleared, Cleared);
      removed := |cleared|;
      if pendingReplay.Some? {
        removed := removed + 1;
        pendingReplay := None;
      }
    }

    method DisableNow()
      requires Valid()
      modifies this, queue, proj, proj.ring, proj.ring.items
      ensures Valid() && State() == Disable(old(State()))
    {
      var _ := Clear();
      if current.Some? {
        tally := tally.(hiddenByDisable := tally.hiddenByDisable + 1);
        HideAlert(ProfileDisabled);
      }
    }

    method Configure(on: bool, maxItems: int, age: int)
      requires Valid()
      modifies this, queue, proj, proj.ring, proj.ring.items
      ensures Valid() && State() == ApplyProfile(old(State()), on, maxItems, age)
    {
      var wasEnabled := enabled;
      enabled := on;
      maxAge := age;
      queue.maxItems := maxItems;
      queue.maxAge := age;
      if wasEnabled && !on {
        DisableNow();
      }
    }

    method ShutDown()
      requires Valid()
      modifies proj
      ensures Valid() && State() == Shut(old(State()))
    {
      proj.Shutdown();
    }
  }
}
