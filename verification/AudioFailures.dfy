/** Runs of the audio runtime, from a new one on, in which what it promises fails. */
module AudioFailures {
  import opened Common
  import opened AudioSpec
  import AudioOutcomes
  import AudioResults

  lemma {:induction false} RunStep(capacity: int, maxBytes: int, actions: seq<Action>, a: Action)
    ensures Run(capacity, maxBytes, actions + [a]) == Step(Run(capacity, maxBytes, actions), a)
  {
    assert (actions + [a])[..|actions|] == actions;
  }

  lemma {:induction false} KeptIsAll(items: seq<Item>, now: int)
    requires forall x | x in items :: !Expired(x, now)
    ensures Kept(items, now) == items
  {
    if items != [] {
      KeptIsAll(items[1..], now);
      assert items[0] in items && items == [items[0]] + items[1..];
    }
  }

  /** A poll with nothing current, a renderer, and nothing expired promotes the oldest item and does nothing else. */
  lemma {:induction false} TickPromotes(r: Runtime, now: int)
    requires r.current.None? && r.renderer.Some? && r.ready != [] && forall x | x in r.ready :: !Expired(x, now)
    ensures Tick(r, now) == Promote(r.(ready := r.ready[1..]), r.ready[0])
  {
    KeptIsAll(r.ready, now);
    assert r.ready[0] in r.ready;
    assert ExpiredAhead(r.ready, now) == 0 && r.ready[0..] == r.ready;
  }

  function Spoken(id: nat, content: string, synthetic: bool, expiresAt: int): Item {
    Item(id, GlobalTts, content, synthetic, Some(expiresAt), None)
  }

  lemma {:induction false} SubmitAppends(r: Runtime, content: string, synthetic: bool, expiresAt: int, s: Runtime)
    requires |r.ready| + |r.pending| < r.capacity && s == Submit(r, content, synthetic, false, expiresAt)
    ensures s.ready == r.ready + [Spoken(r.nextId, content, synthetic, expiresAt)] && s.pending == r.pending
    ensures s.current == r.current && s.renderer == r.renderer && s.capacity == r.capacity && s.nextId == r.nextId + 1
  {
  }

  /** A connected renderer and one submission. */
  lemma {:induction false} OneQueued(capacity: int, maxBytes: int, lease: string, a: string, synthetic: bool, expiresAt: int)
      returns (r: Runtime)
    requires capacity > 0
    ensures r == Run(capacity, maxBytes, [DoConnect(lease), DoSubmit(a, synthetic, false, expiresAt)])
    ensures r.ready == [Spoken(0, a, synthetic, expiresAt)] && r.pending == []
    ensures r.current.None? && r.renderer == Some(lease) && r.capacity == capacity && r.nextId == 1
  {
    var c := Connected(capacity, maxBytes, lease);
    RunStep(capacity, maxBytes, [DoConnect(lease)], DoSubmit(a, synthetic, false, expiresAt));
    assert [DoConnect(lease)] + [DoSubmit(a, synthetic, false, expiresAt)]
        == [DoConnect(lease), DoSubmit(a, synthetic, false, expiresAt)];
    r := Submit(c, a, synthetic, false, expiresAt);
    SubmitAppends(c, a, synthetic, expiresAt, r);
  }

  lemma {:induction false} Connected(capacity: int, maxBytes: int, lease: string) returns (r: Runtime)
    ensures r == Run(capacity, maxBytes, [DoConnect(lease)]) && r == Fresh(capacity, maxBytes).(renderer := Some(lease))
  {
    RunStep(capacity, maxBytes, [], DoConnect(lease));
    assert [] + [DoConnect(lease)] == [DoConnect(lease)];
    r := Connect(Fresh(capacity, maxBytes), lease);
  }

  // ----- calling off a synthesis -----

  function TwoSubmitted(lease: string, a: string, b: string, expiresAt: int): seq<Action> {
    [DoConnect(lease), DoSubmit(a, false, false, expiresAt)] + [DoSubmit(b, false, false, expiresAt)]
  }

  lemma {:induction false} TwoQueued(
      capacity: int, maxBytes: int, lease: string, a: string, b: string, expiresAt: int) returns (r: Runtime)
    requires capacity > 1
    ensures r == Run(capacity, maxBytes, TwoSubmitted(lease, a, b, expiresAt))
    ensures r.current.None? && r.renderer == Some(lease)
    ensures r.ready == [Spoken(0, a, false, expiresAt), Spoken(1, b, false, expiresAt)]
  {
    RunStep(capacity, maxBytes, [DoConnect(lease), DoSubmit(a, false, false, expiresAt)], DoSubmit(b, false, false, expiresAt));
    var one := OneQueued(capacity, maxBytes, lease, a, false, expiresAt);
    r := Submit(one, b, false, false, expiresAt);
    SubmitAppends(one, b, false, expiresAt, r);
  }

  lemma {:induction false} FirstPromoted(
      capacity: int, maxBytes: int, lease: string, a: string, b: string, expiresAt: int, now: int) returns (r: Runtime)
    requires capacity > 1 && now <= expiresAt
    ensures r == Run(capacity, maxBytes, TwoSubmitted(lease, a, b, expiresAt) + [DoTick(now)])
    ensures r.current == Some(Current(Spoken(0, a, false, expiresAt), None, "", 0, Synthesizing)) && r.renderer == Some(lease)
    ensures r.ready == [Spoken(1, b, false, expiresAt)] && Spoken(0, a, false, expiresAt) in r.inFlight
  {
    RunStep(capacity, maxBytes, TwoSubmitted(lease, a, b, expiresAt), DoTick(now));
    var two := TwoQueued(capacity, maxBytes, lease, a, b, expiresAt);
    TickPromotes(two, now);
    r := Tick(two, now);
  }

  /** Two events are queued, the first is promoted and skipped, the second promoted; then the first one's synthesis,
      called off, reports back: the second is still being synthesized, and can no longer be called off. */
  lemma {:induction false} OlderResultDropsTheHandle(
      capacity: int, maxBytes: int, lease: string, a: string, b: string, expiresAt: int, now: int)
    requires capacity > 1 && now <= expiresAt
    ensures var first, second := Spoken(0, a, false, expiresAt), Spoken(1, b, false, expiresAt);
            var r := Run(capacity, maxBytes, TwoSubmitted(lease, a, b, expiresAt)
                           + [DoTick(now), DoSkip, DoTick(now), DoSynthesized(first, None, None)]);
            r.current == Some(Current(second, None, "", 0, Synthesizing)) && second in r.inFlight && r.handle == None
  {
    var first := Spoken(0, a, false, expiresAt);
    var start := TwoSubmitted(lease, a, b, expiresAt);
    var r := FirstPromoted(capacity, maxBytes, lease, a, b, expiresAt, now);
    RunStep(capacity, maxBytes, start + [DoTick(now)], DoSkip);
    RunStep(capacity, maxBytes, start + [DoTick(now), DoSkip], DoTick(now));
    RunStep(capacity, maxBytes, start + [DoTick(now), DoSkip, DoTick(now)], DoSynthesized(first, None, None));
    assert start + [DoTick(now)] + [DoSkip] == start + [DoTick(now), DoSkip];
    assert start + [DoTick(now), DoSkip] + [DoTick(now)] == start + [DoTick(now), DoSkip, DoTick(now)];
    assert start + [DoTick(now), DoSkip, DoTick(now)] + [DoSynthesized(first, None, None)]
        == start + [DoTick(now), DoSkip, DoTick(now), DoSynthesized(first, None, None)];
    var skipped := Skip(r);
    assert skipped.ready == [Spoken(1, b, false, expiresAt)] && first in skipped.inFlight;
    TickPromotes(skipped, now);
  }

  // ----- audio that arrives after playing began -----

  /** In every reachable state with an item playing without audio, the audio that arrives takes the item back to
      ready, and the renderer's report that it ended is refused, whichever lease it comes under. */
  lemma {:induction false} LateAudioUndoesPlaying(r: Runtime, bytes: string, token: string, lease: string)
    requires AudioResults.Reachable(r) && r.current.Some? && r.current.value.playback == Playing && r.current.value.audio.None?
    requires Usable(r, Some(bytes), Some(token))
    ensures var item := r.current.value.item; var late := Synthesized(r, item, Some(bytes), Some(token));
            && late.current == Some(Current(item, Some(Audio(item, bytes)), token, r.sequence + 1, Ready))
            && Acknowledge(late, lease, item.id, AckEnded) == late
  {
    AudioResults.ReachableIsSound(r);
  }

  /** A spoken test promoted and not synthesized yet. */
  lemma {:induction false} TestPromoted(
      capacity: int, maxBytes: int, a: string, content: string, expiresAt: int, now: int) returns (r: Runtime)
    requires capacity > 0 && now <= expiresAt
    ensures r == Run(capacity, maxBytes, [DoConnect(a), DoSubmit(content, true, false, expiresAt), DoTick(now)])
    ensures r.current == Some(Current(Spoken(0, content, true, expiresAt), None, "", 0, Synthesizing)) && r.renderer == Some(a)
  {
    var start := [DoConnect(a), DoSubmit(content, true, false, expiresAt)];
    RunStep(capacity, maxBytes, start, DoTick(now));
    assert start + [DoTick(now)] == [DoConnect(a), DoSubmit(content, true, false, expiresAt), DoTick(now)];
    var queued := OneQueued(capacity, maxBytes, a, content, true, expiresAt);
    TickPromotes(queued, now);
    r := Tick(queued, now);
  }

  /** Such a state is reached: a spoken test, whose id its caller is told, is promoted; its renderer leaves, another
      connects and reports that it started before the synthesis is done. */
  lemma {:induction false} PlayingWithoutAudioHappens(
      capacity: int, maxBytes: int, a: string, b: string, content: string, expiresAt: int, now: int)
    requires capacity > 0 && now <= expiresAt
    ensures var actions := [DoConnect(a), DoSubmit(content, true, false, expiresAt), DoTick(now),
                            DoDisconnect(a), DoConnect(b), DoAck(b, 0, AckStarted)];
            var r := Run(capacity, maxBytes, actions);
            && AudioResults.Reachable(r) && r.renderer == Some(b)
            && r.current == Some(Current(Spoken(0, content, true, expiresAt), None, "", 0, Playing))
  {
    var r := TestPromoted(capacity, maxBytes, a, content, expiresAt, now);
    var start := [DoConnect(a), DoSubmit(content, true, false, expiresAt), DoTick(now)];
    RunStep(capacity, maxBytes, start, DoDisconnect(a));
    RunStep(capacity, maxBytes, start + [DoDisconnect(a)], DoConnect(b));
    RunStep(capacity, maxBytes, start + [DoDisconnect(a), DoConnect(b)], DoAck(b, 0, AckStarted));
    assert start + [DoDisconnect(a)] + [DoConnect(b)] == start + [DoDisconnect(a), DoConnect(b)];
    assert start + [DoDisconnect(a), DoConnect(b)] + [DoAck(b, 0, AckStarted)]
        == [DoConnect(a), DoSubmit(content, true, false, expiresAt), DoTick(now),
            DoDisconnect(a), DoConnect(b), DoAck(b, 0, AckStarted)];
  }

  // ----- requested, and told it was not -----

  /** Two alerts request their audio; the first is current at once, the second waits and is cleared with the queue:
      it is told that its audio was never requested, and no outcome will ever be recorded for it. */
  lemma {:induction false} ClearedIsNeverRequested(
      capacity: int, maxBytes: int, first: string, second: string, requests: seq<Request>)
    requires first != second && requests != [] && capacity > 0 && forall q | q in requests :: q.source != GlobalTts
    ensures var actions := [DoEnqueueAlert(first, requests, |requests|), DoEnqueueAlert(second, requests, |requests|)];
            && StateOf(Run(capacity, maxBytes, actions), second) == Started
            && StateOf(Run(capacity, maxBytes, actions + [DoClear]), second) == NeverRequested
  {
    var a, b := DoEnqueueAlert(first, requests, |requests|), DoEnqueueAlert(second, requests, |requests|);
    var none: seq<Action> := [];
    RunStep(capacity, maxBytes, none, a);
    RunStep(capacity, maxBytes, [a], b);
    RunStep(capacity, maxBytes, [a, b], DoClear);
    assert none + [a] == [a] && [a] + [b] == [a, b];
    var fresh0 := Fresh(capacity, maxBytes);
    AudioOutcomes.ChainIsCoherent(requests, 0, first);
    AudioOutcomes.ChainIsCoherent(requests, |requests|, second);
    var y := Chain(requests, |requests|, second);
    var waiting := EnqueueAlert(EnqueueAlert(fresh0, first, requests, |requests|), second, requests, |requests|);
    assert waiting.ready == [y];
    assert Unlinked([y], second) == Unlinked([], second) == [];
  }
}
