/** Which events the bus drops as redelivered: over every run of publishes, exactly those whose key was accepted
recently, and so, as long as ids can be drawn, exactly those whose event was published recently. */
module EventDrops {
  import opened Dedupe

  /** A valid publish on an open bus: its key, when it was looked up, and whether an id could be drawn for it. */
  datatype Attempt = Attempt(key: string, at: int, drawn: bool)

  /** The keys accepted, for each whether an id was drawn, and the keys of the events published. */
  datatype Book = Book(accepted: seq<Stamp>, drawn: seq<bool>, published: seq<Stamp>)

  const BLANK := Book([], [], [])

  /** The two bounds of what is remembered. */
  datatype Bounds = Bounds(capacity: nat, ttl: int)

  ghost predicate Dropped(b: Book, bounds: Bounds, key: string, now: int) {
    Remembered(b.accepted, bounds.capacity, bounds.ttl, key, now)
  }

  ghost function Try(b: Book, bounds: Bounds, a: Attempt): Book {
    if Dropped(b, bounds, a.key, a.at) then b
    else
      var s := Stamp(a.key, a.at);
      Book(b.accepted + [s], b.drawn + [a.drawn], if a.drawn then b.published + [s] else b.published)
  }

  ghost function TryAll(bounds: Bounds, attempts: seq<Attempt>): Book {
    if attempts == [] then BLANK
    else Try(TryAll(bounds, attempts[..|attempts| - 1]), bounds, attempts[|attempts| - 1])
  }

  /** The clock does not go back, nor pass `now`. */
  ghost predicate InTime(attempts: seq<Attempt>, now: int) {
    attempts == [] ||
    var last := attempts[|attempts| - 1];
    last.at <= now && InTime(attempts[..|attempts| - 1], last.at)
  }

  /** These publishes, none later than `now`, lead to these acceptances and events. */
  ghost predicate Leads(bounds: Bounds, attempts: seq<Attempt>, accepted: seq<Stamp>, published: seq<Stamp>, now: int) {
    && TryAll(bounds, attempts).accepted == accepted && TryAll(bounds, attempts).published == published
    && InTime(attempts, now)
  }

  /** What one more publish leads to. */
  lemma OneMore(bounds: Bounds, attempts: seq<Attempt>, accepted: seq<Stamp>, published: seq<Stamp>, now: int, a: Attempt)
    requires Leads(bounds, attempts, accepted, published, now) && (attempts == [] || now <= a.at)
    ensures var s := Stamp(a.key, a.at);
            var dropped := Remembered(accepted, bounds.capacity, bounds.ttl, a.key, a.at);
            Leads(bounds, attempts + [a], Consult(accepted, bounds.capacity, bounds.ttl, s),
                  if a.drawn && !dropped then published + [s] else published, a.at)
  {
    assert (attempts + [a])[..|attempts|] == attempts;
  }

  /** Acceptance i is what makes a publish of the key at `now` a duplicate. */
  predicate Recalls(b: Book, bounds: Bounds, i: nat, key: string, now: int) {
    i < |b.accepted| && |b.accepted| - i <= bounds.capacity && b.accepted[i].key == key && now - b.accepted[i].at < bounds.ttl
  }

  /** An event with the key was published less than ttl ago, and is among the last accepted. */
  ghost predicate RecentEvent(b: Book, bounds: Bounds, key: string, now: int) {
    exists i: nat :: Recalls(b, bounds, i, key, now) && i < |b.drawn| && b.drawn[i]
  }

  /** The same of a publish that could not draw an id. */
  ghost predicate RecentFailure(b: Book, bounds: Bounds, key: string, now: int) {
    exists i: nat :: Recalls(b, bounds, i, key, now) && i < |b.drawn| && !b.drawn[i]
  }

  ghost predicate AllDrawn(attempts: seq<Attempt>) {
    forall a | a in attempts :: a.drawn
  }

  // ----- what a run leaves in the book -----

  /** The accepted keys whose id was drawn. */
  function Drawn(accepted: seq<Stamp>, drawn: seq<bool>): seq<Stamp>
    requires |accepted| == |drawn|
  {
    if accepted == [] then []
    else
      var n := |accepted| - 1;
      Drawn(accepted[..n], drawn[..n]) + if drawn[n] then [accepted[n]] else []
  }

  /** The events published are exactly the acceptances with an id, in order; times ascend to `now`; no key was accepted
      again while it was remembered. */
  ghost predicate Kept(b: Book, bounds: Bounds, now: int) {
    && |b.drawn| == |b.accepted| && b.published == Drawn(b.accepted, b.drawn)
    && (forall i | 0 <= i < |b.accepted| :: b.accepted[i].at <= now)
    && NoEarlyRepeat(b.accepted, bounds.capacity, bounds.ttl)
  }

  lemma {:induction false} TryKeeps(b: Book, bounds: Bounds, a: Attempt, now: int)
    requires Kept(b, bounds, now) && now <= a.at
    ensures Kept(Try(b, bounds, a), bounds, a.at)
  {
    if !Dropped(b, bounds, a.key, a.at) {
      var t, n := Try(b, bounds, a), |b.accepted|;
      assert t.accepted[..n] == b.accepted && t.drawn[..n] == b.drawn;
      forall i, j | 0 <= i < j < |t.accepted| && t.accepted[i].key == t.accepted[j].key
        ensures t.accepted[j].at - t.accepted[i].at >= bounds.ttl || j - i > bounds.capacity
      {
        assert t.accepted[i] == b.accepted[i];
      }
    }
  }

  lemma {:induction false} RunKeeps(bounds: Bounds, attempts: seq<Attempt>, now: int)
    requires InTime(attempts, now)
    ensures Kept(TryAll(bounds, attempts), bounds, now)
  {
    if attempts != [] {
      var n := |attempts| - 1;
      RunKeeps(bounds, attempts[..n], attempts[n].at);
      TryKeeps(TryAll(bounds, attempts[..n]), bounds, attempts[n], attempts[n].at);
    }
  }

  lemma {:induction false} DrawnIsAll(accepted: seq<Stamp>, drawn: seq<bool>)
    requires |accepted| == |drawn| && forall d | d in drawn :: d
    ensures Drawn(accepted, drawn) == accepted
  {
    if accepted != [] {
      var n := |accepted| - 1;
      assert drawn[n] in drawn && forall d | d in drawn[..n] :: d in drawn;
      DrawnIsAll(accepted[..n], drawn[..n]);
    }
  }

  lemma {:induction false} NoneFails(bounds: Bounds, attempts: seq<Attempt>)
    requires AllDrawn(attempts)
    ensures forall d | d in TryAll(bounds, attempts).drawn :: d
  {
    if attempts != [] {
      var n := |attempts| - 1;
      assert attempts[n] in attempts && forall a | a in attempts[..n] :: a in attempts;
      NoneFails(bounds, attempts[..n]);
    }
  }

  /** No two acceptances make a publish a duplicate. */
  lemma RecalledOnce(b: Book, bounds: Bounds, key: string, now: int, i: nat, j: nat)
    requires Kept(b, bounds, now) && i < j
    ensures !(Recalls(b, bounds, i, key, now) && Recalls(b, bounds, j, key, now))
  {
  }

  /** What such a book drops: never both for an event and for a failure. */
  lemma {:induction false} KeptDropsIff(b: Book, bounds: Bounds, key: string, now: int)
    requires Kept(b, bounds, now)
    ensures Dropped(b, bounds, key, now) <==> RecentEvent(b, bounds, key, now) || RecentFailure(b, bounds, key, now)
    ensures !(RecentEvent(b, bounds, key, now) && RecentFailure(b, bounds, key, now))
  {
    if Dropped(b, bounds, key, now) {
      var i :| 0 <= i < |b.accepted| && |b.accepted| - i <= bounds.capacity && b.accepted[i].key == key
               && now - b.accepted[i].at < bounds.ttl;
      assert Recalls(b, bounds, i, key, now);
    }
    if RecentEvent(b, bounds, key, now) && RecentFailure(b, bounds, key, now) {
      var i: nat :| Recalls(b, bounds, i, key, now) && i < |b.drawn| && b.drawn[i];
      var j: nat :| Recalls(b, bounds, j, key, now) && j < |b.drawn| && !b.drawn[j];
      if i < j { RecalledOnce(b, bounds, key, now, i, j); } else { RecalledOnce(b, bounds, key, now, j, i); }
    }
  }

  /** Over every run of publishes: an event is dropped if and only if an event with its key was published less than ttl
      ago and is among the last accepted, or, never both, such a publish could not draw an id. */
  lemma {:induction false} DroppedIff(bounds: Bounds, attempts: seq<Attempt>, key: string, now: int)
    requires InTime(attempts, now)
    ensures var b := TryAll(bounds, attempts);
            && (Dropped(b, bounds, key, now) <==> RecentEvent(b, bounds, key, now) || RecentFailure(b, bounds, key, now))
            && !(RecentEvent(b, bounds, key, now) && RecentFailure(b, bounds, key, now))
            && |b.drawn| == |b.accepted| && b.published == Drawn(b.accepted, b.drawn)
  {
    RunKeeps(bounds, attempts, now);
    KeptDropsIff(TryAll(bounds, attempts), bounds, key, now);
  }

  /** As long as every publish draws an id: an event is dropped if and only if an event with its key is among the last
      published, as many as the bound, and was published less than ttl ago. */
  lemma {:induction false} OnlyRedeliveredAreDropped(bounds: Bounds, attempts: seq<Attempt>, key: string, now: int)
    requires InTime(attempts, now) && AllDrawn(attempts)
    ensures var b := TryAll(bounds, attempts);
            Dropped(b, bounds, key, now) <==> Remembered(b.published, bounds.capacity, bounds.ttl, key, now)
  {
    var b := TryAll(bounds, attempts);
    RunKeeps(bounds, attempts, now);
    NoneFails(bounds, attempts);
    DrawnIsAll(b.accepted, b.drawn);
  }
}
