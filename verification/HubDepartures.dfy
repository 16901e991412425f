/** Leaving and closing: who is gone stays gone, and a closed hub takes nothing in, over every run. */
module HubDepartures {
  import opened Rings
  import opened HubSpec

  /** A subscriber that unsubscribes is gone with all it had not read; nothing else changes. */
  lemma UnsubscribedIsGone<T>(h: Hub<T>, id: nat)
    ensures var t := Apply(h, Unsubscribe(id));
            && id !in t.subs && (forall other | other != id :: (other in t.subs <==> other in h.subs))
            && (forall other | other in t.subs :: t.subs[other] == h.subs[other])
            && t.log == h.log && t.closed == h.closed && t.nextSub == h.nextSub
  {
  }

  lemma {:induction false} StepBringsNoneBack<T>(h: Hub<T>, step: Step<T>, id: nat)
    requires id <= h.nextSub && id !in h.subs
    ensures id <= Apply(h, step).nextSub && id !in Apply(h, step).subs
  {
  }

  /** Whoever was registered and is gone, for whatever reason, is never registered again under that number. */
  lemma {:induction false} GoneForGood<T>(h: Hub<T>, steps: seq<Step<T>>, id: nat)
    requires id <= h.nextSub && id !in h.subs
    ensures id <= Exec(h, steps).nextSub && id !in Exec(h, steps).subs
  {
    if steps != [] {
      GoneForGood(h, steps[..|steps| - 1], id);
      StepBringsNoneBack(Exec(h, steps[..|steps| - 1]), steps[|steps| - 1], id);
    }
  }

  lemma {:induction false} ClosedStaysEmpty<T>(h: Hub<T>, steps: seq<Step<T>>)
    requires h.closed && h.subs == map[]
    ensures var t := Exec(h, steps); t.closed && t.subs == map[] && t.log == h.log && t.nextSub == h.nextSub
  {
    if steps != [] { ClosedStaysEmpty(h, steps[..|steps| - 1]); }
  }

  /** From a shutdown on, whatever follows: no subscriber is registered, none is numbered, and nothing is published. */
  lemma {:induction false} ClosedForGood<T>(h: Hub<T>, steps: seq<Step<T>>)
    requires !h.closed
    ensures var t := Exec(Apply(h, Shutdown), steps);
            t.closed && t.subs == map[] && t.log == h.log && t.nextSub == h.nextSub
  {
    ClosedStaysEmpty(Apply(h, Shutdown), steps);
  }

  /** Until then every publish that lists the subscribers is numbered next and retained, and every subscribe numbers a
      new subscriber. */
  lemma {:induction false} OpenTakesEverything<T>(h: Hub<T>, payload: T, snapshot: seq<nat>, after: nat)
    requires !h.closed && Lists(snapshot, h.subs)
    ensures Apply(h, Commit(payload, snapshot)).log == h.log + [Entry(|h.log| + 1, payload)]
    ensures var t := Apply(h, Register(after)); t.nextSub == h.nextSub + 1 && t.nextSub in t.subs
  {
  }
}
