/** What waits for the output: what is taken in, and where; what leaves, and that it leaves in the order in which it
became ready, over every run. */
module AudioWaiting {
  import opened Common
  import opened AudioSpec

  /** A spoken event or test waits, last, in the list its approval mode sends it to; with no room it is dropped. */
  lemma SubmittedWaits(r: Runtime, content: string, synthetic: bool, manual: bool, expiresAt: int)
    ensures var s := Step(r, DoSubmit(content, synthetic, manual, expiresAt));
            var item := Item(r.nextId, GlobalTts, content, synthetic, Some(expiresAt), None);
            && s.current == r.current && s.outcomes == r.outcomes && s.totals == r.totals && s.nextId == r.nextId + 1
            && (|r.ready| + |r.pending| >= r.capacity ==>
                  s.ready == r.ready && s.pending == r.pending && s.counters == r.counters.(dropped := r.counters.dropped + 1))
            && (|r.ready| + |r.pending| < r.capacity ==>
                  && (manual ==> s.pending == r.pending + [item] && s.ready == r.ready)
                  && (!manual ==> s.pending == r.pending && s.ready == r.ready + [item])
                  && s.counters == r.counters.(enqueued := r.counters.enqueued + 1,
                                               synthetic := r.counters.synthetic + if synthetic then 1 else 0))
  {
  }

  lemma {:induction false} IndexIs(items: seq<Item>, id: nat, i: nat)
    requires i <= |items| && (i < |items| ==> items[i].id == id) && forall k | 0 <= k < i :: items[k].id != id
    ensures IndexOf(items, id) == i
  {
    if i > 0 {
      assert items[0].id != id;
      forall k | 0 <= k < i - 1 ensures items[1..][k].id != id { assert items[1..][k] == items[k + 1]; }
      IndexIs(items[1..], id, i - 1);
    }
  }

  /** An approved item goes last among what is ready, a rejected one is gone and counted; the other pending ones keep
      their places, and nothing happens when none has the id. */
  lemma {:induction false} ApprovedGoesLast(r: Runtime, id: nat, i: nat)
    requires i <= |r.pending| && (i < |r.pending| ==> r.pending[i].id == id) && forall k | 0 <= k < i :: r.pending[k].id != id
    ensures i == |r.pending| ==> Step(r, DoApprove(id)) == r && Step(r, DoReject(id)) == r
    ensures i < |r.pending| ==>
              var others := r.pending[..i] + r.pending[i + 1..];
              && Step(r, DoApprove(id)) == r.(pending := others, ready := r.ready + [r.pending[i]])
              && Step(r, DoReject(id)) == r.(pending := others, counters := r.counters.(rejected := r.counters.rejected + 1))
  {
    IndexIs(r.pending, id, i);
  }

  // ----- expiry and promotion -----

  /** The items whose time is not over, in order. */
  function Living(items: seq<Item>, now: int): seq<Item> {
    Filter(items, (it: Item) => it.expiresAt.None? || now <= it.expiresAt.value)
  }

  lemma {:induction false} KeptAreLiving(items: seq<Item>, now: int)
    ensures Kept(items, now) == Living(items, now) && |Living(items, now)| <= |items|
    ensures Living(items, now) != [] ==> !Expired(Living(items, now)[0], now)
  {
    if items != [] { KeptAreLiving(items[1..], now); }
  }

  /** A poll with a renderer and nothing current promotes the oldest item whose time is not over; any other poll only
      discards what is over. What is discarded is counted, and pending items do not expire. */
  lemma {:induction false} TickTakesTheOldest(r: Runtime, now: int)
    ensures |Living(r.ready, now)| <= |r.ready|
    ensures var s, living := Step(r, DoTick(now)), Living(r.ready, now);
            && s.pending == r.pending && s.renderer == r.renderer && s.totals == r.totals && s.outcomes == r.outcomes
            && s.counters == r.counters.(expired := r.counters.expired + (|r.ready| - |living|))
            && (r.current.None? && r.renderer.Some? && living != [] ==>
                  s.current == Some(Current(living[0], None, "", 0, Synthesizing)) && s.ready == living[1..])
            && (r.current.Some? || r.renderer.None? || living == [] ==> s.current == r.current && s.ready == living)
  {
    KeptAreLiving(r.ready, now);
    assert DiscardExpired(r, now).ready[0..] == Living(r.ready, now);
  }

  // ----- the order over every run -----

  /** x is what is left of y when some elements are taken out. */
  ghost predicate Within<T>(x: seq<T>, y: seq<T>) {
    x == [] || (y != [] && ((x[0] == y[0] && Within(x[1..], y[1..])) || Within(x, y[1..])))
  }

  lemma {:induction false} WithinTrans<T>(x: seq<T>, y: seq<T>, z: seq<T>)
    requires Within(x, y) && Within(y, z)
    ensures Within(x, z)
    decreases |y| + |z|
  {
    if x != [] {
      if Within(y, z[1..]) {
        WithinTrans(x, y, z[1..]);
      } else if Within(x, y[1..]) {
        WithinTrans(x, y[1..], z[1..]);
      } else {
        WithinTrans(x[1..], y[1..], z[1..]);
      }
    }
  }

  lemma {:induction false} WithinBehind<T>(a: seq<T>, x: seq<T>, y: seq<T>)
    requires Within(x, y)
    ensures Within(a + x, a + y)
  {
    if a == [] {
      assert a + x == x && a + y == y;
    } else {
      WithinBehind(a[1..], x, y);
      ConsAppend(a, x);
      ConsAppend(a, y);
    }
  }

  lemma {:induction false} WithinAppend<T>(x: seq<T>, y: seq<T>, e: T)
    requires Within(x, y)
    ensures Within(x + [e], y + [e]) && Within(x, y + [e])
    decreases |y|
  {
    if y == [] {
      assert Within([e][1..], [e][1..]);
    } else {
      ConsAppend(y, [e]);
      if Within(x, y[1..]) {
        WithinAppend(x, y[1..], e);
      } else {
        WithinAppend(x[1..], y[1..], e);
        ConsAppend(x, [e]);
      }
    }
  }

  lemma {:induction false} FilterIsWithin<T>(s: seq<T>, p: T -> bool)
    ensures Within(Filter(s, p), s)
  {
    if s != [] {
      FilterIsWithin(s[1..], p);
      if p(s[0]) {
        assert Filter(s, p)[1..] == Filter(s[1..], p);
      } else {
        assert Filter(s, p) == Filter(s[1..], p);
      }
    }
  }

  lemma {:induction false} UnlinkedIsWithin(items: seq<Item>, instance: string)
    ensures Within(Unlinked(items, instance), items)
  {
    if items != [] {
      UnlinkedIsWithin(items[1..], instance);
      if LinkedTo(items[0], instance) {
        assert Unlinked(items, instance) == Unlinked(items[1..], instance);
      } else {
        assert Unlinked(items, instance)[1..] == Unlinked(items[1..], instance);
      }
    }
  }

  /** The items that became ready, in that order: submitted, approved, or waiting behind another alert's audio. */
  function Entered(capacity: int, maxBytes: int, actions: seq<Action>): seq<Item> {
    if actions == [] then []
    else
      var p := actions[..|actions| - 1];
      var before, after := Run(capacity, maxBytes, p).ready, Run(capacity, maxBytes, actions).ready;
      Entered(capacity, maxBytes, p) + if |after| > |before| then after[|before|..] else []
  }

  /** The items that polls made current, in that order. */
  function Taken(capacity: int, maxBytes: int, actions: seq<Action>): seq<Item> {
    if actions == [] then []
    else
      var p := actions[..|actions| - 1];
      var before, after := Run(capacity, maxBytes, p).current, Run(capacity, maxBytes, actions).current;
      Taken(capacity, maxBytes, p)
      + if actions[|actions| - 1].DoTick? && before.None? && after.Some? then [after.value.item] else []
  }

  /** One item is added at the end, or what is taken and what is left are within what was ready. */
  ghost predicate InOrder(before: seq<Item>, took: seq<Item>, after: seq<Item>) {
    if |after| > |before| then took == [] && after[..|before|] == before && |after| == |before| + 1
    else Within(took + after, before)
  }

  lemma SameIsInOrder(items: seq<Item>)
    ensures InOrder(items, [], items)
  {
    FilterIsWithin(items, (it: Item) => true);
    FilterAll(items, (it: Item) => true);
    assert [] + items == items;
  }

  lemma LessIsInOrder(before: seq<Item>, after: seq<Item>)
    requires Within(after, before) && |after| <= |before|
    ensures InOrder(before, [], after)
  {
    assert [] + after == after;
  }

  lemma {:induction false} TickInOrder(r: Runtime, now: int)
    ensures var s := Tick(r, now);
            InOrder(r.ready, if r.current.None? && s.current.Some? then [s.current.value.item] else [], s.ready)
  {
    var living := Living(r.ready, now);
    TickTakesTheOldest(r, now);
    FilterIsWithin(r.ready, (it: Item) => it.expiresAt.None? || now <= it.expiresAt.value);
    if r.current.None? && r.renderer.Some? && living != [] {
      assert [living[0]] + living[1..] == living;
    } else {
      LessIsInOrder(r.ready, living);
    }
  }

  lemma {:induction false} CancelInOrder(r: Runtime, instance: string)
    ensures InOrder(r.ready, [], CancelAlert(r, instance).ready)
  {
    UnlinkedIsWithin(r.ready, instance);
    UnlinkedShrinks(r.ready, instance);
    LessIsInOrder(r.ready, Unlinked(r.ready, instance));
  }

  lemma {:induction false} UnlinkedShrinks(items: seq<Item>, instance: string)
    ensures |Unlinked(items, instance)| <= |items|
  {
    if items != [] { UnlinkedShrinks(items[1..], instance); }
  }

  lemma ArrivalsInOrder(r: Runtime, a: Action)
    requires a.DoSubmit? || a.DoEnqueueAlert? || a.DoApprove? || a.DoClear?
    ensures InOrder(r.ready, [], Step(r, a).ready)
  {
    SameIsInOrder(r.ready);
  }

  lemma OthersLeaveReady(r: Runtime, a: Action)
    requires !a.DoTick? && !a.DoCancelAlert? && !a.DoSubmit? && !a.DoEnqueueAlert? && !a.DoApprove? && !a.DoClear?
    ensures Step(r, a).ready == r.ready
  {
  }

  /** What polls took and what is ready now, in one list, is what became ready with some items left out: so items
      are made current in the order in which they became ready, over every run, and none more often than it came. */
  lemma {:induction false} TakenInOrder(capacity: int, maxBytes: int, actions: seq<Action>)
    ensures Within(Taken(capacity, maxBytes, actions) + Run(capacity, maxBytes, actions).ready,
                   Entered(capacity, maxBytes, actions))
  {
    if actions != [] {
      var p, a := actions[..|actions| - 1], actions[|actions| - 1];
      var r := Run(capacity, maxBytes, p);
      var s := Step(r, a);
      TakenInOrder(capacity, maxBytes, p);
      match a {
        case DoTick(now) => TickInOrder(r, now);
        case DoCancelAlert(instance) => CancelInOrder(r, instance);
        case DoSubmit(_, _, _, _) => ArrivalsInOrder(r, a);
        case DoEnqueueAlert(_, _, _) => ArrivalsInOrder(r, a);
        case DoApprove(_) => ArrivalsInOrder(r, a);
        case DoClear => ArrivalsInOrder(r, a);
        case _ =>
          OthersLeaveReady(r, a);
          SameIsInOrder(r.ready);
      }
      var took := if a.DoTick? && r.current.None? && s.current.Some? then [s.current.value.item] else [];
      OneMoreInOrder(Taken(capacity, maxBytes, p), r.ready, Entered(capacity, maxBytes, p), took, s.ready);
    }
  }

  lemma {:induction false} OneMoreInOrder(
      taken: seq<Item>, before: seq<Item>, entered: seq<Item>, took: seq<Item>, after: seq<Item>)
    requires Within(taken + before, entered) && InOrder(before, took, after)
    ensures Within((taken + took) + after, entered + if |after| > |before| then after[|before|..] else [])
  {
    if |after| > |before| {
      var e := after[|before|];
      WithinAppend(taken + before, entered, e);
      assert after == before + [e] && after[|before|..] == [e];
      assert (taken + took) + after == (taken + before) + [e];
    } else {
      WithinBehind(taken, took + after, before);
      WithinTrans(taken + (took + after), taken + before, entered);
      Assoc(taken, took, after);
      assert entered + [] == entered;
    }
  }
}
