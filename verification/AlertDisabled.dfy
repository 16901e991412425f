/** What waits in a disabled profile, and so how it begins when it is enabled again. */
module AlertDisabled {
  import opened Common
  import opened AlertModel
  import opened AlertQueueSpec
  import opened AlertSpec

  ghost predicate NothingWaiting(s: Runtime) {
    s.stock.items == [] && s.pendingReplay.None?
  }

  /** Off, and nothing on screen. */
  predicate Dark(s: Runtime) {
    !s.enabled && s.screen.current.None?
  }

  /** One step of a disabled profile: afterwards nothing waits iff the queue was cleared, or nothing waited and
      the step was neither a test alert with room for it nor a replay of some alert. */
  lemma {:induction false} DisabledStaysEmptyIff(s: Runtime, a: Action, ids: IdSupply)
    requires Dark(s)
    ensures NothingWaiting(Step(s, a, ids))
            <==> a.DoClear? || (NothingWaiting(s) && !(a.DoTest? && s.maxItems > 0) && !(a.DoReplay? && s.lastCompleted.Some?))
    ensures Step(s, a, ids).screen.current.None? && Step(s, a, ids).lastCompleted == s.lastCompleted
    ensures Step(s, a, ids).enabled <==> a.DoApply? && a.enabled
  {
  }

  /** Since the last clear a test alert came in with room for it, or a replay of some alert. */
  ghost predicate LeftWaiting(s: Runtime, actions: seq<Action>, ids: IdSupply) {
    actions != [] &&
    var before, a := actions[..|actions| - 1], actions[|actions| - 1];
    !a.DoClear? &&
    ((a.DoTest? && Run(s, before, ids).maxItems > 0) || (a.DoReplay? && s.lastCompleted.Some?) || LeftWaiting(s, before, ids))
  }

  lemma {:induction false} WaitsIff(s: Runtime, actions: seq<Action>, ids: IdSupply)
    requires Dark(s) && NothingWaiting(s) && forall a | a in actions :: !(a.DoApply? && a.enabled)
    ensures Dark(Run(s, actions, ids)) && Run(s, actions, ids).lastCompleted == s.lastCompleted
    ensures NothingWaiting(Run(s, actions, ids)) <==> !LeftWaiting(s, actions, ids)
  {
    if actions != [] {
      var n := |actions| - 1;
      assert actions[n] in actions && forall a | a in actions[..n] :: a in actions;
      WaitsIff(s, actions[..n], ids);
      DisabledStaysEmptyIff(Run(s, actions[..n], ids), actions[n], ids);
    }
  }

  /** From disabling to enabling again, over every run: the profile begins empty if and only if no test alert with
      room for it and no replay came since the queue was last cleared, which disabling does first. */
  lemma {:induction false} BeginsEmptyIff(s: Runtime, off: Action, actions: seq<Action>, on: Action, ids: IdSupply)
    requires s.enabled && off.DoApply? && !off.enabled && on.DoApply? && on.enabled
    requires forall a | a in actions :: !(a.DoApply? && a.enabled)
    ensures var dark := Step(s, off, ids); var again := Step(Run(dark, actions, ids), on, ids);
            && again.enabled && again.screen.current.None?
            && (NothingWaiting(again) <==> !LeftWaiting(dark, actions, ids))
  {
    WaitsIff(Step(s, off, ids), actions, ids);
    DisabledStaysEmptyIff(Run(Step(s, off, ids), actions, ids), on, ids);
  }

  lemma {:induction false} RunThree(s: Runtime, a: Action, b: Action, c: Action, ids: IdSupply)
    ensures Run(s, [a, b, c], ids) == Step(Step(Step(s, a, ids), b, ids), c, ids)
  {
    assert [a, b, c][..2] == [a, b] && [a, b][..1] == [a] && [a][..0] == [];
    assert Run(s, [a], ids) == Step(s, a, ids);
    assert Run(s, [a, b], ids) == Step(Step(s, a, ids), b, ids);
  }

  lemma {:induction false} RunConcat(s: Runtime, x: seq<Action>, y: seq<Action>, ids: IdSupply)
    ensures Run(s, x + y, ids) == Run(Run(s, x, ids), y, ids)
  {
    if y == [] {
      assert x + y == x;
    } else {
      RunConcat(s, x, y[..|y| - 1], ids);
      assert (x + y)[..|x + y| - 1] == x + y[..|y| - 1];
    }
  }

  /** So enabling again need not begin empty: a replay asked for while the profile was disabled still waits,
      and the next tick shows it. */
  lemma {:induction false} ReenablingNeedNotBeginEmpty(inst: Instance, ids: IdSupply)
    ensures var shown := [DoTest(inst, 0), DoTick(0, NeverRequested), DoSkip(0)];
            var s := Run(Initial(true, 1, 0, false), shown + [DoApply(false, 1, 0), DoReplay, DoApply(true, 1, 0)], ids);
            && s.enabled && !NothingWaiting(s) && s.screen.current.None?
            && Step(s, DoTick(0, NeverRequested), ids).screen.current == Some(WithId(inst, ids(0)).(replayed := true))
  {
    var start := Initial(true, 1, 0, false);
    var a, b, c := DoTest(inst, 0), DoTick(0, NeverRequested), DoSkip(0);
    var d, e, f := DoApply(false, 1, 0), DoReplay, DoApply(true, 1, 0);
    RunThree(start, a, b, c, ids);
    OneAlertCompletes(inst, ids);
    RunConcat(start, [a, b, c], [d, e, f], ids);
    RunThree(Run(start, [a, b, c], ids), d, e, f, ids);
    ReplayWhileDisabled(Run(start, [a, b, c], ids), WithId(inst, ids(0)), ids);
  }

  lemma {:induction false} ReplayWhileDisabled(done: Runtime, inst: Instance, ids: IdSupply)
    requires done.lastCompleted == Some(inst) && done.enabled && done.screen.current.None? && !done.screen.paused
    ensures var off := Step(done, DoApply(false, 1, 0), ids);
            var s := Step(Step(off, DoReplay, ids), DoApply(true, 1, 0), ids);
            && s.enabled && !NothingWaiting(s) && s.screen.current.None?
            && Step(s, DoTick(0, NeverRequested), ids).screen.current == Some(inst.(replayed := true))
  {
  }

  lemma {:induction false} OneAlertCompletes(inst: Instance, ids: IdSupply)
    ensures var queued := Step(Initial(true, 1, 0, false), DoTest(inst, 0), ids);
            var shown := Step(queued, DoTick(0, NeverRequested), ids);
            var done := Step(shown, DoSkip(0), ids);
            && done.lastCompleted == Some(WithId(inst, ids(0))) && done.stock.items == [] && done.enabled
            && done.screen.current.None? && done.pendingReplay.None? && !done.screen.paused
  {
    var named := WithId(inst, ids(0));
    var queued := Step(Initial(true, 1, 0, false), DoTest(inst, 0), ids);
    assert queued.stock.items == [Item(named, 0)];
    assert Pick([Item(named, 0)], PlaysBefore) == 0;
    assert RemoveAt([Item(named, 0)], 0) == [];
  }
}
