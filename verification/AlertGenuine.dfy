/** Over every run of alerts built as the matcher and the test-alert builder build them: a group with more than
one member consists of genuine, groupable alerts of one actor only. */
module AlertGenuine {
  import opened Sorting
  import opened AlertModel
  import opened AlertQueueSpec
  import opened AlertScreen
  import opened AlertStock
  import opened AlertSpec
  import AlertGroups

  /** Whether a version of a rule allows grouping. */
  type Policy = (string, int) -> bool

  const SYNTHETIC_ACCOUNT := "synthetic"

  /** How instances are built: never as a replay, with the grouping permission of the rule version, without an
      actor when anonymous, and as a test alert exactly under the account id no connected account has. */
  ghost predicate Built(inst: Instance, allows: Policy) {
    && Proper(inst) && !inst.replayed && inst.allowGrouping == allows(inst.ruleId, inst.ruleUpdatedAt)
    && (inst.anonymous ==> inst.actor == "")
    && (inst.synthetic <==> inst.accountId == SYNTHETIC_ACCOUNT)
  }

  ghost predicate BuiltAction(a: Action, allows: Policy) {
    match a
    case DoMatched(candidates, _) => forall x | x in candidates :: Built(x, allows) && !x.synthetic
    case DoTest(inst, _) => Built(inst, allows) && inst.synthetic
    case _ => true
  }

  /** All members share one key, and a second member makes all of them groupable. */
  ghost predicate GenuineGroup(members: seq<Member>, allows: Policy) {
    && members != []
    && (forall m | m in members :: Built(m.inst, allows) && KeyOf(m.inst) == KeyOf(members[0].inst))
    && (|members| > 1 ==> forall m | m in members :: GroupingEligible(m.inst))
  }

  ghost predicate Genuine(groups: seq<seq<Member>>, allows: Policy) {
    forall ms | ms in groups :: GenuineGroup(ms, allows)
  }

  ghost predicate Inv(s: Runtime, allows: Policy) {
    AlertGroups.Inv(s) && Genuine(s.stock.members, allows)
  }

  /** A built founder with the key of a groupable candidate is groupable: its account is no test account, so it
      is no test alert; it has an actor, so it is not anonymous; it is of the same rule version. */
  lemma FounderIsEligible(founder: Instance, candidate: Instance, allows: Policy)
    requires Built(founder, allows) && Built(candidate, allows)
    requires GroupingEligible(candidate) && KeyOf(founder) == KeyOf(candidate)
    ensures GroupingEligible(founder)
  {
  }

  lemma {:induction false} OneMoreIsGenuine(members: seq<Member>, candidate: Instance, at: int, allows: Policy)
    requires GenuineGroup(members, allows) && Built(candidate, allows)
    requires GroupingEligible(candidate) && KeyOf(members[0].inst) == KeyOf(candidate)
    ensures GenuineGroup(members + [Member(candidate, at)], allows)
  {
    var more := members + [Member(candidate, at)];
    forall m | m in more ensures Built(m.inst, allows) && KeyOf(m.inst) == KeyOf(more[0].inst) && GroupingEligible(m.inst) {
      if m in members {
        FounderIsEligible(m.inst, candidate, allows);
      } else {
        assert m == Member(candidate, at);
      }
    }
  }

  lemma {:induction false} JoinStaysGenuine(s: Runtime, i: nat, inst: Instance, now: int, allows: Policy)
    requires Grouped(s.stock) && Genuine(s.stock.members, allows) && Built(inst, allows) && GroupingEligible(inst)
    requires i < |s.stock.items| && Joinable(s.stock.items[i], KeyOf(inst), now)
    ensures Genuine(MergeInto(s.stock, i, inst, now).members, allows)
  {
    var it := s.stock.items[i];
    assert it in s.stock.items;
    var before := s.stock.members[it.ticket];
    assert before in s.stock.members && Represents(it.inst, before);
    OneMoreIsGenuine(before, inst, now, allows);
    forall ms | ms in MergeInto(s.stock, i, inst, now).members ensures GenuineGroup(ms, allows) {
      assert ms == before + [Member(inst, now)] || ms in s.stock.members;
    }
  }

  lemma {:induction false} EnqueueStaysGenuine(s: Runtime, inst: Instance, now: int, ids: IdSupply, allows: Policy)
    requires Genuine(s.stock.members, allows) && Built(inst, allows)
    ensures Genuine(Enqueue(s, inst, now, ids).stock.members, allows)
  {
    var first := [Member(WithId(inst, ids(s.idCalls)), now)];
    forall ms | ms in Enqueue(s, inst, now, ids).stock.members ensures GenuineGroup(ms, allows) {
      assert ms == first || ms in s.stock.members;
    }
  }

  lemma {:induction false} ArriveStaysGenuine(
      s: Runtime, inst: Instance, now: int, ids: IdSupply, mayPreempt: bool, allows: Policy)
    requires Inv(s, allows) && Built(inst, allows)
    ensures Inv(Arrive(s, inst, now, ids, mayPreempt), allows)
  {
    AlertGroups.ArriveKeepsGroups(s, inst, now, ids, mayPreempt);
    var counted, i := CountArrival(s), GroupIndex(CountArrival(s), inst, now);
    if mayPreempt && CanPreempt(counted, inst) {
    } else if i.Some? {
      JoinStaysGenuine(counted, i.value, inst, now, allows);
    } else {
      EnqueueStaysGenuine(counted, inst, now, ids, allows);
    }
  }

  lemma {:induction false} ArriveAllStaysGenuine(
      s: Runtime, list: seq<Instance>, now: int, ids: IdSupply, mayPreempt: bool, allows: Policy)
    requires Inv(s, allows) && forall x | x in list :: Built(x, allows)
    ensures Inv(ArriveAll(s, list, now, ids, mayPreempt), allows)
    decreases |list|
  {
    if list != [] {
      ArriveStaysGenuine(s, list[0], now, ids, mayPreempt, allows);
      ArriveAllStaysGenuine(Arrive(s, list[0], now, ids, mayPreempt), list[1..], now, ids,
                            mayPreempt && !CanPreempt(s, list[0]), allows);
    }
  }

  lemma {:induction false} MatchedStaysGenuine(s: Runtime, candidates: seq<Instance>, now: int, ids: IdSupply, allows: Policy)
    requires Inv(s, allows) && forall x | x in candidates :: Built(x, allows)
    ensures Inv(Matched(s, candidates, now, ids), allows)
  {
    forall x | x in Sort(candidates, HandledBefore) ensures Built(x, allows) { SameElements(candidates, HandledBefore, x); }
    ArriveAllStaysGenuine(s, Sort(candidates, HandledBefore), now, ids, true, allows);
  }

  lemma {:induction false} TestStaysGenuine(s: Runtime, inst: Instance, now: int, ids: IdSupply, allows: Policy)
    requires Inv(s, allows) && Built(inst, allows)
    ensures Inv(Test(s, inst, now, ids), allows)
  {
    AlertGroups.TestKeepsGroups(s, inst, now, ids);
    if !CanPreempt(CountArrival(s), inst) {
      EnqueueStaysGenuine(CountArrival(s), inst, now, ids, allows);
    }
  }

  lemma PromoteKeepsMembers(s: Runtime, now: int)
    ensures Promote(s, now).stock.members == s.stock.members
  {
  }

  lemma TickKeepsMembers(s: Runtime, now: int, answer: AudioState)
    ensures Tick(s, now, answer).stock.members == s.stock.members
  {
    PromoteKeepsMembers(Finish(s, now, answer), now);
  }

  lemma SkipKeepsMembers(s: Runtime, now: int)
    ensures SkipCurrent(s, now).stock.members == s.stock.members
  {
    PromoteKeepsMembers(Complete(s, Skipped), now);
  }

  /** Nothing but an arrival changes a group. */
  lemma OthersKeepMembers(s: Runtime, a: Action, ids: IdSupply)
    requires !a.DoMatched? && !a.DoTest?
    ensures Step(s, a, ids).stock.members == s.stock.members
  {
    match a
    case DoTick(now, answer) => TickKeepsMembers(s, now, answer);
    case DoSkip(now) => SkipKeepsMembers(s, now);
    case _ =>
  }

  lemma {:induction false} StepKeepsBoth(s: Runtime, a: Action, ids: IdSupply, allows: Policy, t: Runtime)
    requires Inv(s, allows) && !a.DoMatched? && !a.DoTest? && t == Step(s, a, ids)
    ensures Inv(t, allows)
  {
    AlertGroups.StepKeepsGroups(s, a, ids);
    OthersKeepMembers(s, a, ids);
  }

  lemma {:induction false} StepStaysGenuine(s: Runtime, a: Action, ids: IdSupply, allows: Policy)
    requires Inv(s, allows) && BuiltAction(a, allows)
    ensures Inv(Step(s, a, ids), allows)
  {
    match a
    case DoMatched(candidates, now) => MatchedStaysGenuine(s, candidates, now, ids, allows);
    case DoTest(inst, now) => TestStaysGenuine(s, inst, now, ids, allows);
    case _ => StepKeepsBoth(s, a, ids, allows, Step(s, a, ids));
  }

  lemma {:induction false} RunStaysGenuine(s: Runtime, actions: seq<Action>, ids: IdSupply, allows: Policy)
    requires Inv(s, allows) && forall a | a in actions :: BuiltAction(a, allows)
    ensures Inv(Run(s, actions, ids), allows)
  {
    if actions != [] {
      var n := |actions| - 1;
      forall a | a in actions[..n] ensures BuiltAction(a, allows) { assert a in actions; }
      RunStaysGenuine(s, actions[..n], ids, allows);
      assert actions[n] in actions;
      StepStaysGenuine(Run(s, actions[..n], ids), actions[n], ids, allows);
    }
  }

  /** Only genuine, groupable alerts ever group: over every run of built alerts, a group with a second member,
      queued or gone, consists of live, named, groupable alerts with one key. */
  lemma {:induction false} OnlyGenuineAlertsGroup(
      enabled: bool, maxItems: int, maxAge: int, audioLinked: bool, actions: seq<Action>, ids: IdSupply, allows: Policy)
    requires forall a | a in actions :: BuiltAction(a, allows)
    ensures forall ms | ms in Run(Initial(enabled, maxItems, maxAge, audioLinked), actions, ids).stock.members && |ms| > 1 ::
              forall m | m in ms :: GroupingEligible(m.inst) && KeyOf(m.inst) == KeyOf(ms[0].inst)
  {
    RunStaysGenuine(Initial(enabled, maxItems, maxAge, audioLinked), actions, ids, allows);
  }
}
