/** Over every run: each queued group is the faithful aggregate of its members, and the group counters count them. */
module AlertGroups {
  import opened Common
  import opened Sorting
  import opened AlertModel
  import opened AlertQueueSpec
  import opened AlertScreen
  import opened AlertStock
  import opened AlertSpec

  /** Members beyond the founders, over all groups ever formed. */
  function Joiners(groups: seq<seq<Member>>): int {
    if groups == [] then 0 else Joiners(groups[..|groups| - 1]) + |groups[|groups| - 1]| - 1
  }

  /** Groups that ever had more than one member. */
  function Plural(groups: seq<seq<Member>>): nat {
    if groups == [] then 0 else Plural(groups[..|groups| - 1]) + if |groups[|groups| - 1]| > 1 then 1 else 0
  }

  /** Groups founded by a synthetic alert. */
  function FoundedBySynthetic(groups: seq<seq<Member>>): nat {
    if groups == [] then 0
    else
      var last := groups[|groups| - 1];
      FoundedBySynthetic(groups[..|groups| - 1]) + if last != [] && last[0].inst.synthetic then 1 else 0
  }

  lemma {:induction false} OneMoreMember(groups: seq<seq<Member>>, t: nat, m: Member)
    requires t < |groups| && groups[t] != []
    ensures var now := groups[t := groups[t] + [m]];
            Joiners(now) == Joiners(groups) + 1
            && Plural(now) == Plural(groups) + (if |groups[t]| == 1 then 1 else 0)
            && FoundedBySynthetic(now) == FoundedBySynthetic(groups)
  {
    var n, now := |groups| - 1, groups[t := groups[t] + [m]];
    if t < n {
      OneMoreMember(groups[..n], t, m);
      assert now[..n] == groups[..n][t := groups[t] + [m]];
    } else {
      assert now[..n] == groups[..n];
    }
  }

  lemma OneMoreGroup(groups: seq<seq<Member>>, m: Member)
    ensures Joiners(groups + [[m]]) == Joiners(groups) && Plural(groups + [[m]]) == Plural(groups)
    ensures FoundedBySynthetic(groups + [[m]]) == FoundedBySynthetic(groups) + if m.inst.synthetic then 1 else 0
  {
    assert (groups + [[m]])[..|groups|] == groups;
  }

  ghost predicate Inv(s: Runtime) {
    && Grouped(s.stock)
    && s.tally.groupedMembers == Joiners(s.stock.members)
    && s.tally.groupsCreated == Plural(s.stock.members)
    && s.tally.synthetic == FoundedBySynthetic(s.stock.members)
  }

  lemma {:induction false} PromoteKeepsGroups(s: Runtime, now: int)
    requires Inv(s)
    ensures Inv(Promote(s, now))
  {
    TakeGroups(s.stock, s.maxAge, now);
  }

  lemma {:induction false} TickKeepsGroups(s: Runtime, now: int, answer: AudioState)
    requires Inv(s)
    ensures Inv(Tick(s, now, answer))
  {
    PromoteKeepsGroups(Finish(s, now, answer), now);
  }

  lemma {:induction false} EnqueueKeepsGroups(s: Runtime, inst: Instance, now: int, ids: IdSupply)
    requires Inv(s) && Proper(inst)
    ensures Inv(Enqueue(s, inst, now, ids))
  {
    var named := WithId(inst, ids(s.idCalls));
    AdmitGroups(s.stock, s.maxItems, named, now);
    OneMoreGroup(s.stock.members, Member(named, now));
  }

  lemma {:induction false} JoinKeepsGroups(s: Runtime, i: nat, inst: Instance, now: int)
    requires Grouped(s.stock) && Proper(inst) && GroupingEligible(inst) && i < |s.stock.items|
    requires Joinable(s.stock.items[i], KeyOf(inst), now)
    ensures Inv(s) ==> Inv(Join(s, i, inst, now))
  {
    var it := s.stock.items[i];
    assert it in s.stock.items;
    MergeGroups(s.stock, i, inst, now);
    OneMoreMember(s.stock.members, it.ticket, Member(inst, now));
    assert |s.stock.members[it.ticket]| == it.inst.groupCount;
  }

  lemma {:induction false} ArriveKeepsGroups(s: Runtime, inst: Instance, now: int, ids: IdSupply, mayPreempt: bool)
    requires Inv(s) && Proper(inst)
    ensures Inv(Arrive(s, inst, now, ids, mayPreempt))
  {
    var counted, i := CountArrival(s), GroupIndex(CountArrival(s), inst, now);
    if mayPreempt && CanPreempt(counted, inst) {
    } else if i.Some? {
      JoinKeepsGroups(counted, i.value, inst, now);
    } else {
      EnqueueKeepsGroups(counted, inst, now, ids);
    }
  }

  lemma {:induction false} TestKeepsGroups(s: Runtime, inst: Instance, now: int, ids: IdSupply)
    requires Inv(s) && Proper(inst)
    ensures Inv(Test(s, inst, now, ids))
  {
    if CanPreempt(CountArrival(s), inst) {
    } else {
      EnqueueKeepsGroups(CountArrival(s), inst, now, ids);
    }
  }

  lemma {:induction false} MatchedKeepsGroups(s: Runtime, candidates: seq<Instance>, now: int, ids: IdSupply)
    requires Inv(s) && forall x | x in candidates :: Proper(x)
    ensures Inv(Matched(s, candidates, now, ids))
  {
    forall x | x in Sort(candidates, HandledBefore) ensures Proper(x) { SameElements(candidates, HandledBefore, x); }
    ArriveAllKeepsGroups(s, Sort(candidates, HandledBefore), now, ids, true);
  }

  lemma {:induction false} ArriveAllKeepsGroups(s: Runtime, list: seq<Instance>, now: int, ids: IdSupply, mayPreempt: bool)
    requires Inv(s) && forall x | x in list :: Proper(x)
    ensures Inv(ArriveAll(s, list, now, ids, mayPreempt))
    decreases |list|
  {
    if list != [] {
      ArriveKeepsGroups(s, list[0], now, ids, mayPreempt);
      ArriveAllKeepsGroups(Arrive(s, list[0], now, ids, mayPreempt), list[1..], now, ids, mayPreempt && !CanPreempt(s, list[0]));
    }
  }

  lemma {:induction false} SkipKeepsGroups(s: Runtime, now: int)
    requires Inv(s)
    ensures Inv(SkipCurrent(s, now))
  {
    PromoteKeepsGroups(Complete(s, Skipped), now);
  }

  /** What instances are built with: one member, and a quantity, if any, that is a non-negative 64-bit integer. */
  ghost predicate ProperAction(a: Action) {
    match a
    case DoMatched(candidates, _) => forall x | x in candidates :: Proper(x)
    case DoTest(inst, _) => Proper(inst)
    case _ => true
  }

  lemma {:induction false} StepKeepsGroups(s: Runtime, a: Action, ids: IdSupply)
    requires Inv(s) && ProperAction(a)
    ensures Inv(Step(s, a, ids))
  {
    match a
    case DoTick(now, answer) => TickKeepsGroups(s, now, answer);
    case DoMatched(candidates, now) => MatchedKeepsGroups(s, candidates, now, ids);
    case DoTest(inst, now) => TestKeepsGroups(s, inst, now, ids);
    case DoSkip(now) => SkipKeepsGroups(s, now);
    case _ =>
  }

  /** Group aggregates, over every run of properly built alerts: every queued alert represents exactly the
      source events merged into it, and the counters count joiners, plural groups and synthetic founders. */
  lemma {:induction false} GroupsAreFaithful(
      enabled: bool, maxItems: int, maxAge: int, audioLinked: bool, actions: seq<Action>, ids: IdSupply)
    requires forall a | a in actions :: ProperAction(a)
    ensures Inv(Run(Initial(enabled, maxItems, maxAge, audioLinked), actions, ids))
  {
    if actions != [] {
      var n := |actions| - 1;
      forall a | a in actions[..n] ensures ProperAction(a) { assert a in actions; }
      GroupsAreFaithful(enabled, maxItems, maxAge, audioLinked, actions[..n], ids);
      assert actions[n] in actions;
      StepKeepsGroups(Run(Initial(enabled, maxItems, maxAge, audioLinked), actions[..n], ids), actions[n], ids);
    }
  }

  /** A group consists of genuine, groupable alerts only iff its founder is one: later members always are. */
  lemma {:induction false} AllEligibleIffFounderIs(st: Stock, it: Item)
    requires Grouped(st) && it in st.items
    ensures (forall m | m in st.members[it.ticket] :: GroupingEligible(m.inst))
            <==> GroupingEligible(st.members[it.ticket][0].inst)
  {
    assert Represents(it.inst, st.members[it.ticket]);
  }

  /** A remark on the guard taken alone, which checks only the joining candidate: were a test alert with the key of
      a genuine alert queued, it would absorb that alert. Alerts as they are built never share such a key. */
  lemma {:induction false} SyntheticFounderAbsorbs(genuine: Instance, s: Runtime, now: int, ids: IdSupply)
    requires GroupingEligible(genuine) && genuine.groupCount == 1 && !CanPreempt(s, genuine)
    requires s.stock.items == [Item(genuine.(synthetic := true, queuedAt := now), 0)] && genuine.groupWindowMs >= 0
    ensures GroupIndex(s, genuine, now) == Some(0)
    ensures var after := Arrive(s, genuine, now, ids, true);
            |after.stock.items| == 1 && after.stock.items[0].inst.synthetic && after.stock.items[0].inst.groupCount == 2
  {
    assert Joinable(s.stock.items[0], KeyOf(genuine), now);
  }
}
