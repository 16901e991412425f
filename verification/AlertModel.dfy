/** Alert instances and the rules by which a later event merges into a still-queued alert. */
module AlertModel {
  import opened Common
  import opened Templates

  /** Times are in nanoseconds. */
  const MILLISECOND := 1_000_000
  const SECOND := 1_000_000_000

  const MAX_INT64 := 0x7FFF_FFFF_FFFF_FFFF
  const MIN_INT64 := -0x8000_0000_0000_0000

  const MAX_GROUP_MEMBERS := 1000

  datatype EventType =
    | Follow | Subscription | Resubscription | GiftedSubscription | SubscriptionGiftBatch | Bits | Raid
    | ChannelPointRedemption | YouTubeMembership | YouTubeMembershipMilestone | YouTubeSuperChat
    | YouTubeSuperSticker | Donation

  /** Whether and how alerts of one event type may be merged. */
  datatype Capability = Capability(groupable: bool, quantitySummable: bool, subjectFromRewardId: bool)

  function CapabilityFor(t: EventType): Capability {
    match t
    case SubscriptionGiftBatch => Capability(true, true, false)
    case Bits => Capability(true, true, false)
    case ChannelPointRedemption => Capability(true, false, true)
    case _ => Capability(false, false, false)
  }

  datatype AudioSnapshot = AudioSnapshot(soundEnabled: bool, ttsEnabled: bool)

  /** One alert: who and what it is about, the rule snapshot it plays by, and its aggregate state. */
  datatype Instance = Instance(
    id: string, ruleId: string, ruleUpdatedAt: int, providerId: string, accountId: string, eventType: EventType,
    queuedAt: int, priority: int, durationMs: int,
    anonymous: bool, synthetic: bool, replayed: bool, actor: string, actorName: string, rewardId: string,
    quantity: Option<int>, groupCount: int, platformLabel: string, eventLabel: string,
    template: string, renderedText: string,
    allowGrouping: bool, groupWindowMs: int, interruptsLower: bool, interruptible: bool,
    audio: Option<AudioSnapshot>)

  datatype GroupKey = GroupKey(
    ruleId: string, ruleUpdatedAt: int, providerId: string, accountId: string, eventType: EventType,
    actor: string, rewardId: string)

  /** Whether a newly matched alert may join a group at all. */
  predicate GroupingEligible(inst: Instance) {
    && !inst.synthetic && !inst.replayed && !inst.anonymous
    && inst.allowGrouping && CapabilityFor(inst.eventType).groupable && inst.actor != ""
  }

  function KeyOf(inst: Instance): GroupKey {
    GroupKey(inst.ruleId, inst.ruleUpdatedAt, inst.providerId, inst.accountId, inst.eventType, inst.actor,
             if CapabilityFor(inst.eventType).subjectFromRewardId then inst.rewardId else "")
  }

  predicate WindowOpen(firstQueuedAt: int, groupWindowMs: int, now: int) {
    now <= firstQueuedAt + groupWindowMs * MILLISECOND
  }

  predicate IsInt64(x: int) {
    MIN_INT64 <= x <= MAX_INT64
  }

  /** Two's-complement wrap-around of a sum of two 64-bit integers. */
  function Wrap64(x: int): int {
    if x > MAX_INT64 then x - 0x1_0000_0000_0000_0000
    else if x < MIN_INT64 then x + 0x1_0000_0000_0000_0000
    else x
  }

  /** Addition that saturates at the largest 64-bit integer when the second operand is positive. */
  function SafeAdd(a: int, b: int): int {
    if b > 0 && a > Wrap64(MAX_INT64 - b) then MAX_INT64 else Wrap64(a + b)
  }

  /** Saturation is exact on 64-bit operands unless the sum underflows, where it wraps around. */
  lemma SafeAddIsExactIff(a: int, b: int)
    requires IsInt64(a) && IsInt64(b)
    ensures SafeAdd(a, b) == Min(a + b, MAX_INT64) <==> a + b >= MIN_INT64
  {
  }

  function Digits(n: nat): string {
    var digits := "0123456789";
    if n < 10 then [digits[n]] else Digits(n / 10) + [digits[n % 10]]
  }

  function FormatInt(n: int): string {
    if n < 0 then "-" + Digits(-n) else Digits(n)
  }

  /** The context a merged alert is re-rendered in: only its own stored snapshot, never a message. */
  function GroupContext(inst: Instance): Resolver {
    (name: string) =>
      if name == "username" then (if inst.actorName == "" then None else Some(inst.actorName))
      else if name == "platform" then Some(inst.platformLabel)
      else if name == "eventType" then Some(inst.eventLabel)
      else if name == "quantity" then (if inst.quantity.Some? then Some(FormatInt(inst.quantity.value)) else None)
      else if name == "groupCount" then Some(FormatInt(inst.groupCount))
      else None
  }

  function GroupedText(inst: Instance): string {
    var r := RenderSpec(inst.template, GroupContext(inst));
    if r.Ok? then r.value.text else inst.renderedText
  }

  function MergedQuantity(member: Instance, candidate: Instance): Option<int> {
    if !CapabilityFor(member.eventType).quantitySummable || candidate.quantity.None? then member.quantity
    else if member.quantity.None? then candidate.quantity
    else Some(SafeAdd(member.quantity.value, candidate.quantity.value))
  }

  /** The queued alert after absorbing a candidate: count and quantity grow, the text is re-rendered. */
  function Merge(member: Instance, candidate: Instance): Instance {
    var counted := member.(
      groupCount := if member.groupCount < MAX_GROUP_MEMBERS then member.groupCount + 1 else member.groupCount,
      quantity := MergedQuantity(member, candidate));
    counted.(renderedText := GroupedText(counted))
  }

  // ----- what a group stands for -----

  /** One source event of a group, and when it joined. */
  datatype Member = Member(inst: Instance, at: int)

  function QuantitySum(members: seq<Member>): int {
    if members == [] then 0
    else
      var last := members[|members| - 1].inst;
      QuantitySum(members[..|members| - 1]) + (if last.quantity.Some? then last.quantity.value else 0)
  }

  predicate AnyQuantity(members: seq<Member>) {
    members != [] && (members[|members| - 1].inst.quantity.Some? || AnyQuantity(members[..|members| - 1]))
  }

  /** Every later member shares the founder's key, is itself eligible, and joined inside the founder's window. */
  ghost predicate Compatible(members: seq<Member>) {
    members != [] && forall i | 1 <= i < |members| ::
      KeyOf(members[i].inst) == KeyOf(members[0].inst) && GroupingEligible(members[i].inst)
      && WindowOpen(members[0].inst.queuedAt, members[0].inst.groupWindowMs, members[i].at)
  }

  predicate NonNegative(inst: Instance) {
    inst.quantity.Some? ==> 0 <= inst.quantity.value <= MAX_INT64
  }

  /** `inst` is the faithful aggregate of its members: the founder in everything but count, quantity and text. */
  ghost predicate Represents(inst: Instance, members: seq<Member>) {
    && Compatible(members) && |members| <= MAX_GROUP_MEMBERS && inst.groupCount == |members|
    && (forall m | m in members :: NonNegative(m.inst))
    && var founder := members[0].inst;
       && inst == founder.(groupCount := inst.groupCount, quantity := inst.quantity, renderedText := inst.renderedText)
       && (if CapabilityFor(founder.eventType).quantitySummable
           then inst.quantity == if AnyQuantity(members) then Some(Min(QuantitySum(members), MAX_INT64)) else None
           else inst.quantity == founder.quantity)
       && (|members| > 1 ==> inst.renderedText == GroupedText(inst))
  }

  lemma {:induction false} FounderRepresents(inst: Instance, at: int)
    requires inst.groupCount == 1 && NonNegative(inst)
    ensures Represents(inst, [Member(inst, at)])
  {
    var ms := [Member(inst, at)];
    assert ms[..0] == [];
    assert ms[0] in ms;
  }

  lemma {:induction false} SumIsNonNegative(members: seq<Member>)
    requires forall m | m in members :: NonNegative(m.inst)
    ensures QuantitySum(members) >= 0 && (!AnyQuantity(members) ==> QuantitySum(members) == 0)
  {
    if members != [] {
      var n := |members| - 1;
      assert members[n] in members;
      forall m | m in members[..n] ensures NonNegative(m.inst) && m in members { assert m in members; }
      SumIsNonNegative(members[..n]);
    }
  }

  lemma {:induction false} QuantityGrows(member: Instance, members: seq<Member>, candidate: Instance, at: int)
    requires Represents(member, members) && NonNegative(candidate) && KeyOf(candidate) == KeyOf(member)
    requires CapabilityFor(member.eventType).quantitySummable
    ensures var more := members + [Member(candidate, at)];
            MergedQuantity(member, candidate) == if AnyQuantity(more) then Some(Min(QuantitySum(more), MAX_INT64)) else None
  {
    var more := members + [Member(candidate, at)];
    assert more[..|members|] == members && more[|members|] == Member(candidate, at);
    SumIsNonNegative(members);
  }

  /** Merging a compatible candidate keeps the aggregate faithful. */
  lemma {:induction false} MergeRepresents(member: Instance, members: seq<Member>, candidate: Instance, at: int)
    requires Represents(member, members) && NonNegative(candidate) && GroupingEligible(candidate)
    requires KeyOf(candidate) == KeyOf(member) && member.groupCount < MAX_GROUP_MEMBERS
    requires WindowOpen(member.queuedAt, member.groupWindowMs, at)
    ensures Represents(Merge(member, candidate), members + [Member(candidate, at)])
  {
    var more := members + [Member(candidate, at)];
    if CapabilityFor(member.eventType).quantitySummable {
      QuantityGrows(member, members, candidate, at);
    }
    forall i | 1 <= i < |more| ensures
      KeyOf(more[i].inst) == KeyOf(more[0].inst) && GroupingEligible(more[i].inst)
      && WindowOpen(more[0].inst.queuedAt, more[0].inst.groupWindowMs, more[i].at)
    {
      if i < |members| { assert more[i] == members[i]; }
    }
    TextIsNotInItself(member.(groupCount := member.groupCount + 1, quantity := MergedQuantity(member, candidate)));
  }

  /** The re-rendered text does not depend on the text it replaces, unless the template is malformed. */
  lemma TextIsNotInItself(inst: Instance)
    ensures GroupedText(inst.(renderedText := GroupedText(inst))) == GroupedText(inst)
  {
  }
}
