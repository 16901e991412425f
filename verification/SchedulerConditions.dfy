/** When a schedule's message goes out, and what is reported when it does not: over every run, from what happened
in it, not from what the schedule keeps. */
module SchedulerConditions {
  import opened Common
  import opened SlidingWindow
  import opened Scheduler

  /** The last action was an attempt against the account, and its message went out. */
  predicate SentLast(def: Schedule, actions: seq<Action>, id: string) {
    && actions != [] && actions[|actions| - 1].Try? && actions[|actions| - 1].attempt.account == id
    && |AccountAfter(def, actions, id).sentAt| > |AccountAfter(def, actions[..|actions| - 1], id).sentAt|
  }

  /** How often the account, a target of the schedule, was active since the last message to it. */
  function ActivitySince(def: Schedule, actions: seq<Action>, id: string): nat {
    if actions == [] || SentLast(def, actions, id) then 0
    else
      ActivitySince(def, actions[..|actions| - 1], id)
      + if actions[|actions| - 1] == Activity(id) && id in def.targets then 1 else 0
  }

  lemma {:induction false} ActivityIsCounted(def: Schedule, actions: seq<Action>, id: string)
    ensures AccountAfter(def, actions, id).activity == ActivitySince(def, actions, id)
  {
    if actions != [] { ActivityIsCounted(def, actions[..|actions| - 1], id); }
  }

  /** Starts of messages to the account in the hour before the attempt. */
  function SentWithinTheHour(def: Schedule, actions: seq<Action>, a: Attempt): nat {
    CountIn(AccountAfter(def, actions, a.account).sends, a.started - 3_600_000_000_000, a.started)
  }

  /** A condition, and what is reported when it fails. */
  datatype Condition = Condition(met: bool, reason: SkipReason)

  function Conditions(def: Schedule, actions: seq<Action>, a: Attempt): seq<Condition> {
    [Condition(a.receiving || !def.onlyWhileReceiving, NotReceiving),
     Condition(a.manual || ActivitySince(def, actions, a.account) >= def.minimumActivity, ActivityInsufficient),
     Condition(SentWithinTheHour(def, actions, a) < def.maximumPerHour, RateLimited),
     Condition(a.delivery != CannotRender, Unresolved),
     Condition(a.delivery != RendersTooLong, TooLong),
     Condition(a.delivery != Refused, SendFailed)]
  }

  predicate AllMet(conditions: seq<Condition>) {
    forall c | c in conditions :: c.met
  }

  lemma {:induction false} VerdictIsFirstUnmet(def: Schedule, actions: seq<Action>, a: Attempt)
    requires UpTo(actions, a.started)
    ensures var cs, v := Conditions(def, actions, a), Verdict(def, AccountAfter(def, actions, a.account), a);
            && (v.None? <==> AllMet(cs))
            && (v.Some? ==> exists k :: 0 <= k < |cs| && !cs[k].met && cs[k].reason == v.value && AllMet(cs[..k]))
  {
    var st, cs := AccountAfter(def, actions, a.account), Conditions(def, actions, a);
    ActivityIsCounted(def, actions, a.account);
    SendsAreUpTo(def, actions, a.account, a.started);
    LaterIsCount(st.sends, a.started - HOUR, a.started);
    FirstUnmet(cs, Verdict(def, st, a));
  }

  lemma FirstUnmet(cs: seq<Condition>, v: Option<SkipReason>)
    requires |cs| == 6
    requires v == if !cs[0].met then Some(cs[0].reason) else if !cs[1].met then Some(cs[1].reason)
                  else if !cs[2].met then Some(cs[2].reason) else if !cs[3].met then Some(cs[3].reason)
                  else if !cs[4].met then Some(cs[4].reason) else if !cs[5].met then Some(cs[5].reason) else None
    ensures v.None? <==> AllMet(cs)
    ensures v.Some? ==> exists k :: 0 <= k < |cs| && !cs[k].met && cs[k].reason == v.value && AllMet(cs[..k])
  {
    if v.Some? {
      var k := if !cs[0].met then 0 else if !cs[1].met then 1 else if !cs[2].met then 2
               else if !cs[3].met then 3 else if !cs[4].met then 4 else 5;
      forall c | c in cs[..k] ensures c.met { var i :| 0 <= i < k && cs[i] == c; }
      assert AllMet(cs[..k]);
    } else {
      forall c | c in cs ensures c.met { var i :| 0 <= i < 6 && cs[i] == c; }
    }
  }

  lemma AfterTry(def: Schedule, actions: seq<Action>, a: Attempt)
    ensures var v := Verdict(def, AccountAfter(def, actions, a.account), a);
            var before, after := AccountAfter(def, actions, a.account), AccountAfter(def, actions + [Try(a)], a.account);
            && after.sends == before.sends + (if v.None? then [a.started] else [])
            && after.sentAt == before.sentAt + (if v.None? then [a.sent] else [])
            && Run(def, actions + [Try(a)]).marks == Marked(Run(def, actions).marks, a.started, v)
            && after.marks == Marked(before.marks, a.started, v)
  {
    assert (actions + [Try(a)])[..|actions|] == actions;
  }

  /** After any run: the message of an attempt goes out, once, at the time it is sent, if and only if all this holds:
      the stream is received or need not be; the attempt is manual, or the account was active often enough since the
      last message to it; fewer messages than the maximum were started within the hour; and it is delivered. */
  lemma {:induction false} GoesOutIff(def: Schedule, actions: seq<Action>, a: Attempt)
    requires UpTo(actions, a.started)
    ensures var before := AccountAfter(def, actions, a.account).sentAt;
            var after := AccountAfter(def, actions + [Try(a)], a.account).sentAt;
            && (after == before + [a.sent] <==>
                  && (a.receiving || !def.onlyWhileReceiving)
                  && (a.manual || ActivitySince(def, actions, a.account) >= def.minimumActivity)
                  && SentWithinTheHour(def, actions, a) < def.maximumPerHour && a.delivery == Delivered)
            && (after == before + [a.sent] || after == before)
  {
    var cs := Conditions(def, actions, a);
    VerdictIsFirstUnmet(def, actions, a);
    AfterTry(def, actions, a);
    assert AllMet(cs) <==> cs[0].met && cs[1].met && cs[2].met && cs[3].met && cs[4].met && cs[5].met by {
      if cs[0].met && cs[1].met && cs[2].met && cs[3].met && cs[4].met && cs[5].met {
        forall c | c in cs ensures c.met { var i :| 0 <= i < 6 && cs[i] == c; }
      }
    }
  }

  /** What is reported of the attempt, for the schedule and for the account: nothing and a success if it went out, and
      otherwise the first condition that was not met. */
  lemma {:induction false} ReportsTheFirstUnmet(def: Schedule, actions: seq<Action>, a: Attempt)
    requires UpTo(actions, a.started)
    ensures var cs, marks := Conditions(def, actions, a), Run(def, actions + [Try(a)]).marks;
            && marks.attempt == Some(a.started)
            && marks.success == (if AllMet(cs) then Some(a.started) else Run(def, actions).marks.success)
            && (marks.skip.None? <==> AllMet(cs))
            && (marks.skip.Some? ==>
                  exists k :: 0 <= k < |cs| && !cs[k].met && cs[k].reason == marks.skip.value && AllMet(cs[..k]))
    ensures var marks := AccountAfter(def, actions + [Try(a)], a.account).marks;
            && marks.attempt == Some(a.started) && marks.skip == Run(def, actions + [Try(a)]).marks.skip
            && (marks.skip.None? ==> marks.success == Some(a.started))
  {
    VerdictIsFirstUnmet(def, actions, a);
    AfterTry(def, actions, a);
  }

  /** What happens to one account leaves every other as it was. */
  lemma OthersAreUntouched(def: Schedule, actions: seq<Action>, last: Action, id: string)
    requires id != if last.Try? then last.attempt.account else last.account
    ensures AccountAfter(def, actions + [last], id) == AccountAfter(def, actions, id)
  {
    assert (actions + [last])[..|actions|] == actions;
  }
}
