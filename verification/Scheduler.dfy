/** One schedule's sends: the rolling-hour limit per account, shared by automatic and manual sends, and the choice of
message. Executions of one schedule are serialized, so each attempt is one step.

What a template renders to and what the provider answers are inputs here. */
module Scheduler {
  import opened Common
  import opened SlidingWindow

  /** In nanoseconds. */
  const HOUR: int := 3_600_000_000_000

  datatype Message = Message(id: string, text: string)

  datatype Schedule = Schedule(
    messages: seq<Message>, targets: seq<string>, onlyWhileReceiving: bool, minimumActivity: int, maximumPerHour: int)

  datatype SkipReason = NotReceiving | ActivityInsufficient | RateLimited | Unresolved | TooLong | SendFailed

  /** What becomes of a message past the checks: it cannot be rendered, is too long, fails to send, or is sent. */
  datatype Delivery = CannotRender | RendersTooLong | Refused | Delivered

  /** Times and skips as they are shown: the last attempt, the last success, and why the last attempt was skipped. */
  datatype Marks = Marks(attempt: Option<int>, success: Option<int>, skip: Option<SkipReason>)

  const UNMARKED := Marks(None, None, None)

  /** An account's activity since its last send, the start times of its sends, which are all the source keeps,
      and for the record when they really went out. */
  datatype Account = Account(activity: nat, sends: seq<int>, sentAt: seq<int>, marks: Marks)

  const NEW_ACCOUNT := Account(0, [], [], UNMARKED)

  /** One execution against one account: when it started, and when its message, if any, was sent. */
  datatype Attempt = Attempt(account: string, started: int, sent: int, receiving: bool, manual: bool, delivery: Delivery)

  datatype State = State(accounts: map<string, Account>, marks: Marks)

  const IDLE := State(map[], UNMARKED)

  function StateOf(accounts: map<string, Account>, id: string): Account {
    if id in accounts then accounts[id] else NEW_ACCOUNT
  }

  /** Why an attempt is not sent, if it is not. */
  function Verdict(def: Schedule, st: Account, a: Attempt): Option<SkipReason> {
    if def.onlyWhileReceiving && !a.receiving then Some(NotReceiving)
    else if !a.manual && st.activity < def.minimumActivity then Some(ActivityInsufficient)
    else if Held(st.sends, HOUR, a.started) >= def.maximumPerHour then Some(RateLimited)
    else match a.delivery
      case CannotRender => Some(Unresolved)
      case RendersTooLong => Some(TooLong)
      case Refused => Some(SendFailed)
      case Delivered => None
  }

  function Marked(marks: Marks, started: int, verdict: Option<SkipReason>): Marks {
    Marks(Some(started), if verdict.None? then Some(started) else marks.success, verdict)
  }

  function AfterAttempt(def: Schedule, st: Account, a: Attempt): Account {
    var verdict := Verdict(def, st, a);
    if verdict.None? then Account(0, st.sends + [a.started], st.sentAt + [a.sent], Marked(st.marks, a.started, verdict))
    else st.(marks := Marked(st.marks, a.started, verdict))
  }

  function Attempted(def: Schedule, s: State, a: Attempt): State {
    var st := StateOf(s.accounts, a.account);
    State(s.accounts[a.account := AfterAttempt(def, st, a)], Marked(s.marks, a.started, Verdict(def, st, a)))
  }

  datatype Action = Try(attempt: Attempt) | Activity(account: string)

  function Step(def: Schedule, s: State, action: Action): State {
    match action
    case Try(a) => Attempted(def, s, a)
    case Activity(id) =>
      if id !in def.targets then s
      else s.(accounts := s.accounts[id := StateOf(s.accounts, id).(activity := StateOf(s.accounts, id).activity + 1)])
  }

  function Run(def: Schedule, actions: seq<Action>): State {
    if actions == [] then IDLE else Step(def, Run(def, actions[..|actions| - 1]), actions[|actions| - 1])
  }

  function AccountAfter(def: Schedule, actions: seq<Action>, id: string): Account {
    StateOf(Run(def, actions).accounts, id)
  }

  /** Attempts are serialized: each starts when the one before has been sent, and none is sent after `now`. */
  ghost predicate UpTo(actions: seq<Action>, now: int) {
    actions == [] ||
    var p := actions[..|actions| - 1];
    match actions[|actions| - 1]
    case Try(a) => a.started <= a.sent <= now && UpTo(p, a.started)
    case Activity(_) => UpTo(p, now)
  }

  lemma {:induction false} SendsAreUpTo(def: Schedule, actions: seq<Action>, id: string, now: int)
    requires UpTo(actions, now)
    ensures NoneAfter(AccountAfter(def, actions, id).sends, now) && NoneAfter(AccountAfter(def, actions, id).sentAt, now)
  {
    if actions != [] {
      var p := actions[..|actions| - 1];
      match actions[|actions| - 1]
      case Try(a) => SendsAreUpTo(def, p, id, a.started);
      case Activity(_) => SendsAreUpTo(def, p, id, now);
    }
  }

  function Most(def: Schedule): nat {
    if def.maximumPerHour < 0 then 0 else def.maximumPerHour
  }

  /** By the time they started, every rolling hour holds at most the maximum of an account's successful sends,
      manual ones included. */
  lemma {:induction false} RollingHourByStart(def: Schedule, actions: seq<Action>, now: int, id: string)
    requires UpTo(actions, now)
    ensures Bounded(AccountAfter(def, actions, id).sends, HOUR, Most(def))
  {
    if actions != [] {
      var p := actions[..|actions| - 1];
      var before := AccountAfter(def, p, id);
      match actions[|actions| - 1]
      case Try(a) =>
        RollingHourByStart(def, p, a.started, id);
        SendsAreUpTo(def, p, id, a.started);
        if a.account == id && Verdict(def, before, a).None? {
          GuardIsExact(before.sends, a.started, HOUR, def.maximumPerHour);
        }
      case Activity(_) => RollingHourByStart(def, p, now, id);
    }
  }

  /** Start and send times alternate: each message goes out before the next attempt starts. */
  ghost predicate Alternate(starts: seq<int>, sents: seq<int>) {
    |starts| == |sents| &&
    (starts == [] ||
     var n := |starts| - 1;
     Alternate(starts[..n], sents[..n]) && starts[n] <= sents[n] && NoneAfter(sents[..n], starts[n]))
  }

  lemma {:induction false} SendsAlternate(def: Schedule, actions: seq<Action>, id: string, now: int)
    requires UpTo(actions, now)
    ensures Alternate(AccountAfter(def, actions, id).sends, AccountAfter(def, actions, id).sentAt)
  {
    if actions != [] {
      var p := actions[..|actions| - 1];
      match actions[|actions| - 1]
      case Try(a) =>
        SendsAlternate(def, p, id, a.started);
        SendsAreUpTo(def, p, id, a.started);
        AlternateAppend(AccountAfter(def, p, id).sends, AccountAfter(def, p, id).sentAt, a.started, a.sent);
      case Activity(_) => SendsAlternate(def, p, id, now);
    }
  }

  lemma AlternateAppend(starts: seq<int>, sents: seq<int>, started: int, sent: int)
    requires Alternate(starts, sents) && NoneAfter(sents, started) && started <= sent
    ensures Alternate(starts + [started], sents + [sent])
  {
    assert (starts + [started])[..|starts|] == starts && (sents + [sent])[..|sents|] == sents;
  }

  /** At most one send of a window started before it. */
  lemma {:induction false} OneStartedEarlier(starts: seq<int>, sents: seq<int>, lo: int, hi: int)
    requires Alternate(starts, sents)
    ensures CountIn(sents, lo, hi) <= CountIn(starts, lo, hi) + 1
  {
    if starts != [] {
      var n := |starts| - 1;
      OneStartedEarlier(starts[..n], sents[..n], lo, hi);
      if starts[n] <= lo { NoneLater(sents[..n], lo, hi); }
    }
  }

  lemma {:induction false} NoneLater(times: seq<int>, lo: int, hi: int)
    requires NoneAfter(times, lo)
    ensures CountIn(times, lo, hi) == 0
  {
    if times != [] {
      var p := times[..|times| - 1];
      assert times[|times| - 1] in times && times == p + [times[|times| - 1]];
      assert forall t | t in p :: t in times;
      NoneLater(p, lo, hi);
    }
  }

  /** By the time they really went out, every rolling hour holds at most one successful send more than the maximum. */
  lemma {:induction false} RollingHourBySend(def: Schedule, actions: seq<Action>, now: int, id: string)
    requires UpTo(actions, now)
    ensures Bounded(AccountAfter(def, actions, id).sentAt, HOUR, Most(def) + 1)
  {
    var st := AccountAfter(def, actions, id);
    RollingHourByStart(def, actions, now, id);
    SendsAlternate(def, actions, id, now);
    forall end: int ensures InWindow(st.sentAt, HOUR, end) <= Most(def) + 1 {
      assert InWindow(st.sends, HOUR, end) <= Most(def);
      OneStartedEarlier(st.sends, st.sentAt, end - HOUR, end);
    }
  }

  /** Every message of the account, when it went out, found fewer than the maximum sent within the hour. */
  ghost predicate EachSentWithRoom(def: Schedule, actions: seq<Action>, id: string) {
    actions == [] ||
    var p, last := actions[..|actions| - 1], actions[|actions| - 1];
    var before := AccountAfter(def, p, id);
    && EachSentWithRoom(def, p, id)
    && (last.Try? && last.attempt.account == id && Verdict(def, before, last.attempt).None? ==>
          Held(before.sentAt, HOUR, last.attempt.sent) < Most(def))
  }

  /** By the time they really went out, every rolling hour holds at most the maximum if and only if every message, when
      it went out, found fewer than that sent within the hour: having found room when it started does not count. */
  lemma {:induction false} SendLimitHoldsIff(def: Schedule, actions: seq<Action>, now: int, id: string)
    requires UpTo(actions, now)
    ensures Bounded(AccountAfter(def, actions, id).sentAt, HOUR, Most(def)) <==> EachSentWithRoom(def, actions, id)
  {
    if actions != [] {
      var p := actions[..|actions| - 1];
      var before := AccountAfter(def, p, id);
      match actions[|actions| - 1]
      case Try(a) =>
        SendLimitHoldsIff(def, p, a.started, id);
        SendsAreUpTo(def, p, id, a.started);
        if a.account == id && Verdict(def, before, a).None? {
          OneMoreHoldsIff(before.sentAt, a.sent, HOUR, Most(def));
        }
      case Activity(_) => SendLimitHoldsIff(def, p, now, id);
    }
  }

  // ----- the one send more is reached -----

  function Manual(id: string, started: int, sent: int): Action {
    Try(Attempt(id, started, sent, true, true, Delivered))
  }

  /** What that leaves: one start at 0 and k at 1, all sent at 1. */
  ghost predicate EarlyAccount(st: Account, k: nat) {
    && NoneAfter(st.sends, 1) && Held(st.sends, HOUR, 1) == k + 1 && |Later(st.sends, 0)| == k
    && CountIn(st.sentAt, 0, HOUR) == k + 1
  }

  lemma {:induction false} SendOne(def: Schedule, p: seq<Action>, id: string, started: int, sent: int) returns (actions: seq<Action>)
    requires UpTo(p, started) && started <= sent && Held(AccountAfter(def, p, id).sends, HOUR, started) < def.maximumPerHour
    ensures var st := AccountAfter(def, p, id);
            && UpTo(actions, sent) && AccountAfter(def, actions, id).sends == st.sends + [started]
            && AccountAfter(def, actions, id).sentAt == st.sentAt + [sent]
  {
    actions := p + [Manual(id, started, sent)];
    assert actions[..|p|] == p;
  }

  lemma {:induction false} EarlyNext(st: Account, next: Account, k: nat)
    requires 0 < k && EarlyAccount(st, k - 1) && next.sends == st.sends + [1] && next.sentAt == st.sentAt + [1]
    ensures EarlyAccount(next, k)
  {
    LaterAppend(st.sends, 1, 1 - HOUR);
    LaterAppend(st.sends, 1, 0);
    assert next.sentAt[..|st.sentAt|] == st.sentAt;
  }

  /** One attempt whose message goes out an instant later, then k more at that instant. */
  lemma {:induction false} Early(def: Schedule, id: string, k: nat) returns (actions: seq<Action>)
    requires k < def.maximumPerHour
    ensures UpTo(actions, 1) && EarlyAccount(AccountAfter(def, actions, id), k)
    decreases k
  {
    if k == 0 {
      assert AccountAfter(def, [], id) == NEW_ACCOUNT && Later([], -HOUR) == [];
      actions := SendOne(def, [], id, 0, 1);
      LaterAppend([], 0, 1 - HOUR);
      LaterAppend([], 0, 0);
      assert [] + [0] == [0] && [] + [1] == [1] && [1][..0] == [] && Later([], 0) == [] && Later([], 1 - HOUR) == [];
    } else {
      var p := Early(def, id, k - 1);
      actions := SendOne(def, p, id, 1, 1);
      EarlyNext(AccountAfter(def, p, id), AccountAfter(def, actions, id), k);
    }
  }

  /** For every schedule with a maximum of at least one there is such a run: an attempt whose message is held up,
      then as many as the maximum allows, the last of them an hour after the first one started. */
  lemma {:induction false} OneMoreIsReached(def: Schedule, id: string)
    requires def.maximumPerHour >= 1
    ensures exists actions :: UpTo(actions, HOUR)
                           && InWindow(AccountAfter(def, actions, id).sentAt, HOUR, HOUR) == def.maximumPerHour + 1
  {
    var p := Early(def, id, def.maximumPerHour - 1);
    UpToLater(p, 1, HOUR);
    var actions := SendOne(def, p, id, HOUR, HOUR);
    var sentAt := AccountAfter(def, p, id).sentAt;
    assert (sentAt + [HOUR])[..|sentAt|] == sentAt;
  }

  lemma {:induction false} UpToLater(actions: seq<Action>, now: int, later: int)
    requires UpTo(actions, now) && now <= later
    ensures UpTo(actions, later)
  {
    if actions != [] && actions[|actions| - 1].Activity? { UpToLater(actions[..|actions| - 1], now, later); }
  }

  /** An attempt that meets its other conditions is refused by the limit exactly when one more send,
      counted by its start, would exceed the maximum. */
  lemma {:induction false} RefusedOnlyWhenNeeded(def: Schedule, actions: seq<Action>, a: Attempt)
    requires UpTo(actions, a.started) && def.maximumPerHour >= 0 && a.delivery.Delivered?
    requires !(def.onlyWhileReceiving && !a.receiving)
    requires a.manual || AccountAfter(def, actions, a.account).activity >= def.minimumActivity
    ensures var st := AccountAfter(def, actions, a.account);
            Verdict(def, st, a).None? <==> Bounded(st.sends + [a.started], HOUR, def.maximumPerHour)
  {
    RollingHourByStart(def, actions, a.started, a.account);
    SendsAreUpTo(def, actions, a.account, a.started);
    GuardIsExact(AccountAfter(def, actions, a.account).sends, a.started, HOUR, def.maximumPerHour);
  }

  // ----- the choice of message -----

  predicate Repeats(messages: seq<Message>, last: string) {
    forall m | m in messages :: m.id == last
  }

  /** What is chosen from: every message but the last one sent, or all of them when that leaves none. */
  function Candidates(messages: seq<Message>, last: string): seq<Message> {
    var others := Filter(messages, (m: Message) => m.id != last);
    if others == [] then messages else others
  }

  lemma {:induction false} CandidatesAvoidTheLast(messages: seq<Message>, last: string, m: Message)
    ensures m in Candidates(messages, last) <==> m in messages && (m.id != last || Repeats(messages, last))
  {
    FilterMember(messages, (x: Message) => x.id != last, m);
    if Repeats(messages, last) {
      FilterNone(messages, (x: Message) => x.id != last);
    } else {
      var x :| x in messages && x.id != last;
      FilterMember(messages, (y: Message) => y.id != last, x);
    }
  }

  /** Candidate k is chosen for the k-th of equal shares of the fractions. */
  ghost predicate ChosenBy(candidates: seq<Message>, fraction: real, k: nat) {
    k < |candidates| && k as real <= fraction * |candidates| as real < (k + 1) as real
  }

  /** Picks a message by a fraction in [0, 1): each candidate for an equal share of it. */
  method SelectMessage(messages: seq<Message>, last: string, fraction: real) returns (chosen: Message)
    requires messages != [] && 0.0 <= fraction < 1.0
    ensures chosen in messages && (chosen.id == last ==> Repeats(messages, last))
    ensures exists k: nat :: ChosenBy(Candidates(messages, last), fraction, k) && chosen == Candidates(messages, last)[k]
  {
    var candidates := messages;
    if |messages| > 1 {
      var filtered := Others(messages, last);
      if |filtered| > 0 {
        candidates := filtered;
      }
    } else {
      OneCandidate(messages, last);
    }
    var idx := (fraction * |candidates| as real).Floor;
    FractionPicks(fraction, candidates, idx);
    if idx >= |candidates| {
      idx := |candidates| - 1;
    }
    CandidatesAvoidTheLast(messages, last, candidates[idx]);
    return candidates[idx];
  }

  method Others(messages: seq<Message>, last: string) returns (filtered: seq<Message>)
    ensures filtered == Filter(messages, (m: Message) => m.id != last)
  {
    filtered := [];
    for i := 0 to |messages|
      invariant filtered == Filter(messages[..i], (m: Message) => m.id != last)
    {
      assert messages[..i + 1] == messages[..i] + [messages[i]];
      FilterAppend(messages[..i], [messages[i]], (m: Message) => m.id != last);
      assert [messages[i]][1..] == [];
      if messages[i].id != last {
        filtered := filtered + [messages[i]];
      }
    }
    assert messages[..|messages|] == messages;
  }

  lemma OneCandidate(messages: seq<Message>, last: string)
    requires |messages| == 1
    ensures Candidates(messages, last) == messages
  {
    if messages[0].id == last {
      FilterNone(messages, (m: Message) => m.id != last);
    } else {
      FilterAll(messages, (m: Message) => m.id != last);
    }
  }

  lemma FractionPicks(fraction: real, candidates: seq<Message>, k: int)
    requires 0.0 <= fraction < 1.0 && candidates != [] && k == (fraction * |candidates| as real).Floor
    ensures k >= 0 && ChosenBy(candidates, fraction, k)
  {
    var n := |candidates| as real;
    assert 0.0 <= fraction * n < n;
  }

  // ----- the schedule's runtime -----

  class ScheduleRuntime {
    const def: Schedule
    var perAccount: map<string, Account>
    var lastMessageId: string
    var marks: Marks

    ghost function Now(): State
      reads this
    {
      State(perAccount, marks)
    }

    constructor (def: Schedule)
      ensures this.def == def && Now() == IDLE && lastMessageId == ""
    {
      this.def, perAccount, lastMessageId, marks := def, map[], "", UNMARKED;
    }

    /** Counts the sends after the start of the rolling hour. */
    method SendsInLastHour(sends: seq<int>, now: int) returns (count: nat)
      ensures count == Held(sends, HOUR, now)
    {
      var cutoff := now - HOUR;
      count := 0;
      for i := 0 to |sends|
        invariant count == |Later(sends[..i], cutoff)|
      {
        assert sends[..i + 1] == sends[..i] + [sends[i]];
        LaterAppend(sends[..i], sends[i], cutoff);
        if sends[i] > cutoff {
          count := count + 1;
        }
      }
      assert sends[..|sends|] == sends;
    }

    /** Whether an attempt passes the checks made before a message is chosen. */
    method Check(st: Account, a: Attempt) returns (skipped: Option<SkipReason>)
      ensures skipped == Verdict(def, st, a.(delivery := Delivered))
    {
      if def.onlyWhileReceiving && !a.receiving { return Some(NotReceiving); }
      if !a.manual && st.activity < def.minimumActivity { return Some(ActivityInsufficient); }
      var count := SendsInLastHour(st.sends, a.started);
      if count >= def.maximumPerHour { return Some(RateLimited); }
      return None;
    }

    method Skip(st: Account, a: Attempt, reason: SkipReason)
      requires Verdict(def, st, a) == Some(reason) && a.account in perAccount && perAccount[a.account] == st
      modifies `perAccount, `marks
      ensures Now() == Attempted(def, old(Now()), a) && marks.skip == Some(reason)
    {
      marks := marks.(attempt := Some(a.started), skip := Some(reason));
      perAccount := perAccount[a.account := st.(marks := st.marks.(attempt := Some(a.started), skip := Some(reason)))];
    }

    /** One execution against one account; reports why it was not sent, if it was not. */
    method ExecuteOneTarget(a: Attempt, fraction: real) returns (skipped: Option<SkipReason>)
      requires def.messages != [] && 0.0 <= fraction < 1.0
      modifies this
      ensures skipped == Verdict(def, StateOf(old(perAccount), a.account), a)
      ensures Now() == Attempted(def, old(Now()), a)
      ensures skipped.Some? ==> lastMessageId == old(lastMessageId)
      ensures skipped == marks.skip
      ensures skipped.None? && lastMessageId == old(lastMessageId) ==> Repeats(def.messages, lastMessageId)
    {
      var st := if a.account in perAccount then perAccount[a.account] else NEW_ACCOUNT;
      perAccount := perAccount[a.account := st];
      skipped := Check(st, a);
      if skipped.Some? {
        Skip(st, a, skipped.value);
        return;
      }
      var message := SelectMessage(def.messages, lastMessageId, fraction);
      if !a.delivery.Delivered? {
        skipped := Some(match a.delivery case CannotRender => Unresolved case RendersTooLong => TooLong case _ => SendFailed);
        Skip(st, a, skipped.value);
        return;
      }
      lastMessageId := message.id;
      Succeed(st, a);
    }

    method Succeed(st: Account, a: Attempt)
      requires Verdict(def, st, a).None? && a.account in perAccount && perAccount[a.account] == st
      modifies `perAccount, `marks
      ensures Now() == Attempted(def, old(Now()), a) && marks.skip.None?
    {
      marks := Marks(Some(a.started), Some(a.started), None);
      perAccount := perAccount[a.account := Account(0, st.sends + [a.started], st.sentAt + [a.sent], marks)];
    }

    method RecordActivity(id: string)
      modifies `perAccount
      ensures Now() == Step(def, old(Now()), Activity(id))
    {
      for i := 0 to |def.targets|
        invariant id !in def.targets[..i] && perAccount == old(perAccount)
      {
        assert def.targets[..i + 1] == def.targets[..i] + [def.targets[i]];
        if def.targets[i] == id {
          var st := if id in perAccount then perAccount[id] else NEW_ACCOUNT;
          perAccount := perAccount[id := st.(activity := st.activity + 1)];
          return;
        }
      }
      assert def.targets[..|def.targets|] == def.targets;
    }
  }
}
