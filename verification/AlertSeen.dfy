/** What viewers get to see of an alert: its fields, and for a group the text rendered from its own numbers. */
module AlertSeen {
  import opened Common
  import opened Sorting
  import opened AlertModel
  import opened AlertScreen
  import opened AlertSpec
  import opened Templates
  import opened TemplateText
  import Ledger = AlertLedger

  // ----- numbers in text -----

  predicate IsDigit(c: char) {
    '0' <= c <= '9'
  }

  /** The number that decimal digits stand for. */
  function Read(digits: string): int {
    if digits == "" then 0 else 10 * Read(digits[..|digits| - 1]) + (digits[|digits| - 1] as int - '0' as int)
  }

  lemma {:induction false} DigitsRead(n: nat)
    ensures Digits(n) != "" && Read(Digits(n)) == n && forall c | c in Digits(n) :: IsDigit(c)
    ensures Digits(n)[0] == '0' ==> n == 0
  {
    var digits := "0123456789";
    if n < 10 {
      assert Digits(n)[..0] == "";
    } else {
      DigitsRead(n / 10);
      assert Digits(n)[..|Digits(n)| - 1] == Digits(n / 10);
    }
  }

  /** A text shows a number: its decimal digits without leading zeros, behind a minus sign if it is negative. */
  ghost predicate ShowsNumber(text: string, n: int) {
    if n < 0 then text != "" && text[0] == '-' && ShowsNatural(text[1..], -n) else ShowsNatural(text, n)
  }

  ghost predicate ShowsNatural(text: string, n: nat) {
    && text != "" && (forall c | c in text :: IsDigit(c)) && Read(text) == n && (text[0] == '0' ==> n == 0)
  }

  lemma {:induction false} FormatShows(n: int)
    ensures ShowsNumber(FormatInt(n), n)
  {
    DigitsRead(if n < 0 then -n else n);
    if n < 0 { assert FormatInt(n)[1..] == Digits(-n); }
  }

  // ----- the text of a group -----

  /** Every placeholder of a group's template: what stands in its place. */
  lemma {:induction false} GroupShows(inst: Instance, name: string)
    requires inst.template == "{" + name + "}" && name != "" && '{' !in name && '}' !in name
    ensures var text := GroupedText(inst);
            && (name == "username" ==> text == inst.actorName)
            && (name == "platform" ==> text == inst.platformLabel)
            && (name == "eventType" ==> text == inst.eventLabel)
            && (name == "quantity" && inst.quantity.Some? ==> ShowsNumber(text, inst.quantity.value))
            && (name == "quantity" && inst.quantity.None? ==> text == "")
            && (name == "groupCount" ==> ShowsNumber(text, inst.groupCount))
            && (name !in {"username", "platform", "eventType", "quantity", "groupCount"} ==> text == "")
  {
    PlaceholderRendersItsValue(name, GroupContext(inst));
    FormatShows(inst.groupCount);
    if inst.quantity.Some? { FormatShows(inst.quantity.value); }
  }

  /** A template put together from two accepted ones shows their texts one behind the other; a malformed one leaves the
      text as it was. */
  lemma {:induction false} GroupTextJoins(inst: Instance, a: string, b: string)
    requires Parse(a, "").Ok? && Parse(b, "").Ok?
    ensures GroupedText(inst.(template := a + b)) == GroupedText(inst.(template := a)) + GroupedText(inst.(template := b))
  {
    SameContext(inst, a);
    SameContext(inst, b);
    SameContext(inst, a + b);
    RenderingJoins(a, b, GroupContext(inst));
  }

  lemma SameContext(inst: Instance, template: string)
    ensures RenderSpec(template, GroupContext(inst.(template := template))).Ok? <==> RenderSpec(template, GroupContext(inst)).Ok?
    ensures RenderSpec(template, GroupContext(inst)).Ok? ==>
              TextOf(template, GroupContext(inst.(template := template))) == TextOf(template, GroupContext(inst))
  {
    if Parse(template, "").Ok? {
      OnlyItsNamesMatter(Parse(template, "").value, GroupContext(inst.(template := template)), GroupContext(inst));
    }
  }

  lemma MalformedKeepsTheText(inst: Instance)
    requires Parse(inst.template, "").Err?
    ensures GroupedText(inst) == inst.renderedText
  {
  }

  // ----- the screen of a viewer -----

  /** Over every run, a viewer who followed the log sees exactly this of the alert on screen, and nothing when there
      is none. */
  lemma {:induction false} ViewersSee(
      enabled: bool, maxItems: int, maxAge: int, audioLinked: bool, actions: seq<Action>, ids: IdSupply)
    requires !Run(Initial(enabled, maxItems, maxAge, audioLinked), actions, ids).screen.closed
    ensures var s := Run(Initial(enabled, maxItems, maxAge, audioLinked), actions, ids);
            var seen := FollowAll(BLANK, s.screen.log);
            && seen.paused == s.screen.paused && (seen.alert.Some? <==> s.screen.current.Some?)
            && (s.screen.current.Some? ==>
                  var v, inst := seen.alert.value, s.screen.current.value;
                  && v.alertId == inst.id && v.eventType == inst.eventType && v.providerId == inst.providerId
                  && v.synthetic == inst.synthetic && v.replayed == inst.replayed && v.quantity == inst.quantity
                  && v.groupCount == inst.groupCount && v.renderedText == inst.renderedText && v.durationMs == inst.durationMs)
  {
    Ledger.LogIsReplica(enabled, maxItems, maxAge, audioLinked, actions, ids);
  }

  // ----- what is asked to be heard -----

  /** The audio last started. */
  function LastStarted(commands: seq<AudioCommand>): Option<AudioCommand> {
    if commands == [] then None
    else
      var last := commands[|commands| - 1];
      if last.PlayAudio? then Some(last) else LastStarted(commands[..|commands| - 1])
  }

  /** If the alert on screen has audio, the audio last started is its sound and speech, as its rule says. */
  predicate AsItsRuleSays(s: Runtime) {
    s.audioLinked && s.screen.current.Some? && s.screen.current.value.audio.Some? ==>
      var inst := s.screen.current.value;
      LastStarted(s.audio) == Some(PlayAudio(inst.id, inst.audio.value.soundEnabled, inst.audio.value.ttsEnabled))
  }

  lemma {:induction false} StartAsks(s: Runtime, inst: Instance, now: int)
    ensures AsItsRuleSays(Start(s, inst, now))
  {
  }

  lemma {:induction false} PromoteAsks(s: Runtime, now: int)
    requires s.screen.current.None?
    ensures AsItsRuleSays(Promote(s, now))
  {
  }

  lemma {:induction false} TickAsks(s: Runtime, now: int, answer: AudioState)
    requires AsItsRuleSays(s)
    ensures AsItsRuleSays(Tick(s, now, answer))
  {
    var done := AlertSpec.Finish(s, now, answer);
    if s.enabled && !done.screen.paused && done.screen.current.None? { PromoteAsks(done, now); }
  }

  lemma {:induction false} SkipAsks(s: Runtime, now: int)
    requires AsItsRuleSays(s)
    ensures AsItsRuleSays(SkipCurrent(s, now))
  {
    if s.screen.current.Some? { PromoteAsks(Complete(s, Skipped), now); }
  }

  lemma {:induction false} ArriveAsks(s: Runtime, inst: Instance, now: int, ids: IdSupply, mayPreempt: bool)
    requires AsItsRuleSays(s)
    ensures AsItsRuleSays(Arrive(s, inst, now, ids, mayPreempt))
  {
    var counted := CountArrival(s);
    if mayPreempt && CanPreempt(counted, inst) {
      StartAsks(Complete(counted, Preempted).(idCalls := s.idCalls + 1), WithId(inst, ids(s.idCalls)), now);
    } else {
      var e := Enqueue(counted, inst, now, ids);
      assert e.audio == s.audio && e.screen == s.screen;
    }
  }

  lemma {:induction false} ArriveAllAsks(s: Runtime, list: seq<Instance>, now: int, ids: IdSupply, mayPreempt: bool)
    requires AsItsRuleSays(s)
    ensures AsItsRuleSays(ArriveAll(s, list, now, ids, mayPreempt))
    decreases |list|
  {
    if list != [] {
      ArriveAsks(s, list[0], now, ids, mayPreempt);
      ArriveAllAsks(Arrive(s, list[0], now, ids, mayPreempt), list[1..], now, ids, mayPreempt && !CanPreempt(s, list[0]));
    }
  }

  lemma {:induction false} TestAsks(s: Runtime, inst: Instance, now: int, ids: IdSupply)
    requires AsItsRuleSays(s)
    ensures AsItsRuleSays(Test(s, inst, now, ids))
  {
    var counted := CountArrival(s);
    if CanPreempt(counted, inst) {
      StartAsks(Complete(counted, Preempted).(idCalls := s.idCalls + 1), WithId(inst, ids(s.idCalls)), now);
    } else {
      var e := Enqueue(counted, inst, now, ids);
      assert e.audio == s.audio && e.screen == s.screen;
    }
  }

  /** Over every run: what the audio manager was last asked to play is what the rule of the alert on screen asks for,
      whenever that alert has audio. */
  lemma {:induction false} HeardAsItsRuleSays(
      enabled: bool, maxItems: int, maxAge: int, audioLinked: bool, actions: seq<Action>, ids: IdSupply)
    ensures AsItsRuleSays(Run(Initial(enabled, maxItems, maxAge, audioLinked), actions, ids))
  {
    if actions != [] {
      var before, a := actions[..|actions| - 1], actions[|actions| - 1];
      var s := Run(Initial(enabled, maxItems, maxAge, audioLinked), before, ids);
      HeardAsItsRuleSays(enabled, maxItems, maxAge, audioLinked, before, ids);
      match a
      case DoTick(now, answer) => TickAsks(s, now, answer);
      case DoMatched(candidates, now) => ArriveAllAsks(s, Sort(candidates, HandledBefore), now, ids, true);
      case DoTest(inst, now) => TestAsks(s, inst, now, ids);
      case DoSkip(now) => SkipAsks(s, now);
      case _ =>
    }
  }
}
