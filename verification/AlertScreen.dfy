/** What one alert profile shows and announces: the current alert, the pause flag and the public revision log. */
module AlertScreen {
  import opened Common
  import opened Rings
  import opened AlertModel

  datatype HideReason = Completed | Skipped | Preempted | ProfileDisabled

  /** The presentation-only view of an alert that viewers receive. */
  datatype PublicAlert = PublicAlert(
    alertId: string, eventType: EventType, providerId: string, synthetic: bool, replayed: bool,
    quantity: Option<int>, groupCount: int, renderedText: string, durationMs: int)

  function ToPublic(inst: Instance): PublicAlert {
    PublicAlert(inst.id, inst.eventType, inst.providerId, inst.synthetic, inst.replayed,
                inst.quantity, inst.groupCount, inst.renderedText, inst.durationMs)
  }

  datatype Revision =
    | Show(alert: PublicAlert, paused: bool)
    | Hide(alertId: string, reason: HideReason, paused: bool)
    | PauseChanged(paused: bool)

  type Log = seq<Entry<Revision>>

  datatype Screen = Screen(current: Option<Instance>, deadline: int, paused: bool, log: Log, closed: bool)

  function Publish(sc: Screen, rev: Revision): Screen {
    if sc.closed then sc else sc.(log := sc.log + [Entry(|sc.log| + 1, rev)])
  }

  function ShowOn(sc: Screen, inst: Instance, now: int): Screen {
    Publish(sc.(current := Some(inst), deadline := now + inst.durationMs * MILLISECOND), Show(ToPublic(inst), sc.paused))
  }

  function HideOn(sc: Screen, reason: HideReason): Screen {
    if sc.current.None? then sc
    else Publish(sc.(current := None), Hide(sc.current.value.id, reason, sc.paused))
  }

  function PauseOn(sc: Screen, paused: bool): Screen {
    Publish(sc.(paused := paused), PauseChanged(paused))
  }

  // ----- the client's side -----

  /** What a client displays: an alert, if any, and whether the queue is paused. */
  datatype View = View(alert: Option<PublicAlert>, paused: bool)

  function Follow(v: View, rev: Revision): View {
    match rev
    case Show(alert, paused) => View(Some(alert), paused)
    case Hide(_, _, paused) => View(None, paused)
    case PauseChanged(paused) => View(v.alert, paused)
  }

  function FollowAll(v: View, entries: Log): View {
    if entries == [] then v else Follow(FollowAll(v, entries[..|entries| - 1]), entries[|entries| - 1].payload)
  }

  const BLANK := View(None, false)

  function Display(sc: Screen): View {
    View(if sc.current.Some? then Some(ToPublic(sc.current.value)) else None, sc.paused)
  }

  /** Shows and hides strictly alternate, and each hide names the alert the preceding show put up. */
  ghost predicate Alternates(log: Log) {
    log == [] ||
    var before := FollowAll(BLANK, log[..|log| - 1]);
    && Alternates(log[..|log| - 1])
    && match log[|log| - 1].payload
       case Show(_, paused) => before.alert.None? && paused == before.paused
       case Hide(id, _, paused) => before.alert.Some? && before.alert.value.alertId == id && paused == before.paused
       case PauseChanged(_) => true
  }

  /** The log is numbered and alternates, and until shutdown a client that follows it displays what the server shows. */
  ghost predicate Faithful(sc: Screen) {
    && Numbered(sc.log) && Alternates(sc.log)
    && (!sc.closed ==> FollowAll(BLANK, sc.log) == Display(sc))
  }

  lemma {:induction false} FollowAllAppend(v: View, a: Log, b: Log)
    ensures FollowAll(v, a + b) == FollowAll(FollowAll(v, a), b)
  {
    if b == [] {
      assert a + b == a;
    } else {
      FollowAllAppend(v, a, b[..|b| - 1]);
      assert (a + b)[..|a + b| - 1] == a + b[..|b| - 1];
    }
  }

  lemma FollowOne(log: Log, rev: Revision)
    ensures var e := Entry(|log| + 1, rev);
            FollowAll(BLANK, log + [e]) == Follow(FollowAll(BLANK, log), rev) && (log + [e])[..|log|] == log
  {
    var e := Entry(|log| + 1, rev);
    assert (log + [e])[..|log|] == log;
  }

  lemma {:induction false} ShowKeepsFaith(sc: Screen, inst: Instance, now: int)
    requires Faithful(sc) && sc.current.None?
    ensures Faithful(ShowOn(sc, inst, now))
  {
    FollowOne(sc.log, Show(ToPublic(inst), sc.paused));
  }

  lemma {:induction false} HideKeepsFaith(sc: Screen, reason: HideReason)
    requires Faithful(sc)
    ensures Faithful(HideOn(sc, reason))
  {
    if sc.current.Some? {
      FollowOne(sc.log, Hide(sc.current.value.id, reason, sc.paused));
    }
  }

  lemma {:induction false} PauseKeepsFaith(sc: Screen, paused: bool)
    requires Faithful(sc)
    ensures Faithful(PauseOn(sc, paused))
  {
    FollowOne(sc.log, PauseChanged(paused));
  }

  lemma {:induction false} ReplayCompletes(log: Log, capacity: nat, s: nat)
    requires Numbered(log) && 0 < capacity && 0 < s <= |log| && !HasGap(|log|, LastN(log, capacity), s)
    ensures FollowAll(FollowAll(BLANK, log[..s]), Newer(LastN(log, capacity), s)) == FollowAll(BLANK, log)
  {
    GaplessReplay(log, capacity, s);
    FollowAllAppend(BLANK, log[..s], log[s..]);
    assert log == log[..s] + log[s..];
  }

  /** A client in step with the log up to s > 0 that resumes from s without a gap displays what the server shows. */
  lemma {:induction false} GaplessResumeCatchesUp(sc: Screen, capacity: nat, s: nat, v: View)
    requires Faithful(sc) && !sc.closed && 0 < capacity && 0 < s <= |sc.log|
    requires v == FollowAll(BLANK, sc.log[..s])
    requires !HasGap(|sc.log|, LastN(sc.log, capacity), s)
    ensures FollowAll(v, Newer(LastN(sc.log, capacity), s)) == Display(sc)
  {
    ReplayCompletes(sc.log, capacity, s);
  }

  /** Shows published so far. */
  function Shows(log: Log): nat {
    if log == [] then 0
    else Shows(log[..|log| - 1]) + if log[|log| - 1].payload.Show? then 1 else 0
  }
}
