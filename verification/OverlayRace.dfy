/** What a rebuild makes of changes upstream while it runs.

Configuring an overlay first copies what upstream retains, then clears the visible set, then replays the copy item by
item; live items are handled in between. A live item is evaluated before the lock is taken, so that one that was being
handled at the clearing comes with the verdict of the old settings. An item is shown in a stale form exactly when its
newest form was handled between the copy and the replay of an older one, or evaluated before the clearing and applied
after it, and after its own replay, if any. */
module OverlayRace {
  import opened Common
  import opened ExpiryQueue
  import opened OverlaySpec
  import opened OverlayReplica

  function IdOf(v: Verdict): string {
    match v
    case Visible(item) => item.id
    case Hidden(id, _) => id
  }

  /** One form upstream sent of an id, and what filtering makes of it under the old settings and under the new. */
  datatype Form = Form(id: string, before: Verdict, after: Verdict)

  /** Verdicts are about the item they are given on. */
  predicate Judged(forms: seq<Form>) {
    forall k | 0 <= k < |forms| :: IdOf(forms[k].before) == forms[k].id && IdOf(forms[k].after) == forms[k].id
  }

  /** After the set was cleared: form k is handled live, having been evaluated before the clearing or not, or replayed
      from the copy, or something else happens that brings no item. */
  datatype Move = Handle(k: nat, early: bool) | Replay(k: nat) | Aside(action: Action)

  predicate Other(a: Action) {
    a.OnTimer? || a.OnPresentation? || a.OnEnd?
  }

  predicate InRange(m: Move, n: nat) {
    match m
    case Handle(k, _) => k < n
    case Replay(k) => k < n
    case Aside(a) => Other(a)
  }

  predicate Concerns(forms: seq<Form>, m: Move, id: string)
    requires InRange(m, |forms|)
  {
    !m.Aside? && forms[m.k].id == id
  }

  /** What the move finds of its form. */
  function Found(forms: seq<Form>, m: Move): Verdict
    requires InRange(m, |forms|) && !m.Aside?
  {
    if m.Handle? && m.early then forms[m.k].before else forms[m.k].after
  }

  function ActionOf(forms: seq<Form>, m: Move): Action
    requires InRange(m, |forms|)
  {
    match m
    case Handle(_, _) => OnUpstream(Found(forms, m))
    case Replay(_) => OnRebuild(Found(forms, m))
    case Aside(a) => a
  }

  predicate AllInRange(moves: seq<Move>, n: nat) {
    forall i | 0 <= i < |moves| :: InRange(moves[i], n)
  }

  ghost function Play(o: Overlay, forms: seq<Form>, moves: seq<Move>): Overlay
    requires AllInRange(moves, |forms|)
  {
    if moves == [] then o
    else Step(Play(o, forms, moves[..|moves| - 1]), ActionOf(forms, moves[|moves| - 1]))
  }

  /** The last move about id. */
  function Last(forms: seq<Form>, moves: seq<Move>, id: string): (m: Option<Move>)
    requires AllInRange(moves, |forms|)
    ensures m.Some? ==> m.value in moves && InRange(m.value, |forms|) && Concerns(forms, m.value, id)
  {
    if moves == [] then None
    else if Concerns(forms, moves[|moves| - 1], id) then Some(moves[|moves| - 1])
    else Last(forms, moves[..|moves| - 1], id)
  }

  // ----- what is shown is what came last -----

  /** Every item of t was in s, as it is. */
  ghost predicate Fewer(t: map<string, Item>, s: map<string, Item>) {
    forall id | id in t :: id in s && t[id] == s[id]
  }

  lemma {:induction false} EvictIsFewer(s: Shelf, limit: nat)
    ensures Fewer(EvictOver(s, limit).latest, s.latest)
    decreases |s.order|
  {
    if |s.order| > limit {
      EvictIsFewer(Shelf(s.order[1..], s.latest - {s.order[0]}, s.expiry - {s.order[0]}), limit);
    }
  }

  lemma {:induction false} ExpireIsFewer(o: Overlay, due: seq<string>)
    ensures Fewer(ExpireEach(o, due).shelf.latest, o.shelf.latest)
    decreases due
  {
    if due != [] {
      if due[0] !in o.shelf.latest {
        ExpireIsFewer(o, due[1..]);
      } else {
        ExpireIsFewer(o.(shelf := Drop(o.shelf, due[0]), log := Append(o.log, Remove(due[0], Expired))), due[1..]);
      }
    }
  }

  /** Handled or replayed, an item is the only one whose form may change; others may only leave. */
  lemma {:induction false} StepShows(o: Overlay, v: Verdict, id: string, t: Overlay)
    requires !o.closed && (t == Live(o, v) || t == Rebuild(o, v)) && id in t.shelf.latest
    ensures IdOf(v) != id ==> id in o.shelf.latest && t.shelf.latest[id] == o.shelf.latest[id]
    ensures IdOf(v) == id ==> v.Visible? && t.shelf.latest[id] == v.item.(sequence := t.shelf.latest[id].sequence)
  {
    match v
    case Visible(item) => EvictIsFewer(Put(o.shelf, item.(sequence := 0), o.settings.lifetimeSeconds), Limit(o.settings));
    case Hidden(_, _) =>
  }

  lemma {:induction false} AsideShows(o: Overlay, a: Action, id: string)
    requires Other(a) && id in Step(o, a).shelf.latest
    ensures id in o.shelf.latest && Step(o, a).shelf.latest[id] == o.shelf.latest[id]
  {
    if a.OnTimer? {
      ExpireIsFewer(o.(shelf := o.shelf.(expiry := Without(o.shelf.expiry, a.due))), a.due);
    }
  }

  lemma {:induction false} StaysOpen(o: Overlay, forms: seq<Form>, moves: seq<Move>)
    requires AllInRange(moves, |forms|) && !o.closed
    ensures !Play(o, forms, moves).closed
  {
    if moves != [] {
      var before := Play(o, forms, moves[..|moves| - 1]);
      StaysOpen(o, forms, moves[..|moves| - 1]);
      match moves[|moves| - 1]
      case Aside(a) =>
        if a.OnTimer? {
          ExpireStaysOpen(before.(shelf := before.shelf.(expiry := Without(before.shelf.expiry, a.due))), a.due);
        }
      case _ =>
    }
  }

  lemma {:induction false} ExpireStaysOpen(o: Overlay, due: seq<string>)
    ensures ExpireEach(o, due).closed == o.closed
    decreases due
  {
    if due != [] {
      if due[0] !in o.shelf.latest {
        ExpireStaysOpen(o, due[1..]);
      } else {
        ExpireStaysOpen(o.(shelf := Drop(o.shelf, due[0]), log := Append(o.log, Remove(due[0], Expired))), due[1..]);
      }
    }
  }

  /** From a cleared set on, a visible item is what the last move about its id found, and that found it visible. */
  lemma {:induction false} LastIsShown(o: Overlay, forms: seq<Form>, moves: seq<Move>, id: string)
    requires Judged(forms) && AllInRange(moves, |forms|) && !o.closed && o.shelf.latest == map[]
    requires id in Play(o, forms, moves).shelf.latest
    ensures var last := Last(forms, moves, id); var shown := Play(o, forms, moves).shelf.latest[id];
            last.Some? && Found(forms, last.value).Visible?
            && shown == Found(forms, last.value).item.(sequence := shown.sequence)
  {
    if moves != [] {
      var n := |moves| - 1;
      var before := Play(o, forms, moves[..n]);
      StaysOpen(o, forms, moves[..n]);
      match moves[n] {
        case Aside(a) => AsideShows(before, a, id);
        case _ => StepShows(before, Found(forms, moves[n]), id, Play(o, forms, moves));
      }
      if !Concerns(forms, moves[n], id) { LastIsShown(o, forms, moves[..n], id); }
    }
  }

  // ----- what is shown when nothing is evicted or expires -----

  /** No move evicts an item or lets one expire. */
  ghost predicate Undisturbed(o: Overlay, forms: seq<Form>, moves: seq<Move>)
    requires AllInRange(moves, |forms|)
  {
    moves == [] ||
    var before, m := Play(o, forms, moves[..|moves| - 1]), moves[|moves| - 1];
    && Undisturbed(o, forms, moves[..|moves| - 1])
    && match m
       case Aside(a) => a.OnTimer? ==> forall id | id in a.due :: id !in before.shelf.latest
       case _ =>
         var v := Found(forms, m);
         v.Visible? ==> |Put(before.shelf, v.item, before.settings.lifetimeSeconds).order| <= Limit(before.settings)
  }

  lemma {:induction false} NothingExpires(o: Overlay, due: seq<string>)
    requires forall id | id in due :: id !in o.shelf.latest
    ensures ExpireEach(o, due).shelf.latest == o.shelf.latest
    decreases due
  {
    if due != [] {
      assert due[0] in due && forall id | id in due[1..] :: id in due;
      NothingExpires(o, due[1..]);
    }
  }

  lemma {:induction false} StepShowsIff(o: Overlay, v: Verdict, id: string, t: Overlay)
    requires !o.closed && (t == Live(o, v) || t == Rebuild(o, v))
    requires v.Visible? ==> |Put(o.shelf, v.item, o.settings.lifetimeSeconds).order| <= Limit(o.settings)
    ensures id in t.shelf.latest <==> if IdOf(v) == id then v.Visible? else id in o.shelf.latest
  {
  }

  /** As long as nothing is evicted or expires: an id is shown if and only if some move since the clearing was about it
      and the last one found it visible. */
  lemma {:induction false} ShownIff(o: Overlay, forms: seq<Form>, moves: seq<Move>, id: string)
    requires Judged(forms) && AllInRange(moves, |forms|) && !o.closed && o.shelf.latest == map[]
    requires Undisturbed(o, forms, moves)
    ensures id in Play(o, forms, moves).shelf.latest
            <==> Last(forms, moves, id).Some? && Found(forms, Last(forms, moves, id).value).Visible?
  {
    if moves != [] {
      var n := |moves| - 1;
      var before := Play(o, forms, moves[..n]);
      StaysOpen(o, forms, moves[..n]);
      ShownIff(o, forms, moves[..n], id);
      match moves[n] {
        case Aside(a) =>
          if a.OnTimer? {
            NothingExpires(before.(shelf := before.shelf.(expiry := Without(before.shelf.expiry, a.due))), a.due);
          }
        case _ => StepShowsIff(before, Found(forms, moves[n]), id, Play(o, forms, moves));
      }
    }
  }

  // ----- the order of the moves -----

  /** Replays go through forms lo..r and live handling through b..t, each in order, interleaved in any way; live items
      are handled one by one, so that only the first can have been evaluated before the clearing. */
  predicate Scheduled(moves: seq<Move>, lo: nat, r: nat, b: nat, t: nat) {
    if moves == [] then r == lo && t == b
    else match moves[|moves| - 1]
      case Handle(k, early) => t == k + 1 && (early ==> k == b) && Scheduled(moves[..|moves| - 1], lo, r, b, k)
      case Replay(k) => r == k + 1 && Scheduled(moves[..|moves| - 1], lo, k, b, t)
      case Aside(a) => Other(a) && Scheduled(moves[..|moves| - 1], lo, r, b, t)
  }

  lemma {:induction false} ScheduleBounds(moves: seq<Move>, lo: nat, r: nat, b: nat, t: nat)
    requires Scheduled(moves, lo, r, b, t)
    ensures lo <= r && b <= t
    ensures forall i | 0 <= i < |moves| ::
              match moves[i]
              case Handle(k, _) => b <= k < t
              case Replay(k) => lo <= k < r
              case Aside(a) => Other(a)
  {
    if moves != [] {
      match moves[|moves| - 1]
      case Handle(k, _) => ScheduleBounds(moves[..|moves| - 1], lo, r, b, k);
      case Replay(k) => ScheduleBounds(moves[..|moves| - 1], lo, k, b, t);
      case Aside(_) => ScheduleBounds(moves[..|moves| - 1], lo, r, b, t);
    }
  }

  /** Where a form is handled, and where it is replayed. */
  lemma {:induction false} HandledAt(moves: seq<Move>, lo: nat, r: nat, b: nat, t: nat, k: nat) returns (i: nat)
    requires Scheduled(moves, lo, r, b, t) && b <= k < t
    ensures i < |moves| && moves[i].Handle? && moves[i].k == k
  {
    var n := |moves| - 1;
    match moves[n] {
      case Handle(last, _) => if last == k { i := n; } else { i := HandledAt(moves[..n], lo, r, b, last, k); }
      case Replay(last) => i := HandledAt(moves[..n], lo, last, b, t, k);
      case Aside(_) => i := HandledAt(moves[..n], lo, r, b, t, k);
    }
  }

  lemma {:induction false} ReplayedAt(moves: seq<Move>, lo: nat, r: nat, b: nat, t: nat, k: nat) returns (i: nat)
    requires Scheduled(moves, lo, r, b, t) && lo <= k < r
    ensures i < |moves| && moves[i] == Replay(k)
  {
    var n := |moves| - 1;
    match moves[n] {
      case Replay(last) => if last == k { i := n; } else { i := ReplayedAt(moves[..n], lo, last, b, t, k); }
      case Handle(last, _) => i := ReplayedAt(moves[..n], lo, r, b, last, k);
      case Aside(_) => i := ReplayedAt(moves[..n], lo, r, b, t, k);
    }
  }

  lemma {:induction false} InOrder(moves: seq<Move>, lo: nat, r: nat, b: nat, t: nat, i: nat, j: nat)
    requires Scheduled(moves, lo, r, b, t) && i < j < |moves|
    ensures moves[i].Handle? && moves[j].Handle? ==> moves[i].k < moves[j].k
    ensures moves[i].Replay? && moves[j].Replay? ==> moves[i].k < moves[j].k
  {
    var n := |moves| - 1;
    assert moves[..n][i] == moves[i];
    match moves[n] {
      case Handle(k, _) =>
        ScheduleBounds(moves[..n], lo, r, b, k);
        if j < n { InOrder(moves[..n], lo, r, b, k, i, j); }
      case Replay(k) =>
        ScheduleBounds(moves[..n], lo, k, b, t);
        if j < n { InOrder(moves[..n], lo, k, b, t, i, j); }
      case Aside(_) =>
        if j < n { InOrder(moves[..n], lo, r, b, t, i, j); }
    }
  }

  lemma {:induction false} LastAt(forms: seq<Form>, moves: seq<Move>, id: string) returns (i: nat)
    requires AllInRange(moves, |forms|) && Last(forms, moves, id).Some?
    ensures i < |moves| && Concerns(forms, moves[i], id) && moves[i] == Last(forms, moves, id).value
    ensures forall j | i < j < |moves| :: !Concerns(forms, moves[j], id)
  {
    var n := |moves| - 1;
    if Concerns(forms, moves[n], id) {
      i := n;
    } else {
      i := LastAt(forms, moves[..n], id);
    }
  }

  // ----- the race -----

  /** The newest of all forms of id. */
  predicate IsNewest(forms: seq<Form>, id: string, k: nat) {
    k < |forms| && forms[k].id == id && forall j | k < j < |forms| :: forms[j].id != id
  }

  /** Form k came after the copy was taken, and was handled live, before the set was cleared or after it, before a
      replay of an older form of the same id. */
  ghost predicate Overtaken(forms: seq<Form>, moves: seq<Move>, taken: nat, begun: nat, k: nat) {
    k < |forms| && taken <= k &&
    exists i :: 0 <= i < |moves| && moves[i].Replay? && moves[i].k < |forms| && forms[moves[i].k].id == forms[k].id
                && (k < begun || exists h :: 0 <= h < i && moves[h].Handle? && moves[h].k == k)
  }

  /** Form k was evaluated before the set was cleared and applied after it, and after its own replay, if any. */
  ghost predicate EvaluatedEarly(moves: seq<Move>, k: nat) {
    exists i :: 0 <= i < |moves| && moves[i] == Handle(k, true) && Replay(k) !in moves[i + 1..]
  }

  /** The move is about form k, under the new settings. */
  predicate IsFresh(m: Move, k: nat) {
    m == Replay(k) || m == Handle(k, false)
  }

  /** The schedule of one configuration: the copy holds forms lo..taken, live handling had reached `begun` when the set
      was cleared, and in the end has reached the last form. */
  predicate Complete(forms: seq<Form>, moves: seq<Move>, lo: nat, taken: nat, begun: nat) {
    Scheduled(moves, lo, taken, begun, |forms|) && taken <= |forms| && AllInRange(moves, |forms|)
  }

  /** Each form is handled once. */
  lemma {:induction false} HandledOnce(
      forms: seq<Form>, moves: seq<Move>, lo: nat, taken: nat, begun: nat, i: nat, j: nat)
    requires Complete(forms, moves, lo, taken, begun) && i < |moves| && j < |moves|
    requires moves[i].Handle? && moves[j].Handle? && moves[i].k == moves[j].k
    ensures i == j
  {
    if i < j {
      InOrder(moves, lo, taken, begun, |forms|, i, j);
    } else if j < i {
      InOrder(moves, lo, taken, begun, |forms|, j, i);
    }
  }

  /** Where the last move about the id handles it live, that is its newest form, and no replay came after. */
  lemma {:induction false} LastHandles(
      forms: seq<Form>, moves: seq<Move>, lo: nat, taken: nat, begun: nat, id: string, newest: nat, at: nat)
    requires Complete(forms, moves, lo, taken, begun) && IsNewest(forms, id, newest)
    requires at < |moves| && Concerns(forms, moves[at], id) && moves[at].Handle?
    requires forall j | at < j < |moves| :: !Concerns(forms, moves[j], id)
    ensures moves[at].k == newest && !Overtaken(forms, moves, taken, begun, newest)
    ensures EvaluatedEarly(moves, newest) <==> moves[at].early
  {
    ScheduleBounds(moves, lo, taken, begun, |forms|);
    var h := HandledAt(moves, lo, taken, begun, |forms|, newest);
    assert Concerns(forms, moves[h], id);
    if h < at { InOrder(moves, lo, taken, begun, |forms|, h, at); }
    forall i, g | 0 <= g < i < |moves| && moves[g].Handle? && moves[g].k == newest && moves[i].Replay?
      ensures forms[moves[i].k].id != id
    {
      HandledOnce(forms, moves, lo, taken, begun, g, at);
      assert !Concerns(forms, moves[i], id);
    }
    if moves[at].early {
      assert forall j | at < j < |moves| :: moves[j] != Replay(newest);
    }
    if EvaluatedEarly(moves, newest) {
      var i :| 0 <= i < |moves| && moves[i] == Handle(newest, true) && Replay(newest) !in moves[i + 1..];
      HandledOnce(forms, moves, lo, taken, begun, i, at);
    }
  }

  /** Where it replays a form, that is the newest iff the newest is in the copy, and else it was overtaken. */
  lemma {:induction false} LastReplays(
      forms: seq<Form>, moves: seq<Move>, lo: nat, taken: nat, begun: nat, id: string, newest: nat, at: nat)
    requires Complete(forms, moves, lo, taken, begun) && IsNewest(forms, id, newest)
    requires at < |moves| && Concerns(forms, moves[at], id) && moves[at].Replay?
    requires forall j | at < j < |moves| :: !Concerns(forms, moves[j], id)
    ensures moves[at].k == newest <==> !Overtaken(forms, moves, taken, begun, newest)
    ensures !EvaluatedEarly(moves, newest) || Overtaken(forms, moves, taken, begun, newest)
    ensures moves[at].k < taken
  {
    ScheduleBounds(moves, lo, taken, begun, |forms|);
    if newest < taken {
      var h := ReplayedAt(moves, lo, taken, begun, |forms|, newest);
      assert Concerns(forms, moves[h], id);
      if h < at { InOrder(moves, lo, taken, begun, |forms|, h, at); }
      forall i | 0 <= i < |moves| && moves[i] == Handle(newest, true) ensures Replay(newest) in moves[i + 1..] {
        assert Concerns(forms, moves[i], id);
        assert moves[i + 1..][at - i - 1] == Replay(newest);
      }
    } else if newest >= begun {
      var h := HandledAt(moves, lo, taken, begun, |forms|, newest);
      assert Concerns(forms, moves[h], id);
      assert h < at;
    }
  }

  /** The last move about an id is about its newest form, under the new settings, iff that form was neither overtaken by
      the replay of an older one nor evaluated before the clearing. */
  lemma {:induction false} LastIsFreshIff(
      forms: seq<Form>, moves: seq<Move>, lo: nat, taken: nat, begun: nat, id: string, newest: nat)
    requires Complete(forms, moves, lo, taken, begun) && Last(forms, moves, id).Some? && IsNewest(forms, id, newest)
    ensures var last := Last(forms, moves, id).value;
            && (IsFresh(last, newest)
                <==> !Overtaken(forms, moves, taken, begun, newest) && !EvaluatedEarly(moves, newest))
            && (Overtaken(forms, moves, taken, begun, newest) ==> last.Replay? && last.k < taken && last.k != newest)
            && (!Overtaken(forms, moves, taken, begun, newest) && EvaluatedEarly(moves, newest)
                ==> last == Handle(newest, true))
  {
    var at := LastAt(forms, moves, id);
    if moves[at].Handle? {
      LastHandles(forms, moves, lo, taken, begun, id, newest, at);
    } else {
      LastReplays(forms, moves, lo, taken, begun, id, newest, at);
    }
  }

  /** What a configuration shows, for every interleaving. A visible item has the newest form of its id, and is visible
      under the new settings, if and only if that form was neither overtaken by the replay of an older one nor
      evaluated before the clearing; if overtaken, it is an older form, and else the newest as the old settings had it. */
  lemma {:induction false} FreshIff(
      o: Overlay, settings: Settings, gap: bool, forms: seq<Form>, moves: seq<Move>, lo: nat, taken: nat, begun: nat,
      id: string, newest: nat)
    requires !o.closed && Judged(forms) && Complete(forms, moves, lo, taken, begun) && IsNewest(forms, id, newest)
    requires id in Play(BeginConfigure(o, settings, gap), forms, moves).shelf.latest
    ensures Last(forms, moves, id).Some?
    ensures IsFresh(Last(forms, moves, id).value, newest)
            <==> !Overtaken(forms, moves, taken, begun, newest) && !EvaluatedEarly(moves, newest)
    ensures var shown := Play(BeginConfigure(o, settings, gap), forms, moves).shelf.latest[id];
            if Overtaken(forms, moves, taken, begun, newest) then
              exists k :: 0 <= k < taken && k != newest && forms[k].id == id && Shows(forms[k].after, shown)
            else if EvaluatedEarly(moves, newest) then Shows(forms[newest].before, shown)
            else Shows(forms[newest].after, shown)
  {
    LastIsShown(BeginConfigure(o, settings, gap), forms, moves, id);
    LastIsFreshIff(forms, moves, lo, taken, begun, id, newest);
  }

  /** The item is what the verdict found visible, whatever its number. */
  predicate Shows(v: Verdict, shown: Item) {
    v.Visible? && shown == v.item.(sequence := shown.sequence)
  }

  lemma {:induction false} LastIsScheduled(forms: seq<Form>, moves: seq<Move>, lo: nat, taken: nat, begun: nat, id: string)
    requires Complete(forms, moves, lo, taken, begun)
    ensures var last := Last(forms, moves, id);
            last.Some? ==> last.value.k < taken || begun <= last.value.k
  {
    ScheduleBounds(moves, lo, taken, begun, |forms|);
    if Last(forms, moves, id).Some? {
      var at := LastAt(forms, moves, id);
    }
  }

  /** What upstream sent of an id only after the copy was taken and before the set was cleared is lost: the id is not
      shown, however upstream still has it. */
  lemma {:induction false} MissedBetween(
      o: Overlay, settings: Settings, gap: bool, forms: seq<Form>, moves: seq<Move>, lo: nat, taken: nat, begun: nat,
      id: string)
    requires !o.closed && Judged(forms) && Complete(forms, moves, lo, taken, begun)
    requires forall k | 0 <= k < |forms| && forms[k].id == id :: taken <= k < begun
    ensures id !in Play(BeginConfigure(o, settings, gap), forms, moves).shelf.latest
  {
    LastIsScheduled(forms, moves, lo, taken, begun, id);
    if id in Play(BeginConfigure(o, settings, gap), forms, moves).shelf.latest {
      LastIsShown(BeginConfigure(o, settings, gap), forms, moves, id);
    }
  }

  /** Shown and deleted, a message has left the set. */
  lemma {:induction false} ShownAndDeleted(item: Item, reason: RemoveReason) returns (o: Overlay)
    ensures o == Run([OnUpstream(Visible(item)), OnUpstream(Hidden(item.id, reason))])
    ensures !o.closed && o.shelf.latest == map[]
  {
    var shown, hidden := OnUpstream(Visible(item)), OnUpstream(Hidden(item.id, reason));
    assert [shown][..0] == [] && [shown, hidden][..1] == [shown];
    RunKeepsInv([]);
    ShowLiveIsPutThenEvict(UNCONFIGURED, item);
    var one := Run([shown]);
    assert one == ShowLive(UNCONFIGURED, item);
    o := Run([shown, hidden]);
    assert o == HideLive(one, item.id, reason);
  }

  lemma {:induction false} ReplayedIntoNothing(o: Overlay, item: Item)
    requires !o.closed && o.shelf == EMPTY_SHELF
    ensures CurrentItems(Rebuild(o, Visible(item))) == [item.(sequence := 0)] && !Rebuild(o, Visible(item)).closed
  {
    var only := item.(sequence := 0);
    assert Rebuild(o, Visible(item)).shelf.order == [only.id];
    assert Items([only.id], map[only.id := only]) == [only] + Items([], map[only.id := only]);
  }

  /** Both happen. A message is deleted upstream after the copy was taken and before the set is cleared, and the rebuild
      shows it again and announces it to every client. */
  lemma {:induction false} DeletedMessageReturns(item: Item, reason: RemoveReason, settings: Settings)
    ensures var sent, deleted := Visible(item), Hidden(item.id, reason);
            var forms := [Form(item.id, sent, sent), Form(item.id, deleted, deleted)];
            var before := [OnUpstream(sent), OnUpstream(deleted)];
            var r := Run(before + [OnBegin(settings, false), OnRebuild(sent)] + [OnEnd]);
            && Run(before).shelf.latest == map[] && Overtaken(forms, [Replay(0)], 1, 2, 1)
            && CurrentItems(r) == [item.(sequence := 0)] && r.log != []
            && r.log[|r.log| - 1].payload == Reset([item.(sequence := 0)])
  {
    var before := [OnUpstream(Visible(item)), OnUpstream(Hidden(item.id, reason))];
    var begin, replay := OnBegin(settings, false), OnRebuild(Visible(item));
    var o := ShownAndDeleted(item, reason);
    ReplayedIntoNothing(BeginConfigure(o, settings, false), item);
    var rebuilt := before + [begin, replay];
    assert rebuilt[..3] == before + [begin] && (before + [begin])[..2] == before && (rebuilt + [OnEnd])[..4] == rebuilt;
    assert Run(rebuilt) == Rebuild(BeginConfigure(o, settings, false), Visible(item));
    assert [Replay(0)][0].Replay?;
  }

  /** A message is evaluated as visible, then the settings are replaced by ones that hide it, replayed as hidden, and
      after the reset applied as evaluated: it stays shown. */
  lemma {:induction false} HiddenMessageStays(item: Item, reason: RemoveReason, settings: Settings)
    ensures var moves := [Replay(0), Aside(OnEnd), Handle(0, true)];
            Complete([Form(item.id, Visible(item), Hidden(item.id, reason))], moves, 0, 1, 0) && EvaluatedEarly(moves, 0)
    ensures item.id in Run([OnBegin(settings, false), OnRebuild(Hidden(item.id, reason)), OnEnd]
                           + [OnUpstream(Visible(item))]).shelf.latest
  {
    ReplayThenHandle();
    var o := RebuiltWithout(item.id, reason, settings);
    LiveIsShown([OnBegin(settings, false), OnRebuild(Hidden(item.id, reason)), OnEnd], o, item);
  }

  lemma ReplayThenHandle()
    ensures var moves := [Replay(0), Aside(OnEnd), Handle(0, true)]; Scheduled(moves, 0, 1, 0, 1) && EvaluatedEarly(moves, 0)
  {
    var moves := [Replay(0), Aside(OnEnd), Handle(0, true)];
    assert moves[..2] == [Replay(0), Aside(OnEnd)] && moves[..2][..1] == [Replay(0)] && [Replay(0)][..0] == [];
    assert moves[2] == Handle(0, true) && moves[3..] == [];
  }

  lemma {:induction false} LiveIsShown(before: seq<OverlayReplica.Action>, o: Overlay, item: Item)
    requires o == Run(before) && !o.closed && Inv(o)
    ensures item.id in Run(before + [OnUpstream(Visible(item))]).shelf.latest
  {
    ShowLiveIsPutThenEvict(o, item);
    assert (before + [OnUpstream(Visible(item))])[..|before|] == before;
  }

  /** A new overlay configured, and a rebuild that hides one id. */
  lemma {:induction false} RebuiltWithout(id: string, reason: RemoveReason, settings: Settings) returns (o: Overlay)
    ensures o == Run([OnBegin(settings, false), OnRebuild(Hidden(id, reason)), OnEnd])
    ensures !o.closed && Inv(o)
  {
    var begin, replay := OnBegin(settings, false), OnRebuild(Hidden(id, reason));
    var before := [begin, replay, OnEnd];
    assert before[..2] == [begin, replay] && [begin, replay][..1] == [begin] && [begin][..0] == [];
    RunKeepsInv(before);
    o := Run(before);
    assert Run([begin]) == BeginConfigure(UNCONFIGURED, settings, false);
    assert Run([begin, replay]) == Rebuild(Run([begin]), Hidden(id, reason));
    assert o == EndConfigure(Run([begin, replay]));
  }
}
