# Streaming Tree runtime engines: a Dafny model

Streaming Tree's server keeps several engines purely in memory. This project models them in Dafny and proves
what each promises over every run. Each engine comes in two forms:

- a **specification**: a datatype for the state and a function for every step, about which the theorems are
  proved by induction over arbitrary sequences of steps (`HubSpec`, `AlertSpec`, `OverlaySpec`, `AudioSpec`, …);
- a **class** with the source's own fields and loops (`EventBus`, `AlertRuntime`, `OverlayRuntime`, `AudioRuntime`,
  `ExpiryQueue`, …). Each of its methods is proved to take the state exactly where the specification says, so the
  theorems hold of the objects.

What a specification does is pinned down a second time, in other words: in the fields of the alerts, items and
messages concerned, in what waits and what is shown before and after, and in what happened in the run
(`AlertPreemption`, `AlertDuration`, `AudioArbitration`, `SchedulerConditions`, `TemplateText`, `OverlayVisible`, …).

| engine | files |
|---|---|
| event bus: ring, dedupe set, publish / subscribe as interleaved steps | `Rings`, `Dedupe`, `HubSpec`, `HubOnce`, `HubOrder`, `HubDepartures`, `EventDrops`, `EventBus` |
| alert playback: queue, grouping, preemption, pause, skip, replay, disable, public revision log | `AlertModel`, `AlertQueueSpec`, `AlertTopK`, `AlertQueue`, `AlertScreen`, `AlertStock`, `AlertSpec`, `AlertLedger`, `AlertGroups`, `AlertGenuine`, `AlertOrder`, `AlertPreemption`, `AlertEntry`, `AlertTurns`, `AlertDuration`, `AlertIds`, `AlertControls`, `AlertSeen`, `AlertDisabled`, `AlertAudioLink`, `AlertRuntime` |
| chat overlay: visible set, expiry heap, revision log | `HeapSpec`, `ExpiryQueue`, `OverlaySpec`, `OverlayShelf`, `OverlayReplica`, `OverlayVisible`, `OverlayRace`, `OverlayRuntime` |
| audio runtime: queue, one current item, late syntheses, renderer lease, chains | `AudioSpec`, `AudioTrace`, `AudioLaws`, `AudioResults`, `AudioOutcomes`, `AudioArbitration`, `AudioWaiting`, `AudioTold`, `AudioFailures`, `AudioRuntime` |
| alert profiles and the audio runtime they share, interleaved | `AlertAudioJoint` |
| template language | `Templates`, `TemplateText` |
| sliding-window limits: login attempts, scheduled sends | `SlidingWindow`, `LoginLimiter`, `LoginRuns`, `Scheduler`, `SchedulerConditions` |
| shared | `Common`, `Sorting` |

Times are integers (nanoseconds) read from a clock that does not go back; ids come from a supply; what filtering,
rendering, synthesis, the network and the random source answer is an arbitrary input of the step that asks.

## Where the code and its promises part

Each of these is a theorem about the code as it is: the exact condition under which the promise holds and, where it
takes a history to fail, a run from the initial state in which it does. Paths here are below `apps/server/internal/`.

- *Replay before live.* For a positive resume point, Subscribe is documented to deliver the replay before newly
  published events (`engagement/bus.go:181-183`). The replay is sent after the lock is released, so an overlapping
  publish can come first (`HubOrder.OverlapCanReorder`). A run keeps a subscriber in order iff every entry put into its
  channel found nothing older in flight to it (`HubOrder.RunInOrderIff`); when calls do not overlap that is so
  (`HubOrder.SerialRunInOrder`).
- *Resuming from 0* never reports a gap, and misses something iff the log has outgrown the ring
  (`Rings.GapFromZero`).
- *Re-enabling begins empty* (`alerts/playback.go:190-193`). It does iff no test alert with room for it and no
  replay came since the last clear (`AlertDisabled.BeginsEmptyIff`). A replay can be asked of a disabled profile
  (`alerts/manager.go:604-610`), and is then shown after enabling (`AlertDisabled.ReenablingNeedNotBeginEmpty`). A test
  alert reaches a disabled profile only if it is disabled between the check and the enqueueing
  (`alerts/manager.go:683-685`).
- *Audio ends with its alert.* Disabling a profile, and deleting it (`alerts/manager.go:350-365`), leave the audio of the
  alert on screen running, as does an operation that starts an alert after the deletion, and no other operation does
  (`AlertAudioLink.OrphanedIff`, `AlertAudioLink.DisablingLeavesAudioRunning`,
  `AlertAudioLink.DeletingLeavesAudioRunning`). In the manager the sound goes on, and the speech linked behind it
  (`AlertAudioJoint.DisabledAndHeard`, `AlertAudioJoint.DeletedAndHeard`). Without that, whatever alert audio the manager
  holds belongs to an alert on screen or is about to be cancelled (`AlertAudioJoint.HeardOnlyOnScreen`).
- *A rebuild shows what upstream retains* (`chatoverlay/projection.go:215-222`). Upstream is copied before the set is
  cleared and the copy replayed, and a live item is evaluated before the lock is taken. A visible item is in its newest
  form, as the new settings have it, iff that form was neither overtaken by the replay of an older one nor evaluated
  before the clearing (`OverlayRace.FreshIff`): a message deleted meanwhile is shown again
  (`OverlayRace.DeletedMessageReturns`), one that the new settings hide stays shown (`OverlayRace.HiddenMessageStays`),
  and one that first arrived before the clearing is lost (`OverlayRace.MissedBetween`). What is shown is what was found
  visible last since the clearing (`OverlayRace.ShownIff`).
- *A ready item has its audio.* After a renderer is lost during synthesis and another connects, the item counts as
  ready, and can be acknowledged as playing, without audio (`AudioResults.ReadyWithoutAudioIff`,
  `AudioFailures.PlayingWithoutAudioHappens`); the late audio then takes it back to ready
  (`AudioFailures.LateAudioUndoesPlaying`). The acknowledging renderer has to know the id, as the caller of a spoken
  test does: the renderer stream does not announce an item before it has audio (`httpapi/audio.go:607-617`).
- *Skipping cancels an in-flight synthesis.* Any discarded late result clears the cancel handle of the newer
  synthesis (`AudioResults.CanCallOffIff`, `AudioFailures.OlderResultDropsTheHandle`).
- *Never requested.* The answer is documented for audio never enqueued or whose outcome was already read
  (`audio/manager.go:1041-1046`). Cancelling it, or clearing the queue in which it waits, gives the same answer
  (`AudioOutcomes.NeverRequestedIff`, `AudioFailures.ClearedIsNeverRequested`).
- *At most five failures of a client, thirty overall, in five minutes* (`auth/ratelimit.go:8-16`). This holds iff every
  failure, when recorded, found fewer than the limit held (`LoginRuns.LimitHoldsIff`). With up to m attempts under way
  at once the limit is exceeded by at most m - 1 (`LoginRuns.OverlapExceedsByLessThan`), which is reached
  (`LoginRuns.OverlapReachesThat`); one attempt at a time keeps it (`LoginRuns.OneAtATimeKeepsTheLimit`).
- *At most so many sends per hour.* The limit counts a send by the time its attempt started
  (`chatautomation/scheduler.go:312`), and holds so (`Scheduler.RollingHourByStart`). A message that waits is sent
  later: by the time sent, the limit holds iff every message, when it went out, found fewer sent within the hour
  (`Scheduler.SendLimitHoldsIff`); at most it is exceeded by one (`Scheduler.RollingHourBySend`), which is reached
  (`Scheduler.OneMoreIsReached`).

Remarks, not broken promises:

- Grouping checks only the joining alert (`AlertGroups.SyntheticFounderAbsorbs`). As alerts are built, that is enough:
  only genuine alerts ever group (`AlertGenuine.OnlyGenuineAlertsGroup`).
- `Publish` records the dedupe key before it draws the event id, so that a failed draw would make the event a duplicate of
  nothing (`EventBus.RefusedThenDuplicate`). Draws do not fail, and then exactly redelivered events are dropped
  (`EventDrops.OnlyRedeliveredAreDropped`); what holds whatever draws succeed is `EventDrops.DroppedIff`.
- The sum of two quantities saturates above only; far below zero, where no quantity is, it would wrap around
  (`AlertModel.SafeAddIsExactIff`).

## Model

| member | source | states |
|---|---|---|
| Rings.Ring.Push | apps/server/internal/engagement/buffer.go:20-28 | appends to everything published; the slots then hold exactly the newest entries, as many as fit |
| Rings.Ring.OldestSequence | apps/server/internal/engagement/buffer.go:37-42 | the sequence of the oldest retained entry, 0 when nothing was published |
| Rings.Ring.NewestSequence | apps/server/internal/engagement/buffer.go:44-50 | the sequence of the last published entry, 0 when there is none |
| Rings.Ring.After | apps/server/internal/chatoverlay/buffer.go:49-60 | every retained entry above the resume point, in ascending order, and no other |
| Rings.Ring.Resume | apps/server/internal/chatoverlay/projection.go:451-483 | the replay is the retained part above the resume point, and for every point but 0 the gap flag is raised iff something above it is missing |
| Rings.PushKeepsHeld | apps/server/internal/alerts/projection.go:142-150 | (a helper) writing behind the last slot, and stepping over the oldest when full, leaves the circular buffer holding the newest part of the log in order |
| Rings.NewerIsSuffix | apps/server/internal/engagement/buffer.go:52-63 | a replay from a point is exactly the retained suffix of the log above that point |
| Rings.GapIsExact | apps/server/internal/engagement/bus.go:237-249 | for every resume point but 0 the gap flag is raised iff something published above it is missing from the replay |
| Rings.GapFromZero | apps/server/internal/alerts/projection.go:329-332 | from 0 no gap is ever reported, and the replay is incomplete iff more was published than is retained |
| Rings.GaplessReplay | apps/server/internal/chatoverlay/projection.go:471-483 | without a gap the replay is everything published above the resume point |
| Dedupe.DedupeSet.Seen | apps/server/internal/engagement/dedupe.go:43-55 | answers true iff an acceptance of the key is younger than ttl and among the last capacity acceptances; otherwise the key is accepted now |
| Dedupe.DedupeSet.EvictExpired | apps/server/internal/engagement/dedupe.go:57-66 | drops from the front everything at least ttl old, and forgets nothing that is still remembered |
| Dedupe.DedupeSet.Record | apps/server/internal/engagement/dedupe.go:68-76 | appends an acceptance and keeps order, index and capacity in agreement |
| Dedupe.HeldIffRemembered | apps/server/internal/engagement/dedupe.go:43-52 | the index holds a key iff the history of acceptances says it is remembered |
| Dedupe.NeverAcceptedEarly | apps/server/internal/engagement/dedupe.go:8-16 | over any calls, two acceptances of a key are ttl apart or more than capacity acceptances lie between them |
| Dedupe.EveryCallAnswered | apps/server/internal/engagement/dedupe.go:40-55 | every call either records its key or finds it remembered; nothing is forgotten by the history |
| HubOnce.ExactlyOnce | apps/server/internal/engagement/bus.go:136-225 | under every interleaving of commits, registrations, deliveries, reads and departures, each owed event is received, buffered or in flight to a registered subscriber exactly once, and nothing else is |
| HubOnce.RunKeepsInv | apps/server/internal/engagement/bus.go:127-225 | every run keeps the log numbered and every registered subscriber fully accounted for |
| HubOnce.KeepingUpIsNeverDropped | apps/server/internal/engagement/bus.go:164-176 | a subscriber with no more unread owed events than its channel holds is never dropped as slow |
| HubOrder.DeliveryKeepsOrderIff | apps/server/internal/engagement/bus.go:167-176 | a delivery keeps a subscriber in order iff nothing older is still in flight to it |
| HubOrder.RunInOrderIff | apps/server/internal/engagement/bus.go:167-225 | over every run: a subscriber still registered has been handed an initial part of what it is owed, in order and without a hole, iff every entry put into its channel found nothing older in flight to it |
| HubOrder.SerialRunInOrder | apps/server/internal/engagement/bus.go:181-225 | when calls do not overlap every subscriber has been handed an initial part of what it is owed, in order and without a hole |
| HubOrder.OverlapCanReorder | apps/server/internal/engagement/bus.go:181-222 | a subscriber that resumes after 1 of 2 events can be handed an event published meanwhile before the replayed one, with any ring of two or more: a run from the empty hub |
| EventBus.Bus.CommitEvent | apps/server/internal/engagement/bus.go:142-166 | the locked part of Publish: refused when closed, a duplicate iff remembered, no event without an id although the key is then already recorded, else one commit step with a snapshot of all subscribers |
| EventBus.Bus.Publish | apps/server/internal/engagement/bus.go:136-179 | validates, commits, and delivers to every subscriber of the snapshot: one commit step and one delivery step each, in a row; deliveries other calls still owe are untouched; refused iff invalid or closed or, a new event, without an id, and a duplicate iff remembered |
| EventBus.Bus.DeliverNext | apps/server/internal/engagement/bus.go:168-176 | one delivery: buffered if there is room, the subscriber dropped if there is none, nothing if it is gone |
| EventBus.Bus.RegisterSub | apps/server/internal/engagement/bus.go:196-214 | the locked part of Subscribe: one register step, whose replay and gap flag come from the retained entries |
| EventBus.Bus.Subscribe | apps/server/internal/engagement/bus.go:195-225 | refused iff closed, else a register step followed by one delivery step per replayed event; deliveries other calls still owe are untouched |
| EventBus.Bus.EventsAfter | apps/server/internal/engagement/bus.go:255-265 | a prefix of the replay, as long as the limit allows, and an exact gap flag |
| EventBus.Bus.Read | apps/server/internal/engagement/subscription.go:36-40 | takes the oldest buffered event |
| EventBus.Bus.Cancel | apps/server/internal/engagement/bus.go:281-291 | one departure step; what is in flight to others is untouched |
| EventBus.Bus.ShutdownBus | apps/server/internal/engagement/bus.go:296-313 | closes the bus and removes every subscriber |
| EventBus.Bus.Reachable | apps/server/internal/engagement/bus.go:136-313 | what is proved of all runs holds of the state of every bus |
| EventBus.Bus.DropsIff | apps/server/internal/engagement/bus.go:146-149 | after any publishes: an event is dropped iff an event with its key was published less than ttl ago and is among the last accepted keys, or, never both, a publish of the key could not draw its id so recently; if every id is drawn, iff an event of the log with its key is among its last and younger than ttl |
| EventDrops.OnlyRedeliveredAreDropped | apps/server/internal/engagement/bus.go:127-149 | over every run of publishes that draw their ids: dropped iff an event with the key is among the last published, as many as the bound, and was published less than ttl ago |
| EventDrops.DroppedIff | apps/server/internal/engagement/bus.go:146-156 | over every run of publishes, whatever draws succeed: dropped iff a recent event with the key, or, never both, a recent publish of it whose draw failed; the events are exactly the accepted keys whose draw succeeded |
| EventBus.RefusedThenDuplicate | apps/server/internal/engagement/bus.go:146-156 | (a remark on the order of the two steps; drawing an id does not fail) a failed draw would make the same event a duplicate of nothing |
| HubDepartures.GoneForGood | apps/server/internal/engagement/bus.go:281-291 | over every run, whoever was registered and is gone is never registered again under that number |
| HubDepartures.ClosedForGood | apps/server/internal/engagement/bus.go:296-313 | from a shutdown on, whatever follows, nobody is registered or numbered and nothing is published |
| EventBus.FirstEventIsBuffered | apps/server/internal/engagement/bus.go:190-233 | on a new bus a subscriber is still registered after the first event, and has it buffered |
| Templates.ParseTemplate | apps/server/internal/alerts/templates.go:88-137 | the scanner returns what the one-step-at-a-time reading of the text gives, including each of its errors |
| Templates.PrintThenParse | apps/server/internal/alerts/templates.go:78-137 | parsing the print of any normal segment list gives that list back |
| Templates.ParseThenPrint | apps/server/internal/chatautomation/placeholders.go:38-92 | every accepted text is the print of its segments, and they are normal |
| Templates.AcceptsExactlyThePrintedTexts | apps/server/internal/chatautomation/placeholders.go:38-92 | a text is accepted iff some normal segment list prints to it |
| Templates.ReadingIsUnique | apps/server/internal/alerts/templates.go:78-137 | a text has at most one normal reading |
| Templates.Render | apps/server/internal/alerts/templates.go:263-298 | writes the value of every placeholder in its place, as TemplateText.ValueMayReplaceItsName says of the text, reports resolved and unresolved names once each, and flags texts over the length limit |
| Templates.ReportsSplitTheNames | apps/server/internal/alerts/templates.go:263-298 | a name is reported resolved, or unresolved, iff it is a placeholder of the template that resolves, or does not; no name is reported twice |
| Templates.ResolvableRendersCompletely | apps/server/internal/chatautomation/placeholders.go:145-180 | when every placeholder resolves nothing is reported missing |
| Templates.EscapedTextRendersAsItself | apps/server/internal/alerts/templates.go:78-137 | any text, escaped, renders as itself in every context |
| TemplateText.PlaceholderRendersItsValue | apps/server/internal/alerts/templates.go:263-298 | one name in braces renders to exactly its value and is reported found, or to nothing and is reported missing |
| TemplateText.RenderingJoins | apps/server/internal/alerts/templates.go:263-298 | two accepted texts one behind the other are accepted and render to their two texts one behind the other |
| TemplateText.ValueMayReplaceItsName | apps/server/internal/alerts/templates.go:263-298 | replacing a placeholder anywhere by its value, escaped, leaves the rendered text unchanged |
| TemplateText.RejectedFor | apps/server/internal/alerts/templates.go:88-137 | behind any accepted text: an open brace not closed, an empty pair and a single closing brace are each rejected with their own error |
| Sorting.InsertionSort | apps/server/internal/alerts/playback.go:316-330 | the in-place insertion sort of an array leaves the sorted sequence |
| Sorting.SortAscends | apps/server/internal/alerts/queue.go:140-164 | under a strict order the result ascends |
| Sorting.SortIsPermutation | apps/server/internal/alerts/queue.go:140-164 | sorting neither loses nor duplicates an element |
| Sorting.SortIgnoresInputOrder | apps/server/internal/alerts/playback.go:311-330 | under a strict order two lists of the same elements sort to the same list |
| AlertModel.MergeRepresents | apps/server/internal/alerts/grouping.go:81-96 | merging an eligible candidate with the same key inside the window keeps the aggregate exact: founder fields kept, count, saturated sum of the quantities present, text |
| AlertModel.SafeAddIsExactIff | apps/server/internal/alerts/grouping.go:68-73 | (a helper) on 64-bit operands the sum saturates exactly iff it does not underflow |
| AlertQueue.Queue.BestIndex | apps/server/internal/alerts/queue.go:41-53 | the scan returns the index of the pick by play order, or -1 when empty |
| AlertQueue.Queue.WorstIndex | apps/server/internal/alerts/queue.go:57-69 | the scan returns the index of the pick by eviction order, or -1 when empty |
| AlertQueue.Queue.TakeAt | apps/server/internal/alerts/queue.go:71-75 | removes one item and keeps the order of the others |
| AlertQueue.Queue.Enqueue | apps/server/internal/alerts/queue.go:87-101 | admits, evicts or rejects exactly as the offer rule says |
| AlertQueue.Queue.PopNextEligible | apps/server/internal/alerts/queue.go:109-122 | discards over-age items on the way and counts them, and hands out the first fresh one in play order |
| AlertQueue.Queue.Clear | apps/server/internal/alerts/queue.go:127-134 | returns everything and leaves nothing |
| AlertQueue.Queue.List | apps/server/internal/alerts/queue.go:140-164 | the play order of the queue, cut to the limit; the queue is unchanged |
| AlertQueue.Queue.FindGroupable | apps/server/internal/alerts/queue.go:171-185 | the first queued item with the key that still has room and an open window, or -1 |
| AlertQueue.Queue.MergeAt | apps/server/internal/alerts/playback.go:579-595 | replaces one item by its merge with the candidate and leaves its place and ticket |
| AlertQueueSpec.NothingBeatsThePick | apps/server/internal/alerts/queue.go:36-69 | no item comes before the one the scan picks, in play order or eviction order |
| AlertQueueSpec.SortIsPlayOrder | apps/server/internal/alerts/queue.go:136-164 | sorting by play order gives the order in which repeated picks remove the items |
| AlertQueueSpec.PopFollowsPlayOrder | apps/server/internal/alerts/queue.go:103-122 | a pop takes a prefix of the play order away and hands out the next item |
| AlertQueueSpec.DrainFollowsPlayOrder | apps/server/internal/alerts/queue.go:103-164 | popping at one time until empty plays exactly the listed order without its over-age items, and expires exactly those |
| AlertTopK.QueueKeepsTheLargest | apps/server/internal/alerts/queue.go:57-101 | for every sequence of offers to an empty queue of capacity k the retained priorities are, as a multiset, the k largest offered |
| AlertTopK.BestSelectionIsUnique | apps/server/internal/alerts/queue.go:77-101 | there is only one multiset of k largest priorities |
| AlertTopK.OfferKeepsBest | apps/server/internal/alerts/queue.go:87-101 | one offer keeps the retained priorities a best selection of those offered so far |
| AlertTurns.TheNextIsShown | apps/server/internal/alerts/playback.go:364-418 | over every run, when the screen is free or becomes free: the next alert shown is the fresh queued one of highest priority, the oldest among equals, and besides it only over-age ones ahead of it leave the queue |
| AlertTurns.ReplayGoesFirst | apps/server/internal/alerts/playback.go:405-418 | a replay asked for comes before anything queued, and leaves the queue alone |
| AlertTurns.NothingFreshNothingShown | apps/server/internal/alerts/queue.go:103-122 | with every queued alert over age the screen stays free and the queue is empty |
| AlertEntry.MatchedGetsIn | apps/server/internal/alerts/playback.go:290-358 | a matched alert that does not take the screen joins the first queued alert of the same rule, source, kind, actor and, for redemptions, reward that has room and an open window; else it is queued last, or takes the place of the least important one, the oldest among equals, if it is strictly more important, or is refused |
| AlertEntry.TestGetsIn | apps/server/internal/alerts/playback.go:604-612 | a test alert that does not take the screen never joins another: it is queued, takes the place of a strictly less important one, or is refused |
| AlertEntry.EveryCandidateArrives | apps/server/internal/alerts/playback.go:290-309 | a disabled profile takes no matched alert; an enabled one takes every candidate of a turn, each once |
| AlertEntry.JoinIs | apps/server/internal/alerts/grouping.go:81-96 | joining adds one member, adds up the quantities of gift batches and bits to at most the largest 64-bit integer, keeps that of redemptions, re-renders the text, and keeps ticket and place |
| AlertIds.EveryAlertHasItsOwnId | apps/server/internal/alerts/playback.go:337-358 | over every run, while the id supply neither fails nor repeats: every alert taken in has an id drawn for it, no two queued ones the same, and none that of the alert on screen |
| AlertScreen.GaplessResumeCatchesUp | apps/server/internal/alerts/projection.go:296-341 | a client in step at s > 0 that resumes from s without a gap displays what the server shows |
| AlertLedger.LogIsReplica | apps/server/internal/alerts/playback.go:420-505 | over every run, until shutdown, folding the whole log gives the current alert in public form and the pause flag; shows and hides alternate and each hide names the shown alert |
| AlertLedger.LedgerBalances | apps/server/internal/alerts/playback.go:267-379 | over every run: enqueued = queued + evicted + expired + cleared + popped, dropped = rejected + evicted, popped + replayed = played + skipped + hidden by disabling + current, offered = enqueued + rejected + grouped + preempted; every ticket is queued or gone exactly once |
| AlertLedger.AdmittedAreAccountedFor | apps/server/internal/alerts/queue.go:87-134 | every admitted alert is queued or left in exactly one of four ways |
| AlertLedger.DisabledShowsNothing | apps/server/internal/alerts/playback.go:264-275 | a disabled profile has no current alert, over every run |
| AlertDuration.ShownForItsDuration | apps/server/internal/alerts/playback.go:364-437 | over every run: no poll before the time an alert was put up plus its duration in milliseconds changes anything; a poll from then on ends it, unless its audio still runs and that time is over by less than fifteen seconds |
| AlertControls.AsLastAsked | apps/server/internal/alerts/playback.go:178-196 | over every run the pause flag and the configuration are what was last asked for; no alert, poll or other command changes them |
| AlertControls.DisablingIsNotRemembered | apps/server/internal/alerts/playback.go:178-196 | turning a profile off clears queue, replay and screen and does not make the hidden alert replayable; any other change of configuration touches nothing shown or queued |
| AlertControls.ViewersAreToldWhy | apps/server/internal/alerts/playback.go:462-489 | over every run, until the stream is closed, viewers were told of exactly the alerts counted as played, skipped, preempted or hidden by disabling, each under that reason |
| AlertControls.NothingAfterTheEnd | apps/server/internal/alerts/projection.go:372-389 | once the stream is closed the public log stays as it is, whatever follows |
| AlertSeen.ViewersSee | apps/server/internal/alerts/playback.go:42-71 | over every run a viewer who followed the log sees exactly the id, kind, text, count, quantity and flags of the alert on screen |
| AlertSeen.GroupShows | apps/server/internal/alerts/grouping.go:106-124 | in the text of a group each placeholder stands for the actor, the platform, the kind, or the quantity or count in decimal digits, and any other name for nothing |
| AlertSeen.GroupTextJoins | apps/server/internal/alerts/grouping.go:106-124 | a template put together from two accepted ones shows their texts for the group one behind the other |
| AlertSeen.HeardAsItsRuleSays | apps/server/internal/alerts/playback.go:420-460 | over every run, what the audio manager was last asked to play is the sound and the speech that the rule of the alert on screen asks for, whenever it has audio |
| AlertGroups.GroupsAreFaithful | apps/server/internal/alerts/playback.go:579-595 | over every run of properly built alerts each queued alert represents exactly its members: same key, inside the founder's window, at most the maximum, saturated quantity; joiners, plural groups and synthetic alerts are counted exactly |
| AlertGenuine.OnlyGenuineAlertsGroup | apps/server/internal/alerts/grouping.go:22-41 | over every run of alerts built as the matcher and the test-alert builder build them: a group that ever had a second member consists only of live, named, groupable alerts with one key |
| AlertGenuine.StepStaysGenuine | apps/server/internal/alerts/matcher.go:170-200 | every operation keeps that of all groups ever formed, together with the exact aggregates |
| AlertGroups.AllEligibleIffFounderIs | apps/server/internal/alerts/grouping.go:24-41 | (a helper) all members of a group are genuine iff the founder is |
| AlertGroups.SyntheticFounderAbsorbs | apps/server/internal/alerts/grouping.go:24-41 | (a remark on the guard alone) only the joiner is checked; no alert built as the source builds them reaches this case |
| AlertOrder.HandlingIsStrict | apps/server/internal/alerts/playback.go:311-330 | priority descending then rule id ascending is a strict order on candidates of distinct rules |
| AlertOrder.MatchOrderIsIrrelevant | apps/server/internal/alerts/playback.go:290-330 | the state reached does not depend on the order in which the candidates were listed |
| AlertOrder.OnePreemptionByTheFirst | apps/server/internal/alerts/playback.go:297-309 | a turn preempts iff some candidate can, exactly once, by the first of those that can; otherwise the screen is untouched |
| AlertOrder.PausedShowsNothingNew | apps/server/internal/alerts/playback.go:364-379 | while paused no operation puts an alert on screen, closed stream or not: what is on screen afterwards was there before |
| AlertPreemption.ScreenIsTakenIff | apps/server/internal/alerts/playback.go:536-571 | whatever arrives, matched or test: the screen changes iff, not paused, some arriving alert has strictly higher priority than the one shown, asks to interrupt, is let to, is no replay, and is not synthetic over live; and then one such alert is shown |
| AlertPreemption.ReplacedOnlyByHigher | apps/server/internal/alerts/playback.go:536-571 | an alert replaced by an arrival allowed interruption, and was replaced by one of strictly higher priority that asked for it |
| AlertPreemption.TheFirstThatMayTakesIt | apps/server/internal/alerts/playback.go:290-335 | of several that may, the one of highest priority takes the screen, of least rule id among equals |
| AlertPreemption.LexLessIff | apps/server/internal/alerts/playback.go:316-335 | (a helper) rule ids are compared byte by byte: the first difference decides, or the shorter one comes first |
| AlertDisabled.BeginsEmptyIff | apps/server/internal/alerts/playback.go:188-195 | from disabling to enabling again, over every run between: the profile begins empty iff no test alert with room for it and no replay came since the last clear |
| AlertDisabled.DisabledStaysEmptyIff | apps/server/internal/alerts/playback.go:604-643 | (a helper) the same for one operation of a disabled profile |
| AlertDisabled.ReenablingNeedNotBeginEmpty | apps/server/internal/alerts/playback.go:620-630 | a run: an alert is shown and skipped, the profile disabled, a replay asked for, the profile enabled; the next tick shows the replay |
| AlertAudioLink.OrphanedIff | apps/server/internal/alerts/playback.go:267-275 | an operation leaves the live audio other than that of the alert on screen iff it disables the profile or closes its stream while audio is live, or starts audio on a stream already closed |
| AlertAudioLink.AudioEndsWithItsAlert | apps/server/internal/alerts/playback.go:462-489 | over every run without that, the live audio is exactly that of the alert on screen, and there is none on a closed stream |
| AlertAudioLink.DisablingLeavesAudioRunning | apps/server/internal/alerts/playback.go:267-275 | a run from a new profile: an alert with audio is shown, the profile disabled, its audio is live with nothing on screen |
| AlertAudioLink.DeletingLeavesAudioRunning | apps/server/internal/alerts/manager.go:350-365 | a run from a new profile: an alert with audio is shown, the profile deleted, its audio is live with the stream closed |
| AlertAudioJoint.HeardOnlyOnScreen | apps/server/internal/alerts/playback.go:386-489 | profiles created, operated, polled and deleted in any number and their one audio manager, however their steps interleave, without such a move: whatever alert audio the manager holds belongs to an alert some profile has on screen on an open stream, or the call that cancels it is still to be made |
| AlertAudioJoint.MoveIsTidyIff | apps/server/internal/alerts/manager.go:350-365 | a move keeps every profile's live audio on its screen iff it is none of these: disabling or deleting a profile with live audio, starting audio after deletion |
| AlertAudioJoint.RunKeepsInv | apps/server/internal/audio/manager.go:961-1072 | over every such run, disabling and deleting included, the manager knows only alert audio that some profile started and has not cancelled |
| AlertAudioJoint.HeldIffComing | apps/server/internal/alerts/playback.go:364-403 | a poll past an alert's deadline changes nothing iff its audio is linked, fewer than fifteen seconds have passed since, and the manager has that audio current and not stuck without a renderer, or waiting its turn; else the alert ends |
| AlertAudioJoint.AskingForgetsTheOutcome | apps/server/internal/alerts/playback.go:389-403 | a poll asks the manager only between the deadline and the bound on holding, and asking after the audio is over makes the manager forget its outcome; any other poll leaves the manager as it is |
| AlertAudioJoint.DisabledAndHeard | apps/server/internal/alerts/playback.go:267-275 | a run of one profile and the manager: disabled while its alert's sound is current, the sound goes on with nothing on screen |
| AlertAudioJoint.DeletedAndHeard | apps/server/internal/alerts/manager.go:350-365 | a run of one profile and the manager: deleted while its alert's sound is current, and the speech linked behind it is promoted after it with the stream closed |
| AlertRuntime.Projection.Publish | apps/server/internal/alerts/projection.go:243-294 | numbers and retains one revision, or does nothing once closed |
| AlertRuntime.Projection.Subscribe | apps/server/internal/alerts/projection.go:300-341 | refused iff closed; the replay is the retained part above the resume point and the gap flag is exact |
| AlertRuntime.ProfileRuntime.StartCurrent | apps/server/internal/alerts/playback.go:420-437 | an alert becomes current, is shown, and its audio is requested; for how long it is shown is AlertDuration.ShownForItsDuration |
| AlertRuntime.ProfileRuntime.CompleteCurrent | apps/server/internal/alerts/playback.go:462-489 | the current alert ends: counted, remembered for replay, hidden, its audio cancelled |
| AlertRuntime.ProfileRuntime.PromoteNext | apps/server/internal/alerts/playback.go:405-418 | a pending replay first, else the next fresh alert of the queue, expired ones counted |
| AlertRuntime.ProfileRuntime.ShouldHoldForAudio | apps/server/internal/alerts/playback.go:389-403 | whether an alert past its deadline is held for its audio; past the bound it is not, and its audio is cancelled |
| AlertRuntime.ProfileRuntime.TickOnce | apps/server/internal/alerts/playback.go:364-379 | one tick is the specification's tick |
| AlertRuntime.ProfileRuntime.SetPausedTo | apps/server/internal/alerts/playback.go:493-505 | pausing and resuming set the flag and announce it |
| AlertRuntime.ProfileRuntime.Skip | apps/server/internal/alerts/playback.go:510-521 | skipping ends the current alert, if any, and promotes the next unless paused |
| AlertRuntime.ProfileRuntime.CanPreemptNow | apps/server/internal/alerts/playback.go:536-553 | whether a candidate may replace the current alert at once; what that means in the fields of the two is AlertPreemption.ScreenIsTakenIff |
| AlertRuntime.ProfileRuntime.PreemptCurrent | apps/server/internal/alerts/playback.go:564-571 | the current alert is ended and the candidate started in its place |
| AlertRuntime.ProfileRuntime.TryGroup | apps/server/internal/alerts/playback.go:579-595 | an eligible candidate joins the queued group found for it, if any |
| AlertRuntime.ProfileRuntime.EnqueueOne | apps/server/internal/alerts/playback.go:337-358 | offers one alert to the queue under a fresh id, if one can be drawn, and counts the outcome |
| AlertRuntime.ProfileRuntime.EnqueueMatched | apps/server/internal/alerts/playback.go:290-309 | one turn: sorted candidates, at most one preemption, then grouping, then the queue |
| AlertRuntime.ProfileRuntime.EnqueueTest | apps/server/internal/alerts/playback.go:604-612 | a test alert preempts or is queued, never grouped, also when disabled |
| AlertRuntime.ProfileRuntime.Replay | apps/server/internal/alerts/playback.go:620-630 | the last completed alert is put up for replay, also when disabled, or refused when there is none |
| AlertRuntime.ProfileRuntime.Clear | apps/server/internal/alerts/playback.go:634-643 | empties the queue and drops a pending replay, and counts both |
| AlertRuntime.ProfileRuntime.DisableNow | apps/server/internal/alerts/playback.go:267-275 | clears queue and replay and hides the current alert, leaving its audio |
| AlertRuntime.ProfileRuntime.Configure | apps/server/internal/alerts/playback.go:178-196 | new limits apply from now on, nothing queued is evicted; turning the profile off disables it |
| AlertRuntime.ProfileRuntime.ShutDown | apps/server/internal/alerts/playback.go:690-692 | closes the public stream; the state is otherwise unchanged |
| HeapSpec.UpRestores | apps/server/internal/chatoverlay/expiry.go:20-38 | raising an entry that may be smaller than its parent restores the heap |
| HeapSpec.DownRestores | apps/server/internal/chatoverlay/expiry.go:20-38 | sinking an entry that may be larger than its children restores the heap |
| HeapSpec.FixedIsHeap | apps/server/internal/chatoverlay/expiry.go:55-60 | after any change of one entry's time, sinking it or else raising it restores the heap |
| HeapSpec.RemovalIsHeap | apps/server/internal/chatoverlay/expiry.go:69-76 | moving an entry to the end and repairing the rest leaves a heap before it |
| HeapSpec.RootIsLeast | apps/server/internal/chatoverlay/expiry.go:78-84 | the root of a heap is a minimum |
| ExpiryQueue.Queue.Swap | apps/server/internal/chatoverlay/expiry.go:24-24 | swaps two entries and keeps every entry's own index right |
| ExpiryQueue.Queue.SiftUp | apps/server/internal/chatoverlay/expiry.go:20-29 | the entries end where the value-level algorithm puts them, every index right |
| ExpiryQueue.Queue.SiftDown | apps/server/internal/chatoverlay/expiry.go:20-38 | the entries end where the value-level algorithm puts them, every index right; reports whether the entry moved |
| ExpiryQueue.Queue.HeapPush | apps/server/internal/chatoverlay/expiry.go:25-29 | adds one entry and keeps heap order and indexes |
| ExpiryQueue.Queue.HeapRemove | apps/server/internal/chatoverlay/expiry.go:69-76 | removes exactly the entry at the index and keeps heap order and indexes |
| ExpiryQueue.Queue.Schedule | apps/server/internal/chatoverlay/expiry.go:54-64 | the queue, seen as a map from id to time, has the id set to the time |
| ExpiryQueue.Queue.Cancel | apps/server/internal/chatoverlay/expiry.go:66-76 | the map loses the id, if it was there |
| ExpiryQueue.Queue.PeekEarliest | apps/server/internal/chatoverlay/expiry.go:78-84 | an id whose time is a minimum of the map, or none iff the map is empty |
| ExpiryQueue.Queue.PopDue | apps/server/internal/chatoverlay/expiry.go:86-96 | returns what is due by now, earliest first, and leaves the map without it |
| ExpiryQueue.DueByIsExact | apps/server/internal/chatoverlay/expiry.go:86-96 | what is popped is exactly the ids due by now, each once, in non-decreasing time order, and the rest is unchanged |
| OverlayShelf.PutShows | apps/server/internal/chatoverlay/projection.go:371-382 | storing an item is seen by a client as an update in place or an append |
| OverlayShelf.DropShows | apps/server/internal/chatoverlay/projection.go:398-410 | dropping an id is seen by a client as its removal |
| OverlayShelf.EvictShows | apps/server/internal/chatoverlay/projection.go:384-396 | eviction respects the limit, keeps order, map and expiry in agreement, and is seen as removing exactly the returned ids |
| OverlayShelf.WritingBackCommutes | apps/server/internal/chatoverlay/projection.go:294-307 | storing the numbered item after eviction never brings an evicted id back |
| OverlayReplica.RunKeepsInv | apps/server/internal/chatoverlay/projection.go:160-420 | over every run: visible ids distinct and the same as the map's, at most max(1, limit) of them, expiry exactly occurrence plus lifetime for each visible id iff a lifetime is set, every number that of the revision that announced the item |
| OverlayReplica.LogIsReplica | apps/server/internal/chatoverlay/projection.go:160-420 | over every run, whenever the last rebuild has been announced, folding the whole log gives the visible items in order |
| OverlayReplica.ExpiryIsExact | apps/server/internal/chatoverlay/projection.go:160-190 | when the timer fires exactly the items whose lifetime is over disappear, the others keep their order, nothing left is due, and each removal is announced, earliest first |
| OverlayReplica.GaplessResumeCatchesUp | apps/server/internal/chatoverlay/projection.go:431-483 | a client in step at s > 0 that resumes from s without a gap ends with the visible items |
| OverlayReplica.RebuildingIsNotInStep | apps/server/internal/chatoverlay/projection.go:226-255 | between clearing and the reset a client is out of step, after the reset it is in step again |
| OverlayRace.FreshIff | apps/server/internal/chatoverlay/projection.go:223-297 | for every interleaving of live items with a rebuild, the one being handled at the clearing evaluated before it or after: a visible item is the newest form of its id under the new settings iff that form was neither handled between the copy and the replay of an older one nor evaluated before the clearing and applied last; if so, it is an older form, or the newest as the old settings had it |
| OverlayRace.LastIsShown | apps/server/internal/chatoverlay/projection.go:283-331 | from a cleared set on, a visible item has the form handled or replayed last, and that was found visible |
| OverlayRace.ShownIff | apps/server/internal/chatoverlay/projection.go:223-331 | as long as nothing is evicted or expires since the clearing, an id is shown iff some step about it came and the last one found it visible |
| OverlayRace.MissedBetween | apps/server/internal/chatoverlay/projection.go:223-244 | an id upstream first sent after the copy and before the set was cleared is not shown |
| OverlayRace.DeletedMessageReturns | apps/server/internal/chatoverlay/projection.go:223-265 | a run: a message is shown, copied, deleted, and shown again by the rebuild, in the set and in the announced reset |
| OverlayRace.HiddenMessageStays | apps/server/internal/chatoverlay/projection.go:283-297 | a run: a message evaluated as visible under the old settings, replayed as hidden under the new, and applied after the reset stays shown |
| OverlayVisible.NewItemIsShownLast | apps/server/internal/chatoverlay/projection.go:371-396 | over every run, a new live item is shown last, numbered, and only the newest items up to the limit, at least one, remain |
| OverlayVisible.NewItemIsAnnounced | apps/server/internal/chatoverlay/projection.go:283-331 | it is announced first, and then the removal of each item that had to go, oldest first, for want of room |
| OverlayVisible.KnownItemIsUpdated | apps/server/internal/chatoverlay/projection.go:371-396 | a live item that is visible already is updated in its place, and nothing has to go |
| OverlayVisible.HiddenItemIsTakenOff | apps/server/internal/chatoverlay/projection.go:283-331 | an item found hidden is taken off and announced for the reason given, the others keep their places; if it was not visible nothing happens |
| OverlayVisible.RebuildIsSilent | apps/server/internal/chatoverlay/projection.go:223-265 | a rebuild begins with nothing visible, shows items as live ones would be but announces none, and ends with one announcement of everything visible |
| OverlayVisible.AsLastConfigured | apps/server/internal/chatoverlay/projection.go:223-265 | over every run the overlay works by the settings last configured, and remembers a gap once one was reported |
| OverlayRuntime.Projection.UpsertVisible | apps/server/internal/chatoverlay/projection.go:371-396 | stores the item, sets or cancels its expiry, and evicts the oldest over the limit, returning their ids |
| OverlayRuntime.Projection.RemoveVisible | apps/server/internal/chatoverlay/projection.go:398-410 | removes an id from map, expiry and order, or does nothing if it is not visible |
| OverlayRuntime.Projection.CurrentItemsLocked | apps/server/internal/chatoverlay/projection.go:412-420 | the visible items in order |
| OverlayRuntime.Projection.ApplyUpstreamItem | apps/server/internal/chatoverlay/projection.go:283-331 | one upstream item, live or in a rebuild, does exactly the specified step, with one revision for it and one for each eviction when live |
| OverlayRuntime.Projection.ProcessExpiry | apps/server/internal/chatoverlay/projection.go:160-190 | one expiry step with exactly what the expiry queue gives up by now |
| OverlayRuntime.Projection.Configure | apps/server/internal/chatoverlay/projection.go:223-265 | new settings, an emptied set rebuilt silently, and one reset |
| OverlayRuntime.Projection.NotifyPresentationChanged | apps/server/internal/chatoverlay/projection.go:339-355 | one revision and no change to the visible set |
| OverlayRuntime.Projection.Close | apps/server/internal/chatoverlay/projection.go:108-145 | closes the overlay and changes nothing else |
| AudioResults.LedgerBalances | apps/server/internal/audio/manager.go:395-536 | over every run: promotions = played + playback failed + synthesis failed + interrupted + interrupted by alert + skipped + cancelled + current |
| AudioResults.PromotionNeverOverwrites | apps/server/internal/audio/manager.go:416-423 | nothing is promoted while an item is current |
| AudioResults.PromotedOnce | apps/server/internal/audio/manager.go:416-423 | no item is promoted twice |
| AudioResults.ChainIntegrity | apps/server/internal/audio/manager.go:435-446 | a later link of a chain is promoted only right after its predecessor ended by itself, the second only right after the first |
| AudioResults.CutChainStops | apps/server/internal/audio/manager.go:448-462 | once a link was skipped, cancelled or interrupted the next is never promoted |
| AudioResults.WholeChainGoesOn | apps/server/internal/audio/manager.go:425-446 | a link that ended by itself is followed at once by the next |
| AudioResults.ServedBytesAreOwn | apps/server/internal/audio/manager.go:464-536 | whatever the order of results, the bytes served for an item and token are those its own synthesis returned |
| AudioResults.ReadyWithoutAudioIff | apps/server/internal/audio/manager.go:868-898 | an item without audio is marked ready or playing iff a renderer was lost since its promotion and one is connected now |
| AudioFailures.LateAudioUndoesPlaying | apps/server/internal/audio/manager.go:527-535 | in every reachable state with an item playing without audio, the audio that arrives takes it back to ready and the report of its end is refused |
| AudioFailures.PlayingWithoutAudioHappens | apps/server/internal/audio/manager.go:860-917 | a run that reaches it: a spoken test promoted, its renderer lost, another connected that reports it started |
| AudioResults.CanCallOffIff | apps/server/internal/audio/manager.go:500-509 | the current synthesis can be called off iff no older result was discarded since its promotion |
| AudioFailures.OlderResultDropsTheHandle | apps/server/internal/audio/manager.go:500-509 | a run: the first of two items is skipped, the second promoted, the first one's result arrives; the second is still being synthesized and cannot be called off |
| AudioOutcomes.NeverRequestedIff | apps/server/internal/audio/manager.go:1036-1072 | an alert is told its audio was never requested iff it was not, or since then it was cancelled, its final outcome was read, or the queue in which it only waited was cleared |
| AudioFailures.ClearedIsNeverRequested | apps/server/internal/audio/manager.go:831-838 | a run: of two alerts that requested audio the second waits, the queue is cleared, and it is told that its audio was never requested |
| AudioOutcomes.StepKnows | apps/server/internal/audio/manager.go:395-1072 | one step makes an alert's audio known iff it requests it, and otherwise loses it only in those three ways |
| AudioArbitration.AlertTakesTheOutput | apps/server/internal/audio/manager.go:961-1003 | with nothing current, or global speech, an alert's audio is current at once, one link per request in order; the speech is over and counted as interrupted by an alert, and nothing that waits is touched |
| AudioArbitration.AlertWaitsItsTurn | apps/server/internal/audio/manager.go:1001-1010 | another alert's audio is never interrupted: the new one goes last among what is ready, or, without room, is dropped and the alert is told that it failed |
| AudioArbitration.OutputIsLostIff | apps/server/internal/audio/manager.go:435-536 | for each way an item can end, exactly when the current item ends that way |
| AudioWaiting.SubmittedWaits | apps/server/internal/audio/manager.go:660-699 | an accepted event waits last among what is pending if items are approved by hand, and last among what is ready otherwise; without room it is dropped and counted |
| AudioWaiting.TickTakesTheOldest | apps/server/internal/audio/manager.go:395-423 | a poll with a renderer and nothing current promotes the oldest ready item whose time is not over; every poll discards and counts what is over |
| AudioWaiting.ApprovedGoesLast | apps/server/internal/audio/queue.go:163-186 | an approved item goes last among what is ready, a rejected one is gone and counted, and the other pending ones keep their places |
| AudioWaiting.TakenInOrder | apps/server/internal/audio/queue.go:130-241 | over every run items are made current in the order in which they became ready, none more often than it came |
| AudioTold.ResultIsAttached | apps/server/internal/audio/manager.go:500-536 | a usable result for the current item is attached under the next number, makes it ready iff a renderer is connected, and is then served to whoever has the token |
| AudioTold.NothingIsServedBefore | apps/server/internal/audio/manager.go:1096-1106 | over every run nothing is served before the audio of the current item is there |
| AudioTold.EndIsTold | apps/server/internal/audio/manager.go:435-462 | after a natural end the next link goes on and only the last link's end is told; an item cut short takes its chain along and is told as failed |
| AudioTold.AskedIsTold | apps/server/internal/audio/manager.go:1047-1072 | what an alert is told of its audio: for five of the six answers exactly when, and that it is on its way in every other case |
| AudioTold.CancelTakesAll | apps/server/internal/audio/manager.go:1019-1034 | cancelling takes everything of the alert away, current, ready or pending, and keeps everything else in order |
| AudioTold.RenderersComeAndGo | apps/server/internal/audio/manager.go:860-899 | a renderer that connects takes the place of any other, and makes a waiting item ready; when the connected one leaves there is none, and an item that does not play waits |
| AudioTold.LateResultIsDiscarded | apps/server/internal/audio/manager.go:500-515 | the result for an item no longer current changes nothing current, waiting or told |
| AudioTold.NewCapacityDecides | apps/server/internal/audio/queue.go:130-158 | a new capacity evicts nothing and from then on decides what is taken in |
| AudioTrace.PromotionsBalance | apps/server/internal/audio/manager.go:416-462 | in a lawful record every promotion ended exactly once but for the open one |
| AudioTrace.LinkFollowsItsPredecessor | apps/server/internal/audio/manager.go:984-990 | when ids do not repeat, a link's promotion directly follows its own predecessor's natural end |
| AudioLaws.RunIsSound | apps/server/internal/audio/manager.go:395-1072 | over every run the record is lawful and matches the current item and the counters, no id is used twice, audio belongs to its item, and links of cut chains are dead |
| AudioRuntime.Queue.Admit | apps/server/internal/audio/queue.go:130-158 | accepted iff ready and pending together are below capacity; appended to the list meant for it and counted, or counted as dropped |
| AudioRuntime.Queue.Approve | apps/server/internal/audio/queue.go:163-172 | moves the pending item unchanged to the end of the ready list, or does nothing |
| AudioRuntime.Queue.Reject | apps/server/internal/audio/queue.go:177-186 | discards and counts the pending item, or does nothing |
| AudioRuntime.Queue.PopNextEligible | apps/server/internal/audio/queue.go:192-203 | the oldest unexpired ready item; the expired ones before it are discarded and counted |
| AudioRuntime.Queue.DiscardExpired | apps/server/internal/audio/queue.go:229-241 | keeps exactly the unexpired ready items in order; counts and returns the number of the others |
| AudioRuntime.Queue.RemoveLinked | apps/server/internal/audio/queue.go:288-310 | drops every ready and pending item linked to the alert, keeps the others in order, and returns how many went |
| AudioRuntime.Queue.HasLinked | apps/server/internal/audio/queue.go:269-281 | whether some item is linked to the alert |
| AudioRuntime.Manager.Tick | apps/server/internal/audio/manager.go:395-411 | one poll is the specified step |
| AudioRuntime.Manager.PromoteLocked | apps/server/internal/audio/manager.go:416-423 | the item becomes current and its synthesis starts |
| AudioRuntime.Manager.FinishCurrentLocked | apps/server/internal/audio/manager.go:435-446 | the current item ended by itself: its next link is promoted, or the outcome recorded |
| AudioRuntime.Manager.AbortCurrentLocked | apps/server/internal/audio/manager.go:455-462 | the current item and its chain are discarded, the failure recorded |
| AudioRuntime.Manager.SynthesisDone | apps/server/internal/audio/manager.go:500-536 | a result is attached iff its item is still current and it is usable; otherwise discarded, or the item fails |
| AudioRuntime.Manager.SubmitItem | apps/server/internal/audio/manager.go:660-699 | an accepted event or spoken test enters the queue it is meant for under a fresh id; accepted iff there is room |
| AudioRuntime.Manager.BuildChain | apps/server/internal/audio/manager.go:971-990 | builds the linked chain of requests with consecutive draws, or nothing when the supply fails |
| AudioRuntime.Manager.EnqueueAlertAudio | apps/server/internal/audio/manager.go:961-1011 | alert audio preempts global speech, starts at once when nothing is current, else queues or fails for lack of room, as AudioArbitration.AlertTakesTheOutput and AlertWaitsItsTurn spell out |
| AudioRuntime.Manager.CancelAlertAudio | apps/server/internal/audio/manager.go:1019-1034 | everything linked to the alert goes, current and queued, and its outcome is forgotten |
| AudioRuntime.Manager.SkipCurrent | apps/server/internal/audio/manager.go:816-829 | counts a manual skip and discards the current item with its chain; reports whether there was one |
| AudioRuntime.Manager.ClearAll | apps/server/internal/audio/manager.go:831-838 | empties both lists, leaves the current item, and returns how many were removed |
| AudioRuntime.Manager.ApproveItem | apps/server/internal/audio/manager.go:840-846 | the specified move of a pending item; answers whether one with the id is pending |
| AudioRuntime.Manager.RejectItem | apps/server/internal/audio/manager.go:848-854 | the specified discarding of a pending item; answers whether one with the id is pending |
| AudioRuntime.Manager.SetCapacity | apps/server/internal/audio/queue.go:216-221 | a new bound for later arrivals; nothing queued is evicted |
| AudioRuntime.Manager.ConnectRenderer | apps/server/internal/audio/manager.go:860-873 | a new lease replaces any other, and a waiting item becomes ready |
| AudioRuntime.Manager.DisconnectRenderer | apps/server/internal/audio/manager.go:882-899 | only the active lease counts; a playing item is interrupted, any other waits for the next renderer |
| AudioRuntime.Manager.Ack | apps/server/internal/audio/manager.go:907-941 | applied iff lease, item and playback state allow it, otherwise nothing changes |
| AudioRuntime.Manager.AlertAudioState | apps/server/internal/audio/manager.go:1047-1072 | the progress of an alert's audio; a final outcome is told once and then forgotten |
| AudioRuntime.Manager.CurrentAudioBytes | apps/server/internal/audio/manager.go:1096-1106 | bytes only for the current item under its own token |
| SlidingWindow.GuardIsExact | apps/server/internal/chatautomation/scheduler.go:381-395 | recording one more time keeps every window within the bound iff fewer than the bound lie in the window that ends now |
| SlidingWindow.LeastWait | apps/server/internal/auth/ratelimit.go:105-117 | no shorter wait than until the oldest leaves lifts the bound; that wait does iff fewer than the bound are later than the oldest |
| LoginLimiter.EvictOld | apps/server/internal/auth/ratelimit.go:86-98 | keeps exactly the times inside the window |
| LoginLimiter.RetryAfter | apps/server/internal/auth/ratelimit.go:105-117 | the time until the least of the times leaves the window, never negative |
| LoginLimiter.Limiter.Evict | apps/server/internal/auth/ratelimit.go:78-84 | what is kept is then exactly the recent failures, overall and of the client; a client with none is forgotten |
| LoginLimiter.Limiter.Allow | apps/server/internal/auth/ratelimit.go:45-59 | allowed iff fewer than thirty failures overall and fewer than five of the client are recent; if not, the wait is the least that can lift the bound that blocked, and does when no more than the bound are recent |
| LoginLimiter.Limiter.RecordFailure | apps/server/internal/auth/ratelimit.go:65-73 | adds exactly one failure to the history |
| LoginRuns.LimitHoldsIff | apps/server/internal/auth/ratelimit.go:39-73 | over every interleaving of attempts, for each client and overall: every five minutes hold at most the limit iff every failure, when recorded, found fewer than the limit held |
| LoginRuns.OverlapExceedsByLessThan | apps/server/internal/auth/ratelimit.go:8-16 | with at most m allowed attempts under way at once, every five minutes hold at most the limit plus m - 1 failures |
| LoginRuns.OneAtATimeKeepsTheLimit | apps/server/internal/auth/ratelimit.go:8-16 | one attempt at a time: every five minutes hold at most the limit, and never are more held, so the wait told is exact |
| LoginRuns.OverlapReachesThat | apps/server/internal/auth/ratelimit.go:45-73 | for every m some run from the start reaches the limit plus m - 1, for one client or overall |
| LoginRuns.AllowedIff | apps/server/internal/auth/ratelimit.go:45-59 | after any run an attempt is allowed iff the events hold fewer than thirty failures in the five minutes before it, and fewer than five of its client |
| LoginRuns.FewFailures | apps/server/internal/auth/ratelimit.go:8-16 | with at most m attempts under way at once any five minutes of the events hold fewer than thirty failures and m more, and of a client fewer than five and m more |
| Scheduler.RollingHourByStart | apps/server/internal/chatautomation/scheduler.go:311-379 | over every run of attempts and activity, every rolling hour holds at most the maximum of successful sends per account by the time they started, manual ones included |
| Scheduler.RollingHourBySend | apps/server/internal/chatautomation/scheduler.go:350-379 | by the time they went out, every rolling hour holds at most one more |
| Scheduler.SendLimitHoldsIff | apps/server/internal/chatautomation/scheduler.go:350-379 | by the time they went out, every rolling hour holds at most the maximum iff every message, when it went out, found fewer than that sent within the hour |
| Scheduler.OneMoreIsReached | apps/server/internal/chatautomation/scheduler.go:311-379 | for every maximum of at least one some run reaches that one more |
| Scheduler.RefusedOnlyWhenNeeded | apps/server/internal/chatautomation/scheduler.go:328-336 | an attempt that meets the other conditions is refused by the limit iff one more send, by its start, would break it |
| SchedulerConditions.GoesOutIff | apps/server/internal/chatautomation/scheduler.go:311-379 | after any run a message goes out iff the stream is received or need not be, the attempt is manual or the account was active often enough since the last message to it, counted from the run, fewer than the maximum were started within the hour, and it is delivered |
| SchedulerConditions.ReportsTheFirstUnmet | apps/server/internal/chatautomation/scheduler.go:328-379 | what is reported of an attempt is a success, or the first of these conditions that was not met |
| SchedulerConditions.OthersAreUntouched | apps/server/internal/chatautomation/scheduler.go:311-379 | what happens to one account leaves every other as it was |
| Scheduler.SelectMessage | apps/server/internal/chatautomation/scheduler.go:400-418 | picks among all messages but the last one sent, or among all when that leaves none, the one in whose equal share the fraction falls |
| Scheduler.ScheduleRuntime.SendsInLastHour | apps/server/internal/chatautomation/scheduler.go:386-395 | counts the sends after the start of the rolling hour |
| Scheduler.ScheduleRuntime.ExecuteOneTarget | apps/server/internal/chatautomation/scheduler.go:311-379 | the first condition that is not met is reported (SchedulerConditions.ReportsTheFirstUnmet), or one send is recorded and resets activity; last attempt, last success and last skip are kept; no immediate repeat of a message when another exists |
| Scheduler.ScheduleRuntime.RecordActivity | apps/server/internal/chatautomation/scheduler.go:424-437 | counts one activity for an account the schedule targets, and nothing for any other |

## Left out

- HTTP handlers, SSE framing, persistence, provider clients, media supervision, configuration and diagnostics: input, output and plumbing around these engines.
- Goroutines, mutexes, timers and channels as such: each locked section is one atomic step; the bus's deliveries are separate steps that interleave freely. Sending to a subscription that was closed meanwhile is a step that does nothing, and no absence of panics is claimed there; close-once and the close reasons are not modelled.
- Fan-out to subscribers of the alert and overlay streams: the same code shape as the bus, whose interleavings are covered by `HubOnce` and `HubOrder`; for these two only the log, the replay and the gap flag are modelled.
- 64-bit sequence numbers and counters do not wrap here.
- `AlertRuntime.Projection.Publish`: numbering, the log and the closed flag; the fan-out to live subscribers, as said above, is not part of it.
- `AlertRuntime.Projection.Subscribe`: the replay and the gap flag; registration and the delivery of the replay, as said above, are not part of it.
- `EventBus.Bus.Publish`: event validation is a flag, an event is reduced to id, key, time and body, and the two readings of the clock in one publish, for the key and for the event, are one.
- `AlertModel`: an alert keeps only the fields that the queue, grouping, preemption and the public form read; rule matching, the wording of alerts, `lastAlertAt` and status summaries are left out.
- `AlertRuntime.ProfileRuntime.TickOnce`: what the audio runtime answers to a poll is an input; in `AlertAudioJoint` it is that runtime's answer.
- `AlertQueue.Queue.List`: sorts a copy, as the source does; the in-place sort itself is `Sorting.InsertionSort`.
- `OverlaySpec`: filtering and presentation of an item (`evaluate`) are an arbitrary verdict per item, which covers evaluation under settings read before they changed; the timer itself is left out, any time may be a timer step.
- `OverlayRuntime.Projection.Configure`: one call without steps of others in between; the specification and the theorems allow any step between its parts.
- `ExpiryQueue.Queue`: the source calls Go's `container/heap`; its sift-up, sift-down, fix and remove are modelled as that library defines them.
- `AudioSpec`: an item's id is the number of its draw from the supply, so that ids do not repeat; eligibility, cooldowns, text preparation, voice and volume are left out, an accepted event is just its content. `AudioRuntime.Manager.BuildChain` links the chain from its end, where the source links shared pointers from its start.
- `AudioRuntime.Manager.SubmitItem`: the queue step for content already found eligible and prepared; the enabled test, cooldowns and text preparation before it are left out.
- `AudioRuntime.Manager.SynthesisDone`: an error, audio that is too large and a missing token have the same effect; audio is a string of bytes.
- `LoginLimiter`: windows are open below and closed above, as the code's strict comparison makes them.
- `Scheduler.ScheduleRuntime.ExecuteOneTarget`: attempts are serialized, as the source's execution lock makes them; each has a time it started and a later one at which its message went out, and a due or manual execution is one attempt per target; activity that arrives while a message is on its way is not represented (the source forgets it with the reset); reloading a schedule starts a new runtime with an empty hour; due times and jitter are left out.
- `OverlayRace`: one configuration of an overlay at a time; two that overlap are not modelled there.
- Snapshot, status and counting accessors of all engines: they add nothing hard.
