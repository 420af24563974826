# Agent mesh: a verified model of its stateful core

This project models the parts of the agent mesh whose correctness rests on state, order and time:
the hub's rate limiter, presence maps and heartbeat, its byte-exact reading of `params`, the
mailbox's leases, the reminder daemon's firing protocol and its connection to the hub, the paging and
searching of the audit trails, the log line format, the two-database rename, the bounded-memory
reading of a test run, and the flood fill of the avatar script. Nothing here runs the original
programs: the statements hold of the model, for all inputs and all runs they quantify over.

## How the model is laid out

| file | models |
|---|---|
| `Json.dfy`, `RawParams.dfy`, `RawParamsMeaning.dfy`, `JsonDecode.dfy`, `RawParamsParsed.dfy` | a JSON grammar and printer with arbitrary whitespace (RFC 8259, sections 2 to 7), the scanner of `raw-params.ts` as loops over the text, what the scanner means, strings with their escapes read, and when the scan finds what parsing does |
| `Reminders.dfy`, `ReminderRuns.dfy`, `ReminderSafety.dfy` | firing a reminder as a protocol between the daemon, the network and the hub: its steps, what each keeps, what whole runs guarantee |
| `ReminderScheduler.dfy` | `scheduler.ts` and the hub's half of a send as objects; each statement takes a protocol step, so their histories are runs |
| `Slots.dfy`, `SlotOrder.dfy`, `Overdue.dfy` | slots and hold keys as text, their order, and the operator's decision on an overdue reminder |
| `Lifecycle.dfy`, `LifecycleCauses.dfy`, `LifecycleObject.dfy` | the hub connection of the daemon as a state machine, its runs told from their events, and the object proved against it |
| `Mailbox.dfy`, `MailboxOffers.dfy` | accepting, leasing and acknowledging messages, one transaction each, and the hub's replay on connect; how soon an unsettled message is handed out |
| `Presence.dfy`, `Heartbeat.dfy`, `PresenceRuns.dfy`, `Whereabouts.dfy` | connection ownership, the presence maps, the sweep that relies on them, runs in which a socket speaks as several identities, and who is online where, told from the events |
| `RateLimit.dfy` | the token bucket, over `real` tokens and whole milliseconds |
| `Pagination.dfy`, `AuditPages.dfy` | keyset pages in both directions, and the two lists that use them |
| `Like.dfy` | SQL LIKE and the two ways a query is escaped for it |
| `CondenseRun.dfy`, `Texts.dfy` | chunked search with bounded memory |
| `LogLines.dfy`, `LogPayload.dfy`, `LogReadback.dfy`, `LogCounters.dfy` | rendering and splitting a log line, the payload a call's fields become, what a program reads back from it, and the event counts |
| `RenameAccount.dfy` | the rename across two databases |
| `FloodFill.dfy` | the breadth-first fill with its feathered edge |
| `Wrappers.dfy`, `Counting.dfy`, `Histories.dfy` | an option type; sizes of sets and sequences; what a history has brought about and not ended since |

Objects whose methods update fields are classes; their methods are proved equal to a function of the
old state, and lemmas state what that function guarantees. Concurrency is modelled as interleaved
steps: every database statement and every message on the way is a step of its own, and a crash, a
loss or an operator's decision can come between any two.

SQL tables are maps held by a class. `now()` is an argument; a call that reads the clock several
times takes one instant per reading. Identifiers drawn at random are arguments, and the hashes
behind fire keys and request digests are taken to be injective.

## What the proofs found

Where the code does not do what it or its documentation says, the code was kept and the exact
condition proved.

- **A lost answer stops a reminder for good.** `scheduler.ts:209-213` keys a send on its slot so that
  a retry after a lost answer is recognised. The text of the send names the instant it was fired at
  (`scheduler.ts:78-80`), and the hub compares a digest of that text (`rpc/send.ts:110-132`), so the
  retry is refused with `SEND_CONFLICT` unless it is fired at the very same millisecond
  (`RetryIsRecognisedIffSameInstant`). From then on the slot never moves
  (`LostAnswerStopsTheReminder`), and seven steps from an empty system lead there
  (`LostAnswerHappens`); an answer that comes after the daemon has given up does it too
  (`LateAnswerHappens`). At most one message per fire is stored all the same.
- **A statement that throws can leave a row firing.** The audit of the claim stands before the `try`
  of `scheduler.ts:212-249` and that of the failure inside its `catch`. If either throws, the poll ends
  with its row firing, and no later scan selects it (`StrandedStays`, `StrandingHappens`). While the
  daemon is at rest a row is firing exactly when that has happened to it since the daemon came up
  (`LeftFiringIff`).
- **An acknowledgement needs no lease.** The comment on `ackMessage` speaks of what the caller holds;
  the statement asks only for a pending message addressed to the caller. A message never handed out
  can be settled (`AckNeedsNoLease`, `NeverHandedOutYetSettled`).
- **A lease does not bind the hub's own replay.** On connect the hub hands over every pending message,
  leased or not (`rpc/connect.ts:246-301`). In every run a message is handed out under a live lease by
  that replay and by nothing else (`NoHandOutDuringLease`), and it happens (`ReplayIgnoresLeases`).
- **Dropping a connection under another identity leaves it online.** `dispatch.ts:174-184` drops under
  the identity the request names, which for a connect is the caller's choice. The maps stay consistent
  exactly when that is the socket's own (`DropKeepsConsistentIff`); otherwise it is shown online under
  its own through every close, drop and sweep until that identity or socket connects again
  (`WrongEvictionSticks`), and such a run exists (`WrongEvictionHappens`). What is claimed of the
  sweeps over runs, that the maps stay consistent and a silent socket goes, is claimed of runs in
  which each socket speaks as one identity.
- **A socket under two identities** breaks the inverse of the ownership maps (`ClaimKeepsInverseIff`).
  A sweep pings and drops it by turns, so a connection loses its interval of grace exactly when the
  snapshot carries it twice (`GraceIsLostIff`), as a second connect brings about
  (`SecondConnectLosesTheGrace`).
- **`retryAfter` for a cost above the capacity** is a promise no wait keeps; for any other cost it is
  tight (`RetryAfterIsTight`). Both callers take a cost of 1, so only a capacity below 1 would meet it.
- **A clock set back** breaks the window bound read on elapsed time (`ClockSetBackBreaksTheBound`). For
  any clock at all the bound holds with the moves forward added up instead (`ForwardBound`), and on a
  clock that never goes back those are the time elapsed (`ForwardIsElapsed`).
- **Page and `remaining`** add up to what was leasable, plus the leases of this very page that have
  already run out when the count is taken (`PageAndRemainingAddUp`); none have exactly when the first
  lease of the page lasts until then (`NothingRunsOutIff`), and it happens (`CountedTwice`).
- **A page nobody settles can keep the rest waiting.** An unsettled message is handed out by the time
  its recipient's calls have room for one more than are ahead of it, if no two of them hand out the same
  message (`UnsettledIsOfferedAgain`): which holds when every call comes within the leases before it
  (`LeasesKeepApart`) or acknowledges the page before it (`AcksKeepApart`). A caller that does neither
  is handed the oldest for ever (`UnsettledPageStarvesTheRest`).
- **The scan for `params` and `JSON.parse`** speak of the same member exactly when the key is spelled
  plainly at most once and every spelling of it with an escape comes before that one (`SameMemberIff`,
  `ScannedIsParsedIff`); neither half can be dropped (`BothHalvesMatter`).
- **The older search escaping** agrees with the newer one on every text exactly when the query holds
  no backslash (`OlderSearchAgreesIffNoBackslash`).
- **`condenseRun` with `keep` 0** keeps the whole text, as `slice(-0)` does
  (`KeepingNothingKeepsEverything`).
- **Splitting a log line** recovers sentence and payload exactly when no field of the call or its
  surroundings that has a value is named like an array index (`EmittedLineSplitsIff`): an object lists
  such fields before `ts`. A field named "0" makes every line unreadable (`IndexFieldBreaksTheLine`).
- **A counter key** is read back exactly when neither name in it holds a space (`KeyIsReadBackIff`);
  the counts add up all the same.
- **A list cursor that was deleted** starts the descending list over (`DeletedCursorStartsOver`); an
  ascending cursor survives its text form exactly when its timestamp is non-empty and has no bar
  (`CursorRoundTrip`).
- **A hold whose reminder id contains a line break** is on no operator's list
  (`BrokenIdIsNotListed`), and a listed slot names its hold exactly when it is stored in the shape the
  scheduler writes or is no date at all (`EchoNamesTheHoldIff`). The underscore in the LIKE pattern is a
  wildcard, so a key such as `overdue-hold:` would be listed and no decision would find it
  (`LookalikeIsListed`); nothing in the repository writes such a key, so that is a fact about the
  pattern alone.
- **The rename takes a stranger's rows for its own.** `rename-account.ts:114-118` reads rows under the
  new name alone as this rename, already applied. A renamed column ends up with the account's own rows
  alone exactly when the new name was free in it (`OnlyOwnRowsIffFree`). With bob's grant in the mesh
  and a local alice, renaming alice to bob goes through and the grant is hers; the mesh is the very one
  a half-done rename of alice's own grant leaves, so no check of the tables could tell
  (`StrangerPassesForResumption`). Within that rule no key is broken, a rerun finishes what a crash cut
  short, and nothing but the name changes.

## Model

| member | source | states |
|---|---|---|
| RawParams.FindRawParams | packages/hub/src/raw-params.ts:28-59 | On every text the scan ends; its answer is that of the recursive scan, and is a non-empty piece of the text when there is one. |
| RawParams.SkipValue | packages/hub/src/raw-params.ts:76-99 | Ends where the value starting there ends: a string, a nest by depth, or a literal up to its delimiter. |
| RawParamsMeaning.RawParamsIsParamsOf | packages/hub/src/raw-params.ts:10-59 | For every JSON document in every whitespace layout, the scan yields the printed text of the value of the first top-level member spelled "params", and nothing when there is none or the document is no object. |
| RawParamsMeaning.MembersAreSearched | packages/hub/src/raw-params.ts:33-56 | From inside an object the scan finds the first member spelled "params", whatever its other members nest or quote. |
| RawParamsMeaning.ValueIsSkipped | packages/hub/src/raw-params.ts:34-56 | A value of any shape leaves the scan at the same depth right after it: nothing inside is taken for a member of the outer object. |
| RawParamsParsed.SameMemberIff | packages/hub/src/raw-params.ts:37-49 | The first key spelled "params" and the last key that reads as it once escapes are read are the same member if and only if the plain spelling occurs at most once and every spelling is, or comes before, a plain one. |
| RawParamsParsed.BothHalvesMatter | packages/hub/src/raw-params.ts:37-49 | Two lists of keys on which they differ: a single key written with an escape, and two plain ones. |
| RawParamsParsed.ScannedIsParsedIff | packages/hub/src/raw-params.ts:10-28 | For every JSON document in every layout the scan's text is that of the `params` a parser keeps if and only if the keys meet that condition or the two members are written alike. |
| ReminderSafety.RunKeepsValid | packages/self-reminder/src/scheduler.ts:181-259 | In every state of every run, between any two steps of daemon, hub, network, operator and crash: receipts are exactly the messages, acceptances have their message, rows fire only while worked on, histories increase, nothing late is sent that was not claimed under a replay. |
| ReminderSafety.OneMessagePerFire | packages/mailbox/src/accept.ts:91-116 | Over every run from an empty system, two stored messages with the same fire key are the same message. |
| ReminderSafety.EveryFireIsStoredOnce | packages/self-reminder/src/scheduler.ts:212-224 | Every slot a row has moved past by firing has exactly one stored message, addressed to the row's owner. |
| ReminderSafety.SlotsIncrease | packages/self-reminder/src/scheduler.ts:346-370 | The slots a row has fired for strictly increase, lie before the one it waits for, and are counted by its fire count. |
| ReminderSafety.LeftFiringIff | packages/self-reminder/src/scheduler.ts:207-256 | After any run that ends with the daemon at rest, a row is firing if and only if a statement outside the `try` threw while the scan worked on it and no boot has followed; so after runs without such a throw none is. |
| ReminderSafety.StrandedStays | packages/self-reminder/src/scheduler.ts:195-199 | Over every run without a boot such a row stays firing, and no due query selects it. |
| ReminderSafety.StrandingHappens | packages/self-reminder/src/scheduler.ts:209-211 | A run from the empty system that ends so. |
| ReminderSafety.LateOneShotWasReplayed | packages/self-reminder/src/scheduler.ts:297-316 | A stored message of a one-shot fired past the hold window was claimed, at the very instant it names, while the decision in force on that slot was a replay. |
| ReminderSafety.HeldIff | packages/self-reminder/src/scheduler.ts:297-316 | Over every run the holds on record are exactly those of the one-shots a scan came to further back than the window while nobody had decided them; so nothing that repeats and nothing on time is ever held. |
| Reminders.ClaimedIff | packages/self-reminder/src/scheduler.ts:207-210 | An active due row is claimed if and only if it repeats, or its one slot is no further back than the window, or the decision on that very slot is a replay. |
| Reminders.HeldIsUntouched | packages/self-reminder/src/scheduler.ts:300-316 | Any other stays as it is, the scan goes on, and its fire is on record as held unless it is decided. |
| Reminders.DueListIsComplete | packages/self-reminder/src/scheduler.ts:195-199 | The due query lists active rows whose slot has come, oldest first: all of them, or a hundred none of which is younger than one left out. |
| Reminders.RecoveredIs | packages/self-reminder/src/main.ts:47 | Coming up makes active what was firing and changes nothing else of any row. |
| ReminderSafety.RetryIsRecognisedIffSameInstant | packages/hub/src/rpc/send.ts:110-132 | In every reachable state a send under a used key is answered as a duplicate if and only if it was fired at the instant of the stored one, and refused otherwise. |
| ReminderSafety.LostAnswerStopsTheReminder | packages/self-reminder/src/scheduler.ts:209-221 | Over every run from there with no scan at that instant, the row stays at its slot and fires no more. |
| ReminderSafety.LosingTheAnswerBlocks | packages/hub/src/rpc/send.ts:103-132 | Storing a first send leads there from any reachable state with no copy of the send under way, when its answer is lost and also when the daemon gives up before the answer comes. |
| ReminderSafety.LostAnswerHappens | packages/self-reminder/src/scheduler.ts:212-221 | A run from the empty system that ends there. |
| ReminderSafety.LateAnswerHappens | packages/self-reminder/src/scheduler.ts:212-221 | Another, with the acceptance still under way. |
| Reminders.NextIntervalIsLeast | packages/self-reminder/src/scheduler.ts:377-382 | The next slot of an interval is the least point of the grid through the old slot that lies after now. |
| Reminders.FireTextIsUnique | packages/self-reminder/src/scheduler.ts:57-59 | The text hashed into a fire key determines the reminder and the slot, whatever characters the id holds. |
| ReminderScheduler.Hub.Send | packages/hub/src/rpc/send.ts:103-132 | A used key is answered from its receipt; a new one stores message and receipt together; a refusal stores nothing. |
| ReminderScheduler.Scheduler.ShouldHoldOverdue | packages/self-reminder/src/scheduler.ts:297-316 | Holds exactly an undecided or skipped one-shot past the window, and records the hold only when undecided. |
| ReminderScheduler.Scheduler.AdvanceOrComplete | packages/self-reminder/src/scheduler.ts:346-370 | The row ends fired without a slot, dead, or active at its next slot; the history so far plus this is a protocol run. |
| ReminderScheduler.Scheduler.FireOne | packages/self-reminder/src/scheduler.ts:207-254 | Under each fate of the send the row moves on if and only if it was not held and the hub's acceptance came back; the hub gains the message if and only if the send reached it under a new key. |
| ReminderScheduler.Scheduler.AdvanceDue | packages/self-reminder/src/scheduler.ts:181-259 | A poll during another, or without a hub, changes nothing; any other judges each due row on what was known before the scan, touches no other row, records exactly the holds nobody has decided, leaves no row firing, and is a run of the protocol. In plain terms: a row moves on if and only if it repeats or is on time or is to be replayed, and the hub accepted it and was heard; a one-shot is then fired, a repeating row active at the least slot after now on its grid. |
| ReminderScheduler.ScannedIsSettled | packages/self-reminder/src/scheduler.ts:207-254 | The plain terms of a poll hold of every scan: rows, hub and holds by window, decision, answer and schedule, and by nothing else. |
| ReminderScheduler.Scheduler.Reboot | packages/self-reminder/src/main.ts:47 | Coming up after a crash at any point makes exactly the firing rows active. |
| Slots.KeyIsReadBackIff | packages/http/src/reminder-overdue.ts:153-169 | A hold key reads back as its reminder and slot exactly when the id is one line, colons and all, and as nothing otherwise. |
| Slots.IsoIsReadBack | packages/http/src/reminder-overdue.ts:101-111 | Every instant printed as ISO text parses back to itself. |
| SlotOrder.TextOrderIsTimeOrder | packages/self-reminder/src/scheduler.ts:195-199 | For stored slots the order of text, which the due query uses, is the order of time. |
| Slots.EchoIsStoredIff | packages/http/src/reminder-overdue.ts:132-136 | Publishing a slot and converting it back gives the slot exactly when it is no date or already names its second in the stored shape; so always for stored slots. |
| Slots.SlotTextIff | packages/http/src/reminder-overdue.ts:166 | What the key's tail is matched against: date and time with a space or T between, perhaps a point and digits, perhaps a Z. |
| Slots.FractionIsRead | packages/http/src/reminder-overdue.ts:102-106 | The digits behind the point are thousandths from the left, those missing being noughts. |
| Slots.TimeIsCounted | packages/http/src/reminder-overdue.ts:190 | The thousandths count on from the second. |
| SlotOrder.NextDayIsLater | packages/http/src/reminder-overdue.ts:178-190 | From one day to the next at the same time of day lie 86400 seconds, across the ends of months, leap Februaries and years. |
| SlotOrder.SameDayDiffers | packages/http/src/reminder-overdue.ts:178-190 | Within a day the digits of the clock tell the difference. |
| SlotOrder.MonthLengths | packages/http/src/reminder-overdue.ts:102-106 | The months have the calendar's lengths. |
| Overdue.Desk.ListHeldOverdue | packages/http/src/reminder-overdue.ts:145-195 | The list has one entry for each key that reads as a hold and is undecided, in the order of the select, with its times and how late it was. |
| Overdue.EntryIs | packages/http/src/reminder-overdue.ts:178-192 | An entry states slot and record in ISO text, the milliseconds from the one to the other, and the reminder's owner and status if it still exists. |
| Overdue.OverdueUnlessEarly | packages/http/src/reminder-overdue.ts:190 | The lateness of a stored slot is negative only if it was held before its own second. |
| Overdue.ListIsOldestFirst | packages/http/src/reminder-overdue.ts:148-150 | Of two entries the one held longer comes first. |
| Overdue.Desk.RecordOverdueDecision | packages/http/src/reminder-overdue.ts:231-290 | Each refusal occurs exactly under its cause and changes nothing; otherwise the decision stands under the stored slot and nothing else changes. |
| Overdue.ListedHoldIsFound | packages/http/src/reminder-overdue.ts:253-268 | Every open hold is listed, and the listed values name its key and its slot. |
| Overdue.DecisionTakesItsEntryOff | packages/http/src/reminder-overdue.ts:138-144 | In a store whose holds the scheduler wrote, those of unreadable ids included, a decision made with an entry's own values finds its hold, and takes that entry and no other off the list. |
| Overdue.SchedulerWritesOnly | packages/self-reminder/src/scheduler.ts:301-306 | A store whose holds the scheduler wrote, for ids of any shape and stored slots, is such a store. |
| Overdue.EchoNamesTheHoldIff | packages/http/src/reminder-overdue.ts:113-136 | For any key that parses, its listed values name it exactly when it has the true prefix and its slot is no date or in the stored shape. |
| Overdue.BrokenIdIsNotListed | packages/http/src/reminder-overdue.ts:165-167 | A hold whose id contains a line break is selected and never listed. |
| Overdue.LookalikeIsListed | packages/http/src/reminder-overdue.ts:148-150 | The wildcard underscore lists keys that no decision can find. |
| Lifecycle.RunKeepsValid | packages/self-reminder/src/lifecycle.ts:82-293 | All of that holds between any two events of any run. |
| Lifecycle.PromisesSettleOnce | packages/self-reminder/src/lifecycle.ts:186-245 | Over every run a promise is settled at most once, by one outcome that stays; it is settled whenever it is not in flight, hence when there is no socket or after stop. |
| Lifecycle.RequestIdsNeverRepeat | packages/self-reminder/src/lifecycle.ts:186-207 | No two requests of a run have the same id. |
| Lifecycle.OldSocketsChangeNothing | packages/self-reminder/src/lifecycle.ts:282-284 | An open, message, close or error of any connection but the current one leaves the whole state unchanged. |
| Lifecycle.DelaysNeverDecrease | packages/self-reminder/src/lifecycle.ts:262-274 | Reconnect delays since the last registration never decrease and never exceed the maximum. |
| Lifecycle.DelaysDouble | packages/self-reminder/src/lifecycle.ts:262-265 | Each of the first ten delays is twice the one before, up to the maximum; from then on they are alike. |
| Lifecycle.RegistrationStartsOver | packages/self-reminder/src/lifecycle.ts:146-149 | A registration that goes through makes the object ready and starts the delays over. |
| Lifecycle.StopKeeps | packages/self-reminder/src/lifecycle.ts:87-97 | Stopping settles everything in flight and leaves neither socket nor timer. |
| LifecycleCauses.OutcomeIff | packages/self-reminder/src/lifecycle.ts:186-293 | Over every run a promise has an outcome if and only if some event was the cause of that very outcome: a frame without error, or with one, carrying its request's id on its own connection while it was in flight; the timeout of that id; a send that threw; the loss or stop of its connection; a request made without a registered, open one. |
| LifecycleCauses.FlightIff | packages/self-reminder/src/lifecycle.ts:186-236 | A request is in flight if and only if it went out under its id and has since been neither answered nor timed out nor given up with its connection. |
| LifecycleCauses.ConnectionIff | packages/self-reminder/src/lifecycle.ts:112-138 | A connection is the present one if and only if a start or the reconnect timer made it and it has since been neither stopped nor closed nor refused. |
| LifecycleCauses.ReadyIff | packages/self-reminder/src/lifecycle.ts:140-155 | The object is ready on a connection if and only if its registration went through and it has not been given up since. |
| LifecycleCauses.ReadyTakesAnAnswer | packages/self-reminder/src/lifecycle.ts:140-148 | Before it is ready, in this order: the connection opened and its registration went out, a frame without error carried that request's id on it, and the continuation ran. |
| LifecycleObject.HubLifecycle.Connect | packages/self-reminder/src/lifecycle.ts:112-138 | The object's fields change as the step says: nothing while stopped, connected or waiting; else a new generation with a socket or a scheduled retry. |
| LifecycleObject.HubLifecycle.RequestOn | packages/self-reminder/src/lifecycle.ts:186-207 | Hands out the next promise: refused when not open, settled at once when the send throws, in flight otherwise. |
| LifecycleObject.HubLifecycle.HandleMessage | packages/self-reminder/src/lifecycle.ts:209-236 | A frame with an error refuses, one without resolves. Settles exactly the answered request of this generation, and ignores any other frame. |
| LifecycleObject.HubLifecycle.RejectGeneration | packages/self-reminder/src/lifecycle.ts:286-293 | The loop over the map rejects every request of the generation and no other, in whatever order. |
| LifecycleObject.HubLifecycle.HandleClose | packages/self-reminder/src/lifecycle.ts:238-255 | Losing the current socket rejects its requests and schedules one reconnect; any other close does nothing. |
| LifecycleObject.HubLifecycle.AfterRegister | packages/self-reminder/src/lifecycle.ts:140-184 | The continuation of a connect acts only while its own connection is still current. |
| Mailbox.Store.Accept | packages/mailbox/src/accept.ts:88-117 | Message, statistics and idempotency key go in together or, when a key or id is taken, not at all. |
| Mailbox.Store.AckAll | packages/mailbox/src/receive.ts:90-97 | Acknowledging a list settles exactly the pending messages addressed to the caller in it, and reports each once even if it is listed twice. |
| Mailbox.SettlementsAreExact | packages/store/src/schema/hub.ts:212-230 | The reported settlements are, without repetition, exactly the ids that were pending and the caller's. |
| Mailbox.AckClearsLease | packages/store/src/schema/hub.ts:227-230 | A message settled by an acknowledgement is on no lease; nothing else of any message changes. |
| Mailbox.Receiver.LeasableMessages | packages/store/src/schema/hub.ts:200-207 | The page is the oldest leasable messages of the caller, each once, as many as the limit allows. |
| Mailbox.PageIsTheOldest | packages/store/src/schema/hub.ts:200-207 | A page is all messages on offer or as many as the limit allows, oldest first, each once, and none left out is older than one on it. |
| Mailbox.Receiver.Receive | packages/mailbox/src/receive.ts:76-132 | Acknowledgements first, then a page leased message by message, then the count: the resulting table, page, count and settlements as functions of the old table. |
| Mailbox.PageAndRemainingAddUp | packages/mailbox/src/receive.ts:99-115 | Page size plus remaining is the leasable count after the acknowledgements plus the page's own leases that have run out by then. |
| Mailbox.NothingRunsOutIff | packages/mailbox/src/receive.ts:114-115 | None of the page's leases has run out at the count if and only if the page is empty or its first lease lasts until then. |
| Mailbox.CountedTwice | packages/mailbox/src/receive.ts:114-115 | A concrete call whose one message is on the page and counted as remaining. |
| Mailbox.NeverHandedOutYetSettled | packages/store/src/schema/hub.ts:227-230 | A concrete message settled without ever having been handed out. |
| Mailbox.NoHandOutDuringLease | packages/mailbox/src/receive.ts:99-114 | Over every run a message on lease is handed out again only at a time past the lease, or by the hub's replay. |
| Mailbox.ReplayIgnoresLeases | packages/hub/src/rpc/connect.ts:246-301 | A concrete run in which a message leased for ten seconds is handed out again after one, by the replay. |
| Mailbox.ReplayIsTheOldest | packages/hub/src/rpc/connect.ts:246-301 | The replay hands over the recipient's pending messages from the oldest on, leased or not. |
| Mailbox.HandOutLeases | packages/mailbox/src/receive.ts:114 | Handing out puts each message of the page on lease from the instant of its own statement. |
| Mailbox.SettledAtMostOnce | packages/mailbox/src/receive.ts:85-97 | Over every run each message is settled at most once, by its recipient's acknowledgement or the replay to that recipient, and its status says which. |
| Mailbox.AcceptedIsAccountedFor | packages/mailbox/src/receive.ts:85-117 | Over every run from an empty table the accepted messages are exactly the free, leased and settled ones, which are disjoint. |
| Mailbox.ReceiveIsAnOperation | packages/mailbox/src/receive.ts:76-132 | What the object does in a call is one operation of these runs. |
| MailboxOffers.UnsettledIsOfferedAgain | packages/store/src/schema/hub.ts:200-207 | In every run in which no two of the recipient's calls hand out the same message, a pending message whose lease has lapsed is handed out or settled by the time those calls have room for one more than were ahead of it, whatever arrives and whoever else calls. |
| MailboxOffers.LeasesKeepApart | packages/store/src/schema/hub.ts:200-209 | No two calls hand out the same message when each begins while the leases of those before it last. |
| MailboxOffers.AcksKeepApart | packages/mailbox/src/receive.ts:85-99 | Nor when each acknowledges what the one before it handed out. |
| MailboxOffers.UnsettledPageStarvesTheRest | packages/mailbox/src/receive.ts:99-114 | For every number of calls a run in which the caller is handed the oldest message each time and the next one never. |
| Presence.ConnectionOwnership.Claim | packages/hub/src/connection-ownership.ts:43-56 | Refused exactly when another socket owns the identity, with both generations reported; else ownership and inverse are set. |
| Presence.ConnectionOwnership.Release | packages/hub/src/connection-ownership.ts:58-65 | Takes back what the socket owns, and says whether it was still the owner. |
| Presence.ReleaseSparesNewerOwner | packages/hub/src/connection-ownership.ts:58-65 | A socket that no longer owns its identity gives up its own entry alone, and the answer says so. |
| Presence.ClaimKeepsInverseIff | packages/hub/src/connection-ownership.ts:53-54 | A granted claim keeps the two maps mutual inverses exactly when the socket had no other identity. |
| Presence.ReleaseUndoesClaimIff | packages/hub/src/connection-ownership.ts:58-65 | Claiming and then releasing a free identity restores both maps exactly when the identity is not the empty text, which is never released. |
| Presence.PresenceMaps.DropConnection | packages/hub/src/presence.ts:47-60 | The four maps change as the drop says, proxies removed one by one. |
| Presence.PresenceMaps.Close | packages/hub/src/main.ts:354-372 | The maps change as the close handler says, a newer owner untouched. |
| Presence.PresenceMaps.Connect | packages/hub/src/rpc/connect.ts:94-127 | A granted claim sets the presence maps; a refused one none of them. |
| Presence.RefusedConnectIs | packages/hub/src/rpc/connect.ts:94-118 | Refused because another socket owns the identity, a connect changes neither who is who nor any route. |
| Presence.AdmittedConnectIs | packages/hub/src/rpc/connect.ts:124-127 | Admitted, the socket and its identity lead to each other in all maps, and every other entry is as it was. |
| Presence.GrantedProxiesAre | packages/hub/src/rpc/connect.ts:128-156 | Every granted proxy leads to the socket, which holds it besides those it held before; no other route or holding changes. |
| Whereabouts.OnlineIff | packages/hub/src/presence.ts:47-60 | Over every run in which each socket speaks as one identity, an identity is online on a socket if and only if the socket connected as it while no other owned it, and has since neither closed nor been evicted nor been swept with a ping unanswered. |
| Whereabouts.RouteIff | packages/hub/src/rpc/connect.ts:128-156 | Over every run, whoever a socket speaks as, messages for a proxied identity go to a socket if and only if an admitted connect granted it the proxy, the hub has known it ever since, and no other socket has been granted it. |
| Presence.ConnectKeepsConsistent | packages/hub/src/rpc/connect.ts:94-127 | Connecting under one identity at a time keeps all maps mutually consistent. |
| Presence.DropIsExact | packages/hub/src/presence.ts:47-60 | Dropping a socket under its own identity removes it from every map and nobody else from any. |
| Presence.CloseAfterDropChangesNothing | packages/hub/src/main.ts:354-372 | The close handler that runs after a drop changes none of the maps. |
| Presence.DropClearsIffOwnIdentity | packages/hub/src/rpc/dispatch.ts:174-184 | A drop leaves the socket in no map if and only if it is made under the socket's own identity. |
| Presence.DropKeepsConsistentIff | packages/hub/src/presence.ts:47-60 | A drop keeps the maps mutually consistent if and only if it is made under the socket's own identity. |
| PresenceRuns.WrongEvictionSticks | packages/hub/src/rpc/dispatch.ts:174-184 | From any consistent state a connected socket dropped under another identity is shown online under its own after every further run in which neither that identity nor that socket connects. |
| PresenceRuns.WrongEvictionHappens | packages/hub/src/rpc/dispatch.ts:146-184 | A run from the empty hub that ends so, the socket closed. |
| PresenceRuns.GenerationsIncrease | packages/hub/src/connection-ownership.ts:71-77 | Over every run generations are distinct, none ever changes, and a socket numbered later has the larger one. |
| PresenceRuns.GenerationsHaveNoGap | packages/hub/src/connection-ownership.ts:71-77 | Over every run the numbers given out are one, two, three and so on. |
| Heartbeat.Heartbeat.RunSweep | packages/hub/src/heartbeat.ts:92-136 | One pass over a snapshot of the online map, entry by entry, in place. |
| Heartbeat.SweepIsExact | packages/hub/src/heartbeat.ts:92-136 | With consistent maps a sweep drops exactly the sockets that were awaiting, pings exactly the others, and reports both in order. |
| PresenceRuns.DropsAreEverySecond | packages/hub/src/heartbeat.ts:99-133 | For any maps, waiting sockets and snapshot, a sweep drops a socket once for every second entry that carries it, counting the wait it came with. |
| PresenceRuns.GraceIsLostIff | packages/hub/src/heartbeat.ts:84-91 | A socket not waiting is dropped by the sweep that pings it if and only if at least two entries carry it. |
| PresenceRuns.ReportedIffDropped | packages/hub/src/heartbeat.ts:99-119 | The identities a sweep reports as dropped are those of the entries it dropped. |
| PresenceRuns.SecondConnectLosesTheGrace | packages/hub/src/rpc/connect.ts:94-127 | A run from the empty hub whose first sweep pings and drops one socket, connected under two identities. |
| Heartbeat.DroppedOnlyAfterSilence | packages/hub/src/heartbeat.ts:84-91 | In every such run a sweep drops a socket only if an earlier sweep pinged it and nothing was heard from it since. |
| Heartbeat.SilentAcrossTwoSweepsIsGone | packages/hub/src/heartbeat.ts:84-136 | In such a run a socket silent from one sweep to another is in no presence map afterwards. |
| Heartbeat.RunKeepsConsistent | packages/hub/src/heartbeat.ts:92-136 | Over every interleaving of connects, frames, evictions, closes and sweeps in which each socket speaks as one identity the maps stay mutually consistent. |
| RateLimit.RateLimiter.Take | packages/hub/src/ratelimit.ts:83-106 | Decision, bucket and refusal count after a take, as functions of the bucket before. |
| RateLimit.RateLimiter.Sweep | packages/hub/src/ratelimit.ts:126-137 | The loop removes exactly the stale buckets and counts them. |
| RateLimit.WindowBound | packages/hub/src/ratelimit.ts:83-106 | For every key, clock that never goes back and run of takes and sweeps, the cost admitted in any window is at most the capacity plus the refill over it. |
| RateLimit.SweepIsUnobservable | packages/hub/src/ratelimit.ts:125-137 | A limiter swept at any moments decides every take as one never swept. |
| RateLimit.RetryAfterIsTight | packages/hub/src/ratelimit.ts:97-105 | After a refusal, waiting the stated seconds undisturbed succeeds if and only if the cost is within capacity, and any fewer whole seconds fail. |
| RateLimit.RemainingIsServed | packages/hub/src/ratelimit.ts:91-93 | What is said to remain is the largest whole cost that would still be granted at that moment. |
| RateLimit.AnswersAreOneOrTheOther | packages/hub/src/ratelimit.ts:91-105 | A request is granted if and only if the bucket holds its cost; granted it need not wait, refused it is told nothing remains. |
| RateLimit.SweptIff | packages/hub/src/ratelimit.ts:126-137 | A sweep keeps a bucket if and only if, left alone that long, an empty one would not have more than filled. |
| RateLimit.ForwardBound | packages/hub/src/ratelimit.ts:83-106 | For any clock, over any stretch of any run of takes and sweeps, one key is granted at most the capacity plus the refill of the clock's moves forward. |
| RateLimit.ForwardIsElapsed | packages/hub/src/ratelimit.ts:86-88 | On a clock that never goes back those moves add up to the time elapsed. |
| RateLimit.ClockSetBackBreaksTheBound | packages/hub/src/ratelimit.ts:86-88 | A concrete run with the clock set back admits more than the bound on elapsed time. |
| Pagination.PageIsExact | packages/http/src/chat-audits.ts:127-134 | A page is the first rows beyond the cursor in order, as many as fit, and more remain exactly if it says so. |
| Pagination.OrderIsByTime | packages/http/src/audit-query.ts:309-313 | Upwards later rows follow earlier ones, downwards the other way, and within an instant the id decides. |
| Pagination.LessIff | packages/http/src/audit-query.ts:309-313 | A text is less than another if and only if, after the characters they share, it ends or has the smaller one. |
| Pagination.WalkVisitsEverythingOnce | packages/http/src/audit-query.ts:250-254 | Following pages over a table that only grows, to the end, visits every row present at the start exactly once and in order. |
| Pagination.WalkTerminates | packages/http/src/audit-query.ts:309-328 | A walk with more room in its pages than rows beyond its cursor comes to the end, whatever else the tables hold. |
| Pagination.WalkOutrunsInsertions | packages/http/src/chat-audits.ts:106-134 | A walk with room for the rows of the first table comes to the end however many rows are inserted before the end of its first page. |
| AuditQuery.CursorRoundTrip | packages/http/src/audit-query.ts:255-259 | A cursor parses back to its key if and only if the timestamp is non-empty and has no bar. |
| AuditQuery.AnswerIsPage | packages/http/src/audit-query.ts:261-329 | The answer is the page of the matching rows beyond the cursor, and next_cursor is its last key exactly when more remain. |
| AuditQuery.AnswerIsAskedFor | packages/http/src/audit-query.ts:261-328 | An answer holds only events that meet every filter given and come after the cursor, each under its own timestamp; one that is left out comes after a full page. |
| AuditQuery.RefusedIff | packages/http/src/audit-query.ts:255-301 | A request is refused if and only if its cursor is not empty and has no bar, or nothing before it. |
| AuditQuery.SizeIs | packages/http/src/audit-query.ts:262 | Nothing or nought asked is fifty; any other size is kept within one and two hundred. |
| AuditQuery.FollowIsWalk | packages/http/src/audit-query.ts:299-328 | Following next_cursor is the walk over the matching rows. |
| AuditQuery.TrailIsReadOnce | packages/http/src/audit-query.ts:250-254 | For any filter and page size, ties on the timestamp included, every matching event present at the start is read exactly once and in order although events are appended meanwhile. |
| AuditQuery.TrailEnds | packages/http/src/audit-query.ts:318-328 | Following cursors comes to an end once the pages have more room than rows match at the last request. |
| ChatAudits.PageIsWhatItSays | packages/http/src/chat-audits.ts:84-136 | A message is on the page exactly if it matches, lies beyond the anchor, and is among the newest that fit; has_more and oldest_id are exact. |
| ChatAudits.PageIsAskedFor | packages/http/src/chat-audits.ts:84-134 | A page holds only messages that meet every filter given, the search up to ASCII case, and are older than the anchor; one left out is older than a full page. |
| ChatAudits.SizeIs | packages/http/src/chat-audits.ts:78-82 | A size missing or not positive is a hundred, and none exceeds two hundred. |
| ChatAudits.FollowIsWalk | packages/http/src/chat-audits.ts:98-134 | Following oldest_id is the descending walk, the anchor's timestamp looked up each time. |
| ChatAudits.ListIsReadOnce | packages/http/src/chat-audits.ts:106-134 | Every matching message present at the start is listed exactly once, newest first, while newer ones arrive. |
| ChatAudits.ListEnds | packages/http/src/chat-audits.ts:130-134 | Following oldest_id ends after pages enough for what matched at the start, however many messages newer than the first page arrive meanwhile. |
| Like.LikeContainsIsContains | packages/http/src/chat-audits.ts:53-55 | For every query, wildcards and backslashes included, the pattern matches exactly the texts that contain it, up to ASCII case. |
| Like.FoldIff | packages/http/src/chat-audits.ts:53-55 | Up to case, two characters are alike if and only if they are the same or the two cases of one of the 26 letters. |
| Like.OlderSearchAgreesIffNoBackslash | packages/http/src/db.ts:525-539 | The older pattern matches the same texts if and only if the query holds no backslash. |
| CondenseRun.Condense | scripts/mutation-verdict.ts:260-320 | For every way of cutting a text into chunks: every non-empty string the caller names, and each of the four phrases, that occurs in it survives into the result; the count is the number of places where a marker begins; a short text comes back whole, a longer one as its two ends around the note. |
| CondenseRun.Condenser.Take | scripts/mutation-verdict.ts:284-308 | One more chunk: counts, finds and both ends are those of the text so far, with a carry of bounded length. |
| CondenseRun.WindowCountsMarkers | scripts/mutation-verdict.ts:289-295 | Counting in the carry and the chunk, less the carry's own, counts what is new, markers across the cut included. |
| CondenseRun.WindowFindsNew | scripts/mutation-verdict.ts:284-295 | A string not longer than the carry allows occurs in the longer text exactly if it did before or occurs in the window. |
| CondenseRun.SignalsSurvive | scripts/mutation-verdict.ts:313-319 | Every non-empty string the caller names, and each of the four phrases, that occurs in the text occurs in the result, quoted, and unquoted if it needs no escape. |
| CondenseRun.WantedIs | scripts/mutation-verdict.ts:265 | What is looked for is every non-empty string the caller names and the four verdict phrases. |
| CondenseRun.MarkersAreCounted | scripts/mutation-verdict.ts:289-295 | The markers counted are the places where one begins. |
| CondenseRun.NoteReads | scripts/mutation-verdict.ts:313-319 | The note between the ends states how many characters are missing and, if anything was found, what. |
| CondenseRun.PrintedIs | scripts/mutation-verdict.ts:314 | It lists the finds in order, quoted, a comma between any two. |
| JsonDecode.EscapeRoundTrip | scripts/mutation-verdict.ts:314 | Reading a quoted string gives its characters back, quotes, backslashes and controls included. |
| CondenseRun.EndsAreExact | scripts/mutation-verdict.ts:296-319 | When text is dropped, what is kept is its exact first and last characters and the stated length is what lies between. |
| LogLines.SplitRecoversRendered | packages/log/src/index.ts:288-301 | For every sentence, the tail marker included, and every compact JSON payload, splitting the rendered line recovers both exactly if and only if the payload begins with ts. |
| LogLines.LineReads | packages/log/src/index.ts:190-192 | A line is its timestamp, the level in its own word, the component in brackets, the sentence and the payload. |
| LogPayload.EmittedLineSplitsIff | packages/log/src/index.ts:199-225 | For every sentence and all fields of a call and its surroundings, the line emitted for them is split into exactly its sentence and its payload if and only if no field named like an array index has a value. |
| LogPayload.IndexFieldBreaksTheLine | packages/log/src/index.ts:207-209 | With the one field "0" no line, whatever it says, is split correctly. |
| LogPayload.PayloadHolds | packages/log/src/index.ts:200-209 | The payload's ts, level, component and event are the logger's whatever else is stated; every other field is the call's, or the surroundings' where the call says nothing. |
| LogReadback.PayloadIsReadBack | packages/log/src/index.ts:190-209 | Reading an emitted payload gives the logger's four fields and every other as the call or its surroundings state it; no more, no less. |
| LogPayload.IndexIff | packages/log/src/index.ts:200-209 | A name is index-like if and only if it is the numeral of a number below 4294967295. |
| LogPayload.OwnOrderIs | packages/log/src/index.ts:190-192 | The order in which an object lists its fields is a reordering that puts exactly the index-like names first, ascending by their number, and then the others. |
| LogLines.CleanHasNoTail | packages/log/src/index.ts:274-278 | The tail marker occurs nowhere inside a compact payload. |
| LogCounters.Counters.Emit | packages/log/src/index.ts:194-224 | Counts the line under its component, event and bounded reason, whatever the names. |
| LogCounters.Counters.EventCounts | packages/log/src/index.ts:170-183 | The counts add up to the number of lines emitted, and each is the number of its own lines. |
| LogCounters.ReasonIs | packages/log/src/index.ts:213-220 | A line counts without a reason if and only if none is stated, under its own if that is a bounded token, and under "other" else. |
| LogCounters.KeyIsReadBackIff | packages/log/src/index.ts:157-159 | A counter key splits back into its three parts if and only if neither component nor event holds a space. |
| RenameAccount.RenameLocalAccount | packages/http/src/rename-account.ts:85-165 | Succeeds, refuses or fails exactly as the account, the clash rule and the fault say, each refusal under its own cause and the first clash named: a refusal changes nothing, a success is the full rename in both databases with the count of every column, a fault leaves the mesh either untouched or done. |
| RenameAccount.MoveAll | packages/http/src/rename-account.ts:137-159 | The transaction over the reference list renames every listed column, no update breaking a key. |
| RenameAccount.MatchingCounts | packages/http/src/rename-account.ts:137-145 | A column's count is the number of rows that held the name. |
| RenameAccount.NoOldNameLeft | packages/http/src/rename-account.ts:40-63 | After the rename no listed column holds the old name. |
| RenameAccount.RenameKeepsConsistency | packages/http/src/rename-account.ts:102-123 | Without a clash every unique key stays unique, so no two rows merge. |
| RenameAccount.UpdateGoesThrough | packages/http/src/rename-account.ts:147-159 | Without a clash no update in the sequence, halfway states included, meets a constraint. |
| RenameAccount.NothingElseChanges | packages/http/src/rename-account.ts:137-145 | Only cells of listed columns that held the old name change. |
| RenameAccount.OnlyOwnRowsIffFree | packages/http/src/rename-account.ts:114-122 | The rows a listed column has under the new name after the rename are those it had under the old name before, if and only if the new name was free in it. |
| RenameAccount.StrangerPassesForResumption | packages/http/src/rename-account.ts:114-122 | A stranger's grant under the new name is admitted as a resumption and becomes the account's; the mesh equals the one an interrupted rename of the account's own grant leaves. |
| RenameAccount.RenameIsIdempotent | packages/http/src/rename-account.ts:114-123 | Renaming again changes nothing and meets no clash. |
| RenameAccount.RerunFinishesTheRename | packages/http/src/rename-account.ts:114-123 | A crash between the two commits followed by a rerun reaches the state of an uninterrupted rename. |
| FloodFill.Fill | scripts/process-transparent-avatars.py:5-56 | Ends on every image, and leaves exactly the filled image: cleared, feathered and untouched pixels as defined by walks over the original colours. |
| FloodFill.FilledByChannel | scripts/process-transparent-avatars.py:35-56 | A pixel within the tolerance in every channel, reached from the border over such pixels, becomes invisible white; one beside it within 25 more in every channel is feathered; every other, any with one channel outside that band among them, is as it was. |
| FloodFill.MatchesByChannel | scripts/process-transparent-avatars.py:14-18 | Background is within the tolerance in each of red, green and blue; an edge is so within 25 more and is no background. |
| FloodFill.FeatherByChannel | scripts/process-transparent-avatars.py:42-54 | The alpha of an edge is its farthest channel's share of 25, out of 255, rounded down; its colour stays. |
| FloodFill.BorderIsBesideOutside | scripts/process-transparent-avatars.py:20-33 | The border loops cover the pixels from which one step leaves the picture. |
| FloodFill.AdjacentIsOneStep | scripts/process-transparent-avatars.py:40-41 | Neighbours are one step up, down, left or right. |
| FloodFill.FillIsComplete | scripts/process-transparent-avatars.py:35-56 | When the queue is empty the visited pixels are exactly the background joined to the border and the near-background beside it. |
| FloodFill.FeatherIsGradual | scripts/process-transparent-avatars.py:47-56 | Feathering keeps the colour, gives an alpha of 10 to 255, and more alpha the farther from the background. |

## Left out

- Reminders.Advance: a database statement that throws after the row has been advanced, inside the same `try`, is not a step; it would put a finished row back to active.
- Reminders: cron times and the interval spec's text are not parsed; a cron time is any instant after now, and a period is in whole seconds because the stored slot is.
- Reminders: other rejections of a send are one answer, Failure; the recovery alert, the audit rows and the stall records carry no claim here.
- ReminderScheduler.Scheduler.AdvanceDue: the due query's result is an argument with the query's contract; operators, cancellations, other hub traffic during a scan and a throw that ends it (LeftFiringIff) are steps of the protocol and not of this object.
- Slots: years beyond 9999 and dates off the calendar are left to the parameter that stands for the date parser.
- Slots: the two database handles and a missing store file.
- Json: characters are code points; surrogate pairs and UTF-8 decoding are not modelled, and `JSON.parse` only for the strings and members of an object.
- Lifecycle: logging, the contents of requests and answers, and callbacks that re-enter the object.
- Mailbox: the listeners of a settlement, a replay that dies between a frame and its update, and messages delivered as they are sent.
- Presence: who is entitled to which proxy is an argument of a connect; the empty set that a connect records for its socket when every claim it makes is refused.
- Heartbeat.Heartbeat.RunSweep: a close handler run synchronously inside the sweep is covered by CloseAfterDropChangesNothing, not by the loop.
- RateLimit: floating point; tokens and refill are reals, and a configuration has positive capacity and refill.
- FloodFill.Fill: the alpha is the integer quotient of the float expression; reading and writing image files.
- LogLines.SplitRecoversRendered: a timestamp that holds a bracket; the stream a line goes to.
- LogPayload: a field value is the JSON text it comes to, so a field named `toJSON` that is a function is not modelled.
- LogCounters.Counters.EventCounts: the sort of the result.
- RenameAccount: cells that are NULL in a key column; the account lookup is the listed column `local_users.username`.
- AuditQuery, ChatAudits: redaction, attachments and the error path of an unreadable store.
- Pagination: rows deleted during a walk, except the cursor row of the chat list.
- The rest of the repository: HTTP routes, event streams, sign-in, push, file access, grants, groups, entitlement, cryptography, the web client, and the scripts that drive processes.
