# Verified model of the Pylux desktop client

This project models the event-driven parts of the Pylux desktop client (the Qt program under `gui/`)
in Dafny and proves what they keep over every run. Each part is a step system or a pure specification
with theorems about it, and a class or a method, in the shape of the C++ code, that is proved to make
exactly the specified step. `dafny verify dfyconfig.toml` checks everything.

- `CatalogProtocol.dfy`, `CatalogRuns.dfy`, `CatalogFreshness.dfy`, `CatalogBackend.dfy`: fetching the
  unified cloud catalog. One detached worker per fetch shares three cache files with the GUI thread;
  overlapping fetches park their callbacks; an invalidation makes the running fetch stale, and its
  completion then wipes the files and restarts every waiter. Callbacks may fetch or invalidate again while
  a batch is being delivered.
- `MappingText.dfy`, `MappingEditor.dfy`: the controller-mapping text, its parser and printer, and the
  two indexes that the mapping editor changes in place.
- `PsnGames.dfy`: the keyed merge of installed games, its display order and the new-game count.
- `PsnLimiter.dfy`, `Trophies.dfy`, `TrophyRate.dfy`: the sliding-window request limiter, the
  four-stage trophy chain with its token refreshes, the trophy join, and the chain behind the limiter.
- `SessionOwner.dfy`: which handlers own, replace and delete the stream session.
- `KeyRepeat.dfy`: controller buttons to key events with auto-repeat and the menu chord.
- `GameLauncher.dfy`: the chain of timed actions that starts a game.
- `HostRows.dfy`: the rows of the host list against the lookup by row number.
- `ManualHosts.dfy`: ids of manual hosts and the array that persists them.
- `ReviewThrottle.dfy`: stream-time accounting and the review prompt.
- `Strings.dfy`, `Collections.dfy`: string order, splitting, and filters used by the rest.

Replies, timers, clock readings, callbacks' reactions, SDL mapping strings, device names and the
case-folding function are inputs of the model. JSON values are records in which a missing string reads
as the empty string, as it does in the code. A step is one handler of the GUI thread. A handler is
atomic except where the completion of a catalog fetch calls callbacks, which are separate steps; the
worker thread acts between steps, and what it may touch (the cache files and its own result) is not
read by a handler after the handler has wiped it.

Where the code does less than one might expect, the model follows the code and the theorem says exactly
when the expectation holds:

- A mapping whose type field is `*` takes the joystick's name as its type. If that name contains a
  comma the stored text does not read back, except in the one shape that `TypeReadsBack` names
  (`ReadsBackIff`, `CommaInNameBreaks`).
- Within one batch of catalog callbacks, a callback that invalidates the catalog does not stop the
  remaining callbacks from receiving the old result (`LaterDeliveryFreshIff`,
  `InvalidatingCallbackLeavesOldData`).
- Rows of the host list and row numbers disagree as soon as one host is hidden, matched to a manual
  host, waking, or the suppressed "Main PS4 Console" (`RowsMatchLookupIff`, `HiddenHostBreaksRows`).
- Listing a hidden console that is registered takes it off the hidden list but still hides its row, and
  its record, looked up again after it is gone, is stored as a default one under the empty address, the
  address of every host whose id cannot be read. Such a host is then hidden as well (`DefaultEntryIff`,
  `ListingOnlyUnhidesIff`, `UnhidingHidesUnreadableHost`).
- After a disconnection the launcher still performs the plain delays that come next and nothing else
  (`PerformedAfterDisconnect`, `NothingStartsIff`, `LostBeforeSearchDelays`), and it still reports
  completion if and only if only delays are left (`CompletesDisconnectedIff`,
  `LostInLastPauseCompletes`).
- The rate of PSN requests holds only for a clock that never steps back: one millisecond is too much
  (`RateNeedsSteadyClock`).
- A pending wake-up can lose its session, after which cancelling it would use a missing one. That
  happens exactly when a quit or a failed PSN connection hits the pending wake-up
  (`GuardedIffNeverOvertaken`, `CancelSafeIffNeverOvertaken`, `WakeupFlagCanOutliveSession`).
- Quits and results of PSN connections act on the current session whichever session they come from. They
  find a session, and it is the sender's own, exactly when the sender has not been dropped
  (`OwnIffAlive`); a late report of a replaced session drops the one that replaced it
  (`LateReportDropsOther`).
- A manual host keeps the id invariant if and only if its id is below the counter (`SetKeepsInvIff`).

The table names the theorems and the methods with loops or several branches. A method that only makes one
step of a specification has no row of its own: its contract equates the new state with that step.

## Model

| member | source | states |
|---|---|---|
| CatalogProtocol.EnterWaits | gui/src/cloudcatalogbackend.cpp:221-230 | a fetch adds its callback, if callable, at the end of the waiting ones, and starts a worker only when none is running |
| CatalogProtocol.EnterAllRestarts | gui/src/cloudcatalogbackend.cpp:288-293 | restarting a batch puts all its callbacks back in the same order behind one worker with the current generation |
| CatalogProtocol.CompleteStale | gui/src/cloudcatalogbackend.cpp:277-294 | a stale completion leaves the waiting callbacks exactly as they were, and a worker behind them unless there are none |
| CatalogProtocol.CompleteCurrent | gui/src/cloudcatalogbackend.cpp:269-316 | a current completion turns all waiting callbacks, in order, into the batch to call with the worker's outcome and leaves no worker; settling the locale keeps files and generation, and the next worker starts with it |
| CatalogProtocol.StepKeepsInv | gui/src/cloudcatalogbackend.cpp:207-319 | every step keeps: at most one worker, exactly while the in-flight flag is set; one data origin on disk; submitted = delivered + being delivered + waiting |
| CatalogRuns.RefinesFifo | gui/src/cloudcatalogbackend.cpp:221-317 | each step is one operation of a plain FIFO of waiters: only fetches submit, only deliveries serve, and they serve the head; completions, stale or not, change nothing |
| CatalogRuns.NoCallbackLost | gui/src/cloudcatalogbackend.cpp:207-319 | after any run the callable callbacks submitted are, in order, those delivered, being delivered and waiting; all are delivered when no worker is outstanding |
| CatalogFreshness.DeliveryStartsFresh | gui/src/cloudcatalogbackend.cpp:269-316 | a completion that starts to deliver passes on the outcome posted last, and its data was computed only after the last invalidation and for the account of the last change of settings |
| CatalogFreshness.DiskHoldsOneOrigin | gui/src/cloudcatalogbackend.cpp:735-750 | every cache file holds data of one generation, the outstanding worker's or with no worker the current one, and of the account signed in when that generation began |
| CatalogFreshness.InputsAfter | gui/src/cloudcatalogbackend.cpp:237-308 | over every run the account that a fetch reads is that of the last change of settings and the locale is the last one chosen or settled on by a current success |
| CatalogFreshness.WorkerAfter | gui/src/cloudcatalogbackend.cpp:220-240 | over every step a worker is the one there was or a new one with a new request and the current generation and settings, started by a fetch that found none or by a stale completion with waiters |
| CatalogFreshness.FilesStep | gui/src/cloudcatalogbackend.cpp:735-743 | one step writes into a file all that its worker has read and its own tag, removes a file, wipes all of them, or touches none |
| CatalogFreshness.FilesAfter | gui/src/cloudcatalogbackend.cpp:735-743 | over every run the files on disk are exactly those written since they were last removed or wiped by an invalidation or a stale completion |
| CatalogRuns.LaterDeliveryFreshIff | gui/src/cloudcatalogbackend.cpp:312-316 | a callback later in a batch still gets current data if and only if nothing invalidated since the batch began |
| CatalogRuns.InvalidatingCallbackLeavesOldData | gui/src/cloudcatalogbackend.cpp:312-316 | two fetches share a batch that a successful worker answers, the first callback invalidates, and the second is called with data of the old generation |
| CatalogRuns.DeliveredWithinBudget | gui/src/cloudcatalogbackend.cpp:277-294 | in a run with n invalidations, n + 1 completions (n + 2 from a stale start) deliver every callback submitted before the run |
| CatalogRuns.CanDrain | gui/src/cloudcatalogbackend.cpp:269-317 | from every state that satisfies the invariant a run with at most two completions and no new fetch calls every callback submitted so far |
| CatalogBackend.DeliverAllDelivers | gui/src/cloudcatalogbackend.cpp:312-316 | whatever callbacks do when called, the batch is called as a whole and in order and the invariant is kept |
| CatalogBackend.HandlerServesAllOrNone | gui/src/cloudcatalogbackend.cpp:266-317 | one run of the completion handler calls exactly the waiting callbacks, in order, or on the stale branch none |
| CatalogBackend.DeliverAllIsRun | gui/src/cloudcatalogbackend.cpp:312-316 | the delivery loop is the run in which each callback is delivered in turn, followed by what it does to the backend |
| CatalogBackend.HandlerIsRun | gui/src/cloudcatalogbackend.cpp:266-317 | the completion handler is one completion followed by those deliveries |
| CatalogBackend.CloudCatalogBackend.FetchUnifiedCatalog | gui/src/cloudcatalogbackend.cpp:207-237 | the method makes exactly the fetch step |
| CatalogBackend.CloudCatalogBackend.OnWorkerFinished | gui/src/cloudcatalogbackend.cpp:266-317 | the handler makes exactly the completion step followed by the delivery of its batch with the callbacks' reactions |
| MappingText.ReadFieldsMeaning | gui/src/qmlbackend.cpp:2331-2344 | reading appends to each key exactly the values the fields give it, in text order, over repeated keys, several colons and skipped fields |
| MappingText.InverseMeaning | gui/src/qmlbackend.cpp:2331-2352 | reading binds a physical input to the key of the last field for a button or axis whose key lists it by then, and binds nothing else |
| MappingText.MeaningOfText | gui/src/qmlbackend.cpp:2308-2344 | the first field is the GUID, the second the type or the stand-in for `*`, and the others give their values to their keys |
| MappingText.ParsedIsClean | gui/src/qmlbackend.cpp:2308-2344 | parsed keys and values contain no separator, no key is without values, and only a replaced type can contain a comma |
| MappingText.ReadsBackIff | gui/src/qmlbackend.cpp:2419-2428 | for every mapping of a device without separators in keys and inputs, however it came about, print and re-read gives the same GUID, and the same type and key-to-list map exactly when the type reads back |
| MappingText.RoundTrip | gui/src/qmlbackend.cpp:2308-2350 | for every text with two fields, print and re-read gives the same GUID, and the same type and key-to-list map exactly when the type reads back |
| MappingText.CommaInNameBreaks | gui/src/qmlbackend.cpp:2325-2330 | the text `g,*` of a device named `a,b` does not read back to its type |
| MappingText.RoundTripOfWrittenType | gui/src/qmlbackend.cpp:2419-2428 | a text whose type is not `*` always reads back to the same GUID, type and map |
| MappingText.ColonBreaks | gui/src/qmlbackend.cpp:2325-2330 | a replaced type with a comma and a later colon adds bindings when read again |
| MappingText.PrintedAscending | gui/src/qmlbackend.cpp:2419-2426 | the printed fields come in ascending order of their keys |
| MappingEditor.ParsedIndexes | gui/src/qmlbackend.cpp:2345-2351 | after reading, the inverse index covers exactly the bound inputs, and it is the exact inverse if and only if no input is listed under two keys |
| MappingEditor.ParsedIsInverse | gui/src/qmlbackend.cpp:2331-2352 | a text that lists each input once starts the editor with inverse indexes |
| MappingEditor.MoveKeepsInverse | gui/src/qmlbackend.cpp:2249-2276 | a move keeps the two indexes inverse, with non-empty duplicate-free lists |
| MappingEditor.MoveEffect | gui/src/qmlbackend.cpp:2249-2276 | a move binds its input, unbinds only the displaced one, and changes only the old and the new list |
| MappingEditor.MoveLandsInSlot | gui/src/qmlbackend.cpp:2264-2275 | with at most two inputs per button the moved input lands at the smaller of the slot asked for and the old length, and lists stay that short |
| MappingEditor.PlaceKeepsOrder | gui/src/qmlbackend.cpp:2264-2272 | the inputs that stay in a list keep their order |
| MappingEditor.MoveTwice | gui/src/qmlbackend.cpp:2249-2252 | moving an input again to the button it has changes nothing |
| MappingEditor.UnknownButtonUnbinds | gui/src/qmlbackend.cpp:2249-2276 | a code outside the table takes a bound input off its button and leaves the other buttons alone |
| MappingEditor.EditsKeepInverse | gui/src/qmlbackend.cpp:2221-2281 | over any sequence of edits with buttons of the table the indexes stay inverse |
| MappingEditor.EditedReadsBack | gui/src/qmlbackend.cpp:2221-2428 | after any edits with buttons of the table and inputs without separators, the applied text reads back to the GUID and, exactly when the type reads back, to the type and the edited lists |
| MappingEditor.ButtonNamesAreKeys | gui/src/qmlbackend.cpp:2223-2248 | every button of the table has a non-empty key that is not metadata |
| MappingEditor.ButtonNamesDistinct | gui/src/qmlbackend.cpp:2223-2248 | no two buttons of the table have the same key |
| MappingEditor.ControllerMappingEditor.ControllerMappingUpdate | gui/src/qmlbackend.cpp:2283-2356 | refuses without touching the indexes when a mapping is in progress or the text has fewer than two fields; otherwise reads the text on top of the indexes, which from empty ones is exactly the parsed mapping, and takes the result as applied |
| MappingEditor.ControllerMappingEditor.UpdateButton | gui/src/qmlbackend.cpp:2221-2281 | in any state makes exactly the specified move; a move sets the altered flag to "differs from the applied mapping" and no unsaved change is ever unmarked |
| MappingEditor.ControllerMappingEditor.ControllerMappingApply | gui/src/qmlbackend.cpp:2419-2428 | builds exactly the printed text, keys in ascending order |
| PsnGames.AbsorbMeaning | gui/src/qmlbackend.cpp:3263-3293 | a merge keeps old ids, adds incoming game ids, and the last incoming record of an id wins |
| PsnGames.StoredIdsAfterSync | gui/src/qmlbackend.cpp:3210-3343 | after a sync a device's ids are the old ones and those of the reported games, each with its last reported or old record |
| PsnGames.SyncMerges | gui/src/qmlbackend.cpp:3210-3343 | every device's library becomes the old one with all its reports merged; unreported devices keep their entry; reported ones hold the sorted library under the last name |
| PsnGames.SettingsAfterSync | gui/src/qmlbackend.cpp:3137-3377 | for every device and title the settings hold the last reported record that is a game, or else what they held before |
| PsnGames.EntryAfterSync | gui/src/qmlbackend.cpp:3302-3343 | the entry of a reported device has its last name and a list of records in display order, each title once; other entries are untouched |
| PsnGames.TextIsLeftAlone | gui/src/qmlbackend.cpp:3351-3377 | the stored text stays as it is exactly when there is no device to store |
| PsnGames.KeepsDevices | gui/src/qmlbackend.cpp:3162-3165 | a sync drops no device entry |
| PsnGames.SyncIsIdempotent | gui/src/qmlbackend.cpp:3137-3377 | the same report again changes no entry, counts no new game and announces nothing unless no title is known |
| PsnGames.TotalIsStored | gui/src/qmlbackend.cpp:3338-3377 | with one report per device the announced total is the number of games stored for the reported devices |
| PsnGames.AnnouncedIs | gui/src/qmlbackend.cpp:3351-3377 | with one report per device the number shown is that of the reported games the settings held for no device, on a first sync that of the titles now stored, and otherwise none |
| PsnGames.CountsNewIff | gui/src/qmlbackend.cpp:3283-3288 | the new-game count is positive exactly when a game was reported that the settings hold for no device |
| PsnGames.EntryReadsBack | gui/src/qmlbackend.cpp:3302-3343 | a stored library reads back as the same library |
| PsnGames.EachTitleOnce | gui/src/qmlbackend.cpp:3302-3343 | no title id is stored twice for a device |
| PsnGames.GameListHolds | gui/src/qmlbackend.cpp:3302-3336 | the stored list is a permutation of the merged records and is sorted |
| PsnGames.StrictWeakOrder | gui/src/qmlbackend.cpp:3308-3331 | the comparator is irreflexive, asymmetric and transitive, and ties are transitive |
| PsnGames.TiedMeaning | gui/src/qmlbackend.cpp:3308-3331 | two games tie exactly when they agree on the field that decides between them |
| PsnGames.DisplayOrder | gui/src/qmlbackend.cpp:3307-3331 | dated games come first, newest first, then undated ones by case-folded name |
| PsnGames.SavePsnGamesFromDevices | gui/src/qmlbackend.cpp:3137-3377 | the method stores and announces exactly what the specification says |
| PsnLimiter.RequestLimiter.CanMakePsnRequest | gui/src/qmlgamesbackend.cpp:47-67 | prunes the list, decides and records exactly as specified |
| PsnLimiter.PrunedListDecidesAsHistory | gui/src/qmlgamesbackend.cpp:52-61 | with a non-decreasing clock a call is granted exactly when fewer than five of all requests ever granted are at most 1000 ms old |
| PsnLimiter.SixGrantsSpanASecond | gui/src/qmlgamesbackend.cpp:49-66 | with a non-decreasing clock any six consecutive grants of any run span more than 1000 ms |
| PsnLimiter.RateNeedsSteadyClock | gui/src/qmlgamesbackend.cpp:50-57 | the rate holds over every run in which the clock falls back by at most d if and only if d is zero: one millisecond already breaks it |
| PsnLimiter.GrantedWithinSixRetries | gui/src/qmlgamesbackend.cpp:116-122 | a lone caller that retries every 200 ms or slower is granted by its sixth retry |
| PsnLimiter.FiveRetriesCanFail | gui/src/qmlgamesbackend.cpp:116-122 | five retries are not always enough |
| Trophies.JoinKeepsDefinitions | gui/src/qmlgamesbackend.cpp:506-533 | the join keeps order, count, ids and non-progress fields, and leaves unmatched definitions as they are |
| Trophies.JoinProgress | gui/src/qmlgamesbackend.cpp:497-533 | the join through an id map computes the nested-loop join with the last record of each id |
| Trophies.JoinIsJoin | gui/src/qmlgamesbackend.cpp:497-533 | field by field: definitions in order, each with `earned` and the present progress fields of the last record with its id, or unchanged without one |
| Trophies.StepKeepsInv | gui/src/qmlgamesbackend.cpp:236-295 | each event keeps the request and refresh budgets and, unless the limiter refuses, decreases the measure |
| Trophies.ChainBounds | gui/src/qmlgamesbackend.cpp:236-560 | whatever the replies, at most seven requests and three refreshes, at most one emission, a cache write exactly with the full data, and some step is due exactly until the emission |
| Trophies.ReportsItsTitle | gui/src/qmlgamesbackend.cpp:236-560 | through all stages and retries everything emitted and cached is under the title id asked for, and nothing but the title named by the first reply is reported |
| Trophies.AnswersWhatWasReplied | gui/src/qmlgamesbackend.cpp:236-560 | over every finished run the one answer is what the replies call for: empty, the title alone, the definitions, or the definitions joined with the progress, from the replies of their stages; it is cached exactly with the trophies |
| Trophies.SevenRequestsHappen | gui/src/qmlgamesbackend.cpp:320-328 | a run with seven requests and three refreshes exists |
| Trophies.TrophyFetch.FetchTrophyData | gui/src/qmlgamesbackend.cpp:180-234 | a cache entry younger than a day answers at once; otherwise a request goes out exactly when there is a title, a token and a free slot |
| Trophies.TrophyFetch.OnReplyFinished | gui/src/qmlgamesbackend.cpp:236-560 | the handler makes exactly the step of its stage and writes the cache exactly when the fetch finishes |
| TrophyRate.StepKeepsWaiting | gui/src/qmlgamesbackend.cpp:298-305 | with no competing request, while a request waits nothing enters the limiter's list and its refusals, 200 ms apart, are at most six |
| TrophyRate.LoneFetchEnds | gui/src/qmlgamesbackend.cpp:180-560 | with no competing request, whatever the replies and the limiter's list: at most six refusals per request, the first included, and 42 in all, at most 62 events, and some event is due exactly until the emission |
| SessionOwner.StepKeepsInv | gui/src/qmlbackend.cpp:161-234 | every handler keeps: the log context is the current session's, and every session is the current one or scheduled for deletion once |
| SessionOwner.DiscoverKeepsInv | gui/src/qmlbackend.cpp:2461-2510 | the loop over discovered hosts keeps the ownership invariant whatever the hosts are |
| SessionOwner.OneOwnerAlways | gui/src/qmlbackend.cpp:1009-1071 | over every interleaving: log context current or none, exactly the current session unscheduled, none scheduled twice |
| SessionOwner.LifeOfSession | gui/src/qmlbackend.cpp:161-234 | over every handler an alive session ends exactly by its own failed start, a quit, a failed PSN connection, a cloud session or the cancelling of its wake-up; a new one begins exactly when it is made and its start does not fail; what ends is scheduled and nothing else |
| SessionOwner.PassOutcome | gui/src/qmlbackend.cpp:2461-2510 | a pass over the hosts ends the pending wake-up exactly when it finds the console awake, and the session exactly when the start then fails |
| SessionOwner.PassNotes | gui/src/qmlbackend.cpp:2461-2510 | a pass that wakes no console notes the first one in standby, and one that starts the session goes on after it |
| SessionOwner.WakeupAfter | gui/src/qmlbackend.cpp:1817-1836 | over every handler, when a wake-up becomes pending, when it is over, and what changes the name of its console |
| SessionOwner.GuardedAfterIff | gui/src/qmlbackend.cpp:1009-1071 | from a state in which a pending wake-up has its session, a handler leaves it without one if and only if it is a quit or a failed PSN connection that hits the pending wake-up |
| SessionOwner.GuardedIffNeverOvertaken | gui/src/qmlbackend.cpp:1817-1836 | over every run, a pending wake-up has its session at every moment if and only if no quit and no failed PSN connection hits it; then cancelling is safe throughout |
| SessionOwner.CancelSafeIffNeverOvertaken | gui/src/qmlbackend.cpp:1817-1836 | over every run whose discovered hosts have names, cancelling is safe at every moment if and only if no quit and no failed PSN connection hits a pending wake-up |
| SessionOwner.WakeupFlagCanOutliveSession | gui/src/qmlbackend.cpp:1817-1833 | a wake-up followed by a cloud session and its quit leaves a state in which cancelling would use a missing session |
| SessionOwner.CurrentIffAlive | gui/src/qmlbackend.cpp:161-234 | with one owner, a session is the current one if and only if it exists and has not been dropped |
| SessionOwner.OwnIffAlive | gui/src/qmlbackend.cpp:215-234 | over every sequence of events, every quit and every result of a PSN connection finds a session, and it is the sender's own, if and only if each is sent by a session that has not been dropped |
| SessionOwner.LateReportDropsOther | gui/src/qmlbackend.cpp:166-230 | a replaced session that quits, or whose PSN connection fails, late drops the cloud session that replaced it, and the quit of that one finds none |
| SessionOwner.RulesRunIsLegal | gui/src/qmlbackend.cpp:161-234 | new sessions are new, senders are not dropped and no wake-up is overtaken if and only if every handler finds the session it uses, each report its sender's, and no wake-up is overtaken; then cancelling is safe throughout |
| SessionOwner.QmlBackend.CreateSession | gui/src/qmlbackend.cpp:1073-1311 | adopts a new session unless one exists, and starts it, hands it to PSN or waits for the console |
| SessionOwner.QmlBackend.UpdateDiscoveryHosts | gui/src/qmlbackend.cpp:2461-2510 | the loop makes exactly the specified pass over the matching hosts |
| KeyRepeat.RepeatsOnlyWhileHeld | gui/src/qmlcontroller.cpp:31-62 | in every reachable state an active timer belongs to a button still held and has fired fewer than 50 times, even when several buttons change at once |
| KeyRepeat.PressSendsAtMostFiftyRepeats | gui/src/qmlcontroller.cpp:31-62 | from any state that satisfies the invariant, an event in which k buttons go down is followed by at most k + 50 keys before the next press |
| KeyRepeat.ChangeSends | gui/src/qmlcontroller.cpp:53-67 | a change of the mask sends one key per button of the table that goes down, and the chord exactly on its release |
| KeyRepeat.ChangeSendsKeys | gui/src/qmlcontroller.cpp:53-67 | a change of the mask sends the keys of the buttons that go down, in table order, and then the chord if it is released |
| KeyRepeat.ChangeTimer | gui/src/qmlcontroller.cpp:53-62 | the timer restarts for the last key that goes down and stops when the button of its key is let go |
| KeyRepeat.TickSends | gui/src/qmlcontroller.cpp:31-37 | a tick sends one key, that of a button still held, and is the last one after fifty |
| KeyRepeat.HeldKeyRepeats | gui/src/qmlcontroller.cpp:31-62 | a key held down is sent again at each of exactly fifty ticks |
| KeyRepeat.RepeatInterval | gui/src/qmlcontroller.cpp:31-59 | in every reachable state the first repeat comes after 250 ms and further ones after 80 ms |
| KeyRepeat.StickHolds | gui/src/qmlcontroller.cpp:43-51 | a deflected stick holds the button of its direction and leaves the others |
| KeyRepeat.StickIsArrow | gui/src/qmlcontroller.cpp:43-60 | with no button held a stick pushed one way sends the arrow key of that way |
| KeyRepeat.KeyMapIsTable | gui/src/qmlcontroller.cpp:8-22 | the program's table has one row per key and none for the chord, as the results about any table need |
| KeyRepeat.ChordOncePerRelease | gui/src/qmlcontroller.cpp:64-67 | over every run the menu chord is sent once per falling edge of "all held", and never for the empty shortcut |
| KeyRepeat.QmlController.OnStateChanged | gui/src/qmlcontroller.cpp:39-71 | the state handler adds the stick directions and makes exactly the change step |
| GameLauncher.RunIsOrderly | gui/src/gamelauncher.cpp:201-325 | at every moment of a connected run the actions so far were performed once and in order, at most one timer is pending, it runs for exactly the time the action is held or paused after, the controller shows the action being held and is neutral when a continuation runs, and the clock is exact |
| GameLauncher.RunCompletes | gui/src/gamelauncher.cpp:279-325 | a connected run completes with all actions performed once and in order after exactly their timers and their summed delays |
| GameLauncher.NothingAfterShutdown | gui/src/gamelauncher.cpp:54-61 | after a shutdown timers do nothing |
| GameLauncher.PerformedAfterDisconnect | gui/src/gamelauncher.cpp:172-318 | after a disconnection exactly the plain delays that come next in the list are performed, one per timer and only when the pending timer continues the list, and nothing else ever |
| GameLauncher.NothingStartsIff | gui/src/gamelauncher.cpp:172-318 | no further action ever starts after a disconnection if and only if it is not so that the pending timer continues the list with a plain delay |
| GameLauncher.OnlyDelaysAfterDisconnect | gui/src/gamelauncher.cpp:172-277 | after a disconnection only delays are performed |
| GameLauncher.CompletesDisconnectedIff | gui/src/gamelauncher.cpp:172-318 | a launch under way whose session disconnects reports completion if and only if the pending timer continues the list and every action left is a plain delay |
| GameLauncher.LaunchTakes | gui/src/gamelauncher.cpp:89-166 | the launch sequence completes after 11600 ms with every action performed |
| GameLauncher.LostInLastPauseCompletes | gui/src/gamelauncher.cpp:89-166 | the launch sequence still reports completion when the session is lost in its last pause |
| GameLauncher.LostBeforeSearchDelays | gui/src/gamelauncher.cpp:89-166 | the launch sequence performs one more action when the session is lost in the pause before the search text |
| GameLauncher.Launcher.OnTimeout | gui/src/gamelauncher.cpp:172-277 | a timer runs exactly its continuation |
| HostRows.RowsMatchLookupIff | gui/src/qmlbackend.cpp:870-994 | rows and lookup agree everywhere if and only if no host that the lookup counts is left out of the rows |
| HostRows.RowsMeaning | gui/src/qmlbackend.cpp:937-994 | the rows are the shown discovered hosts, the manual hosts that no discovered host is, and the PSN hosts neither discovered nor waking nor the PS4 entry with no PS4 missing, in this order |
| HostRows.ShownWhen | gui/src/qmlbackend.cpp:880-942 | a discovered host has a row unless its address is hidden when its turn comes |
| HostRows.HiddenHostBreaksRows | gui/src/qmlbackend.cpp:937-942 | one hidden host and nothing else: no row, while row 0 looks up the host |
| HostRows.DisplayServerAt | gui/src/qmlbackend.cpp:1838-1920 | looks up exactly the index-th of discovered, manual and undiscovered PSN hosts, and nothing outside |
| HostRows.PsnAt | gui/src/qmlbackend.cpp:1888-1917 | the counting loop finds the j-th survivor of the filter over the PSN hosts |
| HostRows.Hosts | gui/src/qmlbackend.cpp:870-994 | the loops build exactly the specified rows and leave exactly the specified hidden list |
| HostRows.HiddenRealMac | gui/src/qmlbackend.cpp:880-887 | listing takes a real address off the hidden list if and only if a registered host with it is listed, and adds none |
| HostRows.DefaultEntryIff | gui/src/qmlbackend.cpp:888-898 | listing leaves the empty address hidden if and only if it was hidden, or the first host listed with some registered hidden address has a name, and in either case no later host that is nameless, unreadable and registered takes it off |
| HostRows.ListingOnlyUnhidesIff | gui/src/qmlbackend.cpp:880-898 | listing only takes entries off the hidden list if and only if the empty address was hidden before or does not stay |
| HostRows.UnhidingHidesUnreadableHost | gui/src/qmlbackend.cpp:880-898 | after a registered hidden console a host whose id cannot be read is hidden too |
| ManualHosts.SaveThenLoad | gui/src/settings.cpp:2483-2517 | saving then loading restores the same map and counter whatever stale entries the array has |
| ManualHosts.StoreMirrorsMap | gui/src/settings.cpp:2519-2536 | after any set or removal the stored array loads back to the map in memory |
| ManualHosts.SetIsFound | gui/src/settings.cpp:2483-2529 | a host that was set is found with all its fields, in memory and after loading, whatever happens to others |
| ManualHosts.RemovedIsGone | gui/src/settings.cpp:2504-2536 | a host that was removed is found no more, in memory or after loading, until its id is set again |
| ManualHosts.LoadMeaning | gui/src/settings.cpp:2483-2502 | under each id the last array entry with that id, and nothing under other ids |
| ManualHosts.CounterAfterLoad | gui/src/settings.cpp:2491-2499 | loading raises the id counter above every id of the array and no further |
| ManualHosts.IdsNeverReused | gui/src/settings.cpp:2519-2529 | over all runs keys are their hosts' ids below the counter, the counter never goes down, and a new host's id was never issued or loaded before |
| ManualHosts.SetKeepsInvIff | gui/src/settings.cpp:2519-2529 | setting a host keeps the invariant if and only if its id is below the counter |
| ManualHosts.WrittenReadsBack | gui/src/host.cpp:133-151 | a saved host loads back as the same host |
| ManualHosts.ListedAscending | gui/src/settings.cpp:2504-2517 | the hosts are written in ascending order of their ids |
| ManualHosts.Settings.LoadManualHosts | gui/src/settings.cpp:2483-2502 | the loop loads exactly what the specification says |
| ManualHosts.Settings.SaveManualHosts | gui/src/settings.cpp:2504-2517 | the loop writes exactly the hosts in id order |
| ManualHosts.Settings.SetManualHost | gui/src/settings.cpp:2519-2529 | allocates or keeps the id, stores the host and saves |
| ReviewThrottle.StoredIsKept | gui/src/donationmanager.cpp:96-119 | from any state the stored total grows by the time on a timer that will be flushed and the open time of the sessions that end by a flush |
| ReviewThrottle.TotalIsOpenTime | gui/src/donationmanager.cpp:96-119 | over every run the total is the open time of the sessions that end by a flush, and with the open time of the others it is the whole open time, however often connects and flushes repeat |
| ReviewThrottle.NothingMissing | gui/src/donationmanager.cpp:96-119 | when no session is cut off by a launch or still open, the total is the whole open time |
| ReviewThrottle.PromptsAreEarned | gui/src/appreviewmanager.cpp:53-81 | over any run at most one prompt per launch, and k prompts take at least 10 + 60 (k - 1) minutes of stream time |
| ReviewThrottle.PromptsAreSpaced | gui/src/appreviewmanager.cpp:53-81 | over every run the first prompt comes after ten minutes of stream time and each further one sixty minutes of it after the one before actually came |
| ReviewThrottle.PromptedIff | gui/src/appreviewmanager.cpp:28-81 | after any run an event prompts exactly when it is the first activation since arming in this launch, the time needed has been streamed and no donation offer is active |
| ReviewThrottle.PromptedExactlyWhenEarned | gui/src/appreviewmanager.cpp:28-81 | after any run a launch prompts exactly when the stream time has come to ten minutes, or to sixty more than when the last prompt came, and no donation offer is active |

## Left out

- Wrap-around of the 64-bit generation and request counters and of the 32-bit host id counter: they are unbounded numbers here.
- What the catalog worker computes: it is any sequence of reads, writes and removals of its cache files that ends with a result tagged by what it read.
- The backend being destroyed, or the program quitting, while a catalog worker runs.
- Details of a single game, image caches and Steam shortcuts of the catalog backend.
- MappingEditor.EditsKeepInverse: covers buttons of the table only; a code outside it acts on the empty key, whose list the invariant leaves out (UnknownButtonUnbinds says what one such edit does).
- The comparison with the default mapping text when a mapping is applied, and handing texts to the controller library.
- PsnGames.SavePsnGamesFromDevices: sorts by insertion; the original leaves the order of tied games to its library's sort, and no theorem except equality of whole entries in SyncIsIdempotent depends on it.
- TrophyRate.LoneFetchEnds: takes the trophy cache and the token as unchanged while the first request waits for the limiter, although each retry of it looks at both again; a change can only end the fetch sooner.
- JSON parsing and printing, fields that no rule reads (carried as one opaque field), and Unicode case folding (any function of a name).
- Keyboard input by the user that shares the launcher's controller state, and a second connection while a launch is running.
- The other columns of a host row (address, state, registration), and last-known addresses and the nicknames of hidden hosts updated while rows are built.
- Wake, sleep and PSN reconnect loops, whose end depends on overlapping remote replies.
- Writing settings files, the donation offer itself (with offers disabled no stream time is counted), and every view.
