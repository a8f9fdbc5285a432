# Verified models of Margince's relay connector, notes unit and build tools

A Dafny model of five pieces of Margince whose correctness is in how their steps
combine, and proofs about every run of them. `dafny verify dfyconfig.toml` checks
the whole project.

**The relay poll protocol** (`extensions/relay-probe`). A provider serves an inbox
newest first, in pages of at most 50. A tick walks it backwards under a page
budget, lands each directed notification through an idempotent ingest, and writes a
three-number cursor (`floor`, `gap`, `top`) with a compare-and-set on the row's
version.

- `RelayFeed`, `RelayInbox`, `RelayWalk`: a page, the backward walk as a loop over
  requests that may fail or be answered after new arrivals, and the exact closed
  form of what it returns.
- `RelayCursor`: the cursor arithmetic, and what a cursor says has been read.
- `RelayRecord`: the filter and the natural key. `RelayTable`, `RelayStore`: the
  connection rows, their version guard and their ledger, as functions and as the
  class that updates them in place.
- `RelayPollSteps`, `RelayProtocol`: arrivals, connects, disconnects and any number
  of overlapping, failing and crashing polls as one state machine, step by step,
  with the invariant every step keeps. `RelaySafety`: what every run keeps.
- `RelayStatus`: when a connection is parked, how it is repaired, and what its ledger
  says happened.
- `RelayLanding`, `RelayPoll`, `RelayPollSafety`: the poll as its methods run it.
  `RelayFates`, `RelayPollFates`: what becomes of each notification, told from itself
  and the core's answer to it, and what a failed poll failed of.
  `RelayRefines`: such a poll is a run of the state machine, so what holds of every
  run holds of it.
- `RelayProgress`, `RelayBacklog`: backlogs close, and how fast, over a quiet inbox
  and while messages keep arriving. `RelayFirstPoll`: what a connection never reads,
  exactly and for good.
- `RelayFleet`: a tick over all members, its answer and its fairness.
- `RelaySend`: sending under a core that retries.

**The waiter-budget reader** (`frontend/scripts/test-budget.ts`): an abstract
interpreter over calls and helpers with a recursion guard and a memo table
(`WaiterSyntax`, `WaiterBudget`), an independent meaning of what a test may spend
(`WaiterMeaning`), the promise that every uncertainty is reported
(`WaiterExactness`), and exactly which ones are (`WaiterDoubts`).

**The notes ledger** (`extensions/notes`): `NotesRows`, `NotesLedger`,
`NotesPad`, `NotesHistory`, over `Text`.

**The comment scanner** (`frontend/scripts/vite-inline-views.ts`): `CssTokens`,
`CssComments`, over `Text`.

**The launcher's disk** (`desktop/launcher`): `LauncherDisk`, `LauncherSafety`.

`Wrappers` and `RelayErrors` hold the shared result types and error classes.

## How the model is built

Code that changes things step by step is a method or a class whose methods are
proved equal to a function of the old state, loop by loop; the theorems are about
those functions and about all sequences of them. Code made of expressions is
functions.

Assumed of what lies outside the code shown:

- Notification ids are positive, arrive in increasing order within an inbox, and
  are issued once per provider workspace. One member at one base URL always reads
  the same account, in a workspace whose id the provider never changes: the key is
  built from it, and under a new one everything would land again
  (`RelayRecord.NewWorkspaceLandsAgain`).
- A page is newest first and leaves nothing out between its ids; it may hold any
  number of them, and may say there is more where there is not, but not the reverse.
- A transaction is atomic. The core takes at most one record per key. A record it
  accepts is in it; one it answers as skipped is deliberately not, and a breadcrumb
  names its key (`backend/pkg/extension/ingress.go:429-453`).
- Row versions and row ids are unbounded integers; the order of rows by creation is
  the order of their ids; the database's clock gives each write a later stamp.
- A rename is atomic and, once made, stays made; initdb flushes what it reports
  finished; one launcher runs at a time.
- A timeout the reader of test files cannot see may have any value, and every
  resolution of a repeated helper name is possible. Where a call has several options
  objects, the first to state a timeout states the call's. Each waiter and each call
  to a helper written in a body runs once; a call to a name the file does not declare
  waits for nothing.

## What the code does, where its own account differs

- `extensions/relay-probe/walk.go:32-36` bounds one tick's paging across both walks at
  four pages. That holds while every page that reports more is full; the forward walk
  is charged by its items (`extensions/relay-probe/poll.go:167`), so shorter pages are
  under-counted, up to seven requests (`RelaySafety.PollsStayInBudget`,
  `RelayBacklog.ShortPagesOverspend`). Nothing else depends on pages being full.
- `extensions/relay-probe/walk.go:38-42` says connecting an account brings in what
  arrives from now on. What it brings in is what lies above the baseline, and the
  baseline is fixed by the first poll that saves a walk which found anything, from the
  one page it fetched: an id lies under it for good exactly when at least as many
  newer ones as that page had room for, 50 on a full one, stood above it then
  (`RelayFirstPoll.UnderTheBaselineForGood`), and no poll begun
  after that save ever looks there (`RelayFirstPoll.NobodyLooksUnder`). A message comes
  to lie there in two ways. Polls of an empty inbox fix nothing, and then more than 50
  arrive (`RelayProgress.FirstPollCanMiss`). Or a first poll finds its page and fails:
  against `extensions/relay-probe/poll.go:155-158`, the next tick does not walk the same
  region again but whatever page is newest by then
  (`RelayProgress.FailedFirstPollCanMiss`).
- `extensions/relay-probe/walk.go:30-36` puts the rate at which a poll is permanently
  behind at 200 notifications a tick. A backlog closes below 150
  (`RelayBacklog.BacklogClosesUnderLoad`) and stays from 150 on
  (`RelayBacklog.BacklogStaysUnderLoad`): the newest region is charged a fourth page
  from 150 ids, which leaves none for the backlog.
- `frontend/scripts/test-budget.ts:18-23` says every uncertainty is reported. It is not
  for a timeout standing before a spread or a second timeout
  (`WaiterSyntax.LateSpreadIsMissed`), under a computed key or a `__proto__`, or as a
  getter, setter or method (`WaiterSyntax.AccessorIsMissed`); `WaiterSyntax.ReadRightExactly`
  gives exactly when an object is read right. Nor for a spread that stands first among
  a call's arguments (`WaiterSyntax.LeadingSpreadIsMissed`); `WaiterSyntax.CallReadExactly`
  gives exactly when a call is read right or reported. A helper whose name matches
  the waiter pattern is charged as a bare waiter
  (`WaiterExactness.WaiterNamedHelperIsUnderCharged`). The exactness theorems name these
  conditions; the memo's needs none of them.
- The connection ledger does not rebuild `last_error_class`, which a poll that moved
  nothing clears unrecorded (`RelayTable.QuietSaveHidesTheClass` says exactly when).
- The notes ledger replays for human notes only: removing a tick's row records the
  erasure of something whose creation was not recorded (`NotesLedger.TicksDoNotReplay`).
- Stripping comments is not idempotent (`CssComments.IdempotentExactly` says exactly
  when it is).
- The bootstrap password, unlike the configuration, is written in place and never
  flushed. It is whole exactly when the launch that made it got every byte written and
  no power cut since lost any (`LauncherSafety.PasswordWholeExactly`), and nothing mends
  it (`LauncherSafety.PasswordOnlyShrinks`, `LauncherSafety.PasswordCanBeLost`).
- `desktop/launcher/main.go:191-193` says the password is shown on the very first launch.
  It is shown by the launch that stores it, and only if that launch comes up: stored by
  one that then fails, it is never shown (`LauncherSafety.AnnouncedExactly`), though its
  file stays.

## Model

| member | source | states |
|---|---|---|
| RelayFeed.CountBelowIs | extensions/relay-probe/client.go:297-300 | in an ascending feed, the ids under a bound are exactly a prefix, of the length the page arithmetic uses |
| RelayInbox.Client.Inbox | extensions/relay-probe/client.go:301-333 | one request is answered from the feed as it is by then, and is counted |
| RelayInbox.TakeItems | extensions/relay-probe/walk.go:96-108 | of one page, the items above the stop id are taken in order, and reaching the stop is told from running out |
| RelayInbox.FetchPage | extensions/relay-probe/walk.go:92-118 | one turn of the walk ends it, continues it or fails it, as the specification says, provider state included |
| RelayInbox.WalkInbox | extensions/relay-probe/walk.go:88-121 | the loop computes the walk, with the requests it spent |
| RelayWalk.WalkHasNoHole | extensions/relay-probe/walk.go:69-121 | against any script of arrivals, faults and pages of any length the walk is a hole-free slice, newest first, each once and all above the stop, and closed only when nothing above the stop is left under it |
| RelayWalk.WalkIsASlice | extensions/relay-probe/walk.go:82-121 | and of full pages exactly how far: it closes exactly when the stop or the start of the feed lies within the budget, and otherwise holds exactly budget full pages |
| RelayWalk.FetchExtends | extensions/relay-probe/walk.go:92-118 | one page extends the slice downwards with no hole, or closes it, or some request was not healthy |
| RelayWalk.ResumesBelow | extensions/relay-probe/walk.go:76-87 | whatever arrives between two pages, the next page starts right under what is already held |
| RelayCursor.ForwardCovers | extensions/relay-probe/walk.go:143-163 | after a forward walk whose items were all decided, nothing the new cursor has passed is undecided, its shape is one of two, and neither floor nor newest decided id went down |
| RelayCursor.BackfillCovers | extensions/relay-probe/walk.go:165-176 | the same after a walk of the backlog, whether it closed the gap or moved it down |
| RelayCursor.CoversGrows | extensions/relay-probe/walk.go:10-21 | arrivals and further decisions never uncover what a cursor has passed |
| RelayRecord.DecimalInjective | extensions/relay-probe/record.go:59-69 | two ids with the same decimal form are one id |
| RelayRecord.LastColon | extensions/relay-probe/record.go:59-69 | what follows a key's last colon is the id, whatever the workspace holds |
| RelayRecord.NewWorkspaceLandsAgain | extensions/relay-probe/record.go:59-69 | the same notification under a new workspace id is a new record |
| RelayRecord.KeyInjective | extensions/relay-probe/record.go:59-69 | the natural key tells every workspace and id apart, colons in the workspace included |
| RelayTable.ConnectRebuilds | extensions/relay-probe/connection.go:158-189 | connecting keeps the ledger replaying to the table, with a true before-image |
| RelayTable.DisconnectRebuilds | extensions/relay-probe/connection.go:251-285 | disconnecting keeps it |
| RelayTable.SaveCursorRebuilds | extensions/relay-probe/poll.go:338-376 | saving a cursor keeps it, whether or not the write is recorded |
| RelayTable.NoteFailureRebuilds | extensions/relay-probe/pollfailure.go:133-163 | noting a failure keeps it |
| RelayTable.NoteDropRebuilds | extensions/relay-probe/poll.go:293-311 | noting a drop keeps it |
| RelayTable.QuietSaveHidesTheClass | extensions/relay-probe/poll.go:347-374 | after a successful save the ledger still tells the error class rightly exactly when the cursor moved or there was no class |
| RelayStore.ConnectionTable.Connect | extensions/relay-probe/connection.go:127-195 | a caller with nobody behind it is refused and changes nothing; otherwise the row is connected to this address with no failure against it, under a new version, its cursor reset exactly when the deployment changes, and both images recorded |
| RelayStore.ConnectionTable.Disconnect | extensions/relay-probe/connection.go:251-285 | the row goes and its erasure is recorded, or nothing changes and false is answered |
| RelayStore.ConnectionTable.SaveCursor | extensions/relay-probe/poll.go:338-376 | the cursor is written only over the version read; unmoved cursors are not recorded |
| RelayStore.ConnectionTable.NoteFailure | extensions/relay-probe/pollfailure.go:133-163 | a failure is noted only over the version read, and parks the row exactly on a rejected token |
| RelayStore.ConnectionTable.NoteDrop | extensions/relay-probe/poll.go:293-311 | a drop appends one entry and touches no row |
| RelayPollSteps.SortByIdSorts | extensions/relay-probe/poll.go:222-231 | landing order is by ascending id and a permutation of what was fetched |
| RelayPollSteps.HighestOfSlice | extensions/relay-probe/poll.go:222-253 | what a finished landing reports as processed is the newest id of the slice walked |
| RelayPollSteps.PagedSound | extensions/relay-probe/walk.go:88-121 | fetching one page, of any length, keeps everything known of a poll in flight |
| RelayPollSteps.ConcludedSound | extensions/relay-probe/poll.go:146-190 | ending a landing moves the poll to a cursor that passes nothing undecided, or on to its backlog within its budget |
| RelayPollSteps.PollGrows | extensions/relay-probe/walk.go:10-21 | arrivals and other polls' decisions keep everything known of a poll in flight |
| RelayProtocol.StepMovesRows | extensions/relay-probe/connection.go:164-184 | every step leaves a row as it was, or puts it under a higher version, or under an id never used before |
| RelayProtocol.StaleStaysStale | extensions/relay-probe/poll.go:340-364 | once the row on file is not the one a poll read, no step makes it so again |
| RelayProtocol.KeysTellApart | extensions/relay-probe/record.go:59-69 | no two notifications of any inboxes share a key |
| RelayProtocol.IngestKeeps | extensions/relay-probe/poll.go:263-285 | landing a notification the core accepts, again or for the first time, keeps one record per key |
| RelayProtocol.DecideItemKeeps | extensions/relay-probe/poll.go:263-311 | whatever becomes of an item (accepted, skipped by the core, unrepresentable, refused for good), it is decided afterwards and nothing else is disturbed |
| RelayProtocol.StepKeepsInv | extensions/relay-probe/poll.go:138-376 | every step of the protocol keeps its invariant: arrivals, connects, disconnects, page fetches, decisions, saves, noted failures and crashes, in any interleaving |
| RelaySafety.NothingIsLost | extensions/relay-probe/walk.go:10-21 | in every reachable state each notification the stored cursor has passed was filtered, is a drop the ledger records under the connection that made it, was skipped by the core, or is in the core exactly once and as itself |
| RelaySafety.NothingLandsTwice | extensions/relay-probe/record.go:20-69 | over every run, each notification is in the core at most once and nothing else is there in its place |
| RelaySafety.StoredCursorsAreSound | extensions/relay-probe/walk.go:44-66 | every stored cursor is gapless or floor < gap <= top, and its numbers are ids of the deployment its row names |
| RelaySafety.PollsStayInBudget | extensions/relay-probe/poll.go:146-172 | while its pages that report more are full no poll asks for more of them than its budget; of any pages for fewer than two budgets; and a first poll that got to landing asked for exactly one |
| RelaySafety.LedgerRebuildsTable | extensions/relay-probe/ledger.go:52-85 | in every reachable state the ledger replays to exactly the rows, with their deployment, status and cursor, and every before-image is true |
| RelaySafety.StalePollsNeverWrite | extensions/relay-probe/poll.go:340-364 | once its row was written by anyone else, a poll changes nothing at any later time, by cursor or by failure |
| RelaySafety.CursorsOnlyAdvance | extensions/relay-probe/walk.go:123-176 | within one deployment neither the floor nor the newest decided id ever goes down, over any run, and a fixed baseline stays |
| RelayStatus.ClassExactly | extensions/relay-probe/pollfailure.go:165-184 | which class each error gets, for every combination of what it wraps |
| RelayStatus.AnswersAreNotedAs | extensions/relay-probe/client.go:387-436 | a request's answer is noted as a rejected token, and parks the row, exactly on 401 and 403; as unavailable exactly when unanswered, throttled or failing; otherwise as an unusable answer |
| RelayStatus.ParkedExactly | extensions/relay-probe/pollfailure.go:127-163 | after any run a row needs a new token exactly when the last write over it was of a failure holding a rejected one, no connect or successful poll since, and its class is that failure's |
| RelayStatus.ConnectRepairs | extensions/relay-probe/connection.go:158-189 | in every reachable state a connect leaves a row connected to that address with nothing held against it, which can be polled at once, is in every tick's order, and is out of reach of every poll in flight |
| RelayStatus.RepairHolds | extensions/relay-probe/pollfailure.go:141-163 | and it stays so until a poll begun since fails, however late older ones fail |
| RelayStatus.RowsNameTheirWorkspace | extensions/relay-probe/poll.go:331-356 | over every run a row that has read anything names the workspace of the account it reads, never a former one |
| RelayStatus.EntriesSayWhatHappened | extensions/relay-probe/ledger.go:34-85 | over every run each entry's verb can be told from its images: connects, polls, parkings, disconnects and drops |
| RelayLanding.LandAllDecides | extensions/relay-probe/poll.go:222-253 | landing decides every item up to where it stops, lands, skips or drops nothing else, and touches no row |
| RelayLanding.ResolveSenders | extensions/relay-probe/poll.go:318-329 | senders are looked up in one call, or the landing fails; with nobody to look up there is no call to fail |
| RelayLanding.LandOne | extensions/relay-probe/poll.go:263-285 | an item the core accepts or skips is done with; one it refuses as invalid is a recorded drop and not a failure, unless that record fails; any other refusal is the answer, with no drop recorded |
| RelayLanding.LandAll | extensions/relay-probe/poll.go:222-253 | the loop lands in id order and answers how far it got |
| RelayFates.DirectedExactly | extensions/relay-probe/record.go:20-47 | a notification is directed exactly when it is of one of five kinds and no bot sent it |
| RelayFates.RecordNamesBothEnds | extensions/relay-probe/record.go:49-108 | a record is built exactly where the sender has an address, and names both ends |
| RelayFates.FateExactly | extensions/relay-probe/poll.go:231-285 | an item is filtered, unaddressed or answered for its own reasons, and by the answer whose turn it is |
| RelayFates.DropEntriesAre | extensions/relay-probe/poll.go:263-311 | an entry is among the drops exactly when it is of an item without an address or refused as invalid |
| RelayFates.EveryItemMeetsItsFate | extensions/relay-probe/poll.go:222-285 | a landing that fails of nothing met no refusal but of invalid records, and left exactly what each item's own answer makes of it, in the ledger, the core and its breadcrumbs; one that fails did so up to one item, and fails of the core's own refusal of that one or of the write of its drop |
| RelayFates.RefusalStops | extensions/relay-probe/poll.go:241-253 | a refusal that is not of the record stops the landing there or earlier, and there of exactly that refusal |
| RelayFates.AcceptedLands | extensions/relay-probe/poll.go:263-285 | an item the core accepts is in it under its key and is not dropped |
| RelayPoll.FillGap | extensions/relay-probe/poll.go:181-192 | the backlog's walk, landing and cursor as specified |
| RelayPoll.PollConnection | extensions/relay-probe/poll.go:138-176 | one connection's poll as specified: newest region, then backlog with what budget is left, then one write |
| RelayPollFates.WalkFailsOfItsTurns | extensions/relay-probe/walk.go:88-121 | a walk fails exactly of the request it ended at: that one's own error, or that its page holds nothing and says there is more |
| RelayPollFates.PollMeetsItsFates | extensions/relay-probe/poll.go:138-190 | of a successful poll no request, lookup or write failed and everything it brought in met its fate; a failed one fails of the account's error, its last request, a lookup, the core's own refusal, the write of a drop or the save, and of nothing else |
| RelayPollSafety.NewestWalkComplete | extensions/relay-probe/walk.go:88-121 | a successful walk of the newest region leaves out nothing between its lowest and the newest id of its first page |
| RelayPollSafety.BacklogWalkComplete | extensions/relay-probe/poll.go:181-192 | a successful walk of the gap leaves out nothing between its lowest id and the gap |
| RelayPollSafety.PollIsSafe | extensions/relay-probe/poll.go:138-190 | one poll, whatever arrives or fails around it and whatever pages it is answered: within its budget of full ones, nothing of the table changed when it fails, and when it succeeds its one write moves to a cursor under which nothing is lost |
| RelayRefines.WalkRuns | extensions/relay-probe/walk.go:88-121 | the walk, request by request with what arrives before each, is a run of the protocol's machine |
| RelayRefines.LandRuns | extensions/relay-probe/poll.go:231-252 | landing, item by item up to its first failure, is a run of the machine |
| RelayRefines.PollRefines | extensions/relay-probe/poll.go:138-190 | the poll the methods make is a run of the machine to the same table, core and inbox, ended exactly when it succeeded |
| RelayRefines.MethodPollsAreSafe | extensions/relay-probe/poll.go:138-190 | begun in any reachable state, the methods' poll ends in a reachable one, and what its new cursor has passed was filtered, dropped, skipped or landed once |
| RelayProgress.QuietWalkIs | extensions/relay-probe/walk.go:88-121 | over a quiet inbox the walk is a function of the feed alone |
| RelayProgress.BacklogCloses | extensions/relay-probe/poll.go:165-190 | with no arrivals and no failures a backlog of r ids loses exactly 150 a tick and is gone after exactly r/150 + 1, ending at gap = top = 0 and floor at the newest id |
| RelayProgress.EveryBacklogCloses | extensions/relay-probe/poll.go:160-190 | from any cursor polls can write, one quiet tick and then 150 ids a tick cover everything above the floor and settle it for good |
| RelayBacklog.TickOverArrivals | extensions/relay-probe/poll.go:151-172 | what a tick that finds n new ids reads of a backlog: 150, 100 or 50 of it below 150 new ids, none up to 199, and more left unread than before from 200 |
| RelayBacklog.BacklogClosesUnderLoad | extensions/relay-probe/walk.go:30-36 | while fewer than 150 arrive before each tick, a backlog of r is gone within r/50 + 1 ticks |
| RelayBacklog.BacklogStaysUnderLoad | extensions/relay-probe/walk.go:30-36 | from 150 a tick on it never closes and never shrinks |
| RelayBacklog.ShortPagesOverspend | extensions/relay-probe/poll.go:165-172 | a poll answered one item a page, with enough to read, asks for seven pages |
| RelayBacklog.PollsTick | extensions/relay-probe/poll.go:138-174 | successive polls, each of the row the one before saved, save exactly the cursors of successive ticks |
| RelayProgress.QuietPollTicks | extensions/relay-probe/poll.go:138-190 | a poll in which nothing fails writes exactly the quiet tick's cursor |
| RelayProgress.FirstPollReadsOnePage | extensions/relay-probe/walk.go:38-56 | what one successful first poll reads: exactly the newest page, with the baseline right under it |
| RelayProgress.FirstPollCanMiss | extensions/relay-probe/walk.go:38-56 | a message that arrived after connecting and lies under the baseline |
| RelayProgress.FailedFirstPollCanMiss | extensions/relay-probe/poll.go:146-162 | a message a failed first poll had found and the next one leaves under the baseline |
| RelayFirstPoll.SaveFixesTheBaseline | extensions/relay-probe/walk.go:148-150 | the save of a first poll that found anything sets the floor to the newest id of the page it fetched and the baseline right under its oldest |
| RelayFirstPoll.EmptyFirstPollFixesNothing | extensions/relay-probe/walk.go:148-150 | a first poll of an empty inbox leaves the row unread and the baseline unmoved |
| RelayFirstPoll.UnderTheBaselineForGood | extensions/relay-probe/walk.go:38-56 | an id lies under the baseline at every later moment exactly when as many newer ones as the saved page had room for stood above it as it was fetched, and otherwise the cursor is past it |
| RelayFirstPoll.PollsReadAboveTheirBaseline | extensions/relay-probe/walk.go:96-101 | whatever a poll past the first lands lies above its baseline, in every reachable state |
| RelayFirstPoll.NobodyLooksUnder | extensions/relay-probe/walk.go:13-14 | no poll begun once the baseline is fixed ever lands an id under it |
| RelayProgress.EveryPollReadsTheNewest | extensions/relay-probe/poll.go:146-172 | however large the backlog, by the time a poll saves it has decided every id from the gap, or the baseline, up to the newest there was when its first page was answered |
| RelayFleet.FleetFailure | extensions/relay-probe/pollfailure.go:44-54 | a shared class is itself, postponed exactly when the provider is unavailable and the tick's context live; differing classes are the mixed class |
| RelayFleet.PollFleet | extensions/relay-probe/poll.go:54-95 | the tick's answer for any fleet and any mix of outcomes, the first failure that could not be recorded included |
| RelayFleet.ConnectedMembers | extensions/relay-probe/poll.go:109-135 | exactly the connected rows, each once, never polled first and then longest ago |
| RelayFleet.TurnsSay | extensions/relay-probe/poll.go:109-122 | whoever was never polled comes first, then whoever was longest ago, then whoever connected first |
| RelayFleet.EveryoneGetsATurn | extensions/relay-probe/poll.go:64-86 | if every tick stamps at least its first turn, each of n members is polled within any n consecutive ticks |
| RelayFleet.TickStamps | extensions/relay-probe/poll.go:54-86 | a tick that takes the table's own turn order, and writes as its turns end, stamps them so |
| RelayFleet.EveryMemberIsPolled | extensions/relay-probe/poll.go:102-135 | over any n ticks of the table itself, each getting through at least its first turn, every connected member has one |
| RelayFleet.TurnsStamp | extensions/relay-probe/pollfailure.go:145-150 | both ways a turn ends stamp the row later than every other, or find it gone and change nothing |
| RelaySend.UnknownOutcomeIsThePosts | extensions/relay-probe/send.go:149-171 | an unknown outcome is raised by the post and only by it, exactly when it went unanswered |
| RelaySend.AtMostOnce | extensions/relay-probe/send.go:73-101 | a core that retries all but success, forbidden and unknown outcome delivers at most once, provided no accepted post answers unreadably |
| RelaySend.TwiceExactlyWhenUnreadable | extensions/relay-probe/client.go:387-424 | after a delivery a second is possible exactly when the accepted post's answer was too large or undecodable |
| RelaySend.AnswerExactly | extensions/relay-probe/client.go:387-436 | which answers of the wire can be used, and which class each of the others is, both ways |
| RelaySend.StopsExactly | extensions/relay-probe/send.go:85-171 | the core stops trying exactly on success, on a refused credential, and on a post whose outcome cannot be learned |
| RelaySend.DirectChannelIs | extensions/relay-probe/send_api.go:48-72 | the conversation resolved is the first direct one named, and there is none exactly when none is named |
| RelaySend.Wire.ResolveChannel | extensions/relay-probe/send_api.go:55-72 | the loop answers the first direct conversation and nothing else, and a provider error when there is none |
| RelaySend.Wire.SendVia | extensions/relay-probe/send.go:77-115 | one attempt posts at most once, what it was given, into the first direct conversation named; it posts nothing where none is named, and delivers exactly what arrived |
| WaiterSyntax.IsWaiterExactly | frontend/scripts/test-budget.ts:27 | a waiter's name begins with one of three words, and the pattern's fourth adds nothing |
| WaiterSyntax.TimeoutExpression | frontend/scripts/test-budget.ts:258-272 | the loop computes the reader's timeout of an options object |
| WaiterSyntax.StatedTimeout | frontend/scripts/test-budget.ts:280-293 | the loop computes the reader's timeout of a call: opaque if any argument after the first is, otherwise the first stated |
| WaiterSyntax.ReadRightExactly | frontend/scripts/test-budget.ts:251-272 | the reader's timeout is the one the built object has exactly when the object's keys are in an order it can read |
| WaiterSyntax.LateSpreadIsMissed | frontend/scripts/test-budget.ts:254-272 | a timeout before a spread is read as if it stood |
| WaiterSyntax.AccessorIsMissed | frontend/scripts/test-budget.ts:261-271 | a getter, setter or method named timeout is read as if it were not there |
| WaiterSyntax.LeadingSpreadIsMissed | frontend/scripts/test-budget.ts:280-285 | a call whose first argument is a spread is read as stating nothing |
| WaiterBudget.Analyser.BudgetOf | frontend/scripts/test-budget.ts:413-505 | the reader, on every helper graph and from any path and memo, terminates with the specified reading and memo |
| WaiterBudget.Analyser.HelperReading | frontend/scripts/test-budget.ts:424-463 | a helper's reading comes from the memo, is nothing inside itself, or is what its declarations agree on; only an outermost reading is kept |
| WaiterBudget.Tally.TakeWaiterCall | frontend/scripts/test-budget.ts:465-478 | a waiter adds its stated or default timeout, or is reported |
| WaiterBudget.Tally.TakeHelperCost | frontend/scripts/test-budget.ts:480-486 | a helper adds its cost, and its doubts to those there were, none lost and none invented |
| WaiterMeaning.DepthIsEnough | frontend/scripts/test-budget.ts:403-412 | inlining an acyclic file deeper than its ranks changes nothing |
| WaiterMeaning.MemoIsInvisible | frontend/scripts/test-budget.ts:424-463 | on any acyclic file a reading with any right memo and any path is plain inlining, and leaves the memo right |
| WaiterSyntax.CallReadExactly | frontend/scripts/test-budget.ts:274-293 | a call is read right or its arguments reported exactly when the reader meets one it cannot see into, or no spread leads, nothing after it is out of sight and the first object with a timeout is well keyed |
| WaiterSyntax.CostReadExactly | frontend/scripts/test-budget.ts:465-478 | the same of what the call costs, timeouts that do not fold included: exactly the keyed calls cost what is added for them, or are reported |
| WaiterDoubts.MergeAdds | frontend/scripts/test-budget.ts:480-486 | a helper's doubts are added after those there were, exactly the ones not there yet, each once |
| WaiterDoubts.ReportsExactly | frontend/scripts/test-budget.ts:18-23 | of any acyclic file the milliseconds are the sum over the tree, and what is unresolved is exactly every waiter that cannot be seen into, every timeout that does not fold, every disagreement, and those of every helper called |
| WaiterExactness.OneCost | frontend/scripts/test-budget.ts:444-460 | declarations settle on a cost with nothing unresolved exactly when each is resolved and all agree |
| WaiterExactness.MemoNeverChangesABudget | frontend/scripts/test-budget.ts:424-463 | on any acyclic file, whatever was read before, a body's budget is the one a fresh memo gives |
| WaiterExactness.BudgetIsNeverAssumed | frontend/scripts/test-budget.ts:413-505 | with nothing unresolved, the milliseconds are what the body spends under every meaning of each repeated helper name |
| WaiterExactness.UnresolvedExactlyWhenUncertain | frontend/scripts/test-budget.ts:18-23 | something is unresolved exactly when the cost is not determined |
| WaiterExactness.WaiterNamedHelperIsUnderCharged | frontend/scripts/test-budget.ts:493-498 | a helper named like a waiter is charged one second for five, silently |
| WaiterExactness.MutualHelpersReadByOrder | frontend/scripts/test-budget.ts:427-439 | two helpers that call each other read differently in the two orders, silently |
| NotesRows.NewestCount | extensions/notes/heartbeat.go:97-105 | a limited newest-first read holds the limit, or everything |
| NotesRows.NewestAreNewest | extensions/notes/heartbeat.go:97-105 | nothing it leaves out was written after anything it holds, and of two written at once the larger id is held |
| NotesRows.LatestIsNewest | extensions/notes/heartbeat.go:97-105 | what was written later than all else is in it |
| NotesLedger.LedgerIsTheNotes | extensions/notes/ledger.go:39-76 | after every run of add, file, remove, withdraw and heartbeat the ledger read for human notes is exactly the human notes, every before-image true |
| NotesLedger.TickKeepsTheNewest | extensions/notes/heartbeat.go:73-107 | a heartbeat leaves at most ten ticks, none of those it drops written after one it keeps, itself among them when it is the latest, no human note touched and nothing recorded |
| NotesLedger.NewestNotesAreListed | extensions/notes/heartbeat.go:39-52 | a human note with fewer than 190 written after it is always among what a read answers |
| NotesLedger.FreshNoteIsListed | extensions/notes/note.go:188-192 | a note written later than every row there was is in what the next read answers |
| NotesLedger.WithdrawalIsComplete | extensions/notes/withdraw.go:56-113 | every note filed to the activity loses its filing, each recorded once with its exact before-image, and no other row changes |
| NotesLedger.RedeliveryIsSilent | extensions/notes/withdraw.go:29-32 | a withdrawal delivered again, however much later, changes and records nothing while nobody files to the activity |
| NotesLedger.TicksDoNotReplay | extensions/notes/heartbeat.go:54-62 | removing a tick records the erasure of a row never recorded as created |
| NotesLedger.AcceptedBodies | extensions/notes/note.go:218-234 | a text is accepted as this body exactly when it is the body with space around it, trimmed, of 1 to 500 characters |
| NotesHistory.ImagesTellApart | extensions/notes/ledger.go:39-76 | an image tells two rows apart in everything but the fraction of the second |
| NotesHistory.EntriesSayWhatHappened | extensions/notes/ledger.go:30-76 | over every run each entry's verb can be told from its images |
| NotesHistory.EveryNoteWasMade | extensions/notes/note.go:237-307 | over every run each note has the words, time, filing and author of a request in the run, and no author exactly when that had nobody behind it |
| Text.TrimExactly | extensions/notes/note.go:218-219 | trimming takes exactly the space around a text that neither starts nor ends with any |
| Text.SpacesDiffer | frontend/scripts/vite-inline-views.ts:308 | the notepad's space and the scanner's differ in exactly two characters |
| NotesPad.Notepad.RecordNote | extensions/notes/ledger.go:48-76 | one entry with both images, its id from whichever side there is |
| NotesPad.Notepad.AddNote | extensions/notes/note.go:237-285 | the step an accepted addition takes, or a refusal that changes nothing |
| NotesPad.Notepad.FileNote | extensions/notes/filing.go:42-110 | the row and its entry together with the activity, or nothing |
| NotesPad.Notepad.RemoveNote | extensions/notes/note.go:315-365 | the row goes with its last image recorded; an unknown id answers false and changes nothing |
| NotesPad.Notepad.ClearFilings | extensions/notes/withdraw.go:62-80 | every note that named the activity, each once, as it now stands |
| NotesPad.Notepad.WithdrawFiling | extensions/notes/withdraw.go:33-54 | the loop records one withdrawal a cleared note, in the order they came back |
| NotesPad.Notepad.HeartbeatTick | extensions/notes/heartbeat.go:73-107 | the insert and the prune as one step, which keeps a tick later than all others |
| CssTokens.PrintSplit | frontend/scripts/vite-inline-views.ts:290-330 | every text is the print of the literals, comments and characters it splits into |
| CssTokens.SplitIsValid | frontend/scripts/vite-inline-views.ts:290-330 | the split is made of proper tokens |
| CssTokens.SplitPrint | frontend/scripts/vite-inline-views.ts:290-330 | it is the only such split: a printed sheet splits back into itself |
| CssComments.EndOfString | frontend/scripts/vite-inline-views.ts:313-323 | the place past the closing quote, escapes honoured, or the end |
| CssComments.EndOfComment | frontend/scripts/vite-inline-views.ts:327-330 | the place past the next closing delimiter, or the end |
| CssComments.StripComments | frontend/scripts/vite-inline-views.ts:290-309 | the scanner's output is the trimmed print of the text's tokens but the comments |
| CssComments.StripOfPrint | frontend/scripts/vite-inline-views.ts:280-289 | stripping a printed sheet leaves its other tokens, every literal as written, when no slash is directly followed by a star |
| CssComments.LiteralsStay | frontend/scripts/vite-inline-views.ts:280-330 | nothing inside a literal of either quote is taken for a comment |
| CssComments.CommentMade | frontend/scripts/vite-inline-views.ts:290-309 | what is left of a sheet holds a comment exactly when a slash in it meets a star |
| CssComments.IdempotentExactly | frontend/scripts/vite-inline-views.ts:290-309 | stripping twice is stripping once exactly when no comment stood between a slash and a star |
| CssComments.StripLeavesAComment | frontend/scripts/vite-inline-views.ts:290-309 | the shortest text that shows it |
| LauncherDisk.Installation.InitCluster | desktop/launcher/postgres.go:87-102 | clear, build, rename, whichever of them fails or is cut short |
| LauncherDisk.Installation.WriteAndFlush | desktop/launcher/layout.go:168-188 | bytes count as written only once flushed; the first thing that went wrong is reported |
| LauncherDisk.Installation.WriteFileAtomic | desktop/launcher/layout.go:149-164 | the destination changes by the rename alone |
| LauncherDisk.Installation.EnsureAdminPassword | desktop/launcher/layout.go:201-264 | the password is created once and an existing file left as it is; it is answered only where it was stored |
| LauncherDisk.Installation.EnsureConfig | desktop/launcher/layout.go:102-136 | an existing configuration is left alone |
| LauncherDisk.Installation.Start | desktop/launcher/postgres_unix.go:91-114 | one whole launch, as far as it got |
| LauncherSafety.NothingLeftBehind | desktop/launcher/postgres.go:87-102 | a cluster put in place takes the place of no file and is what initdb made; nothing is left staged but by a launch that was stopped or could not remove it |
| LauncherSafety.MarkerMeansFinished | desktop/launcher/postgres.go:53-72 | over any launches stopped anywhere, needsInitdb answers false exactly when the data directory holds a finished cluster |
| LauncherSafety.NeverRebuilt | desktop/launcher/postgres.go:53-102 | a finished cluster is never rebuilt and loses no file |
| LauncherSafety.ConfigAbsentOrComplete | desktop/launcher/layout.go:138-164 | margince.yaml is absent or a whole text safely on the disk |
| LauncherSafety.ConfigIsTheUsers | desktop/launcher/layout.go:95-98 | once there it is changed by the user alone |
| LauncherSafety.CleanLaunchRecovers | desktop/launcher/layout.go:141-148 | after any history, a launch in which nothing fails leaves a finished cluster, a whole configuration, and its own password whole where there was none |
| LauncherSafety.DoneExactly | desktop/launcher/postgres_unix.go:91-114 | a launch reports no failure exactly when every call it had to make was done, and is stopped only where one was |
| LauncherSafety.ReadyMeansReady | desktop/launcher/layout.go:102-136 | a launch that reports no failure left a password file, a whole configuration and a finished cluster |
| LauncherSafety.PasswordOnlyShrinks | desktop/launcher/layout.go:195-217 | a password file is never removed, rewritten or lengthened; without a power cut it stays as it is, torn or not |
| LauncherSafety.PasswordAt | desktop/launcher/layout.go:246-264 | what it holds at any later moment is what was written less what the first power cut lost |
| LauncherSafety.PasswordWholeExactly | desktop/launcher/layout.go:246-264 | it is the generated secret exactly when the launch that made it got every byte written and no power cut since lost any |
| LauncherSafety.PasswordCanBeLost | desktop/launcher/layout.go:246-264 | a password written whole and reported, then emptied for good by a power cut |
| LauncherSafety.AnnouncedIsStored | desktop/launcher/layout.go:190-232 | a password announced is the one the file holds |
| LauncherSafety.AnnouncedExactly | desktop/launcher/main.go:191-206 | it is announced exactly by the launch that makes its file, and only if that comes up; no launch after it announces one |

## Left out

- HTTP, TLS, the egress guard, JSON and the real clock: a request is a scripted answer, an image is the row, a stamp is a counter.
- Base URL and token checks, the deposited secret and its order before the row, and `connect`'s unlocked read before its upsert: transactions here are serial.
- A record's subject, body, counterparty and thread: only its key and whether it is directed matter to the protocol.
- The sort of the fetched items in place: modelled as an insertion sort on values, proved a sorted permutation.
- `PollFleet` takes each member's outcome as given; the polls behind them are `PollConnection`.
- `EveryMemberIsPolled` is of ticks that no connect, disconnect or parked member interrupts: the set of connected members is fixed.
- `WalkIsASlice`, `BacklogCloses` and the other rates of `RelayProgress` and `RelayBacklog` are of full pages; safety is of any.
- `PollRefines` covers a poll among arrivals and its own failures; polls that interleave with each other are runs of the state machine only.
- `liveVia`, the connection's status read and the job's registration: one call and its error class.
- TypeScript parsing, loops and branches around a waiter, constant folding, name resolution across modules and the search for tests and their ceilings: the reader starts from calls, declarations and what each timeout folds to.
- Helpers that call themselves: the reader is proved to terminate on them and shown to depend on order, but no cost is claimed, as none exists.
- The servers a launch starts once its cluster is up, and its failing there.
- Two launchers at once, the directory's own durability, symbolic links and the text of the configuration.
- HTML handling, the dev server and the other checks of `vite-inline-views.ts`.
- The notes unit's signing, refusal texts and event payloads, and its row-level security: one workspace, one transaction at a time.
